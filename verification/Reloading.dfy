/** Hot reload of SQL templates: the registry, the loading of configured names from disk, and
    the cache keys that a reload clears. A compiled template is an opaque text. */
module Reloading {
  import opened Text

  /** What reading, parsing and compiling one configured template comes to. */
  datatype Load = Loaded(template: string, hash: string) | Failed

  /** Disk contents at one moment; a name that is not there cannot be read. */
  type Disk = map<string, Load>

  function OnDisk(disk: Disk, name: string): Load {
    if name in disk then disk[name] else Failed
  }

  /** The regular expression ^[a-zA-Z0-9_-]{1,64}$ */
  predicate ValidName(name: string) {
    1 <= |name| <= 64 && forall i :: 0 <= i < |name| ==> IsWordChar(name[i]) || name[i] == '-'
  }

  datatype Registry = Registry(templates: map<string, string>, hashes: map<string, string>)

  const EMPTY := Registry(map[], map[])

  // ---------------------------------------------------------------------
  // loadAll
  // ---------------------------------------------------------------------

  datatype LoadResult = LoadResult(registered: Registry, failures: seq<string>)

  function Put(r: Registry, name: string, template: string, hash: string): Registry {
    Registry(r.templates[name := template], r.hashes[name := hash])
  }

  /** The names are taken in order: bad names, repetitions and failed loads are reported,
      everything else is registered. */
  function LoadAll(names: seq<string>, disk: Disk): LoadResult {
    if names == [] then LoadResult(EMPTY, [])
    else
      var before := LoadAll(names[..|names| - 1], disk);
      var name := names[|names| - 1];
      if !ValidName(name) || name in names[..|names| - 1] then before.(failures := before.failures + [name])
      else match OnDisk(disk, name)
        case Failed => before.(failures := before.failures + [name])
        case Loaded(template, hash) => before.(registered := Put(before.registered, name, template, hash))
  }

  method LoadTemplates(names: seq<string>, disk: Disk) returns (r: LoadResult)
    ensures r == LoadAll(names, disk)
  {
    var registered := EMPTY;
    var failures := [];
    var seen: set<string> := {};
    for i := 0 to |names|
      invariant LoadResult(registered, failures) == LoadAll(names[..i], disk)
      invariant forall n :: n in seen <==> n in names[..i] && ValidName(n)
    {
      var name := names[i];
      assert names[..i + 1][..i] == names[..i];
      if !ValidName(name) {
        failures := failures + [name];
        continue;
      }
      if name in seen {
        failures := failures + [name];
        continue;
      }
      seen := seen + {name};
      match OnDisk(disk, name)
      case Failed => failures := failures + [name];
      case Loaded(template, hash) => registered := Put(registered, name, template, hash);
    }
    assert names[..|names|] == names;
    return LoadResult(registered, failures);
  }

  // ---------------------------------------------------------------------
  // Reload
  // ---------------------------------------------------------------------

  /** Error isolation: every reported name that was registered keeps its old version. */
  function Merge(loaded: Registry, failures: seq<string>, former: Registry): Registry {
    if failures == [] then loaded
    else
      var name := failures[|failures| - 1];
      var r := Merge(loaded, failures[..|failures| - 1], former);
      if name !in former.templates then r
      else
        Registry(r.templates[name := former.templates[name]],
                 if name in former.hashes then r.hashes[name := former.hashes[name]] else r.hashes)
  }

  function Reloaded(former: Registry, names: seq<string>, disk: Disk): Registry {
    var lr := LoadAll(names, disk);
    Merge(lr.registered, lr.failures, former)
  }

  /** The names whose hash differs from the registered one, or is new. */
  function Changed(former: Registry, latter: Registry): set<string> {
    set n | n in latter.hashes && !(n in former.hashes && former.hashes[n] == latter.hashes[n])
  }

  /** ClearByDatasource is called with this data source name. */
  function KeyPrefix(name: string): string {
    "cache:template:" + name + ":"
  }

  function DataKey(name: string, digest: string): string {
    KeyPrefix(name) + digest
  }

  function CountKey(name: string, digest: string): string {
    KeyPrefix(name) + digest + ":count"
  }

  function Cleared(keys: set<string>, name: string): set<string> {
    set k | k in keys && !HasPrefix(k, KeyPrefix(name))
  }

  function ClearedAll(keys: set<string>, names: set<string>): set<string> {
    set k | k in keys && forall n :: n in names ==> !HasPrefix(k, KeyPrefix(n))
  }

  datatype ReloadResult = ReloadResult(successCount: nat, failures: seq<string>)

  const COOLDOWN := 10_000_000_000

  class TemplateEngine {
    const names: seq<string>
    const cached: bool
    var registry: Registry
    var cacheKeys: set<string>
    var lastReloadAt: int
    var lastReloadResult: Option<ReloadResult>

    constructor (names: seq<string>, cached: bool, disk: Disk)
      ensures this.names == names && this.cached == cached
      ensures registry == LoadAll(names, disk).registered
      ensures cacheKeys == {} && lastReloadResult.None?
    {
      this.names, this.cached := names, cached;
      cacheKeys, lastReloadAt, lastReloadResult := {}, 0, None;
      var lr := LoadTemplates(names, disk);
      registry := lr.registered;
    }

    /** Whether a call is answered from the last result without looking at the disk. */
    predicate CoolingDown(now: int, fromMutation: bool)
      reads this
    {
      fromMutation && now - lastReloadAt < COOLDOWN && lastReloadResult.Some?
    }

    /** `later` is the clock read again after loading. */
    method Reload(now: int, later: int, fromMutation: bool, disk: Disk) returns (result: ReloadResult)
      modifies this
      ensures old(CoolingDown(now, fromMutation)) <==>
                fromMutation && now < old(lastReloadAt) + 10_000_000_000 && old(lastReloadResult).Some?
      ensures old(CoolingDown(now, fromMutation)) ==>
                result == old(lastReloadResult).value && registry == old(registry) && cacheKeys == old(cacheKeys)
                && lastReloadAt == old(lastReloadAt) && lastReloadResult == old(lastReloadResult)
      ensures !old(CoolingDown(now, fromMutation)) ==>
                && registry == Reloaded(old(registry), names, disk)
                && cacheKeys
                   == (if cached then ClearedAll(old(cacheKeys), Changed(old(registry), registry)) else old(cacheKeys))
                && lastReloadAt == later && lastReloadResult == Some(result)
                && result == ReloadResult(|LoadAll(names, disk).registered.templates|, LoadAll(names, disk).failures)
    {
      if fromMutation {
        if now - lastReloadAt < COOLDOWN && lastReloadResult.Some? {
          return lastReloadResult.value;
        }
      }
      var lr := LoadTemplates(names, disk);
      var freshSuccessCount := |lr.registered.templates|;
      var merged := lr.registered;
      for i := 0 to |lr.failures|
        invariant merged == Merge(lr.registered, lr.failures[..i], registry)
      {
        var name := lr.failures[i];
        assert lr.failures[..i + 1][..i] == lr.failures[..i];
        if name in registry.templates {
          merged := merged.(templates := merged.templates[name := registry.templates[name]]);
          if name in registry.hashes {
            merged := merged.(hashes := merged.hashes[name := registry.hashes[name]]);
          }
        }
      }
      assert lr.failures[..|lr.failures|] == lr.failures;
      if cached {
        ClearChanged(merged);
      }
      registry := merged;
      lastReloadAt := later;
      result := ReloadResult(freshSuccessCount, lr.failures);
      lastReloadResult := Some(result);
    }

    /** The hash comparison loop: the names are visited in an arbitrary order. */
    method ClearChanged(merged: Registry)
      modifies this`cacheKeys
      ensures cacheKeys == ClearedAll(old(cacheKeys), Changed(registry, merged))
    {
      var todo := merged.hashes.Keys;
      ghost var done: set<string> := {};
      while todo != {}
        invariant todo + done == merged.hashes.Keys && todo !! done
        invariant cacheKeys == ClearedAll(old(cacheKeys), Changed(registry, merged) * done)
        decreases todo
      {
        var name :| name in todo;
        var known := name in registry.hashes;
        if !known || registry.hashes[name] != merged.hashes[name] {
          assert Changed(registry, merged) * (done + {name}) == Changed(registry, merged) * done + {name};
          cacheKeys := Cleared(cacheKeys, name);
        } else {
          assert Changed(registry, merged) * (done + {name}) == Changed(registry, merged) * done;
        }
        todo := todo - {name};
        done := done + {name};
      }
      assert Changed(registry, merged) * done == Changed(registry, merged);
    }
  }

  // ---------------------------------------------------------------------
  // The last good version of every name
  // ---------------------------------------------------------------------

  datatype Version = Version(template: string, hash: string)

  predicate Paired(r: Registry) {
    r.templates.Keys == r.hashes.Keys
  }

  function Entry(r: Registry, name: string): Option<Version>
    requires Paired(r)
  {
    if name in r.templates then Some(Version(r.templates[name], r.hashes[name])) else None
  }

  function Fresh(disk: Disk, name: string): Option<Version> {
    match OnDisk(disk, name)
    case Failed => None
    case Loaded(template, hash) => Some(Version(template, hash))
  }

  /** What one load makes of a name: repeated names load their first occurrence and are
      reported all the same. */
  lemma {:induction false} LoadAllFacts(names: seq<string>, disk: Disk, name: string)
    ensures Paired(LoadAll(names, disk).registered)
    ensures Entry(LoadAll(names, disk).registered, name)
         == if name in names && ValidName(name) then Fresh(disk, name) else None
    ensures name in LoadAll(names, disk).failures
       <==> name in names && (!ValidName(name) || Fresh(disk, name).None? || multiset(names)[name] >= 2)
  {
    if names != [] {
      var front, last := names[..|names| - 1], names[|names| - 1];
      LoadAllFacts(front, disk, name);
      LoadAllFacts(front, disk, last);
      assert names == front + [last];
    }
  }

  lemma {:induction false} MergeFacts(loaded: Registry, failures: seq<string>, former: Registry, name: string)
    requires Paired(loaded) && Paired(former)
    ensures Paired(Merge(loaded, failures, former))
    ensures Entry(Merge(loaded, failures, former), name)
         == if name in failures && name in former.templates then Entry(former, name) else Entry(loaded, name)
  {
    if failures != [] {
      var front, last := failures[..|failures| - 1], failures[|failures| - 1];
      assert failures == front + [last];
      MergeFacts(loaded, front, former, name);
    }
  }

  lemma ReloadFacts(former: Registry, names: seq<string>, disk: Disk, name: string)
    requires Paired(former)
    ensures Paired(Reloaded(former, names, disk))
    ensures Entry(Reloaded(former, names, disk), name)
         == if name !in names then None
            else if name in former.templates
                    && (!ValidName(name) || Fresh(disk, name).None? || multiset(names)[name] >= 2)
            then Entry(former, name)
            else if ValidName(name) then Fresh(disk, name)
            else None
  {
    LoadAllFacts(names, disk, name);
    MergeFacts(LoadAll(names, disk).registered, LoadAll(names, disk).failures, former, name);
  }

  /** The registry after a start and any number of reloads over arbitrary disk contents. */
  function After(names: seq<string>, disks: seq<Disk>): (r: Registry)
    requires disks != []
    ensures Paired(r)
  {
    var disk := disks[|disks| - 1];
    LoadAllFacts(names, disk, "");
    if |disks| == 1 then LoadAll(names, disk).registered
    else
      var before := After(names, disks[..|disks| - 1]);
      ReloadFacts(before, names, disk, "");
      Reloaded(before, names, disk)
  }

  /** The most recent version of a name that could be loaded. */
  function LastGood(name: string, disks: seq<Disk>): Option<Version> {
    if disks == [] then None
    else
      var loaded := Fresh(disks[|disks| - 1], name);
      if loaded.Some? then loaded else LastGood(name, disks[..|disks| - 1])
  }

  lemma {:induction false} TracksLastGood(names: seq<string>, disks: seq<Disk>, name: string)
    requires disks != [] && multiset(names)[name] <= 1
    ensures Entry(After(names, disks), name)
         == if name in names && ValidName(name) then LastGood(name, disks) else None
    decreases |disks|
  {
    var disk := disks[|disks| - 1];
    var front := disks[..|disks| - 1];
    LoadAllFacts(names, disk, name);
    if front != [] {
      TracksLastGood(names, front, name);
      ReloadFacts(After(names, front), names, disk, name);
    }
  }

  /** With unique names every registered name shows its last good version with the matching
      hash, over every history of disk contents. */
  lemma ReloadKeepsLastGood(names: seq<string>, disks: seq<Disk>, name: string)
    requires disks != [] && (forall n :: n in names ==> multiset(names)[n] == 1)
    ensures Entry(After(names, disks), name)
         == if name in names && ValidName(name) then LastGood(name, disks) else None
  {
    TracksLastGood(names, disks, name);
  }

  /** A registered name never disappears, whatever is found on disk and however often it is configured. */
  lemma RegisteredStays(names: seq<string>, disks: seq<Disk>, disk: Disk, name: string)
    requires disks != [] && name in After(names, disks).templates
    ensures name in After(names, disks + [disk]).templates
  {
    var next := disks + [disk];
    assert next[..|next| - 1] == disks;
    OnlyConfiguredNames(names, disks, name);
    ReloadFacts(After(names, disks), names, disk, name);
  }

  lemma {:induction false} OnlyConfiguredNames(names: seq<string>, disks: seq<Disk>, name: string)
    requires disks != [] && name in After(names, disks).templates
    ensures name in names && ValidName(name)
    decreases |disks|
  {
    var disk := disks[|disks| - 1];
    var front := disks[..|disks| - 1];
    LoadAllFacts(names, disk, name);
    if front != [] {
      ReloadFacts(After(names, front), names, disk, name);
      if name in After(names, front).templates {
        OnlyConfiguredNames(names, front, name);
      }
    }
  }

  /** The loader by itself reports a name that it is given twice as a failure on every reload, so
      that the name is stuck on its first version: the last good version is tracked exactly for
      names given once. Validated configurations hold no other names. */
  lemma TracksIffConfiguredOnce(names: seq<string>, name: string)
    requires name in names && ValidName(name)
    ensures (forall disks: seq<Disk> :: disks != [] ==> Entry(After(names, disks), name) == LastGood(name, disks))
       <==> multiset(names)[name] == 1
  {
    if multiset(names)[name] == 1 {
      forall disks: seq<Disk> | disks != [] ensures Entry(After(names, disks), name) == LastGood(name, disks) {
        TracksLastGood(names, disks, name);
      }
    } else {
      var disks := StuckOnTheFirst(names, name);
      assert Entry(After(names, disks), name) != LastGood(name, disks);
    }
  }

  lemma StuckOnTheFirst(names: seq<string>, name: string) returns (disks: seq<Disk>)
    requires name in names && ValidName(name) && multiset(names)[name] != 1
    ensures disks != [] && Entry(After(names, disks), name) != LastGood(name, disks)
  {
    var d0: Disk := map[name := Loaded("one", "1")];
    var d1: Disk := map[name := Loaded("two", "2")];
    disks := [d0, d1];
    assert disks[..1] == [d0];
    LoadAllFacts(names, d0, name);
    ReloadFacts(After(names, [d0]), names, d1, name);
    assert Entry(After(names, disks), name) == Some(Version("one", "1"));
    assert LastGood(name, disks) == Some(Version("two", "2"));
  }

  /** Names of 1 to 64 letters, digits, underscores and dashes, and no others, can be loaded. */
  lemma NameLoadsIff(names: seq<string>, disk: Disk, name: string)
    requires name in names
    ensures name in LoadAll(names, disk).registered.templates <==>
              && 1 <= |name| <= 64
              && (forall i :: 0 <= i < |name| ==>
                    || 'a' <= name[i] <= 'z' || 'A' <= name[i] <= 'Z' || '0' <= name[i] <= '9' || name[i] in {'_', '-'})
              && name in disk && disk[name].Loaded?
  {
    LoadAllFacts(names, disk, name);
  }

  // ---------------------------------------------------------------------
  // The cache keys that a reload removes
  // ---------------------------------------------------------------------

  predicate ColonFree(s: string) {
    forall i :: 0 <= i < |s| ==> s[i] != ':'
  }

  /** Template names hold no colon, so one name's prefix never matches another name's keys. */
  lemma PrefixNamesTheTemplate(n: string, m: string, rest: string)
    requires ColonFree(n) && ColonFree(m)
    ensures HasPrefix(KeyPrefix(m) + rest, KeyPrefix(n)) <==> n == m
  {
    var p := "cache:template:";
    var key := KeyPrefix(m) + rest;
    assert key == p + (m + ":" + rest);
    assert KeyPrefix(n) == p + (n + ":");
    if HasPrefix(key, KeyPrefix(n)) {
      assert forall i :: 0 <= i < |n| + 1 ==> key[|p| + i] == (n + ":")[i];
      assert forall i :: 0 <= i < |m| ==> key[|p| + i] == m[i];
      assert key[|p| + |m|] == ':' && key[|p| + |n|] == ':';
      assert n == m;
    }
  }

  lemma ChangedIsConfigured(names: seq<string>, disks: seq<Disk>, disk: Disk, n: string)
    requires disks != []
    requires n in Changed(After(names, disks), Reloaded(After(names, disks), names, disk))
    ensures ValidName(n)
  {
    var next := disks + [disk];
    assert next[..|next| - 1] == disks;
    assert Reloaded(After(names, disks), names, disk) == After(names, next);
    OnlyConfiguredNames(names, next, n);
  }

  lemma OwnKeysOnly(n: string, name: string, digest: string, suffix: string)
    requires ValidName(n) && ValidName(name) && suffix == ":count"
    ensures HasPrefix(DataKey(name, digest), KeyPrefix(n)) <==> n == name
    ensures HasPrefix(CountKey(name, digest), KeyPrefix(n)) <==> n == name
  {
    assert ColonFree(n) && ColonFree(name);
    PrefixNamesTheTemplate(n, name, digest);
    PrefixNamesTheTemplate(n, name, digest + suffix);
    assert CountKey(name, digest) == KeyPrefix(name) + (digest + suffix);
  }

  /** A reload, taken as one step, removes a template's data and count keys exactly when its hash
      changed or is new, and leaves every key outside the template namespace alone. */
  lemma ReloadClearsExactlyTheChanged(names: seq<string>, disks: seq<Disk>, disk: Disk, keys: set<string>,
                                      name: string, digest: string)
    requires disks != [] && ValidName(name)
    ensures var former := After(names, disks);
            var latter := Reloaded(former, names, disk);
            var left := ClearedAll(keys, Changed(former, latter));
            && (DataKey(name, digest) in left <==> DataKey(name, digest) in keys && name !in Changed(former, latter))
            && (CountKey(name, digest) in left <==> CountKey(name, digest) in keys && name !in Changed(former, latter))
            && (forall k :: k in keys && !HasPrefix(k, "cache:template:") ==> k in left)
            && Paired(latter)
            && (name in Changed(former, latter) <==>
                  && Entry(latter, name).Some?
                  && (Entry(former, name).None? || Entry(former, name).value.hash != Entry(latter, name).value.hash))
  {
    var former := After(names, disks);
    var latter := Reloaded(former, names, disk);
    ReloadFacts(former, names, disk, name);
    forall n | n in Changed(former, latter)
      ensures HasPrefix(DataKey(name, digest), KeyPrefix(n)) <==> n == name
      ensures HasPrefix(CountKey(name, digest), KeyPrefix(n)) <==> n == name
    {
      ChangedIsConfigured(names, disks, disk, n);
      OwnKeysOnly(n, name, digest, ":count");
    }
    forall k | k in keys && !HasPrefix(k, "cache:template:")
      ensures forall n :: n in Changed(former, latter) ==> !HasPrefix(k, KeyPrefix(n))
    {
      forall n | n in Changed(former, latter) ensures !HasPrefix(k, KeyPrefix(n)) {
        NamespacePrefix(k, n);
      }
    }
  }

  lemma NamespacePrefix(k: string, n: string)
    ensures HasPrefix(k, KeyPrefix(n)) ==> HasPrefix(k, "cache:template:")
  {
    var p := "cache:template:";
    assert KeyPrefix(n) == p + (n + ":");
    if HasPrefix(k, KeyPrefix(n)) {
      assert forall i :: 0 <= i < |p| ==> k[i] == KeyPrefix(n)[i] == p[i];
    }
  }
}
