/** The in-memory cache: an LRU list bounded in entries, with bytes counted through the
    eviction callback and bounded by the cache itself. */
module MemoryCaching {
  import opened Text

  type Bytes = string

  datatype Item = Item(key: string, value: Bytes, expiresAt: int)

  /** The list of the golang-lru library, least recently used first. */
  type Lru = seq<Item>

  datatype Bounds = Bounds(maxEntries: nat, maxMemory: int)

  function Used(items: Lru): nat {
    if items == [] then 0 else |items[0].value| + Used(items[1..])
  }

  function Keys(items: Lru): set<string> {
    set i | 0 <= i < |items| :: items[i].key
  }

  function Except(items: Lru, keys: set<string>): Lru {
    if items == [] then []
    else if items[0].key in keys then Except(items[1..], keys)
    else [items[0]] + Except(items[1..], keys)
  }

  function Find(items: Lru, key: string): Option<Item> {
    if items == [] then None
    else if items[0].key == key then Some(items[0])
    else Find(items[1..], key)
  }

  function Prefixed(keys: set<string>, prefix: string): set<string> {
    set k | k in keys && HasPrefix(k, prefix)
  }

  // ---------------------------------------------------------------------
  // The operations
  // ---------------------------------------------------------------------

  datatype Event =
    | Get(key: string, now: int)
    | Set(key: string, value: Bytes, expiresAt: int)
    | Delete(key: string)
    | DeleteByPrefix(prefix: string)
    | Clear

  function Lookup(items: Lru, key: string, now: int): (Option<Bytes>, Lru) {
    match Find(items, key)
    case None => (None, items)
    case Some(item) =>
      if now > item.expiresAt then (None, Except(items, {key}))
      else (Some(item.value), Except(items, {key}) + [item])
  }

  /** The eviction loop of Set. */
  function MakeRoom(items: Lru, size: nat, maxMemory: int): Lru {
    if Used(items) + size > maxMemory && items != [] then MakeRoom(items[1..], size, maxMemory) else items
  }

  /** The library's Add of a key that is not in the list. */
  function Add(items: Lru, item: Item, maxEntries: nat): Lru {
    if |items| + 1 > maxEntries && items != [] then items[1..] + [item] else items + [item]
  }

  function Apply(items: Lru, e: Event, b: Bounds): Lru {
    match e
    case Get(key, now) => Lookup(items, key, now).1
    case Set(key, value, expiresAt) =>
      Add(MakeRoom(Except(items, {key}), |value|, b.maxMemory), Item(key, value, expiresAt), b.maxEntries)
    case Delete(key) => Except(items, {key})
    case DeleteByPrefix(prefix) => Except(items, Prefixed(Keys(items), prefix))
    case Clear => []
  }

  // ---------------------------------------------------------------------
  // List facts
  // ---------------------------------------------------------------------

  predicate Distinct(items: Lru) {
    forall i, j :: 0 <= i < j < |items| ==> items[i].key != items[j].key
  }

  lemma {:induction false} UsedConcat(a: Lru, b: Lru)
    ensures Used(a + b) == Used(a) + Used(b)
  {
    if a == [] {
      assert a + b == b;
    } else {
      assert (a + b)[1..] == a[1..] + b;
      UsedConcat(a[1..], b);
    }
  }

  lemma {:induction false} ExceptFacts(items: Lru, keys: set<string>)
    ensures forall item :: item in Except(items, keys) <==> item in items && item.key !in keys
    ensures |Except(items, keys)| <= |items| && Used(Except(items, keys)) <= Used(items)
    ensures Distinct(items) ==> Distinct(Except(items, keys))
  {
    if items != [] {
      ExceptFacts(items[1..], keys);
      var rest := Except(items[1..], keys);
      if Distinct(items) && items[0].key !in keys {
        var kept := [items[0]] + rest;
        forall i, j | 0 <= i < j < |kept| ensures kept[i].key != kept[j].key {
          if i == 0 {
            assert kept[j] in rest;
            var k :| 0 <= k < |items[1..]| && items[1..][k] == kept[j];
            assert items[k + 1] == kept[j];
          }
        }
      }
    }
  }

  lemma PrefixedStep(keys: set<string>, key: string, prefix: string)
    requires key in keys
    ensures Prefixed(keys, prefix)
         == Prefixed(keys - {key}, prefix) + if HasPrefix(key, prefix) then {key} else {}
  {
  }

  lemma {:induction false} ExceptTwice(items: Lru, a: set<string>, b: set<string>)
    ensures Except(Except(items, a), b) == Except(items, a + b)
  {
    if items != [] {
      ExceptTwice(items[1..], a, b);
      if items[0].key !in a {
        var rest := Except(items[1..], a);
        assert ([items[0]] + rest)[1..] == rest;
      }
    }
  }

  lemma {:induction false} ExceptNothing(items: Lru, keys: set<string>)
    requires forall item :: item in items ==> item.key !in keys
    ensures Except(items, keys) == items
  {
    if items != [] {
      assert items[0] in items;
      ExceptNothing(items[1..], keys);
    }
  }

  lemma KeysFirst(items: Lru)
    requires items != []
    ensures Keys(items) == {items[0].key} + Keys(items[1..])
  {
    forall i | 0 <= i < |items| ensures items[i].key in {items[0].key} + Keys(items[1..]) {
      if i > 0 { assert items[i] == items[1..][i - 1]; }
    }
    forall k | k in Keys(items[1..]) ensures k in Keys(items) {
      var i :| 0 <= i < |items[1..]| && items[1..][i].key == k;
      assert items[i + 1].key == k;
    }
  }

  lemma FirstIsOnly(items: Lru)
    requires items != [] && Distinct(items)
    ensures Except(items[1..], {items[0].key}) == items[1..]
  {
    forall item | item in items[1..] ensures item.key !in {items[0].key} {
      var i :| 0 <= i < |items[1..]| && items[1..][i] == item;
      assert items[i + 1] == item;
    }
    ExceptNothing(items[1..], {items[0].key});
  }

  lemma {:induction false} FindFacts(items: Lru, key: string)
    ensures Find(items, key).Some? <==> key in Keys(items)
    ensures Find(items, key).Some? ==> Find(items, key).value in items && Find(items, key).value.key == key
    ensures Find(items, key).None? ==> Except(items, {key}) == items
    ensures Distinct(items) && Find(items, key).Some? ==>
              |Except(items, {key})| == |items| - 1
              && Used(Except(items, {key})) == Used(items) - |Find(items, key).value.value|
  {
    if items != [] {
      KeysFirst(items);
      if items[0].key != key {
        FindFacts(items[1..], key);
      } else if Distinct(items) {
        FirstIsOnly(items);
      }
    }
  }

  // ---------------------------------------------------------------------
  // The cache object
  // ---------------------------------------------------------------------

  class MemoryCache {
    var items: Lru
    var memUsed: int
    const bounds: Bounds

    ghost predicate Valid()
      reads this
    {
      memUsed == Used(items) && Within(items, bounds)
    }

    /** A configured entry limit of zero or less becomes 10000; the memory limit is positive. */
    constructor (maxEntries: int, maxMemory: int)
      requires maxMemory > 0
      ensures Valid() && items == [] && bounds.maxMemory == maxMemory
      ensures bounds.maxEntries == if maxEntries <= 0 then 10000 else maxEntries
    {
      items, memUsed := [], 0;
      bounds := Bounds(if maxEntries <= 0 then 10000 else maxEntries, maxMemory);
    }

    /** onEvict, the library's callback. */
    method OnEvict(item: Item)
      modifies this`memUsed
      ensures memUsed == old(memUsed) - |item.value|
    {
      memUsed := memUsed - |item.value|;
    }

    /** The library's Remove: the callback runs if the key was there. */
    method LruRemove(key: string)
      requires Distinct(items) && memUsed == Used(items)
      modifies this`items, this`memUsed
      ensures items == Except(old(items), {key}) && memUsed == Used(items)
    {
      FindFacts(items, key);
      match Find(items, key)
      case Some(item) =>
        items := Except(items, {key});
        OnEvict(item);
      case None =>
    }

    method LruRemoveOldest()
      requires items != [] && memUsed == Used(items)
      modifies this`items, this`memUsed
      ensures items == old(items)[1..] && memUsed == Used(items)
    {
      var item := items[0];
      items := items[1..];
      OnEvict(item);
    }

    /** The library's Add of a new key, for which the cache has counted the bytes beforehand. */
    method LruAdd(item: Item)
      requires memUsed == Used(items) + |item.value|
      modifies this`items, this`memUsed
      ensures items == Add(old(items), item, bounds.maxEntries) && memUsed == Used(items)
    {
      UsedConcat(items, [item]);
      var full := |items| + 1 > bounds.maxEntries && items != [];
      items := items + [item];
      if full {
        assert items[1..] == old(items)[1..] + [item];
        LruRemoveOldest();
      }
    }

    method GetValue(key: string, now: int) returns (r: Option<Bytes>)
      requires Valid()
      modifies this
      ensures Valid()
      ensures r == Lookup(old(items), key, now).0
      ensures items == Apply(old(items), Get(key, now), bounds)
    {
      ApplyKeepsWithin(items, Get(key, now), bounds);
      FindFacts(items, key);
      match Find(items, key)
      case None => return None;
      case Some(item) =>
        UsedConcat(Except(items, {key}), [item]);
        if now > item.expiresAt {
          LruRemove(key);
          return None;
        }
        items := Except(items, {key}) + [item];
        return Some(item.value);
    }

    method SetValue(key: string, value: Bytes, expiresAt: int)
      requires Valid()
      modifies this
      ensures Valid()
      ensures items == Apply(old(items), Set(key, value, expiresAt), bounds)
    {
      ApplyKeepsWithin(items, Set(key, value, expiresAt), bounds);
      var entrySize := |value|;
      LruRemove(key);
      while memUsed + entrySize > bounds.maxMemory && |items| > 0
        invariant memUsed == Used(items)
        invariant MakeRoom(items, entrySize, bounds.maxMemory)
               == MakeRoom(Except(old(items), {key}), entrySize, bounds.maxMemory)
        decreases |items|
      {
        LruRemoveOldest();
      }
      memUsed := memUsed + entrySize;
      LruAdd(Item(key, value, expiresAt));
    }

    method DeleteKey(key: string)
      requires Valid()
      modifies this
      ensures Valid() && items == Apply(old(items), Delete(key), bounds)
    {
      ApplyKeepsWithin(items, Delete(key), bounds);
      LruRemove(key);
    }

    method DeletePrefix(prefix: string)
      requires Valid()
      modifies this
      ensures Valid() && items == Apply(old(items), DeleteByPrefix(prefix), bounds)
    {
      ghost var before := items;
      ApplyKeepsWithin(items, DeleteByPrefix(prefix), bounds);
      var todo := Keys(items);
      ghost var gone, all := {}, Prefixed(todo, prefix);
      ExceptNothing(items, gone);
      while todo != {}
        invariant gone + Prefixed(todo, prefix) == all
        invariant items == Except(before, gone) && memUsed == Used(items) && Distinct(items)
        decreases todo
      {
        var key :| key in todo;
        PrefixedStep(todo, key, prefix);
        if HasPrefix(key, prefix) {
          ExceptTwice(before, gone, {key});
          ExceptFacts(items, {key});
          LruRemove(key);
          gone := gone + {key};
        }
        todo := todo - {key};
      }
      assert gone == all;
    }

    method ClearAll()
      requires Valid()
      modifies this
      ensures Valid() && items == []
    {
      while items != []
        invariant memUsed == Used(items)
        decreases |items|
      {
        LruRemoveOldest();
      }
      memUsed := 0;
    }
  }

  // ---------------------------------------------------------------------
  // Both limits hold in every run
  // ---------------------------------------------------------------------

  /** Both limits, where a single oversized entry may exceed the memory limit on its own. */
  predicate Within(items: Lru, b: Bounds) {
    && Distinct(items)
    && b.maxEntries >= 1 && b.maxMemory > 0
    && |items| <= b.maxEntries
    && (Used(items) <= b.maxMemory || |items| == 1)
  }

  lemma {:induction false} MakeRoomFacts(items: Lru, size: nat, maxMemory: int)
    ensures var kept := MakeRoom(items, size, maxMemory);
            && |kept| <= |items| && kept == items[|items| - |kept|..]
            && (kept == [] || Used(kept) + size <= maxMemory)
            && forall j :: 0 <= j < |items| - |kept| ==> Used(items[j..]) + size > maxMemory
  {
    if Used(items) + size > maxMemory && items != [] {
      MakeRoomFacts(items[1..], size, maxMemory);
      var kept := MakeRoom(items, size, maxMemory);
      forall j | 0 <= j < |items| - |kept| ensures Used(items[j..]) + size > maxMemory {
        if j == 0 {
          assert items[0..] == items;
        } else {
          assert items[j..] == items[1..][j - 1..];
        }
      }
    } else {
      assert items[0..] == items;
    }
  }

  /** `k` evictions leave room for an entry of `size` bytes. */
  predicate Fits(items: Lru, k: nat, size: nat, b: Bounds)
    requires k <= |items|
  {
    (k == |items| || Used(items[k..]) + size <= b.maxMemory) && |items| - k + 1 <= b.maxEntries
  }

  /** Set puts the entry last and drops the shortest prefix of least recently used entries
      that makes room for it under both limits. */
  lemma SetDropsShortestPrefix(items: Lru, key: string, value: Bytes, expiresAt: int, b: Bounds) returns (k: nat)
    requires Within(items, b)
    ensures var others := Except(items, {key});
            && k <= |others| && Fits(others, k, |value|, b)
            && (forall j :: 0 <= j < k ==> !Fits(others, j, |value|, b))
            && Apply(items, Set(key, value, expiresAt), b) == others[k..] + [Item(key, value, expiresAt)]
  {
    var others := Except(items, {key});
    ExceptFacts(items, {key});
    var kept := MakeRoom(others, |value|, b.maxMemory);
    MakeRoomFacts(others, |value|, b.maxMemory);
    k := |others| - |kept|;
    if |kept| + 1 > b.maxEntries && kept != [] {
      assert k == 0 && kept == others;
      UsedConcat([others[0]], others[1..]);
      assert [others[0]] + others[1..] == others;
      k := 1;
    }
  }

  lemma DistinctBehind(items: Lru, k: nat, item: Item)
    requires Distinct(items) && k <= |items| && forall other :: other in items ==> other.key != item.key
    ensures Distinct(items[k..] + [item])
  {
    var kept := items[k..] + [item];
    forall i, j | 0 <= i < j < |kept| ensures kept[i].key != kept[j].key {
      assert kept[i] == items[k + i] && items[k + i] in items;
      if j < |items| - k {
        assert kept[j] == items[k + j];
      }
    }
  }

  lemma FitsMeansWithin(others: Lru, k: nat, item: Item, b: Bounds)
    requires Distinct(others) && b.maxEntries >= 1 && b.maxMemory > 0
    requires k <= |others| && Fits(others, k, |item.value|, b)
    requires forall other :: other in others ==> other.key != item.key
    ensures Within(others[k..] + [item], b)
  {
    DistinctBehind(others, k, item);
    UsedConcat(others[k..], [item]);
    if k == |others| {
      assert others[k..] + [item] == [item];
    }
  }

  lemma SetKeepsWithin(items: Lru, key: string, value: Bytes, expiresAt: int, b: Bounds)
    requires Within(items, b)
    ensures Within(Apply(items, Set(key, value, expiresAt), b), b)
  {
    ExceptFacts(items, {key});
    var k := SetDropsShortestPrefix(items, key, value, expiresAt, b);
    FitsMeansWithin(Except(items, {key}), k, Item(key, value, expiresAt), b);
  }

  lemma ApplyKeepsWithin(items: Lru, e: Event, b: Bounds)
    requires Within(items, b)
    ensures Within(Apply(items, e, b), b)
  {
    match e
    case Get(key, now) =>
      ExceptFacts(items, {key});
      FindFacts(items, key);
      match Find(items, key) {
        case None =>
        case Some(item) => UsedConcat(Except(items, {key}), [item]);
      }
    case Set(key, value, expiresAt) => SetKeepsWithin(items, key, value, expiresAt, b);
    case Delete(key) =>
      ExceptFacts(items, {key});
      EmptyUsesNothing(Except(items, {key}));
    case DeleteByPrefix(prefix) =>
      ExceptFacts(items, Prefixed(Keys(items), prefix));
      EmptyUsesNothing(Except(items, Prefixed(Keys(items), prefix)));
    case Clear =>
  }

  lemma EmptyUsesNothing(items: Lru)
    ensures |items| == 0 ==> Used(items) == 0
  {
  }

  function Last(h: seq<Event>): Event requires h != [] { h[|h| - 1] }

  function Front(h: seq<Event>): seq<Event> requires h != [] { h[..|h| - 1] }

  /** The list after a history of calls. */
  function After(h: seq<Event>, b: Bounds): Lru {
    if h == [] then [] else Apply(After(Front(h), b), Last(h), b)
  }

  /** Both limits hold after every history. */
  lemma {:induction false} LimitsHold(h: seq<Event>, b: Bounds)
    requires b.maxEntries >= 1 && b.maxMemory > 0
    ensures Within(After(h, b), b)
  {
    if h != [] {
      LimitsHold(Front(h), b);
      ApplyKeepsWithin(After(Front(h), b), Last(h), b);
    }
  }

  // ---------------------------------------------------------------------
  // Every hit is the latest value
  // ---------------------------------------------------------------------

  /** The same history on a plain map without any limit. */
  function Plain(h: seq<Event>): map<string, Item> {
    if h == [] then map[]
    else
      var m := Plain(Front(h));
      match Last(h)
      case Get(_, _) => m
      case Set(key, value, expiresAt) => m[key := Item(key, value, expiresAt)]
      case Delete(key) => m - {key}
      case DeleteByPrefix(prefix) => m - Prefixed(m.Keys, prefix)
      case Clear => map[]
  }

  lemma ApplyItems(items: Lru, e: Event, b: Bounds, item: Item)
    requires Within(items, b) && item in Apply(items, e, b)
    ensures item in items || (e.Set? && item == Item(e.key, e.value, e.expiresAt))
    ensures (e.Set? || e.Delete?) && item in items && item.key == e.key ==>
              e.Set? && item == Item(e.key, e.value, e.expiresAt)
    ensures e.DeleteByPrefix? ==> !HasPrefix(item.key, e.prefix)
    ensures e.Clear? ==> false
  {
    match e
    case Get(key, _) =>
      ExceptFacts(items, {key});
      FindFacts(items, key);
    case Set(key, value, expiresAt) =>
      ExceptFacts(items, {key});
      var k := SetDropsShortestPrefix(items, key, value, expiresAt, b);
      var others := Except(items, {key});
      assert item in others[k..] ==> item in others;
    case Delete(key) => ExceptFacts(items, {key});
    case DeleteByPrefix(prefix) =>
      ExceptFacts(items, Prefixed(Keys(items), prefix));
      var i :| 0 <= i < |items| && items[i] == item;
      assert items[i].key in Keys(items);
    case Clear =>
  }

  lemma {:induction false} StoredIsLatest(h: seq<Event>, b: Bounds, item: Item)
    requires b.maxEntries >= 1 && b.maxMemory > 0
    requires item in After(h, b)
    ensures item.key in Plain(h) && Plain(h)[item.key] == item
  {
    LimitsHold(Front(h), b);
    ApplyItems(After(Front(h), b), Last(h), b, item);
    if item in After(Front(h), b) {
      StoredIsLatest(Front(h), b, item);
    }
  }

  /** After every history a hit returns the value of the latest Set of that key that was not
      deleted since, and never an expired one. */
  lemma HitIsLatestUnexpired(h: seq<Event>, key: string, now: int, b: Bounds)
    requires b.maxEntries >= 1 && b.maxMemory > 0
    ensures var hit := Lookup(After(h, b), key, now).0;
            hit.Some? ==> key in Plain(h) && Plain(h)[key].value == hit.value && now <= Plain(h)[key].expiresAt
  {
    FindFacts(After(h, b), key);
    match Find(After(h, b), key)
    case None =>
    case Some(item) => StoredIsLatest(h, b, item);
  }

  // ---------------------------------------------------------------------
  // The list order is the order of use
  // ---------------------------------------------------------------------

  /** One more than the position of the last Get or Set of a key in a history. */
  function LastUse(h: seq<Event>, key: string): nat {
    if h == [] then 0
    else if (Last(h).Get? || Last(h).Set?) && Last(h).key == key then |h|
    else LastUse(Front(h), key)
  }

  predicate ByUse(items: Lru, h: seq<Event>) {
    forall i, j :: 0 <= i < j < |items| ==> LastUse(h, items[i].key) < LastUse(h, items[j].key)
  }

  lemma {:induction false} LastUseBound(h: seq<Event>, key: string)
    ensures LastUse(h, key) <= |h|
  {
    if h != [] {
      LastUseBound(Front(h), key);
    }
  }

  lemma {:induction false} ExceptKeepsOrder(items: Lru, keys: set<string>, h: seq<Event>)
    requires ByUse(items, h)
    ensures ByUse(Except(items, keys), h)
  {
    if items != [] {
      var rest := items[1..];
      assert forall i :: 0 <= i < |rest| ==> rest[i] == items[i + 1];
      ExceptKeepsOrder(rest, keys, h);
      if items[0].key !in keys {
        ExceptFacts(rest, keys);
        var kept := [items[0]] + Except(rest, keys);
        forall i, j | 0 <= i < j < |kept| ensures LastUse(h, kept[i].key) < LastUse(h, kept[j].key) {
          if i == 0 {
            assert kept[j] in Except(rest, keys);
            var k :| 0 <= k < |rest| && rest[k] == kept[j];
          }
        }
      }
    }
  }

  /** A list that does not hold the key of the last call keeps its order when the call is made,
      and the called key may be put behind it. */
  lemma UsedLast(items: Lru, h: seq<Event>, item: Item)
    requires h != [] && ByUse(items, Front(h))
    requires forall other :: other in items ==>
               other.key != item.key && !((Last(h).Get? || Last(h).Set?) && Last(h).key == other.key)
    requires (Last(h).Get? || Last(h).Set?) && Last(h).key == item.key
    ensures ByUse(items + [item], h)
  {
    forall i | 0 <= i < |items| ensures LastUse(h, items[i].key) == LastUse(Front(h), items[i].key) < |h| {
      assert items[i] in items;
      LastUseBound(Front(h), items[i].key);
    }
  }

  lemma GetKeepsOrder(items: Lru, h: seq<Event>, key: string, now: int)
    requires h != [] && Last(h) == Get(key, now)
    requires ByUse(items, Front(h))
    ensures ByUse(Lookup(items, key, now).1, h)
  {
    var others := Except(items, {key});
    ExceptFacts(items, {key});
    ExceptKeepsOrder(items, {key}, Front(h));
    FindFacts(items, key);
    match Find(items, key)
    case None =>
      forall i | 0 <= i < |items| ensures items[i].key != key {
        assert items[i] in others;
      }
    case Some(item) =>
      UsedLast(others, h, item);
      forall i, j | 0 <= i < j < |others| ensures LastUse(h, others[i].key) < LastUse(h, others[j].key) {
        assert (others + [item])[i] == others[i] && (others + [item])[j] == others[j];
      }
  }

  lemma RestKeepsOrder(items: Lru, k: nat, h: seq<Event>)
    requires k <= |items| && ByUse(items, h)
    ensures ByUse(items[k..], h) && forall item :: item in items[k..] ==> item in items
  {
    assert forall i :: 0 <= i < |items[k..]| ==> items[k..][i] == items[k + i];
  }

  lemma SetKeepsOrder(items: Lru, h: seq<Event>, key: string, value: Bytes, expiresAt: int, b: Bounds)
    requires h != [] && Last(h) == Set(key, value, expiresAt)
    requires Within(items, b) && ByUse(items, Front(h))
    ensures ByUse(Apply(items, Set(key, value, expiresAt), b), h)
  {
    var others := Except(items, {key});
    ExceptFacts(items, {key});
    ExceptKeepsOrder(items, {key}, Front(h));
    var k := SetDropsShortestPrefix(items, key, value, expiresAt, b);
    RestKeepsOrder(others, k, Front(h));
    UsedLast(others[k..], h, Item(key, value, expiresAt));
  }

  /** After every history the entries stand in the order in which their keys were last read or
      written, so what Set drops first is what has gone unused the longest. */
  lemma {:induction false} OrderedByUse(h: seq<Event>, b: Bounds)
    requires b.maxEntries >= 1 && b.maxMemory > 0
    ensures ByUse(After(h, b), h)
  {
    if h != [] {
      var items := After(Front(h), b);
      OrderedByUse(Front(h), b);
      LimitsHold(Front(h), b);
      match Last(h)
      case Get(key, now) => GetKeepsOrder(items, h, key, now);
      case Set(key, value, expiresAt) => SetKeepsOrder(items, h, key, value, expiresAt, b);
      case Delete(key) => ExceptKeepsOrder(items, {key}, h);
      case DeleteByPrefix(prefix) => ExceptKeepsOrder(items, Prefixed(Keys(items), prefix), h);
      case Clear =>
    }
  }
}
