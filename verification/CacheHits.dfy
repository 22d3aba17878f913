/** When a read of the memory cache hits: a reference that knows no list, only which keys are still
    there and when each was last used. */
module CacheHits {
  import opened Text
  import opened MemoryCaching

  // ---------------------------------------------------------------------
  // The reference
  // ---------------------------------------------------------------------

  function Weight(m: map<string, Item>, key: string): nat {
    if key in m then |m[key].value| else 0
  }

  ghost function Any(keys: set<string>): (k: string)
    requires keys != {}
    ensures k in keys
  {
    var k :| k in keys;
    k
  }

  /** The bytes of some keys together. */
  ghost function TotalBytes(m: map<string, Item>, keys: set<string>): nat {
    if keys == {} then 0 else Weight(m, Any(keys)) + TotalBytes(m, keys - {Any(keys)})
  }

  /** The keys used no earlier than `key`. */
  function NoEarlier(keys: set<string>, h: seq<Event>, key: string): set<string> {
    set k | k in keys && LastUse(h, k) >= LastUse(h, key)
  }

  /** A key is spared if it fits within both limits with everything used no earlier, and with a new
      entry of `size` bytes. */
  ghost predicate Spared(keys: set<string>, h: seq<Event>, key: string, size: nat, b: Bounds) {
    var newer := NoEarlier(keys, h, key);
    TotalBytes(Plain(h), newer) + size <= b.maxMemory && |newer| + 1 <= b.maxEntries
  }

  /** The keys that a read can still find: those of the plain map, without the ones that a Set dropped
      to make room or a read after their expiry removed. */
  ghost function Alive(h: seq<Event>, b: Bounds): set<string> {
    if h == [] then {}
    else
      var before, m := Alive(Front(h), b), Plain(Front(h));
      match Last(h)
      case Get(key, now) => if key in before && key in m && now > m[key].expiresAt then before - {key} else before
      case Set(key, value, _) =>
        {key} + set k | k in before && k != key && Spared(before - {key}, Front(h), k, |value|, b)
      case Delete(key) => before - {key}
      case DeleteByPrefix(prefix) => before - Prefixed(before, prefix)
      case Clear => {}
  }

  // ---------------------------------------------------------------------
  // The list holds just the keys that the reference knows
  // ---------------------------------------------------------------------

  lemma {:induction false} BytesWithout(m: map<string, Item>, keys: set<string>, key: string)
    requires key in keys
    ensures TotalBytes(m, keys) == Weight(m, key) + TotalBytes(m, keys - {key})
    decreases |keys|
  {
    var k := Any(keys);
    if k != key {
      BytesWithout(m, keys - {k}, key);
      BytesWithout(m, keys - {key}, k);
      assert keys - {k} - {key} == keys - {key} - {k};
    }
  }

  /** All items of a list are as the plain map has them. */
  predicate AsIn(m: map<string, Item>, items: Lru) {
    forall item :: item in items ==> item.key in m && m[item.key] == item
  }

  lemma {:induction false} BytesOfList(m: map<string, Item>, items: Lru)
    requires Distinct(items) && AsIn(m, items)
    ensures TotalBytes(m, Keys(items)) == Used(items) && |Keys(items)| == |items|
  {
    if items == [] {
      assert Keys(items) == {};
    } else {
      var first, rest := items[0], items[1..];
      assert forall i :: 0 <= i < |rest| ==> rest[i] == items[i + 1];
      assert first in items;
      KeysFirst(items);
      assert first.key !in Keys(rest);
      BytesOfList(m, rest);
      BytesWithout(m, Keys(items), first.key);
      assert Keys(items) - {first.key} == Keys(rest);
    }
  }

  /** In a list in order of use, the keys used no earlier than one are those from it on. */
  lemma NoEarlierIsBehind(items: Lru, h: seq<Event>, i: nat)
    requires Distinct(items) && ByUse(items, h) && i < |items|
    ensures NoEarlier(Keys(items), h, items[i].key) == Keys(items[i..])
  {
    var rest := items[i..];
    assert forall j :: 0 <= j < |rest| ==> rest[j] == items[i + j];
    forall k | k in NoEarlier(Keys(items), h, items[i].key) ensures k in Keys(rest) {
      var j :| 0 <= j < |items| && items[j].key == k;
      assert j >= i;
      assert rest[j - i].key == k;
    }
    forall k | k in Keys(rest) ensures k in NoEarlier(Keys(items), h, items[i].key) {
      var j :| 0 <= j < |rest| && rest[j].key == k;
      assert items[i + j].key == k;
    }
  }

  lemma SparedIffFits(items: Lru, h: seq<Event>, i: nat, size: nat, b: Bounds)
    requires Distinct(items) && ByUse(items, h) && AsIn(Plain(h), items) && i < |items|
    ensures Spared(Keys(items), h, items[i].key, size, b) <==> Fits(items, i, size, b)
  {
    NoEarlierIsBehind(items, h, i);
    assert forall j :: 0 <= j < |items[i..]| ==> items[i..][j] == items[i + j];
    BytesOfList(Plain(h), items[i..]);
  }

  lemma FitsFromOn(items: Lru, k: nat, i: nat, size: nat, b: Bounds)
    requires k <= i < |items| && Fits(items, k, size, b)
    ensures Fits(items, i, size, b)
  {
    var rest := items[k..];
    UsedConcat(rest[..i - k], rest[i - k..]);
    assert rest[..i - k] + rest[i - k..] == rest;
    assert rest[i - k..] == items[i..];
  }

  lemma KeysExcept(items: Lru, keys: set<string>)
    ensures Keys(Except(items, keys)) == Keys(items) - keys
  {
    ExceptFacts(items, keys);
    var rest := Except(items, keys);
    forall k | k in Keys(items) - keys ensures k in Keys(rest) {
      var item := Keyed(items, k);
      HasKey(rest, item);
    }
    forall k | k in Keys(rest) ensures k in Keys(items) - keys {
      var item := Keyed(rest, k);
      HasKey(items, item);
    }
  }

  lemma Keyed(items: Lru, key: string) returns (item: Item)
    requires key in Keys(items)
    ensures item in items && item.key == key
  {
    var i :| 0 <= i < |items| && items[i].key == key;
    item := items[i];
  }

  lemma HasKey(items: Lru, item: Item)
    requires item in items
    ensures item.key in Keys(items)
  {
    var i :| 0 <= i < |items| && items[i] == item;
    assert items[i].key == item.key;
  }

  lemma KeysBehind(items: Lru, item: Item)
    ensures Keys(items + [item]) == Keys(items) + {item.key}
  {
    forall k | k in Keys(items) + {item.key} ensures k in Keys(items + [item]) {
      if k in Keys(items) {
        var i :| 0 <= i < |items| && items[i].key == k;
        assert (items + [item])[i].key == k;
      } else {
        assert (items + [item])[|items|].key == k;
      }
    }
  }

  /** Of the other keys a Set keeps just those that are spared. */
  lemma SetSpares(items: Lru, h: seq<Event>, key: string, value: Bytes, expiresAt: int, b: Bounds)
    requires Within(items, b) && ByUse(items, h) && AsIn(Plain(h), items)
    ensures Keys(Apply(items, Set(key, value, expiresAt), b))
         == {key} + set k | k in Keys(items) && k != key && Spared(Keys(items) - {key}, h, k, |value|, b)
  {
    var others := Except(items, {key});
    ExceptFacts(items, {key});
    ExceptKeepsOrder(items, {key}, h);
    KeysExcept(items, {key});
    var k := SetDropsShortestPrefix(items, key, value, expiresAt, b);
    KeysBehind(others[k..], Item(key, value, expiresAt));
    KeptAreSpared(others, h, k, |value|, b);
  }

  lemma KeptAreSpared(others: Lru, h: seq<Event>, k: nat, size: nat, b: Bounds)
    requires Distinct(others) && ByUse(others, h) && AsIn(Plain(h), others)
    requires k <= |others| && Fits(others, k, size, b) && forall j :: 0 <= j < k ==> !Fits(others, j, size, b)
    ensures Keys(others[k..]) == set key | key in Keys(others) && Spared(Keys(others), h, key, size, b)
  {
    forall i | 0 <= i < |others| ensures Spared(Keys(others), h, others[i].key, size, b) <==> i >= k {
      SparedIffFits(others, h, i, size, b);
      if i >= k {
        FitsFromOn(others, k, i, size, b);
      }
    }
    forall key | key in Keys(others) && Spared(Keys(others), h, key, size, b) ensures key in Keys(others[k..]) {
      var i :| 0 <= i < |others| && others[i].key == key;
      assert others[k..][i - k].key == key;
    }
    forall key | key in Keys(others[k..]) ensures key in Keys(others) && Spared(Keys(others), h, key, size, b) {
      var i :| 0 <= i < |others[k..]| && others[k..][i].key == key;
      assert others[k + i].key == key;
    }
  }

  lemma GetFinds(items: Lru, m: map<string, Item>, key: string, now: int)
    requires Distinct(items) && AsIn(m, items)
    ensures Lookup(items, key, now).0
         == if key in Keys(items) && now <= m[key].expiresAt then Some(m[key].value) else None
    ensures Keys(Lookup(items, key, now).1)
         == if key in Keys(items) && now > m[key].expiresAt then Keys(items) - {key} else Keys(items)
  {
    FindFacts(items, key);
    KeysExcept(items, {key});
    match Find(items, key)
    case None =>
    case Some(item) =>
      KeysBehind(Except(items, {key}), item);
      assert Keys(items) - {key} + {key} == Keys(items);
  }

  lemma StoredAsPlain(h: seq<Event>, b: Bounds)
    requires b.maxEntries >= 1 && b.maxMemory > 0
    ensures AsIn(Plain(h), After(h, b))
  {
    forall item | item in After(h, b) ensures item.key in Plain(h) && Plain(h)[item.key] == item {
      StoredIsLatest(h, b, item);
    }
  }

  /** After every history the list holds just the keys that the reference knows to be alive. */
  lemma {:induction false} ListHoldsTheAlive(h: seq<Event>, b: Bounds)
    requires b.maxEntries >= 1 && b.maxMemory > 0
    ensures Keys(After(h, b)) == Alive(h, b) && Alive(h, b) <= Plain(h).Keys
  {
    LimitsHold(h, b);
    StoredAsPlain(h, b);
    KeysArePlain(After(h, b), Plain(h));
    if h != [] {
      ListHoldsTheAlive(Front(h), b);
      OneEventOn(After(Front(h), b), h, b);
    }
  }

  lemma KeysArePlain(items: Lru, m: map<string, Item>)
    requires AsIn(m, items)
    ensures Keys(items) <= m.Keys
  {
    forall k | k in Keys(items) ensures k in m {
      var i :| 0 <= i < |items| && items[i].key == k;
      assert items[i] in items;
    }
  }

  lemma OneEventOn(items: Lru, h: seq<Event>, b: Bounds)
    requires b.maxEntries >= 1 && b.maxMemory > 0 && h != [] && items == After(Front(h), b)
    requires Keys(items) == Alive(Front(h), b) <= Plain(Front(h)).Keys
    ensures Keys(Apply(items, Last(h), b)) == Alive(h, b)
  {
    var m := Plain(Front(h));
    LimitsHold(Front(h), b);
    StoredAsPlain(Front(h), b);
    match Last(h)
    case Get(key, now) => GetFinds(items, m, key, now);
    case Set(key, value, expiresAt) =>
      OrderedByUse(Front(h), b);
      SetSpares(items, Front(h), key, value, expiresAt, b);
    case Delete(key) => KeysExcept(items, {key});
    case DeleteByPrefix(prefix) => KeysExcept(items, Prefixed(Keys(items), prefix));
    case Clear =>
  }

  // ---------------------------------------------------------------------
  // Hits
  // ---------------------------------------------------------------------

  /** After every history a read returns the plain map's value if and only if the key is alive and
      not expired. */
  lemma HitIff(h: seq<Event>, key: string, now: int, b: Bounds)
    requires b.maxEntries >= 1 && b.maxMemory > 0
    ensures Alive(h, b) <= Plain(h).Keys
    ensures Lookup(After(h, b), key, now).0
         == if key in Alive(h, b) && now <= Plain(h)[key].expiresAt then Some(Plain(h)[key].value) else None
  {
    LimitsHold(h, b);
    StoredAsPlain(h, b);
    ListHoldsTheAlive(h, b);
    GetFinds(After(h, b), Plain(h), key, now);
  }

  lemma OneMore(h: seq<Event>, e: Event)
    ensures Front(h + [e]) == h && Last(h + [e]) == e
  {
  }

  /** Whatever came before and however large it is, what was just written is read until it expires. */
  lemma WrittenIsRead(h: seq<Event>, key: string, value: Bytes, expiresAt: int, now: int, b: Bounds)
    requires b.maxEntries >= 1 && b.maxMemory > 0
    ensures Lookup(After(h + [Set(key, value, expiresAt)], b), key, now).0
         == if now <= expiresAt then Some(value) else None
  {
    OneMore(h, Set(key, value, expiresAt));
    HitIff(h + [Set(key, value, expiresAt)], key, now, b);
  }

  /** A read changes no other read: after it, every key gives the same answer as before at every
      moment, except that an entry found expired is gone. */
  lemma ReadChangesNoAnswer(h: seq<Event>, key: string, now: int, other: string, later: int, b: Bounds)
    requires b.maxEntries >= 1 && b.maxMemory > 0
    requires other != key || now <= later || (key in Plain(h) && now <= Plain(h)[key].expiresAt)
    ensures Lookup(After(h + [Get(key, now)], b), other, later).0 == Lookup(After(h, b), other, later).0
  {
    OneMore(h, Get(key, now));
    HitIff(h, other, later, b);
    HitIff(h + [Get(key, now)], other, later, b);
  }
}
