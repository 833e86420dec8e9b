/**
  The cost-bounded LRU behind a declared cache (core/cache/sized.go): a list in recency order and a map
  to its elements, kept within a cost budget and an entry cap. Each method is one critical section;
  the clock is a parameter.
 */
module SizedLru {
  import opened Options

  type Key(==, !new)
  type Value(==, !new)

  /** `expiration` 0 means never. */
  datatype Entry = Entry(key: Key, value: Value, cost: nat, expiration: int)

  // ----- Recency lists -----

  function Sum(list: seq<Entry>): nat {
    if list == [] then 0 else Sum(list[..|list| - 1]) + list[|list| - 1].cost
  }

  function Without(list: seq<Entry>, key: Key): seq<Entry> {
    if list == [] then []
    else Without(list[..|list| - 1], key) + if list[|list| - 1].key == key then [] else [list[|list| - 1]]
  }

  predicate DistinctKeys(list: seq<Entry>) {
    forall i, j :: 0 <= i < j < |list| ==> list[i].key != list[j].key
  }

  lemma {:induction false} SumSplit(a: seq<Entry>, b: seq<Entry>)
    ensures Sum(a + b) == Sum(a) + Sum(b)
  {
    if b == [] {
      assert a + b == a;
    } else {
      assert (a + b)[..|a + b| - 1] == a + b[..|b| - 1];
      SumSplit(a, b[..|b| - 1]);
    }
  }

  lemma SumFront(e: Entry, list: seq<Entry>)
    ensures Sum([e] + list) == e.cost + Sum(list)
  {
    SumSplit([e], list);
    assert [e][..0] == [];
  }

  lemma {:induction false} WithoutMembers(list: seq<Entry>, key: Key)
    ensures forall e :: e in Without(list, key) <==> e in list && e.key != key
  {
    if list != [] {
      var n := |list| - 1;
      WithoutMembers(list[..n], key);
      assert list == list[..n] + [list[n]];
    }
  }

  lemma {:induction false} WithoutAbsent(list: seq<Entry>, key: Key)
    requires forall e :: e in list ==> e.key != key
    ensures Without(list, key) == list
  {
    if list != [] {
      var n := |list| - 1;
      assert list == list[..n] + [list[n]];
      WithoutAbsent(list[..n], key);
    }
  }

  lemma {:induction false} WithoutDistinct(list: seq<Entry>, key: Key)
    requires DistinctKeys(list)
    ensures DistinctKeys(Without(list, key))
  {
    if list != [] {
      var n := |list| - 1;
      var w := Without(list[..n], key);
      WithoutDistinct(list[..n], key);
      WithoutMembers(list[..n], key);
      hide Without;
      forall i | 0 <= i < |w| ensures w[i].key != list[n].key {
        assert w[i] in w;
      }
    }
  }

  lemma DropLastIsWithout(list: seq<Entry>)
    requires DistinctKeys(list) && list != []
    ensures Without(list, list[|list| - 1].key) == list[..|list| - 1]
  {
    var n := |list| - 1;
    forall e | e in list[..n] ensures e.key != list[n].key {
      var i :| 0 <= i < n && list[i] == e;
    }
    WithoutAbsent(list[..n], list[n].key);
  }

  /** Dropping a held key refunds its cost. */
  lemma {:induction false} WithoutSum(list: seq<Entry>, e: Entry)
    requires DistinctKeys(list) && e in list
    ensures Sum(list) == Sum(Without(list, e.key)) + e.cost && |list| == |Without(list, e.key)| + 1
  {
    var n := |list| - 1;
    var w := Without(list[..n], e.key);
    assert list == list[..n] + [list[n]];
    if list[n] == e {
      DropLastIsWithout(list);
    } else {
      WithoutSum(list[..n], e);
      assert (w + [list[n]])[..|w|] == w;
    }
  }

  // ----- The bound -----

  /** Within the cost budget and the entry cap; a cap of 0 or less is no cap. */
  predicate Fits(list: seq<Entry>, budget: nat, maxEntries: int) {
    Sum(list) <= budget && (maxEntries > 0 ==> |list| <= maxEntries)
  }

  /** `kept` is the longest most-recently-used part of `list` that fits. */
  ghost predicate IsLongestFit(kept: seq<Entry>, list: seq<Entry>, budget: nat, maxEntries: int) {
    && kept <= list && Fits(kept, budget, maxEntries)
    && forall n :: |kept| < n <= |list| ==> !Fits(list[..n], budget, maxEntries)
  }

  lemma {:induction false} SumMonotone(list: seq<Entry>, m: nat, n: nat)
    requires m <= n <= |list|
    ensures Sum(list[..m]) <= Sum(list[..n])
    decreases n - m
  {
    if m < n {
      assert list[..m + 1][..m] == list[..m];
      SumMonotone(list, m + 1, n);
    }
  }

  lemma OverflowStays(list: seq<Entry>, n: nat, budget: nat, maxEntries: int)
    requires n <= |list| && !Fits(list[..n], budget, maxEntries)
    ensures forall m :: n <= m <= |list| ==> !Fits(list[..m], budget, maxEntries)
  {
    forall m | n <= m <= |list| ensures !Fits(list[..m], budget, maxEntries) {
      SumMonotone(list, n, m);
    }
  }

  /** The map leads to exactly the list's elements. */
  ghost predicate Holds(ll: seq<Entry>, items: map<Key, Entry>) {
    && DistinctKeys(ll)
    && (forall e :: e in ll ==> e.key in items && items[e.key] == e)
    && (forall k :: k in items ==> items[k].key == k && items[k] in ll)
  }

  lemma HoldsWithout(ll: seq<Entry>, items: map<Key, Entry>, key: Key)
    requires Holds(ll, items)
    ensures Holds(Without(ll, key), items - {key})
    ensures key in items ==> Sum(ll) == Sum(Without(ll, key)) + items[key].cost && |Without(ll, key)| == |ll| - 1
    ensures key !in items ==> Without(ll, key) == ll && items - {key} == items
  {
    WithoutMembers(ll, key);
    WithoutDistinct(ll, key);
    if key in items { WithoutSum(ll, items[key]); } else { WithoutAbsent(ll, key); }
  }

  lemma HoldsFront(ll: seq<Entry>, items: map<Key, Entry>, e: Entry)
    requires Holds(ll, items) && e.key !in items
    ensures Holds([e] + ll, items[e.key := e]) && Sum([e] + ll) == e.cost + Sum(ll)
  {
    SumFront(e, ll);
    var list, more := [e] + ll, items[e.key := e];
    assert DistinctKeys(list) by {
      forall i | 0 <= i < |ll| ensures ll[i].key != e.key {
        assert ll[i] in ll;
      }
    }
    assert e in list && forall x :: x in ll ==> x in list;
  }

  /** The last element is held, and is not the front one if there are two. */
  lemma HoldsLast(ll: seq<Entry>, items: map<Key, Entry>)
    requires Holds(ll, items) && ll != []
    ensures ll[|ll| - 1].key in items && Without(ll, ll[|ll| - 1].key) == ll[..|ll| - 1]
  {
    assert ll[|ll| - 1] in ll;
    DropLastIsWithout(ll);
  }

  // ----- The cache -----

  predicate Expired(e: Entry, now: int) {
    e.expiration > 0 && now > e.expiration
  }

  lemma HoldsKey(ll: seq<Entry>, items: map<Key, Entry>, key: Key)
    requires Holds(ll, items) && key in items
    ensures items[key].key == key
  {}

  lemma SumEmpty()
    ensures Sum([]) == 0
  {}

  class Cache {
    const budget: nat
    const maxEntry: nat
    const maxEntries: int
    const defaultTtl: int
    var total: int
    var ll: seq<Entry>
    var items: map<Key, Entry>

    /** The map and the list hold the same entries, their costs add up to `total`, and both bounds hold. */
    ghost predicate Valid()
      reads this
    {
      && maxEntry <= budget
      && Holds(ll, items) && total == Sum(ll) && Fits(ll, budget, maxEntries)
    }

    constructor (budget: int, maxEntryCost: Option<int>, maxEntries: int, defaultTtl: int)
      ensures Valid() && ll == []
      ensures this.budget == (if budget < 0 then 0 else budget) && this.maxEntries == maxEntries &&
              this.defaultTtl == defaultTtl
      ensures maxEntryCost.Some? && 0 <= maxEntryCost.value <= this.budget ==> this.maxEntry == maxEntryCost.value
      ensures maxEntryCost.None? || maxEntryCost.value < 0 || maxEntryCost.value > this.budget ==>
              this.maxEntry == this.budget
    {
      var b := if budget < 0 then 0 else budget;
      this.budget := b;
      this.maxEntry := if maxEntryCost.None? || maxEntryCost.value > b || maxEntryCost.value < 0 then b
                       else maxEntryCost.value;
      this.maxEntries, this.defaultTtl := maxEntries, defaultTtl;
      total, ll, items := 0, [], map[];
    }

    /** `removeElement`, for the element under `key`. */
    method RemoveElement(key: Key)
      requires Holds(ll, items) && total == Sum(ll) && key in items
      modifies this`total, this`ll, this`items
      ensures Holds(ll, items) && total == Sum(ll)
      ensures ll == Without(old(ll), key) && items == old(items) - {key} && total == old(total) - old(items)[key].cost
    {
      HoldsWithout(ll, items, key);
      total := total - items[key].cost;
      ll := Without(ll, key);
      items := items - {key};
    }

    /** A hit moves the entry to the front; an expired entry is dropped. */
    method Get(key: Key, now: int) returns (r: Option<Value>)
      requires Valid()
      modifies this`total, this`ll, this`items
      ensures Valid()
      ensures key !in old(items) ==> r == None && ll == old(ll)
      ensures key in old(items) && Expired(old(items)[key], now) ==> r == None && ll == Without(old(ll), key)
      ensures key in old(items) && !Expired(old(items)[key], now) ==>
                r == Some(old(items)[key].value) && ll == [old(items)[key]] + Without(old(ll), key)
    {
      hide Holds, Without, Sum;
      if key !in items { return None; }
      var e := items[key];
      HoldsKey(ll, items, key);
      HoldsWithout(ll, items, key);
      if Expired(e, now) {
        RemoveElement(key);
        return None;
      }
      HoldsFront(Without(ll, key), items - {key}, e);
      assert (items - {key})[key := e] == items;
      ll := [e] + Without(ll, key);
      return Some(e.value);
    }

    /** `storeIf`; `allow` is what the guard answered inside the lock. An accepted store keeps exactly
        the longest most-recently-used run that fits; an oversize one only drops the old value. */
    method StoreIf(key: Key, value: Value, cost: int, ttl: int, now: int, allow: bool) returns (stored: bool)
      requires Valid()
      modifies this`total, this`ll, this`items
      ensures Valid()
      ensures stored <==> allow && cost <= maxEntry
      ensures !allow ==> ll == old(ll) && items == old(items)
      ensures allow && cost > maxEntry ==> ll == Without(old(ll), key)
      ensures stored ==>
                var offered := [NewEntry(key, value, cost, ttl, now)] + Without(old(ll), key);
                ll != [] && IsLongestFit(ll, offered, budget, maxEntries)
    {
      hide Holds, Without, Sum, IsLongestFit;
      if !allow { return false; }
      HoldsWithout(ll, items, key);
      if key in items {
        RemoveElement(key);
      }
      var e := NewEntry(key, value, cost, ttl, now);
      if e.cost > maxEntry {
        return false;
      }
      HoldsFront(ll, items, e);
      ll := [e] + ll;
      items := items[key := e];
      total := total + e.cost;
      EvictToFit(ll);
      stored := true;
    }

    function NewEntry(key: Key, value: Value, cost: int, ttl: int, now: int): Entry {
      var t := if ttl == 0 then defaultTtl else ttl;
      Entry(key, value, if cost < 0 then 0 else cost, if t > 0 then now + t else 0)
    }

    /** Evicts from the back until both bounds hold; the front entry fits on its own and stays. */
    method EvictToFit(ghost list: seq<Entry>)
      requires Holds(ll, items) && total == Sum(ll) && ll == list && ll != [] && ll[0].cost <= budget
      modifies this`total, this`ll, this`items
      ensures Holds(ll, items) && total == Sum(ll) && ll != []
      ensures Fits(ll, budget, maxEntries) && IsLongestFit(ll, list, budget, maxEntries)
    {
      hide Holds, Without, Sum;
      assert list[..|list|] == list;
      while |ll| > 1 && (total > budget || (maxEntries > 0 && |ll| > maxEntries))
        invariant Holds(ll, items) && total == Sum(ll) && 1 <= |ll| <= |list| && ll == list[..|ll|]
        invariant forall n :: |ll| < n <= |list| ==> !Fits(list[..n], budget, maxEntries)
        decreases |ll|
      {
        OverflowStays(list, |ll|, budget, maxEntries);
        HoldsLast(ll, items);
        RemoveElement(ll[|ll| - 1].key);
      }
      if |ll| == 1 { SumFront(ll[0], []); assert ll == [ll[0]] + []; SumEmpty(); }
    }

    method Delete(key: Key)
      requires Valid()
      modifies this`total, this`ll, this`items
      ensures Valid() && ll == Without(old(ll), key)
    {
      hide Holds, Without, Sum;
      HoldsWithout(ll, items, key);
      if key in items {
        RemoveElement(key);
      }
    }

    method Clear()
      requires Valid()
      modifies this`total, this`ll, this`items
      ensures Valid() && ll == [] && items == map[] && total == 0
    {
      while ll != []
        invariant Holds(ll, items) && total == Sum(ll)
        decreases |ll|
      {
        HoldsLast(ll, items);
        RemoveElement(ll[|ll| - 1].key);
      }
      assert forall k :: k in items ==> items[k] in ll;
    }

    /** A copy of the unexpired entries, most recently used first; nothing is touched. */
    method Live(now: int) returns (out: seq<Entry>)
      requires Valid()
      ensures out == Unexpired(ll, now)
    {
      out := [];
      for i := 0 to |ll|
        invariant out == Unexpired(ll[..i], now)
      {
        assert ll[..i + 1][..i] == ll[..i];
        if !Expired(ll[i], now) {
          out := out + [ll[i]];
        }
      }
      assert ll[..|ll|] == ll;
    }
  }

  function Unexpired(list: seq<Entry>, now: int): seq<Entry> {
    if list == [] then []
    else
      var e := list[|list| - 1];
      Unexpired(list[..|list| - 1], now) + if Expired(e, now) then [] else [e]
  }
}
