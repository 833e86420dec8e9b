/** The stable sort that the sorting library promises, for any total preorder. */
module Sorting {

  ghost predicate TotalPreorder<T(!new)>(leq: (T, T) -> bool) {
    && (forall x, y :: leq(x, y) || leq(y, x))
    && (forall x, y, z :: leq(x, y) && leq(y, z) ==> leq(x, z))
  }

  predicate Ordered<T>(leq: (T, T) -> bool, s: seq<T>) {
    forall i, j :: 0 <= i < j < |s| ==> leq(s[i], s[j])
  }

  function Insert<T>(leq: (T, T) -> bool, x: T, s: seq<T>): seq<T> {
    if s == [] || leq(x, s[0]) then [x] + s else [s[0]] + Insert(leq, x, s[1..])
  }

  function Sort<T>(leq: (T, T) -> bool, s: seq<T>): seq<T> {
    if s == [] then [] else Insert(leq, s[0], Sort(leq, s[1..]))
  }

  /** The elements of `s` that rank with `x`, in order. */
  function Alike<T>(leq: (T, T) -> bool, s: seq<T>, x: T): seq<T> {
    if s == [] then []
    else (if leq(x, s[0]) && leq(s[0], x) then [s[0]] else []) + Alike(leq, s[1..], x)
  }

  lemma {:induction false} InsertPermutes<T>(leq: (T, T) -> bool, x: T, s: seq<T>)
    ensures multiset(Insert(leq, x, s)) == multiset{x} + multiset(s)
  {
    if s != [] && !leq(x, s[0]) {
      InsertPermutes(leq, x, s[1..]);
      assert s == [s[0]] + s[1..];
    }
  }

  lemma {:induction false} InsertOrders<T(!new)>(leq: (T, T) -> bool, x: T, s: seq<T>)
    requires TotalPreorder(leq) && Ordered(leq, s)
    ensures Ordered(leq, Insert(leq, x, s))
  {
    if s == [] {
      assert Insert(leq, x, s) == [x];
    } else if leq(x, s[0]) {
      assert forall j :: 0 <= j < |s| ==> s[j] == s[0] || leq(s[0], s[j]);
    } else {
      var rest := Insert(leq, x, s[1..]);
      InsertOrders(leq, x, s[1..]);
      InsertPermutes(leq, x, s[1..]);
      forall j | 0 <= j < |rest| ensures leq(s[0], rest[j]) {
        assert rest[j] in multiset(rest);
        assert rest[j] == x || rest[j] in s[1..];
      }
    }
  }

  lemma Transitive<T(!new)>(leq: (T, T) -> bool, x: T, y: T, z: T)
    requires TotalPreorder(leq) && leq(x, y) && leq(y, z)
    ensures leq(x, z)
  {
  }

  lemma AlikeCons<T>(leq: (T, T) -> bool, a: T, s: seq<T>, y: T)
    ensures Alike(leq, [a] + s, y) == (if leq(y, a) && leq(a, y) then [a] else []) + Alike(leq, s, y)
  {
    assert ([a] + s)[1..] == s;
  }

  lemma InsertLater<T>(leq: (T, T) -> bool, x: T, s: seq<T>)
    ensures s == [] || leq(x, s[0]) ==> Insert(leq, x, s) == [x] + s
    ensures s != [] && !leq(x, s[0]) ==> Insert(leq, x, s) == [s[0]] + Insert(leq, x, s[1..])
    ensures s != [] ==> s == [s[0]] + s[1..]
  {
  }

  lemma {:induction false} InsertStable<T(!new)>(leq: (T, T) -> bool, x: T, s: seq<T>, y: T)
    requires TotalPreorder(leq)
    ensures Alike(leq, Insert(leq, x, s), y) == (if leq(y, x) && leq(x, y) then [x] else []) + Alike(leq, s, y)
  {
    hide TotalPreorder, Alike, Insert;
    InsertLater(leq, x, s);
    if s == [] || leq(x, s[0]) {
      AlikeCons(leq, x, s, y);
    } else {
      if leq(x, y) && leq(y, s[0]) {
        Transitive(leq, x, y, s[0]);
      }
      InsertStable(leq, x, s[1..], y);
      AlikeCons(leq, s[0], Insert(leq, x, s[1..]), y);
      AlikeCons(leq, s[0], s[1..], y);
    }
  }

  /** The sort is ordered, has the same elements, and keeps elements that rank alike in the order they came. */
  lemma {:induction false} SortMeaning<T(!new)>(leq: (T, T) -> bool, s: seq<T>, x: T)
    requires TotalPreorder(leq)
    ensures Ordered(leq, Sort(leq, s)) && multiset(Sort(leq, s)) == multiset(s) && |Sort(leq, s)| == |s|
    ensures Alike(leq, Sort(leq, s), x) == Alike(leq, s, x)
  {
    hide TotalPreorder;
    if s != [] {
      var rest := Sort(leq, s[1..]);
      SortMeaning(leq, s[1..], x);
      hide Ordered, Insert;
      InsertOrders(leq, s[0], rest);
      InsertPermutes(leq, s[0], rest);
      InsertStable(leq, s[0], rest, x);
      SameSize(leq, s, rest);
    }
  }

  lemma SameSize<T>(leq: (T, T) -> bool, s: seq<T>, rest: seq<T>)
    requires s != [] && multiset(rest) == multiset(s[1..])
    ensures multiset{s[0]} + multiset(rest) == multiset(s)
    ensures multiset(Insert(leq, s[0], rest)) == multiset(s) ==> |Insert(leq, s[0], rest)| == |s|
  {
    assert s == [s[0]] + s[1..];
    assert |multiset(Insert(leq, s[0], rest))| == |Insert(leq, s[0], rest)| && |multiset(s)| == |s|;
  }

  /** Sorting what is in order changes nothing. */
  lemma {:induction false} OrderedStays<T>(leq: (T, T) -> bool, s: seq<T>)
    requires Ordered(leq, s)
    ensures Sort(leq, s) == s
  {
    if s != [] {
      OrderedStays(leq, s[1..]);
    }
  }
}
