/**
  The bounded edit distance of the fuzzy search (core/search/fuzzy.go, `Levenshtein`): two rows of the
  usual table, with an early exit once the lengths differ by more than the search threshold.
  Strings are sequences of runes.
 */
module FuzzyDistance {

  type Text = seq<char>

  // ----- The specification: chains of single edits -----

  /** `t` is `s` with one rune inserted, deleted or replaced. */
  ghost predicate OneEdit(s: Text, t: Text) {
    exists u: Text, x: Text, y: Text, v: Text :: |x| <= 1 && |y| <= 1 && |x| + |y| > 0 && EditAt(s, t, u, x, y, v)
  }

  ghost predicate EditAt(s: Text, t: Text, u: Text, x: Text, y: Text, v: Text) {
    s == u + x + v && t == u + y + v
  }

  /** `chain` leads from `s` to `t` by single edits. */
  ghost predicate IsChain(chain: seq<Text>, s: Text, t: Text) {
    && |chain| > 0 && chain[0] == s && chain[|chain| - 1] == t
    && forall i :: 0 < i < |chain| ==> OneEdit(chain[i - 1], chain[i])
  }

  /** `d` is the least number of single edits from `s` to `t`. */
  ghost predicate IsEditDistance(d: nat, s: Text, t: Text) {
    && (exists chain :: IsChain(chain, s, t) && |chain| == d + 1)
    && (forall chain :: IsChain(chain, s, t) ==> |chain| >= d + 1)
  }

  // ----- The table -----

  function Least(a: nat, b: nat, c: nat): nat {
    if a <= b && a <= c then a else if b <= c then b else c
  }

  /** The table entry for the first `i` runes of `a` and the first `j` of `b`. */
  function D(a: Text, b: Text, i: nat, j: nat): nat
    requires i <= |a| && j <= |b|
    decreases i + j
  {
    if i == 0 then j
    else if j == 0 then i
    else
      var cost := if a[i - 1] == b[j - 1] then 0 else 1;
      Least(D(a, b, i - 1, j) + 1, D(a, b, i, j - 1) + 1, D(a, b, i - 1, j - 1) + cost)
  }

  lemma Recurrence(a: Text, b: Text, i: nat, j: nat)
    requires i <= |a| && j <= |b|
    ensures i == 0 ==> D(a, b, i, j) == j
    ensures j == 0 ==> D(a, b, i, j) == i
    ensures i > 0 && j > 0 ==>
              D(a, b, i, j) ==
              var cost := if a[i - 1] == b[j - 1] then 0 else 1;
              Least(D(a, b, i - 1, j) + 1, D(a, b, i, j - 1) + 1, D(a, b, i - 1, j - 1) + cost)
  {}

  function Distance(a: Text, b: Text): nat {
    D(a, b, |a|, |b|)
  }

  /** What the search function computes. */
  function Bounded(a: Text, b: Text): nat {
    if a == [] then |b| else if b == [] then |a|
    else if |a| - |b| < -2 || |a| - |b| > 2 then 3
    else Distance(a, b)
  }

  method Levenshtein(a: Text, b: Text) returns (r: nat)
    ensures r == Bounded(a, b)
  {
    hide D;
    var la, lb := |a|, |b|;
    if la == 0 { return lb; }
    if lb == 0 { return la; }
    var diff := la - lb;
    if diff < -2 || diff > 2 { return 3; }
    var prev, curr := new nat[lb + 1], new nat[lb + 1];
    for j := 0 to lb + 1
      invariant forall k :: 0 <= k < j ==> prev[k] == D(a, b, 0, k)
    {
      prev[j] := j;
      Recurrence(a, b, 0, j);
    }
    for i := 1 to la + 1
      invariant prev != curr && prev.Length == curr.Length == lb + 1 && fresh(prev) && fresh(curr)
      invariant IsRow(a, b, i - 1, prev[..])
    {
      NextRow(a, b, i, prev, curr);
      prev, curr := curr, prev;
    }
    r := prev[lb];
  }

  ghost predicate IsRow(a: Text, b: Text, i: nat, row: seq<nat>)
    requires i <= |a|
  {
    |row| == |b| + 1 && forall k :: 0 <= k <= |b| ==> row[k] == D(a, b, i, k)
  }

  /** The inner loop: one row of the table from the row above. */
  method NextRow(a: Text, b: Text, i: nat, prev: array<nat>, curr: array<nat>)
    requires 1 <= i <= |a| && prev != curr && prev.Length == curr.Length == |b| + 1 && IsRow(a, b, i - 1, prev[..])
    modifies curr
    ensures IsRow(a, b, i, curr[..])
  {
    hide D;
    ghost var above := prev[..];
    curr[0] := i;
    Recurrence(a, b, i, 0);
    for j := 1 to |b| + 1
      invariant prev[..] == above
      invariant forall k :: 0 <= k < j ==> curr[k] == D(a, b, i, k)
    {
      Recurrence(a, b, i, j);
      var cost := 1;
      if a[i - 1] == b[j - 1] { cost := 0; }
      assert prev[j] == above[j] && prev[j - 1] == above[j - 1];
      var del := prev[j] + 1;
      var ins := curr[j - 1] + 1;
      var sub := prev[j - 1] + cost;
      var m := del;
      if ins < m { m := ins; }
      if sub < m { m := sub; }
      curr[j] := m;
    }
  }

  // ----- The table is a metric -----

  /** Neighbouring entries differ by at most one step. */
  lemma Neighbours(a: Text, b: Text, i: nat, j: nat)
    requires i <= |a| && j <= |b|
    ensures i > 0 ==> D(a, b, i, j) <= D(a, b, i - 1, j) + 1
    ensures j > 0 ==> D(a, b, i, j) <= D(a, b, i, j - 1) + 1
    ensures i > 0 && j > 0 ==> D(a, b, i, j) <= D(a, b, i - 1, j - 1) + if a[i - 1] == b[j - 1] then 0 else 1
  {
    Recurrence(a, b, i, j);
  }

  lemma {:induction false} Triangle(a: Text, b: Text, c: Text, i: nat, j: nat, k: nat)
    requires i <= |a| && j <= |b| && k <= |c|
    ensures D(a, c, i, k) <= D(a, b, i, j) + D(b, c, j, k)
    decreases i + j + k
  {
    hide D;
    Recurrence(a, b, i, j);
    Recurrence(b, c, j, k);
    Recurrence(a, c, i, k);
    Neighbours(a, c, i, k);
    if i > 0 && j > 0 && D(a, b, i, j) == D(a, b, i - 1, j) + 1 {
      Triangle(a, b, c, i - 1, j, k);
    } else if k > 0 && j > 0 && D(b, c, j, k) == D(b, c, j, k - 1) + 1 {
      Triangle(a, b, c, i, j, k - 1);
    } else if i > 0 && j > 0 && k > 0 {
      ThroughLast(a, b, c, i, j, k);
    } else if j == 0 {
      Outer(a, c, i, k);
    } else if k == 0 {
      Outer(a, b, i, j);
    } else {
      Outer(b, c, j, k);
    }
  }

  /** The middle text's last rune is matched, replaced or passed through on both sides. */
  lemma {:induction false} ThroughLast(a: Text, b: Text, c: Text, i: nat, j: nat, k: nat)
    requires 0 < i <= |a| && 0 < j <= |b| && 0 < k <= |c|
    requires D(a, b, i, j) != D(a, b, i - 1, j) + 1 && D(b, c, j, k) != D(b, c, j, k - 1) + 1
    ensures D(a, c, i, k) <= D(a, b, i, j) + D(b, c, j, k)
    decreases i + j + k, 0
  {
    hide D;
    Recurrence(a, b, i, j);
    Recurrence(b, c, j, k);
    Neighbours(a, c, i, k);
    Triangle(a, b, c, i, j - 1, k);
    Triangle(a, b, c, i, j - 1, k - 1);
    Triangle(a, b, c, i - 1, j - 1, k);
    Triangle(a, b, c, i - 1, j - 1, k - 1);
  }

  /** An entry lies between the difference and the larger of the two lengths. */
  lemma {:induction false} Outer(a: Text, b: Text, i: nat, j: nat)
    requires i <= |a| && j <= |b|
    ensures i <= D(a, b, i, j) + j && j <= D(a, b, i, j) + i && D(a, b, i, j) <= i + j
    decreases i + j
  {
    hide D;
    Recurrence(a, b, i, j);
    if i > 0 && j > 0 {
      Outer(a, b, i - 1, j);
      Outer(a, b, i, j - 1);
      Outer(a, b, i - 1, j - 1);
    }
  }

  lemma {:induction false} Symmetric(a: Text, b: Text, i: nat, j: nat)
    requires i <= |a| && j <= |b|
    ensures D(a, b, i, j) == D(b, a, j, i)
    decreases i + j
  {
    hide D;
    Recurrence(a, b, i, j);
    Recurrence(b, a, j, i);
    if i > 0 && j > 0 {
      Symmetric(a, b, i - 1, j);
      Symmetric(a, b, i, j - 1);
      Symmetric(a, b, i - 1, j - 1);
    }
  }

  // ----- No chain of edits is shorter than the table says -----

  lemma {:induction false} SameRunes(a: Text, b: Text, i: nat, j: nat, n: nat)
    requires i + n <= |a| && j + n <= |b| && a[i..i + n] == b[j..j + n]
    ensures D(a, b, i + n, j + n) <= D(a, b, i, j)
  {
    hide D;
    if n > 0 {
      assert a[i..i + n - 1] == a[i..i + n][..n - 1] && b[j..j + n - 1] == b[j..j + n][..n - 1];
      assert a[i + n - 1] == a[i..i + n][n - 1] && b[j + n - 1] == b[j..j + n][n - 1];
      SameRunes(a, b, i, j, n - 1);
      Neighbours(a, b, i + n, j + n);
    }
  }

  lemma EditCostsOne(s: Text, t: Text, u: Text, x: Text, y: Text, v: Text)
    requires |x| <= 1 && |y| <= 1 && |x| + |y| > 0 && EditAt(s, t, u, x, y, v)
    ensures Distance(s, t) <= 1
  {
    hide D;
    var i, j := |u| + |x|, |u| + |y|;
    assert s[..|u|] == u == t[..|u|];
    Recurrence(s, t, 0, 0);
    SameRunes(s, t, 0, 0, |u|);
    Neighbours(s, t, i, j);
    assert s[i..i + |v|] == v == t[j..j + |v|];
    SameRunes(s, t, i, j, |v|);
  }

  lemma OneEditCostsOne(s: Text, t: Text)
    requires OneEdit(s, t)
    ensures Distance(s, t) <= 1
  {
    hide D, EditAt;
    var u, x, y, v :| |x| <= 1 && |y| <= 1 && |x| + |y| > 0 && EditAt(s, t, u, x, y, v);
    EditCostsOne(s, t, u, x, y, v);
  }

  lemma {:induction false} ChainsAreNotShorter(chain: seq<Text>, s: Text, t: Text)
    requires IsChain(chain, s, t)
    ensures |chain| >= Distance(s, t) + 1
    decreases |chain|
  {
    hide D;
    if |chain| == 1 {
      Recurrence(s, t, 0, 0);
      SameRunes(s, t, 0, 0, |s|);
    } else {
      var before, m := chain[..|chain| - 1], chain[|chain| - 2];
      assert IsChain(before, s, m);
      ChainsAreNotShorter(before, s, m);
      assert OneEdit(chain[|chain| - 2], chain[|chain| - 1]);
      OneEditCostsOne(m, t);
      Triangle(s, m, t, |s|, |m|, |t|);
    }
  }

  // ----- A chain of that length exists -----

  lemma Edited(s: Text, t: Text, u: Text, x: Text, y: Text, v: Text)
    requires |x| <= 1 && |y| <= 1 && |x| + |y| > 0 && EditAt(s, t, u, x, y, v)
    ensures OneEdit(s, t)
  {}

  function AppendRune(chain: seq<Text>, c: char): (r: seq<Text>)
    ensures |r| == |chain| && forall i :: 0 <= i < |r| ==> r[i] == chain[i] + [c]
  {
    seq(|chain|, i requires 0 <= i < |chain| => chain[i] + [c])
  }

  lemma ChainAppend(chain: seq<Text>, s: Text, t: Text, c: char)
    requires IsChain(chain, s, t)
    ensures IsChain(AppendRune(chain, c), s + [c], t + [c])
  {
    var r := AppendRune(chain, c);
    forall i | 0 < i < |r| ensures OneEdit(r[i - 1], r[i]) {
      assert OneEdit(chain[i - 1], chain[i]);
      var u: Text, x: Text, y: Text, v: Text :| |x| <= 1 && |y| <= 1 && |x| + |y| > 0 &&
        EditAt(chain[i - 1], chain[i], u, x, y, v);
      assert EditAt(r[i - 1], r[i], u, x, y, v + [c]);
    }
  }

  lemma ChainThen(chain: seq<Text>, s: Text, t: Text, t': Text)
    requires IsChain(chain, s, t) && OneEdit(t, t')
    ensures IsChain(chain + [t'], s, t')
  {
    var r := chain + [t'];
    forall i | 0 < i < |r| ensures OneEdit(r[i - 1], r[i]) {
      if i < |chain| { assert OneEdit(chain[i - 1], chain[i]); }
    }
  }

  lemma ThenChain(chain: seq<Text>, s': Text, s: Text, t: Text)
    requires IsChain(chain, s, t) && OneEdit(s', s)
    ensures IsChain([s'] + chain, s', t)
  {
    var r := [s'] + chain;
    forall i | 0 < i < |r| ensures OneEdit(r[i - 1], r[i]) {
      if i > 1 { assert OneEdit(chain[i - 2], chain[i - 1]); }
    }
  }

  lemma TrivialChain(s: Text)
    ensures IsChain([s], s, s)
  {}

  lemma InsertLast(b: Text, j: nat)
    requires 0 < j <= |b|
    ensures OneEdit(b[..j - 1], b[..j]) && OneEdit(b[..j], b[..j - 1])
  {
    Edited(b[..j - 1], b[..j], b[..j - 1], [], [b[j - 1]], []);
    Edited(b[..j], b[..j - 1], b[..j - 1], [b[j - 1]], [], []);
  }

  lemma ReplaceLast(b: Text, j: nat, c: char)
    requires 0 < j <= |b|
    ensures OneEdit(b[..j - 1] + [c], b[..j])
  {
    Edited(b[..j - 1] + [c], b[..j], b[..j - 1], [c], [b[j - 1]], []);
  }

  lemma {:induction false} ShortestChain(a: Text, b: Text, i: nat, j: nat) returns (chain: seq<Text>)
    requires i <= |a| && j <= |b|
    ensures IsChain(chain, a[..i], b[..j]) && |chain| == D(a, b, i, j) + 1
    decreases i + j
  {
    hide D, IsChain, OneEdit;
    Recurrence(a, b, i, j);
    if i == 0 && j == 0 {
      chain := [[]];
      TrivialChain([]);
      assert a[..0] == [] && b[..0] == [];
    } else if j == 0 || (i > 0 && D(a, b, i, j) == D(a, b, i - 1, j) + 1) {
      Recurrence(a, b, i - 1, j);
      chain := ShortestChain(a, b, i - 1, j);
      InsertLast(a, i);
      ThenChain(chain, a[..i], a[..i - 1], b[..j]);
      chain := [a[..i]] + chain;
    } else if i == 0 || D(a, b, i, j) == D(a, b, i, j - 1) + 1 {
      Recurrence(a, b, i, j - 1);
      chain := ShortestChain(a, b, i, j - 1);
      InsertLast(b, j);
      ChainThen(chain, a[..i], b[..j - 1], b[..j]);
      chain := chain + [b[..j]];
    } else {
      var c := a[i - 1];
      chain := ShortestChain(a, b, i - 1, j - 1);
      ChainAppend(chain, a[..i - 1], b[..j - 1], c);
      chain := AppendRune(chain, c);
      assert a[..i] == a[..i - 1] + [c];
      if c == b[j - 1] {
        assert b[..j] == b[..j - 1] + [c];
      } else {
        ReplaceLast(b, j, c);
        ChainThen(chain, a[..i], b[..j - 1] + [c], b[..j]);
        chain := chain + [b[..j]];
      }
    }
  }

  // ----- What the search may rely on -----

  /** The table holds the true edit distance. */
  lemma DistanceIsLeast(a: Text, b: Text)
    ensures IsEditDistance(Distance(a, b), a, b)
  {
    hide D;
    var chain := ShortestChain(a, b, |a|, |b|);
    assert a[..|a|] == a && b[..|b|] == b;
    forall other | IsChain(other, a, b) ensures |other| >= Distance(a, b) + 1 {
      ChainsAreNotShorter(other, a, b);
    }
  }

  predicate Near(a: Text, b: Text) {
    a == [] || b == [] || -2 <= |a| - |b| <= 2
  }

  /** Exact when a text is empty or the lengths are within 2; otherwise 3, and at least 3 edits are needed. */
  lemma BoundedMeaning(a: Text, b: Text)
    ensures Near(a, b) ==> IsEditDistance(Bounded(a, b), a, b)
    ensures !Near(a, b) ==> Bounded(a, b) == 3 && forall chain :: IsChain(chain, a, b) ==> |chain| - 1 >= 3
  {
    hide D, IsChain;
    DistanceIsLeast(a, b);
    Recurrence(a, b, |a|, |b|);
    if !Near(a, b) {
      Outer(a, b, |a|, |b|);
    }
  }

  /** A result of at most 2 is always the true distance, and every distance of at most 2 is found. */
  lemma ThresholdIsExact(a: Text, b: Text, d: nat)
    requires d <= 2
    ensures Bounded(a, b) == d <==> IsEditDistance(d, a, b)
  {
    hide D, IsChain;
    BoundedMeaning(a, b);
    if IsEditDistance(d, a, b) {
      var chain :| IsChain(chain, a, b) && |chain| == d + 1;
      if Near(a, b) {
        var other :| IsChain(other, a, b) && |other| == Bounded(a, b) + 1;
      }
    }
  }

  lemma BoundedSymmetric(a: Text, b: Text)
    ensures Bounded(a, b) == Bounded(b, a)
  {
    Symmetric(a, b, |a|, |b|);
  }
}
