/**
  The structural diff of two versions of a subflow (core/parser/diff.go): a longest-common-subsequence
  matrix with backtracking, and a linear fallback above the size caps.
 */
module BlockDiff {
  import opened Options
  import opened BlockPaths

  datatype Change = ChangeNone | ChangeAdded | ChangeRemoved | ChangeModified

  datatype Entry = Entry(change: Change, before: Option<Block>, after: Option<Block>)

  const MAX_DIFF_BLOCKS_PER_SIDE := 5000
  const MAX_DIFF_CELLS := 4_000_000

  predicate DiffTooLarge(m: nat, n: nat) {
    m > MAX_DIFF_BLOCKS_PER_SIDE || n > MAX_DIFF_BLOCKS_PER_SIDE || m * n > MAX_DIFF_CELLS
  }

  // ----- What a diff must be -----

  /** The script read without its additions. */
  function BeforeSide(s: seq<Entry>): seq<Block> {
    if s == [] then []
    else BeforeSide(s[..|s| - 1]) + if s[|s| - 1].before.Some? then [s[|s| - 1].before.value] else []
  }

  /** The script read without its removals. */
  function AfterSide(s: seq<Entry>): seq<Block> {
    if s == [] then []
    else AfterSide(s[..|s| - 1]) + if s[|s| - 1].after.Some? then [s[|s| - 1].after.value] else []
  }

  function KeptCount(s: seq<Entry>): nat {
    if s == [] then 0 else KeptCount(s[..|s| - 1]) + if s[|s| - 1].change == ChangeNone then 1 else 0
  }

  predicate EntryWellFormed(e: Entry) {
    match e.change
    case ChangeNone => e.before.Some? && e.after.Some? && BlocksEqual(e.before.value, e.after.value)
    case ChangeAdded => e.before.None? && e.after.Some?
    case ChangeRemoved => e.before.Some? && e.after.None?
    case ChangeModified => false
  }

  /** Dropping additions gives the old blocks, dropping removals the new ones, and kept pairs are equal. */
  ghost predicate IsEditScript(s: seq<Entry>, a: seq<Block>, b: seq<Block>) {
    && (forall i :: 0 <= i < |s| ==> EntryWellFormed(s[i]))
    && BeforeSide(s) == a && AfterSide(s) == b
  }

  /** `m` pairs up a common subsequence of the first `i` and the first `j` blocks. */
  ghost predicate IsCommon(a: seq<Block>, b: seq<Block>, m: seq<(nat, nat)>, i: nat, j: nat)
    requires i <= |a| && j <= |b|
  {
    && (forall k :: 0 <= k < |m| ==> m[k].0 < i && m[k].1 < j && BlocksEqual(a[m[k].0], b[m[k].1]))
    && (forall k, l :: 0 <= k < l < |m| ==> m[k].0 < m[l].0 && m[k].1 < m[l].1)
  }

  // ----- The matrix -----

  function Larger(x: nat, y: nat): nat {
    if x < y then y else x
  }

  /** The value of matrix cell (i, j). */
  function Cell(a: seq<Block>, b: seq<Block>, i: nat, j: nat): nat
    requires i <= |a| && j <= |b|
    decreases i + j
  {
    if i == 0 || j == 0 then 0
    else if BlocksEqual(a[i - 1], b[j - 1]) then Cell(a, b, i - 1, j - 1) + 1
    else Larger(Cell(a, b, i - 1, j), Cell(a, b, i, j - 1))
  }

  /** No common subsequence is longer than the matrix says. */
  lemma {:induction false} CellIsUpperBound(a: seq<Block>, b: seq<Block>, m: seq<(nat, nat)>, i: nat, j: nat)
    requires i <= |a| && j <= |b| && IsCommon(a, b, m, i, j)
    ensures |m| <= Cell(a, b, i, j)
    decreases i + j
  {
    if m != [] {
      var rest, last := m[..|m| - 1], m[|m| - 1];
      if BlocksEqual(a[i - 1], b[j - 1]) {
        assert IsCommon(a, b, rest, i - 1, j - 1);
        CellIsUpperBound(a, b, rest, i - 1, j - 1);
      } else if last.0 < i - 1 {
        assert IsCommon(a, b, m, i - 1, j);
        CellIsUpperBound(a, b, m, i - 1, j);
      } else {
        assert IsCommon(a, b, m, i, j - 1);
        CellIsUpperBound(a, b, m, i, j - 1);
      }
    }
  }

  lemma FirstCells(a: seq<Block>, b: seq<Block>)
    ensures forall l :: 0 <= l <= |b| ==> Cell(a, b, 0, l) == 0
    ensures forall k :: 0 <= k <= |a| ==> Cell(a, b, k, 0) == 0
  {}

  method FillRow(matrix: array2<nat>, a: seq<Block>, b: seq<Block>, i: nat)
    requires 1 <= i <= |a| && matrix.Length0 == |a| + 1 && matrix.Length1 == |b| + 1
    requires matrix[i, 0] == 0 && forall k, l :: 0 <= k < i && 0 <= l <= |b| ==> matrix[k, l] == Cell(a, b, k, l)
    modifies matrix
    ensures forall l :: 0 <= l <= |b| ==> matrix[i, l] == Cell(a, b, i, l)
    ensures forall k, l :: 0 <= k <= |a| && 0 <= l <= |b| && k != i ==> matrix[k, l] == old(matrix[k, l])
  {
    hide Cell, BlocksEqual, Larger;
    CellRecurrence(a, b, i, 0);
    for j := 1 to |b| + 1
      invariant forall l :: 0 <= l < j ==> matrix[i, l] == Cell(a, b, i, l)
      invariant forall k, l :: 0 <= k <= |a| && 0 <= l <= |b| && k != i ==> matrix[k, l] == old(matrix[k, l])
    {
      CellRecurrence(a, b, i, j);
      if BlocksEqual(a[i - 1], b[j - 1]) {
        matrix[i, j] := matrix[i - 1, j - 1] + 1;
      } else {
        matrix[i, j] := Larger(matrix[i - 1, j], matrix[i, j - 1]);
      }
    }
  }

  method Lcs(a: seq<Block>, b: seq<Block>) returns (matrix: array2<nat>)
    ensures fresh(matrix) && matrix.Length0 == |a| + 1 && matrix.Length1 == |b| + 1
    ensures forall i, j :: 0 <= i <= |a| && 0 <= j <= |b| ==> matrix[i, j] == Cell(a, b, i, j)
  {
    hide Cell, BlocksEqual;
    FirstCells(a, b);
    matrix := new nat[|a| + 1, |b| + 1]((i, j) => 0);
    for i := 1 to |a| + 1
      invariant forall k, l :: 0 <= k < i && 0 <= l <= |b| ==> matrix[k, l] == Cell(a, b, k, l)
      invariant forall k :: i <= k <= |a| ==> matrix[k, 0] == 0
    {
      FillRow(matrix, a, b, i);
    }
  }

  // ----- Backtracking -----

  function Kept(x: Block, y: Block): Entry { Entry(ChangeNone, Some(x), Some(y)) }
  function Added(y: Block): Entry { Entry(ChangeAdded, None, Some(y)) }
  function Removed(x: Block): Entry { Entry(ChangeRemoved, Some(x), None) }

  lemma ScriptGrows(s: seq<Entry>, e: Entry)
    ensures BeforeSide(s + [e]) == BeforeSide(s) + if e.before.Some? then [e.before.value] else []
    ensures AfterSide(s + [e]) == AfterSide(s) + if e.after.Some? then [e.after.value] else []
    ensures KeptCount(s + [e]) == KeptCount(s) + if e.change == ChangeNone then 1 else 0
  {
    assert (s + [e])[..|s|] == s;
  }

  lemma ExtendScript(s: seq<Entry>, e: Entry, a: seq<Block>, b: seq<Block>)
    requires IsEditScript(s, a, b) && EntryWellFormed(e)
    ensures IsEditScript(s + [e], a + (if e.before.Some? then [e.before.value] else []),
              b + if e.after.Some? then [e.after.value] else [])
    ensures KeptCount(s + [e]) == KeptCount(s) + if e.change == ChangeNone then 1 else 0
  {
    hide EntryWellFormed;
    ScriptGrows(s, e);
  }

  lemma CellRecurrence(a: seq<Block>, b: seq<Block>, i: nat, j: nat)
    requires i <= |a| && j <= |b|
    ensures i == 0 || j == 0 ==> Cell(a, b, i, j) == 0
    ensures i > 0 && j == 0 ==> Cell(a, b, i - 1, j) == 0
    ensures j > 0 && i == 0 ==> Cell(a, b, i, j - 1) == 0
    ensures i > 0 && j > 0 && BlocksEqual(a[i - 1], b[j - 1]) ==> Cell(a, b, i, j) == Cell(a, b, i - 1, j - 1) + 1
    ensures i > 0 && j > 0 && !BlocksEqual(a[i - 1], b[j - 1]) ==>
              Cell(a, b, i, j) == Larger(Cell(a, b, i - 1, j), Cell(a, b, i, j - 1))
  {}

  lemma KeepStep(a: seq<Block>, b: seq<Block>, i: nat, j: nat, s: seq<Entry>)
    requires 0 < i <= |a| && 0 < j <= |b| && BlocksEqual(a[i - 1], b[j - 1]) && IsEditScript(s, a[..i - 1], b[..j - 1])
    ensures var t := s + [Kept(a[i - 1], b[j - 1])]; IsEditScript(t, a[..i], b[..j]) && KeptCount(t) == KeptCount(s) + 1
  {
    ExtendScript(s, Kept(a[i - 1], b[j - 1]), a[..i - 1], b[..j - 1]);
    hide IsEditScript, KeptCount;
    assert a[..i] == a[..i - 1] + [a[i - 1]] && b[..j] == b[..j - 1] + [b[j - 1]];
  }

  lemma AddStep(a: seq<Block>, b: seq<Block>, i: nat, j: nat, s: seq<Entry>)
    requires i <= |a| && 0 < j <= |b| && IsEditScript(s, a[..i], b[..j - 1])
    ensures var t := s + [Added(b[j - 1])]; IsEditScript(t, a[..i], b[..j]) && KeptCount(t) == KeptCount(s)
  {
    ExtendScript(s, Added(b[j - 1]), a[..i], b[..j - 1]);
    hide IsEditScript, KeptCount;
    assert a[..i] + [] == a[..i] && b[..j] == b[..j - 1] + [b[j - 1]];
  }

  lemma RemoveStep(a: seq<Block>, b: seq<Block>, i: nat, j: nat, s: seq<Entry>)
    requires 0 < i <= |a| && j <= |b| && IsEditScript(s, a[..i - 1], b[..j])
    ensures var t := s + [Removed(a[i - 1])]; IsEditScript(t, a[..i], b[..j]) && KeptCount(t) == KeptCount(s)
  {
    ExtendScript(s, Removed(a[i - 1]), a[..i - 1], b[..j]);
    hide IsEditScript, KeptCount;
    assert b[..j] + [] == b[..j] && a[..i] == a[..i - 1] + [a[i - 1]];
  }

  /** The script of the first `i` and `j` blocks: valid, and keeping as many pairs as the matrix counts. */
  method Backtrack(matrix: array2<nat>, a: seq<Block>, b: seq<Block>, i: nat, j: nat) returns (s: seq<Entry>)
    requires i <= |a| && j <= |b| && matrix.Length0 == |a| + 1 && matrix.Length1 == |b| + 1
    requires forall k, l :: 0 <= k <= |a| && 0 <= l <= |b| ==> matrix[k, l] == Cell(a, b, k, l)
    ensures IsEditScript(s, a[..i], b[..j]) && KeptCount(s) == Cell(a, b, i, j)
    decreases i + j
  {
    hide BlocksEqual, IsEditScript, KeptCount, Cell;
    CellRecurrence(a, b, i, j);
    if i > 0 && j > 0 && BlocksEqual(a[i - 1], b[j - 1]) {
      s := Backtrack(matrix, a, b, i - 1, j - 1);
      KeepStep(a, b, i, j, s);
      s := s + [Kept(a[i - 1], b[j - 1])];
    } else if j > 0 && (i == 0 || matrix[i, j - 1] >= matrix[i - 1, j]) {
      s := Backtrack(matrix, a, b, i, j - 1);
      AddStep(a, b, i, j, s);
      s := s + [Added(b[j - 1])];
    } else if i > 0 && (j == 0 || matrix[i, j - 1] < matrix[i - 1, j]) {
      s := Backtrack(matrix, a, b, i - 1, j);
      RemoveStep(a, b, i, j, s);
      s := s + [Removed(a[i - 1])];
    } else {
      s := [];
      EmptyScript();
      assert a[..i] == [] && b[..j] == [];
    }
  }

  lemma EmptyScript()
    ensures IsEditScript([], [], []) && KeptCount([]) == 0
  {}

  // ----- The linear fallback -----

  method CoarseBlockDiff(a: seq<Block>, b: seq<Block>) returns (s: seq<Entry>)
    ensures IsEditScript(s, a, b)
    ensures |a| == |b| && (forall k :: 0 <= k < |a| ==> BlocksEqual(a[k], b[k])) ==>
              forall k :: 0 <= k < |s| ==> s[k].change == ChangeNone
  {
    hide BlocksEqual;
    if |a| == |b| {
      var identical := true;
      for i := 0 to |a|
        invariant forall k :: 0 <= k < i ==> BlocksEqual(a[k], b[k])
      {
        if !BlocksEqual(a[i], b[i]) {
          identical := false;
          break;
        }
      }
      if identical {
        s := KeepAll(a, b);
        return;
      }
    }
    s := ReplaceAll(a, b);
  }

  method KeepAll(a: seq<Block>, b: seq<Block>) returns (s: seq<Entry>)
    requires |a| == |b| && forall k :: 0 <= k < |a| ==> BlocksEqual(a[k], b[k])
    ensures IsEditScript(s, a, b) && forall k :: 0 <= k < |s| ==> s[k].change == ChangeNone
  {
    s := [];
    EmptyScript();
    assert a[..0] == [] && b[..0] == [];
    for i := 0 to |b|
      invariant IsEditScript(s, a[..i], b[..i]) && |s| == i && forall k :: 0 <= k < i ==> s[k].change == ChangeNone
    {
      hide IsEditScript;
      ExtendScript(s, Kept(a[i], b[i]), a[..i], b[..i]);
      assert a[..i + 1] == a[..i] + [a[i]] && b[..i + 1] == b[..i] + [b[i]];
      s := s + [Kept(a[i], b[i])];
    }
    assert a[..|a|] == a && b[..|b|] == b;
  }

  /** Every old block removed, and then every new block added. */
  method ReplaceAll(a: seq<Block>, b: seq<Block>) returns (s: seq<Entry>)
    ensures IsEditScript(s, a, b)
  {
    hide BlocksEqual, IsEditScript;
    s := [];
    EmptyScript();
    assert a[..0] == [] && b[..0] == [];
    for i := 0 to |a|
      invariant IsEditScript(s, a[..i], b[..0])
    {
      ExtendScript(s, Removed(a[i]), a[..i], b[..0]);
      assert a[..i + 1] == a[..i] + [a[i]] && b[..0] + [] == b[..0];
      s := s + [Removed(a[i])];
    }
    assert a[..|a|] == a;
    for i := 0 to |b|
      invariant IsEditScript(s, a, b[..i])
    {
      ExtendScript(s, Added(b[i]), a, b[..i]);
      assert b[..i + 1] == b[..i] + [b[i]] && a + [] == a;
      s := s + [Added(b[i])];
    }
    assert b[..|b|] == b;
  }

  // ----- The whole diff -----

  /** A script that keeps everything pairs up two equal lists. */
  lemma {:induction false} AllKeptMeansEqual(s: seq<Entry>, a: seq<Block>, b: seq<Block>)
    requires IsEditScript(s, a, b) && forall k :: 0 <= k < |s| ==> s[k].change == ChangeNone
    ensures |a| == |b| && forall k :: 0 <= k < |a| ==> BlocksEqual(a[k], b[k])
    decreases |s|
  {
    hide BlocksEqual;
    if s != [] {
      var rest, e := s[..|s| - 1], s[|s| - 1];
      assert EntryWellFormed(e);
      AllKeptMeansEqual(rest, BeforeSide(rest), AfterSide(rest));
    }
  }

  /** Equal lists are kept entirely, since the matrix then counts every block. */
  lemma {:induction false} EqualListsCell(a: seq<Block>, b: seq<Block>, n: nat)
    requires n <= |a| && n <= |b| && forall k :: 0 <= k < n ==> BlocksEqual(a[k], b[k])
    ensures Cell(a, b, n, n) == n
  {
    hide BlocksEqual;
    if n > 0 { EqualListsCell(a, b, n - 1); }
  }

  lemma {:induction false} FullCountMeansAllKept(s: seq<Entry>, a: seq<Block>, b: seq<Block>)
    requires IsEditScript(s, a, b)
    ensures KeptCount(s) <= |a| && KeptCount(s) <= |b| && |s| == |a| + |b| - KeptCount(s)
    ensures KeptCount(s) == |a| == |b| ==> forall k :: 0 <= k < |s| ==> s[k].change == ChangeNone
    decreases |s|
  {
    hide BlocksEqual;
    if s != [] {
      var rest := s[..|s| - 1];
      assert EntryWellFormed(s[|s| - 1]);
      FullCountMeansAllKept(rest, BeforeSide(rest), AfterSide(rest));
    }
  }

  /** `diffSubflow` on two versions of one subflow. The script is a valid edit script; unless the
      size caps force the fallback it keeps as many blocks as any common subsequence; and the subflow
      is reported unchanged exactly when the flattened lists are equal block by block. */
  method DiffSubflow(oldBlocks: seq<Block>, newBlocks: seq<Block>) returns (change: Change, script: seq<Entry>)
    ensures IsEditScript(script, Flatten(oldBlocks), Flatten(newBlocks))
    ensures var a, b := Flatten(oldBlocks), Flatten(newBlocks);
            !DiffTooLarge(|a|, |b|) ==> forall m :: IsCommon(a, b, m, |a|, |b|) ==> |m| <= KeptCount(script)
    ensures change == ChangeNone || change == ChangeModified
    ensures var a, b := Flatten(oldBlocks), Flatten(newBlocks);
            change == ChangeNone <==> |a| == |b| && forall k :: 0 <= k < |a| ==> BlocksEqual(a[k], b[k])
    ensures SameShape(oldBlocks, newBlocks) ==>
              (change == ChangeNone <==> forall p :: HasPath(oldBlocks, p) ==> AgreeAt(oldBlocks, newBlocks, p))
  {
    hide BlocksEqual, Cell, Flatten, SameShape, AgreeAt, HasPath, At;
    var a, b := Flatten(oldBlocks), Flatten(newBlocks);
    if DiffTooLarge(|a|, |b|) {
      script := CoarseBlockDiff(a, b);
    } else {
      var matrix := Lcs(a, b);
      script := Backtrack(matrix, a, b, |a|, |b|);
      assert a[..|a|] == a && b[..|b|] == b;
      forall m | IsCommon(a, b, m, |a|, |b|) ensures |m| <= KeptCount(script) {
        CellIsUpperBound(a, b, m, |a|, |b|);
      }
      FullCountMeansAllKept(script, a, b);
      if |a| == |b| && forall k :: 0 <= k < |a| ==> BlocksEqual(a[k], b[k]) { EqualListsCell(a, b, |a|); }
    }
    change := ChangeNone;
    for i := 0 to |script|
      invariant change == ChangeNone && forall k :: 0 <= k < i ==> script[k].change == ChangeNone
    {
      if script[i].change != ChangeNone {
        change := ChangeModified;
        break;
      }
    }
    if change == ChangeNone {
      AllKeptMeansEqual(script, a, b);
    }
    if SameShape(oldBlocks, newBlocks) {
      AgreeEverywhere(oldBlocks, newBlocks);
    }
  }

  // ----- The bound is reached -----

  /** The pairs an edit script keeps. */
  function KeptPairs(s: seq<Entry>): seq<(nat, nat)> {
    if s == [] then []
    else
      var rest := s[..|s| - 1];
      KeptPairs(rest) + if s[|s| - 1].change == ChangeNone then [(|BeforeSide(rest)|, |AfterSide(rest)|)] else []
  }

  /** The kept pairs of any valid script are themselves a common subsequence. */
  lemma {:induction false} KeptPairsCommon(s: seq<Entry>, a: seq<Block>, b: seq<Block>)
    requires IsEditScript(s, a, b)
    ensures IsCommon(a, b, KeptPairs(s), |a|, |b|) && |KeptPairs(s)| == KeptCount(s)
    decreases |s|
  {
    if s != [] {
      var rest, e := s[..|s| - 1], s[|s| - 1];
      var a', b' := BeforeSide(rest), AfterSide(rest);
      KeptPairsCommon(rest, a', b');
      assert EntryWellFormed(e);
      assert e.change == ChangeNone ==> BlocksEqual(a[|a'|], b[|b'|]);
      hide BlocksEqual, IsEditScript, BeforeSide, AfterSide, EntryWellFormed;
      CommonGrows(a', b', a, b, KeptPairs(rest));
    }
  }

  lemma CommonGrows(a': seq<Block>, b': seq<Block>, a: seq<Block>, b: seq<Block>, m: seq<(nat, nat)>)
    requires a' <= a && b' <= b && IsCommon(a', b', m, |a'|, |b'|)
    ensures IsCommon(a, b, m, |a|, |b|)
    ensures |a'| < |a| && |b'| < |b| && BlocksEqual(a[|a'|], b[|b'|]) ==> IsCommon(a, b, m + [(|a'|, |b'|)], |a|, |b|)
  {
    hide BlocksEqual;
    assert forall k :: 0 <= k < |m| ==> a[m[k].0] == a'[m[k].0] && b[m[k].1] == b'[m[k].1];
  }
}
