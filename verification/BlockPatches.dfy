/**
  Removing a block of the finished document (core/analyzer/autofix.go, `RemoveBlockPatch` applied by `ApplyPatch`):
  the block is looked up by id in the trees the parser handed over, and its patch is applied to the source lines.
 */
module BlockPatches {
  import opened Options
  import opened FlowParser
  import opened FlowForest
  import opened FlowTrees
  import opened BlockRemoval
  import P = SourcePatch

  // ----- Looking a block up -----

  function FindTree(ts: seq<Tree>, id: nat): Option<Tree> {
    if ts == [] then None
    else if ts[0].id == id then Some(ts[0])
    else
      var below := FindTree(ts[0].children, id);
      if below.Some? then below else FindTree(ts[1..], id)
  }

  function FindBlock(subflows: seq<seq<Tree>>, id: nat): Option<Tree> {
    if subflows == [] then None
    else
      var here := FindTree(subflows[0], id);
      if here.Some? then here else FindBlock(subflows[1..], id)
  }

  /** The tree found under an id is that block's own tree. */
  lemma {:induction false} FindInTrees(nodes: seq<Node>, ids: seq<nat>, x: nat)
    requires NodesWellFormed(nodes) && Ascending(ids, |nodes|) && x < |nodes|
    ensures Ascending([x], |nodes|) && |ToTrees(nodes, [x])| == 1
    ensures FindTree(ToTrees(nodes, ids), x) == if x in PreOrder(nodes, ids) then Some(ToTrees(nodes, [x])[0]) else None
    decreases if ids == [] then 0 else |nodes| - ids[0]
  {
    assert [x][1..] == [];
    if ids != [] {
      var ts, b := ToTrees(nodes, ids), nodes[ids[0]];
      assert ts[1..] == ToTrees(nodes, ids[1..]);
      FindInTrees(nodes, b.children, x);
      FindInTrees(nodes, ids[1..], x);
    }
  }

  /** The trees of a finished document are those of its subflows' roots. */
  ghost predicate TreesOf(f: Forest, built: seq<seq<nat>>, subflows: seq<seq<Tree>>)
    requires NodesWellFormed(f.nodes)
  {
    |subflows| == |built| &&
    forall k :: 0 <= k < |built| ==> Ascending(built[k], |f.nodes|) && subflows[k] == ToTrees(f.nodes, built[k])
  }

  lemma {:induction false} FindInSubflows(f: Forest, built: seq<seq<nat>>, subflows: seq<seq<Tree>>, x: nat, k: nat)
    requires NodesWellFormed(f.nodes) && TreesOf(f, built, subflows) && x < |f.nodes|
    requires k < |built| && x in PreOrder(f.nodes, built[k])
    ensures Ascending([x], |f.nodes|) && |ToTrees(f.nodes, [x])| == 1
    ensures FindBlock(subflows, x) == Some(ToTrees(f.nodes, [x])[0])
    decreases k
  {
    hide NodesWellFormed, Ascending, PreOrder, ToTrees, FindTree;
    FindInTrees(f.nodes, built[0], x);
    if k > 0 {
      FindInSubflows(f, built[1..], subflows[1..], x, k - 1);
    }
  }

  lemma {:induction false} InSomeSubflow(nodes: seq<Node>, built: seq<seq<nat>>, x: nat) returns (k: nat)
    requires NodesWellFormed(nodes) && RootsWellFormed(nodes, built) && x in Document(nodes, built)
    ensures k < |built| && Ascending(built[k], |nodes|) && x in PreOrder(nodes, built[k])
  {
    k := |built| - 1;
    assert AreRoots(nodes, built[k]);
    if x !in PreOrder(nodes, built[k]) {
      k := InSomeSubflow(nodes, built[..|built| - 1], x);
    }
  }

  /** Every block of a parsed document is found, with its subtree. */
  lemma EveryBlockFound(tokens: seq<Token>, subflows: seq<seq<Tree>>, x: nat)
    requires var f := Parse(tokens); x < |f.nodes| && NodesWellFormed(f.nodes) && TreesOf(f, f.built, subflows)
    ensures var nodes := Parse(tokens).nodes;
            Ascending([x], |nodes|) && |ToTrees(nodes, [x])| == 1 &&
              FindBlock(subflows, x) == Some(ToTrees(nodes, [x])[0])
  {
    var f := Parse(tokens);
    ParseChained(tokens);
    RangeAt(0, |f.nodes|);
    assert Range(0, |f.nodes|)[x] == x;
    var k := InSomeSubflow(f.nodes, f.built, x);
    FindInSubflows(f, f.built, subflows, x, k);
  }

  // ----- Applying the patch -----

  function RemoveBlockPatch(t: Tree): P.Op {
    var r := RemoveBlockRange(t);
    P.Remove(r.startLine, r.endLine)
  }

  /** The lines recorded for a block. */
  predicate OnSpan(b: Node, line: int) {
    b.line <= line <= SpanEnd(b.line, b.endLine)
  }

  /** The range of `x` meets the lines of a block exactly when the block is in the subtree. */
  ghost predicate RangeExact(nodes: seq<Node>, subtree: seq<nat>, range: LineRange) {
    forall y :: 0 <= y < |nodes| ==>
      if y in subtree
      then range.startLine <= nodes[y].line && SpanEnd(nodes[y].line, nodes[y].endLine) <= range.endLine
      else SpanEnd(nodes[y].line, nodes[y].endLine) < range.startLine || range.endLine < nodes[y].line
  }

  ghost predicate CoversExactly(nodes: seq<Node>, subtree: seq<nat>, patch: seq<P.Op>) {
    forall y, line :: 0 <= y < |nodes| && 1 <= line && OnSpan(nodes[y], line) ==>
      (P.Covered(patch, line) <==> y in subtree)
  }

  lemma CoversRange(nodes: seq<Node>, subtree: seq<nat>, t: Tree)
    requires RangeExact(nodes, subtree, RemoveBlockRange(t)) && t.line >= 1
    ensures CoversExactly(nodes, subtree, [RemoveBlockPatch(t)])
  {
    hide BlockEndLine;
    var op := RemoveBlockPatch(t);
    forall line ensures P.Covered([op], line) <==> P.Covers(op, line) {
      assert P.Covers(op, line) ==> P.Covers([op][0], line);
    }
  }

  lemma OneRemove(byStart: P.Sorter, byLine: P.Sorter, lines: seq<P.Line>, op: P.Op)
    requires P.SortsRemoves(byStart) && P.SortsInserts(byLine) && op.Remove?
    ensures P.EditLines(byStart, byLine, lines, [op]) == P.Kept(lines, [op], |lines|)
  {
    hide P.SortsRemoves, P.SortsInserts, P.EditLines, P.Kept;
    P.RemovesOnly(byStart, byLine, lines, [op]);
  }

  lemma FoundRange(tokens: seq<Token>, subflows: seq<seq<Tree>>, x: nat) returns (t: Tree)
    requires SpansIncrease(tokens)
    requires var f := Parse(tokens); x < |f.nodes| && NodesWellFormed(f.nodes) && TreesOf(f, f.built, subflows)
    ensures var nodes := Parse(tokens).nodes;
            && FindBlock(subflows, x) == Some(t) && t.line == nodes[x].line && Ascending([x], |nodes|)
            && RangeExact(nodes, PreOrder(nodes, [x]), RemoveBlockRange(t))
  {
    EveryBlockFound(tokens, subflows, x);
    t := ToTrees(Parse(tokens).nodes, [x])[0];
    hide Parse, PreOrder, NodesWellFormed, FindBlock, BlockEndLine, SpanEnd;
    RemovalIsExact(tokens, x);
  }

  /** Removing a block found in the finished document keeps exactly the lines outside its range, in order; a line
      recorded for some block is removed exactly when that block is in the removed one's subtree. Lines count from 1. */
  lemma RemoveBlockExact(
    byStart: P.Sorter, byLine: P.Sorter, lines: seq<P.Line>, tokens: seq<Token>, subflows: seq<seq<Tree>>, x: nat)
    requires P.SortsRemoves(byStart) && P.SortsInserts(byLine) && SpansIncrease(tokens)
    requires var f := Parse(tokens);
             x < |f.nodes| && f.nodes[x].line >= 1 && NodesWellFormed(f.nodes) && TreesOf(f, f.built, subflows)
    ensures FindBlock(subflows, x).Some?
    ensures var nodes, patch := Parse(tokens).nodes, [RemoveBlockPatch(FindBlock(subflows, x).value)];
            && P.EditLines(byStart, byLine, lines, patch) == P.Kept(lines, patch, |lines|)
            && Ascending([x], |nodes|) && CoversExactly(nodes, PreOrder(nodes, [x]), patch)
  {
    hide Parse, PreOrder, NodesWellFormed, Ascending, FindBlock, RangeExact, CoversExactly;
    hide P.SortsRemoves, P.SortsInserts, P.EditLines, P.Kept;
    var t := FoundRange(tokens, subflows, x);
    CoversRange(Parse(tokens).nodes, PreOrder(Parse(tokens).nodes, [x]), t);
    OneRemove(byStart, byLine, lines, RemoveBlockPatch(t));
  }
}
