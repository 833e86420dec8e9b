/**
  The value trees the parser hands to the analyzer (core/parser/parser.go): the blocks in document order, their
  parents, their number and the deepest level.
 */
module FlowTrees {
  import opened Options
  import opened FlowParser
  import opened FlowForest
  import opened FlowBounds

  // ----- The value trees of the finished document -----

  datatype Tree = Tree(id: nat, parent: Option<nat>, line: nat, endLine: nat, children: seq<Tree>)

  /** `toValueTree`, for a list of blocks. */
  function ToTrees(nodes: seq<Node>, ids: seq<nat>): seq<Tree>
    requires NodesWellFormed(nodes) && Ascending(ids, |nodes|)
    decreases if ids == [] then 0 else |nodes| - ids[0]
  {
    if ids == [] then []
    else
      var b := nodes[ids[0]];
      [Tree(ids[0], b.parent, b.line, b.endLine, ToTrees(nodes, b.children))] + ToTrees(nodes, ids[1..])
  }

  /** The identifiers of the trees' blocks, in document order. */
  function TreeIds(ts: seq<Tree>): seq<nat> {
    if ts == [] then [] else [ts[0].id] + TreeIds(ts[0].children) + TreeIds(ts[1..])
  }

  function CountDescendants(t: Tree): nat {
    |t.children| + CountAll(t.children)
  }

  function CountAll(ts: seq<Tree>): nat {
    if ts == [] then 0 else CountDescendants(ts[0]) + CountAll(ts[1..])
  }

  function Max(a: nat, b: nat): nat {
    if a < b then b else a
  }

  /** `computeMaxDepth`, for a list of trees at `depth`; `least` if there are none. */
  function MaxDepth(ts: seq<Tree>, depth: nat, least: nat): nat
    decreases ts
  {
    if ts == [] then least
    else Max(MaxDepth(ts[0].children, depth + 1, depth), MaxDepth(ts[1..], depth, least))
  }

  /** Every block names the block above it as its parent. */
  predicate ParentsRight(ts: seq<Tree>, parent: Option<nat>) {
    ts == [] || (ts[0].parent == parent && ParentsRight(ts[0].children, Some(ts[0].id)) &&
      ParentsRight(ts[1..], parent))
  }

  lemma {:induction false} TreesInPreOrder(nodes: seq<Node>, ids: seq<nat>)
    requires NodesWellFormed(nodes) && Ascending(ids, |nodes|)
    ensures TreeIds(ToTrees(nodes, ids)) == PreOrder(nodes, ids) && |ToTrees(nodes, ids)| == |ids|
    decreases if ids == [] then 0 else |nodes| - ids[0]
  {
    if ids != [] {
      var ts, b := ToTrees(nodes, ids), nodes[ids[0]];
      assert ts[1..] == ToTrees(nodes, ids[1..]);
      TreesInPreOrder(nodes, b.children);
      TreesInPreOrder(nodes, ids[1..]);
    }
  }

  lemma {:induction false} CountMatches(ts: seq<Tree>)
    ensures |ts| + CountAll(ts) == |TreeIds(ts)|
  {
    if ts != [] {
      CountMatches(ts[0].children);
      CountMatches(ts[1..]);
    }
  }

  lemma {:induction false} TreesParents(nodes: seq<Node>, ids: seq<nat>, parent: Option<nat>)
    requires NodesWellFormed(nodes) && Ascending(ids, |nodes|)
    requires forall i :: 0 <= i < |ids| ==> nodes[ids[i]].parent == parent
    ensures ParentsRight(ToTrees(nodes, ids), parent)
    decreases if ids == [] then 0 else |nodes| - ids[0]
  {
    if ids != [] {
      var ts, b := ToTrees(nodes, ids), nodes[ids[0]];
      assert ChildrenMatch(nodes, ids[0]);
      assert ts[1..] == ToTrees(nodes, ids[1..]);
      TreesParents(nodes, b.children, Some(ids[0]));
      TreesParents(nodes, ids[1..], parent);
    }
  }

  // ----- The deepest level -----

  /** `m` is the largest of `least` and the depths of the blocks listed. */
  ghost predicate IsDeepest(nodes: seq<Node>, blocks: seq<nat>, least: nat, m: nat)
    requires ParentsOlder(nodes)
  {
    && least <= m
    && (forall i :: 0 <= i < |blocks| ==> blocks[i] < |nodes| && Depth(nodes, blocks[i]) <= m)
    && (m == least || exists i :: 0 <= i < |blocks| && blocks[i] < |nodes| && Depth(nodes, blocks[i]) == m)
  }

  lemma DeepestJoin(nodes: seq<Node>, a: seq<nat>, b: seq<nat>, least: nat, m: nat, n: nat)
    requires ParentsOlder(nodes) && IsDeepest(nodes, a, least, m) && IsDeepest(nodes, b, least, n)
    ensures IsDeepest(nodes, a + b, least, Max(m, n))
  {
    hide Depth, ParentsOlder;
    if m > least {
      var i :| 0 <= i < |a| && a[i] < |nodes| && Depth(nodes, a[i]) == m;
      assert (a + b)[i] == a[i];
    }
    if n > least {
      var i :| 0 <= i < |b| && b[i] < |nodes| && Depth(nodes, b[i]) == n;
      assert (a + b)[|a| + i] == b[i];
    }
  }

  lemma DeepestBelow(nodes: seq<Node>, x: nat, below: seq<nat>, least: nat, m: nat)
    requires ParentsOlder(nodes) && x < |nodes| && least <= Depth(nodes, x) &&
             IsDeepest(nodes, below, Depth(nodes, x), m)
    ensures IsDeepest(nodes, [x] + below, least, m)
  {
    hide Depth, ParentsOlder;
    if m == Depth(nodes, x) {
      assert ([x] + below)[0] == x;
    } else {
      var i :| 0 <= i < |below| && below[i] < |nodes| && Depth(nodes, below[i]) == m;
      assert ([x] + below)[i + 1] == below[i];
    }
  }

  /** `computeMaxDepth` is the depth of the deepest block of the trees. */
  lemma {:induction false} TreesDepth(nodes: seq<Node>, ids: seq<nat>, depth: nat, least: nat)
    requires NodesWellFormed(nodes) && ParentsOlder(nodes) && Ascending(ids, |nodes|) && least <= depth
    requires forall i :: 0 <= i < |ids| ==> Depth(nodes, ids[i]) == depth
    ensures IsDeepest(nodes, PreOrder(nodes, ids), least, MaxDepth(ToTrees(nodes, ids), depth, least))
    decreases if ids == [] then 0 else |nodes| - ids[0]
  {
    if ids != [] {
      var ts, x := ToTrees(nodes, ids), ids[0];
      var below, after := PreOrder(nodes, nodes[x].children), PreOrder(nodes, ids[1..]);
      assert ChildrenMatch(nodes, x);
      assert ts[1..] == ToTrees(nodes, ids[1..]);
      TreesDepth(nodes, nodes[x].children, depth + 1, depth);
      TreesDepth(nodes, ids[1..], depth, least);
      hide IsDeepest, Depth, NodesWellFormed, Ascending;
      DeepestBelow(nodes, x, below, least, MaxDepth(ts[0].children, depth + 1, depth));
      DeepestJoin(nodes, [x] + below, after, least, MaxDepth(ts[0].children, depth + 1, depth),
          MaxDepth(ts[1..], depth, least));
    }
  }

  /** `finalizeSubflows`: the trees of each subflow, the block total and the deepest level. */
  datatype Finished = Finished(subflows: seq<seq<Tree>>, totalBlocks: nat, maxDepth: nat)

  /** What the `k`-th subflow contributes. */
  lemma SubflowFinished(f: Forest, k: nat)
    requires Chained(f) && ParentsOlder(f.nodes) && k < |f.built| && RootsWellFormed(f.nodes, f.built[..k])
    ensures Ascending(f.built[k], |f.nodes|) && RootsWellFormed(f.nodes, f.built[..k + 1])
    ensures var trees := ToTrees(f.nodes, f.built[k]);
            && Document(f.nodes, f.built[..k + 1]) == Document(f.nodes, f.built[..k]) + PreOrder(f.nodes, f.built[k])
            && |PreOrder(f.nodes, f.built[k])| == |trees| + CountAll(trees)
            && IsDeepest(f.nodes, PreOrder(f.nodes, f.built[k]), 0, MaxDepth(trees, 1, 0))
  {
    var roots, earlier := f.built[k], f.built[..k];
    assert AreRoots(f.nodes, roots);
    assert forall i :: 0 <= i < |roots| ==> Depth(f.nodes, roots[i]) == 1;
    TreesDepth(f.nodes, roots, 1, 0);
    hide Chained, NodesWellFormed, RootsWellFormed, AreRoots, Document, PreOrder, IsDeepest, ParentsOlder;
    DocumentParts(f.nodes, earlier, roots);
    assert f.built[..k + 1] == earlier + [roots];
    TreesInPreOrder(f.nodes, roots);
    CountMatches(ToTrees(f.nodes, roots));
  }

  lemma NothingDeep(nodes: seq<Node>)
    requires ParentsOlder(nodes)
    ensures IsDeepest(nodes, [], 0, 0)
  {
  }

  /** In a whole document the deepest block listed is the deepest block there is. */
  lemma DeepestOfAll(f: Forest, m: nat)
    requires Chained(f) && ParentsOlder(f.nodes) && IsDeepest(f.nodes, Document(f.nodes, f.built), 0, m)
    ensures forall n :: 0 <= n < |f.nodes| ==> Depth(f.nodes, n) <= m
    ensures if f.nodes == [] then m == 0 else exists n :: 0 <= n < |f.nodes| && Depth(f.nodes, n) == m
  {
    RangeAt(0, |f.nodes|);
    hide Depth;
    var all := Document(f.nodes, f.built);
    forall n | 0 <= n < |f.nodes| ensures Depth(f.nodes, n) <= m {
      assert all[n] == n;
    }
    if f.nodes != [] {
      assert all[0] == 0 && Depth(f.nodes, 0) >= 1 by { DepthPositive(f.nodes, 0); }
    }
  }

  lemma DepthPositive(nodes: seq<Node>, n: nat)
    requires ParentsOlder(nodes) && n < |nodes|
    ensures Depth(nodes, n) >= 1
  {
  }

  /** What is known after the first `k` subflows. */
  ghost predicate FinishedUpTo(f: Forest, k: nat, subflows: seq<seq<Tree>>, total: nat, deepest: nat)
    requires NodesWellFormed(f.nodes) && ParentsOlder(f.nodes) && k <= |f.built|
  {
    && |subflows| == k && RootsWellFormed(f.nodes, f.built[..k])
    && (forall j :: 0 <= j < k ==> Ascending(f.built[j], |f.nodes|) && subflows[j] == ToTrees(f.nodes, f.built[j]))
    && total == |Document(f.nodes, f.built[..k])|
    && IsDeepest(f.nodes, Document(f.nodes, f.built[..k]), 0, deepest)
  }

  lemma FinishStart(f: Forest)
    requires Chained(f) && ParentsOlder(f.nodes)
    ensures NodesWellFormed(f.nodes) && FinishedUpTo(f, 0, [], 0, 0)
  {
    assert f.built[..0] == [];
    NothingDeep(f.nodes);
  }

  lemma FinishStep(f: Forest, k: nat, subflows: seq<seq<Tree>>, total: nat, deepest: nat)
    requires Chained(f) && ParentsOlder(f.nodes) && k < |f.built| && FinishedUpTo(f, k, subflows, total, deepest)
    ensures Ascending(f.built[k], |f.nodes|)
    ensures var trees := ToTrees(f.nodes, f.built[k]);
            FinishedUpTo(f, k + 1, subflows + [trees], total + |trees| + CountAll(trees),
                Max(deepest, MaxDepth(trees, 1, 0)))
  {
    assert NodesWellFormed(f.nodes);
    hide Chained, NodesWellFormed, RootsWellFormed, ToTrees, Ascending, IsDeepest, PreOrder, ParentsOlder, Document;
    hide CountAll, MaxDepth;
    SubflowFinished(f, k);
    var earlier, own := Document(f.nodes, f.built[..k]), PreOrder(f.nodes, f.built[k]);
    DeepestJoin(f.nodes, earlier, own, 0, deepest, MaxDepth(ToTrees(f.nodes, f.built[k]), 1, 0));
  }

  lemma FinishEnd(f: Forest, subflows: seq<seq<Tree>>, total: nat, deepest: nat)
    requires Chained(f) && Shallow(f) && FinishedUpTo(f, |f.built|, subflows, total, deepest)
    ensures total == |f.nodes| && deepest <= MAX_NESTING_DEPTH + 1
    ensures forall n :: 0 <= n < |f.nodes| ==> Depth(f.nodes, n) <= deepest
    ensures if f.nodes == [] then deepest == 0 else exists n :: 0 <= n < |f.nodes| && Depth(f.nodes, n) == deepest
  {
    assert f.built[..|f.built|] == f.built;
    RangeAt(0, |f.nodes|);
    hide ToTrees, Ascending, IsDeepest, Depth, NodesWellFormed, RootsWellFormed;
    DeepestOfAll(f, deepest);
  }

  /** The finished document: every subflow's trees, the number of blocks and the deepest level, which is 0 without
      blocks and otherwise the depth of some block. */
  method FinalizeSubflows(f: Forest) returns (r: Finished)
    requires Chained(f) && Shallow(f)
    ensures |r.subflows| == |f.built| && r.totalBlocks == |f.nodes| && r.maxDepth <= MAX_NESTING_DEPTH + 1
    ensures forall k :: 0 <= k < |f.built| ==>
              Ascending(f.built[k], |f.nodes|) && r.subflows[k] == ToTrees(f.nodes, f.built[k])
    ensures forall n :: 0 <= n < |f.nodes| ==> Depth(f.nodes, n) <= r.maxDepth
    ensures if f.nodes == [] then r.maxDepth == 0 else exists n :: 0 <= n < |f.nodes| && Depth(f.nodes, n) == r.maxDepth
  {
    assert ParentsOlder(f.nodes);
    hide Chained, Shallow, NodesWellFormed, RootsWellFormed, ToTrees, Ascending, IsDeepest, Depth, ParentsOlder;
    hide Document;
    FinishStart(f);
    var subflows: seq<seq<Tree>>, total: nat, deepest: nat := [], 0, 0;
    for k := 0 to |f.built|
      invariant FinishedUpTo(f, k, subflows, total, deepest)
    {
      FinishStep(f, k, subflows, total, deepest);
      var trees := ToTrees(f.nodes, f.built[k]);
      total := total + |trees| + CountAll(trees);
      deepest := Max(deepest, MaxDepth(trees, 1, 0));
      subflows := subflows + [trees];
    }
    FinishEnd(f, subflows, total, deepest);
    r := Finished(subflows, total, deepest);
  }
}
