/**
  What every token sequence leaves behind in the parser (core/parser/parser.go): the open blocks
  are a chain on the rightmost spine of the forest, so every block occurs once and pre-order is creation order.
 */
module FlowForest {
  import opened Options
  import opened FlowParser

  // ----- Pre-order -----

  predicate Ascending(ids: seq<nat>, bound: nat) {
    && (forall i :: 0 <= i < |ids| ==> ids[i] < bound)
    && (forall i, j :: 0 <= i < j < |ids| ==> ids[i] < ids[j])
  }

  /** Children are younger than their parent, in creation order, and name it as their parent. */
  predicate ChildrenMatch(nodes: seq<Node>, i: nat)
    requires i < |nodes|
  {
    var cs := nodes[i].children;
    Ascending(cs, |nodes|) && forall k :: 0 <= k < |cs| ==> i < cs[k] && nodes[cs[k]].parent == Some(i)
  }

  predicate NodesWellFormed(nodes: seq<Node>) {
    forall i {:trigger nodes[i]} :: 0 <= i < |nodes| ==> ChildrenMatch(nodes, i)
  }

  /** The blocks below `ids`, `ids` included, in document order. */
  function PreOrder(nodes: seq<Node>, ids: seq<nat>): seq<nat>
    requires NodesWellFormed(nodes) && Ascending(ids, |nodes|)
    decreases if ids == [] then 0 else |nodes| - ids[0]
  {
    if ids == [] then []
    else [ids[0]] + PreOrder(nodes, nodes[ids[0]].children) + PreOrder(nodes, ids[1..])
  }

  function Range(lo: nat, hi: nat): seq<nat>
    decreases hi
  {
    if hi <= lo then [] else Range(lo, hi - 1) + [hi - 1]
  }

  lemma {:induction false} RangeAt(lo: nat, hi: nat)
    requires lo <= hi
    ensures |Range(lo, hi)| == hi - lo && forall i :: 0 <= i < hi - lo ==> Range(lo, hi)[i] == lo + i
    decreases hi
  {
    if lo < hi { RangeAt(lo, hi - 1); }
  }

  lemma {:induction false} PreOrderSplit(nodes: seq<Node>, ids: seq<nat>, k: nat)
    requires NodesWellFormed(nodes) && Ascending(ids, |nodes|) && k <= |ids|
    ensures PreOrder(nodes, ids) == PreOrder(nodes, ids[..k]) + PreOrder(nodes, ids[k..])
    decreases k
  {
    if k == 0 {
      assert ids[..0] == [] && ids[0..] == ids;
    } else {
      PreOrderSplit(nodes, ids[1..], k - 1);
      assert ids[..k][1..] == ids[1..][..k - 1] && ids[1..][k - 1..] == ids[k..];
    }
  }

  // ----- The rightmost spine -----

  /** The stack goes from the last block of `list` down through last children. */
  predicate OnSpine(nodes: seq<Node>, list: seq<nat>, stack: seq<Entry>)
    decreases |stack|
  {
    stack == [] ||
    (&& list != [] && list[|list| - 1] == stack[0].block && stack[0].block < |nodes|
     && OnSpine(nodes, nodes[stack[0].block].children, stack[1..]))
  }

  lemma {:induction false} SpinePrefix(nodes: seq<Node>, list: seq<nat>, stack: seq<Entry>, prefix: seq<Entry>)
    requires OnSpine(nodes, list, stack) && prefix <= stack
    ensures OnSpine(nodes, list, prefix)
    decreases |stack|
  {
    if prefix != [] {
      SpinePrefix(nodes, nodes[stack[0].block].children, stack[1..], prefix[1..]);
    }
  }

  /** The block on top of the stack lies below `list`. */
  lemma {:induction false} TopInPreOrder(nodes: seq<Node>, list: seq<nat>, stack: seq<Entry>)
    requires NodesWellFormed(nodes) && Ascending(list, |nodes|)
    requires OnSpine(nodes, list, stack) && stack != []
    ensures stack[|stack| - 1].block in PreOrder(nodes, list)
    decreases |stack|
  {
    var k := |list| - 1;
    PreOrderSplit(nodes, list, k);
    assert list[k..] == [list[k]] && [list[k]][1..] == [];
    if |stack| > 1 {
      TopInPreOrder(nodes, nodes[list[k]].children, stack[1..]);
    }
  }

  ghost predicate NoDuplicates(s: seq<nat>) {
    forall i, j :: 0 <= i < j < |s| ==> s[i] != s[j]
  }

  /** `grown` is `nodes` with one new block, a child of `p`. */
  ghost predicate GrownAt(nodes: seq<Node>, grown: seq<Node>, p: nat) {
    && p < |nodes| && |grown| == |nodes| + 1 && grown[|nodes|].children == []
    && grown[p].children == nodes[p].children + [|nodes|]
    && (forall i :: 0 <= i < |nodes| && i != p ==> grown[i].children == nodes[i].children)
    && (forall i :: 0 <= i < |nodes| ==> grown[i].parent == nodes[i].parent)
    && grown[|nodes|].parent == Some(p)
  }

  /** Pre-order depends only on the children of the blocks it visits. */
  lemma {:induction false} PreOrderFrame(nodes: seq<Node>, other: seq<Node>, ids: seq<nat>)
    requires NodesWellFormed(nodes) && NodesWellFormed(other) && Ascending(ids, |nodes|) && |nodes| <= |other|
    requires forall x :: x in PreOrder(nodes, ids) && x < |nodes| ==> other[x].children == nodes[x].children
    ensures PreOrder(other, ids) == PreOrder(nodes, ids)
    decreases if ids == [] then 0 else |nodes| - ids[0]
  {
    if ids != [] {
      var pre := PreOrder(nodes, ids);
      assert pre[0] == ids[0];
      assert forall x :: x in PreOrder(nodes, nodes[ids[0]].children) || x in PreOrder(nodes, ids[1..]) ==> x in pre;
      PreOrderFrame(nodes, other, nodes[ids[0]].children);
      PreOrderFrame(nodes, other, ids[1..]);
    }
  }

  lemma PreOrderElsewhere(nodes: seq<Node>, grown: seq<Node>, p: nat, ids: seq<nat>)
    requires NodesWellFormed(nodes) && NodesWellFormed(grown) && GrownAt(nodes, grown, p)
    requires Ascending(ids, |nodes|) && p !in PreOrder(nodes, ids)
    ensures PreOrder(grown, ids) == PreOrder(nodes, ids)
  {
    PreOrderFrame(nodes, grown, ids);
  }

  lemma LastSubtree(nodes: seq<Node>, list: seq<nat>)
    requires NodesWellFormed(nodes) && Ascending(list, |nodes|) && list != []
    ensures var k := |list| - 1;
            PreOrder(nodes, list) == PreOrder(nodes, list[..k]) + ([list[k]] + PreOrder(nodes, nodes[list[k]].children))
  {
    var k := |list| - 1;
    PreOrderSplit(nodes, list, k);
    assert list[k..] == [list[k]] && [list[k]][1..] == [];
    assert PreOrder(nodes, [list[k]]) == [list[k]] + PreOrder(nodes, nodes[list[k]].children);
  }

  lemma SplitDistinct(a: seq<nat>, x: nat, b: seq<nat>)
    requires NoDuplicates(a + ([x] + b))
    ensures NoDuplicates(b) && x !in a && x !in b && forall y :: y in b ==> y !in a
  {
    var s := a + ([x] + b);
    assert forall i :: 0 <= i < |a| ==> s[i] == a[i];
    assert s[|a|] == x;
    assert forall i :: 0 <= i < |b| ==> s[|a| + 1 + i] == b[i];
  }

  lemma ChildrenAscend(nodes: seq<Node>, s: nat)
    requires NodesWellFormed(nodes) && s < |nodes|
    ensures Ascending(nodes[s].children, |nodes|)
  {}

  lemma NothingBelow(nodes: seq<Node>)
    requires NodesWellFormed(nodes)
    ensures PreOrder(nodes, []) == []
  {}

  lemma PrefixAscends(ids: seq<nat>, bound: nat, k: nat, larger: nat)
    requires Ascending(ids, bound) && k <= |ids| && bound <= larger
    ensures Ascending(ids[..k], bound) && Ascending(ids, larger)
  {}

  lemma GrowChildren(nodes: seq<Node>, grown: seq<Node>, s: nat)
    requires NodesWellFormed(nodes) && NodesWellFormed(grown) && GrownAt(nodes, grown, s)
    requires s !in PreOrder(nodes, nodes[s].children)
    ensures PreOrder(grown, grown[s].children) == PreOrder(nodes, nodes[s].children) + [|nodes|]
  {
    hide PreOrder, NodesWellFormed;
    var cs, was := grown[s].children, nodes[s].children;
    ChildrenAscend(nodes, s);
    ChildrenAscend(grown, s);
    LastSubtree(grown, cs);
    assert cs[..|cs| - 1] == was && cs[|cs| - 1] == |nodes|;
    NothingBelow(grown);
    PreOrderElsewhere(nodes, grown, s, was);
    assert PreOrder(grown, was) + ([|nodes|] + []) == PreOrder(nodes, was) + [|nodes|];
  }

  /** Growing at the last block of `list` itself. */
  lemma GrowAtLast(nodes: seq<Node>, grown: seq<Node>, list: seq<nat>)
    requires NodesWellFormed(nodes) && NodesWellFormed(grown) && Ascending(list, |nodes|)
    requires list != [] && GrownAt(nodes, grown, list[|list| - 1])
    requires NoDuplicates(PreOrder(nodes, list))
    ensures PreOrder(grown, list) == PreOrder(nodes, list) + [|nodes|]
  {
    hide PreOrder, NodesWellFormed, NoDuplicates, Ascending;
    var k := |list| - 1;
    var s := list[k];
    PrefixAscends(list, |nodes|, k, |grown|);
    ChildrenAscend(nodes, s);
    ChildrenAscend(grown, s);
    LastSubtree(nodes, list);
    LastSubtree(grown, list);
    var front, below := PreOrder(nodes, list[..k]), PreOrder(nodes, nodes[s].children);
    SplitDistinct(front, s, below);
    PreOrderElsewhere(nodes, grown, s, list[..k]);
    GrowChildren(nodes, grown, s);
    assert front + ([s] + (below + [|nodes|])) == front + ([s] + below) + [|nodes|];
  }

  /** A new block under the top of the stack comes last in pre-order. */
  lemma {:induction false} GrowAtSpine(nodes: seq<Node>, grown: seq<Node>, list: seq<nat>, stack: seq<Entry>)
    requires NodesWellFormed(nodes) && NodesWellFormed(grown) && Ascending(list, |nodes|)
    requires stack != [] && OnSpine(nodes, list, stack) && GrownAt(nodes, grown, stack[|stack| - 1].block)
    requires NoDuplicates(PreOrder(nodes, list))
    ensures PreOrder(grown, list) == PreOrder(nodes, list) + [|nodes|]
    decreases |stack|
  {
    SpineParts(nodes, list, stack);
    hide PreOrder, NodesWellFormed, NoDuplicates, Ascending, GrownAt, OnSpine;
    if |stack| == 1 {
      GrowAtLast(nodes, grown, list);
    } else {
      var s := list[|list| - 1];
      var below, rest := nodes[s].children, stack[1..];
      ChildrenAscend(nodes, s);
      LastSubtree(nodes, list);
      SplitDistinct(PreOrder(nodes, list[..|list| - 1]), s, PreOrder(nodes, below));
      TopInPreOrder(nodes, below, rest);
      GrowAtSpine(nodes, grown, below, rest);
      GrowBelowLast(nodes, grown, list, rest[|rest| - 1].block);
    }
  }

  lemma SpineParts(nodes: seq<Node>, list: seq<nat>, stack: seq<Entry>)
    requires stack != [] && OnSpine(nodes, list, stack) && Ascending(list, |nodes|)
    ensures list != [] && list[|list| - 1] == stack[0].block < |nodes|
    ensures OnSpine(nodes, nodes[list[|list| - 1]].children, stack[1..]) && Ascending(list[..|list| - 1], |nodes|)
    ensures |stack| > 1 ==> stack[1..] != [] && stack[1..][|stack| - 2] == stack[|stack| - 1]
  {
  }

  /** Growing somewhere below the last block of `list`. */
  lemma GrowBelowLast(nodes: seq<Node>, grown: seq<Node>, list: seq<nat>, p: nat)
    requires NodesWellFormed(nodes) && NodesWellFormed(grown) && Ascending(list, |nodes|) && list != [] &&
             GrownAt(nodes, grown, p)
    requires NoDuplicates(PreOrder(nodes, list))
    requires var below := nodes[list[|list| - 1]].children;
             && Ascending(below, |nodes|) && p in PreOrder(nodes, below)
             && PreOrder(grown, below) == PreOrder(nodes, below) + [|nodes|]
    ensures PreOrder(grown, list) == PreOrder(nodes, list) + [|nodes|]
  {
    var k := |list| - 1;
    var s := list[k];
    PrefixAscends(list, |nodes|, k, |grown|);
    hide PreOrder, NodesWellFormed, NoDuplicates, Ascending;
    var below, front := nodes[s].children, PreOrder(nodes, list[..k]);
    LastSubtree(nodes, list);
    LastSubtree(grown, list);
    SplitDistinct(front, s, PreOrder(nodes, below));
    PreOrderElsewhere(nodes, grown, p, list[..k]);
    assert p != s && grown[s].children == below;
    AppendLast(front, s, PreOrder(nodes, below), |nodes|);
  }

  lemma AppendLast(front: seq<nat>, s: nat, below: seq<nat>, last: nat)
    ensures front + ([s] + (below + [last])) == front + ([s] + below) + [last]
  {
  }

  // ----- The whole document -----

  predicate AreRoots(nodes: seq<Node>, ids: seq<nat>) {
    Ascending(ids, |nodes|) && forall i :: 0 <= i < |ids| ==> nodes[ids[i]].parent == None
  }

  predicate RootsWellFormed(nodes: seq<Node>, built: seq<seq<nat>>) {
    forall k :: 0 <= k < |built| ==> AreRoots(nodes, built[k])
  }

  /** Every block of every subflow, in document order. */
  function Document(nodes: seq<Node>, built: seq<seq<nat>>): seq<nat>
    requires NodesWellFormed(nodes) && RootsWellFormed(nodes, built)
  {
    if built == [] then [] else Document(nodes, built[..|built| - 1]) + PreOrder(nodes, built[|built| - 1])
  }

  /** The invariant of the parser: every block created so far occurs once, in creation order,
      and the open blocks are a chain from the last root along last children. */
  predicate Chained(f: Forest) {
    && NodesWellFormed(f.nodes) && RootsWellFormed(f.nodes, f.built)
    && Document(f.nodes, f.built) == Range(0, |f.nodes|)
    && (f.open ==> f.built != [])
    && (f.stack != [] ==> f.open && OnSpine(f.nodes, f.built[|f.built| - 1], f.stack))
  }

  lemma {:induction false} DocumentFrame(nodes: seq<Node>, other: seq<Node>, built: seq<seq<nat>>)
    requires NodesWellFormed(nodes) && NodesWellFormed(other) && |nodes| <= |other|
    requires RootsWellFormed(nodes, built) && RootsWellFormed(other, built)
    requires forall x :: x in Document(nodes, built) && x < |nodes| ==> other[x].children == nodes[x].children
    ensures Document(other, built) == Document(nodes, built)
  {
    if built != [] {
      DocumentFrame(nodes, other, built[..|built| - 1]);
      PreOrderFrame(nodes, other, built[|built| - 1]);
    }
  }

  lemma PopKeepsChained(f: Forest, prefix: seq<Entry>)
    requires Chained(f) && prefix <= f.stack
    ensures Chained(f.(stack := prefix))
  {
    if f.stack != [] { SpinePrefix(f.nodes, f.built[|f.built| - 1], f.stack, prefix); }
  }

  lemma GrownWellFormed(nodes: seq<Node>, grown: seq<Node>, p: nat)
    requires NodesWellFormed(nodes) && GrownAt(nodes, grown, p)
    ensures NodesWellFormed(grown)
  {
    forall i | 0 <= i < |grown| ensures ChildrenMatch(grown, i) {
      if i < |nodes| { assert ChildrenMatch(nodes, i); }
    }
  }

  /** A new child of the top of the stack goes last in the document. */
  lemma GrowDocument(nodes: seq<Node>, grown: seq<Node>, earlier: seq<seq<nat>>, last: seq<nat>, stack: seq<Entry>)
    requires NodesWellFormed(nodes) && RootsWellFormed(nodes, earlier) && Ascending(last, |nodes|)
    requires Document(nodes, earlier) + PreOrder(nodes, last) == Range(0, |nodes|)
    requires stack != [] && OnSpine(nodes, last, stack) && GrownAt(nodes, grown, stack[|stack| - 1].block)
    requires NodesWellFormed(grown) && RootsWellFormed(grown, earlier) && Ascending(last, |grown|)
    ensures Document(grown, earlier) + PreOrder(grown, last) == Range(0, |grown|)
  {
    hide *;
    var p := stack[|stack| - 1].block;
    var a, b := Document(nodes, earlier), PreOrder(nodes, last);
    GrownSize(nodes, grown, p);
    RangeDistinct(a, b, |nodes|);
    TopInPreOrder(nodes, last, stack);
    DisjointParts(a, b, p);
    GrownElsewhere(nodes, grown, p, a);
    DocumentFrame(nodes, grown, earlier);
    GrowAtSpine(nodes, grown, last, stack);
    RangeSnoc(a, b, |nodes|);
  }

  lemma GrownSize(nodes: seq<Node>, grown: seq<Node>, p: nat)
    requires GrownAt(nodes, grown, p)
    ensures p < |nodes| && |grown| == |nodes| + 1 && forall i :: 0 <= i < |nodes| ==> grown[i].parent == nodes[i].parent
  {}

  lemma GrownElsewhere(nodes: seq<Node>, grown: seq<Node>, p: nat, ids: seq<nat>)
    requires GrownAt(nodes, grown, p) && p !in ids
    ensures forall x :: x in ids && x < |nodes| ==> grown[x].children == nodes[x].children
  {}

  lemma RangeSnoc(a: seq<nat>, b: seq<nat>, n: nat)
    requires a + b == Range(0, n)
    ensures a + (b + [n]) == Range(0, n + 1)
  {
    assert a + (b + [n]) == (a + b) + [n];
  }

  lemma RangeDistinct(a: seq<nat>, b: seq<nat>, n: nat)
    requires a + b == Range(0, n)
    ensures NoDuplicates(a + b) && NoDuplicates(b)
  {
    RangeAt(0, n);
    assert forall i :: 0 <= i < |b| ==> b[i] == (a + b)[|a| + i];
  }

  lemma DocumentParts(nodes: seq<Node>, earlier: seq<seq<nat>>, last: seq<nat>)
    requires NodesWellFormed(nodes)
    ensures RootsWellFormed(nodes, earlier + [last]) <==> RootsWellFormed(nodes, earlier) && AreRoots(nodes, last)
    ensures RootsWellFormed(nodes, earlier + [last]) ==>
              Document(nodes, earlier + [last]) == Document(nodes, earlier) + PreOrder(nodes, last)
  {
    var built := earlier + [last];
    assert built[..|built| - 1] == earlier && built[|built| - 1] == last;
    assert forall k :: 0 <= k < |earlier| ==> built[k] == earlier[k];
  }

  lemma DisjointParts(a: seq<nat>, b: seq<nat>, x: nat)
    requires NoDuplicates(a + b) && x in b
    ensures x !in a
  {
    var j :| 0 <= j < |b| && b[j] == x;
    assert (a + b)[|a| + j] == x;
    forall i | 0 <= i < |a| ensures a[i] != x {
      assert (a + b)[i] == a[i];
    }
  }

  lemma AddRootWellFormed(nodes: seq<Node>, grown: seq<Node>)
    requires NodesWellFormed(nodes)
    requires |grown| == |nodes| + 1 && grown[..|nodes|] == nodes && grown[|nodes|].children == []
    ensures NodesWellFormed(grown) && forall i :: 0 <= i < |nodes| ==> grown[i] == nodes[i]
  {
    assert forall i :: 0 <= i < |nodes| ==> grown[i] == grown[..|nodes|][i];
    forall i | 0 <= i < |grown| ensures ChildrenMatch(grown, i) {
      if i < |nodes| { assert ChildrenMatch(nodes, i); }
    }
  }

  /** A new root of the last subflow goes last in the document. */
  lemma GrowRoots(nodes: seq<Node>, grown: seq<Node>, earlier: seq<seq<nat>>, last: seq<nat>)
    requires NodesWellFormed(nodes) && RootsWellFormed(nodes, earlier) && Ascending(last, |nodes|)
    requires Document(nodes, earlier) + PreOrder(nodes, last) == Range(0, |nodes|)
    requires |grown| == |nodes| + 1 && grown[|nodes|].children == []
    requires forall i :: 0 <= i < |nodes| ==> grown[i] == nodes[i]
    requires NodesWellFormed(grown) && RootsWellFormed(grown, earlier) && Ascending(last, |grown|)
    requires Ascending(last + [|nodes|], |grown|)
    ensures Document(grown, earlier) + PreOrder(grown, last + [|nodes|]) == Range(0, |grown|)
  {
    hide *;
    var a, b := Document(nodes, earlier), PreOrder(nodes, last);
    DocumentFrame(nodes, grown, earlier);
    PreOrderFrame(nodes, grown, last);
    var more := last + [|nodes|];
    LastSubtree(grown, more);
    assert more[..|more| - 1] == last && more[|more| - 1] == |nodes|;
    NothingBelow(grown);
    assert b + ([|nodes|] + []) == b + [|nodes|];
    RangeSnoc(a, b, |nodes|);
  }

  /** The block just created continues the chain. */
  lemma {:induction false} SpinePush(nodes: seq<Node>, grown: seq<Node>, list: seq<nat>, stack: seq<Entry>, e: Entry)
    requires OnSpine(nodes, list, stack) && stack != []
    requires GrownAt(nodes, grown, stack[|stack| - 1].block) && NodesWellFormed(nodes) && Ascending(list, |nodes|)
    requires e.block == |nodes|
    ensures OnSpine(grown, list, stack) && OnSpine(grown, list, stack + [e])
    decreases |stack|
  {
    var s, p := stack[0].block, stack[|stack| - 1].block;
    if |stack| == 1 {
      assert (stack + [e])[1..] == [e] && [e][1..] == [];
      assert OnSpine(grown, grown[s].children, [e]);
    } else {
      assert ChildrenMatch(nodes, s);
      var below := nodes[s].children;
      SpinePush(nodes, grown, below, stack[1..], e);
      assert (stack + [e])[1..] == stack[1..] + [e];
      assert s < stack[1].block;
      DeeperIsYounger(nodes, below, stack[1..]);
    }
  }

  lemma {:induction false} DeeperIsYounger(nodes: seq<Node>, list: seq<nat>, stack: seq<Entry>)
    requires NodesWellFormed(nodes) && OnSpine(nodes, list, stack) && stack != []
    ensures stack[0].block <= stack[|stack| - 1].block
    decreases |stack|
  {
    if |stack| > 1 {
      assert ChildrenMatch(nodes, stack[0].block);
      DeeperIsYounger(nodes, nodes[stack[0].block].children, stack[1..]);
    }
  }

  lemma RootsGrow(nodes: seq<Node>, other: seq<Node>, earlier: seq<seq<nat>>, last: seq<nat>)
    requires RootsWellFormed(nodes, earlier) && AreRoots(nodes, last) && |nodes| < |other|
    requires forall i :: 0 <= i < |nodes| ==> other[i].parent == nodes[i].parent
    ensures RootsWellFormed(other, earlier) && AreRoots(other, last)
    ensures other[|nodes|].parent == None ==> AreRoots(other, last + [|nodes|])
  {
    forall k | 0 <= k < |earlier| ensures AreRoots(other, earlier[k]) {
      assert AreRoots(nodes, earlier[k]);
    }
  }

  /** The invariant, with the last subflow taken apart from the earlier ones. */
  lemma ChainedParts(f: Forest, earlier: seq<seq<nat>>, last: seq<nat>)
    requires NodesWellFormed(f.nodes) && f.built == earlier + [last]
    ensures Chained(f) <==>
            && RootsWellFormed(f.nodes, earlier) && AreRoots(f.nodes, last)
            && Document(f.nodes, earlier) + PreOrder(f.nodes, last) == Range(0, |f.nodes|)
            && (f.stack != [] ==> f.open && OnSpine(f.nodes, last, f.stack))
  {
    hide NodesWellFormed, RootsWellFormed, AreRoots, Document, PreOrder, Range, OnSpine;
    DocumentParts(f.nodes, earlier, last);
    assert f.built[|f.built| - 1] == last;
  }

  lemma AddRootChained(f: Forest, earlier: seq<seq<nat>>, last: seq<nat>, node: Node, e: Entry)
    requires Chained(f) && f.open && f.stack == [] && f.built == earlier + [last]
    requires node.children == [] && node.parent == None && e.block == |f.nodes|
    ensures var g := f.(nodes := f.nodes + [node], built := earlier + [last + [|f.nodes|]]);
            Chained(g) && Chained(g.(stack := [e]))
  {
    var g := f.(nodes := f.nodes + [node], built := earlier + [last + [|f.nodes|]]);
    assert NodesWellFormed(f.nodes);
    hide NodesWellFormed, RootsWellFormed, AreRoots, Document, PreOrder, Range, Chained;
    ChainedParts(f, earlier, last);
    AddRootWellFormed(f.nodes, g.nodes);
    RootsGrow(f.nodes, g.nodes, earlier, last);
    var more := last + [|f.nodes|];
    RootsAscend(f.nodes, last);
    RootsAscend(g.nodes, last);
    RootsAscend(g.nodes, more);
    GrowRoots(f.nodes, g.nodes, earlier, last);
    ChainedParts(g, earlier, more);
    ChainedParts(g.(stack := [e]), earlier, more);
    assert [e][1..] == [] && more[|more| - 1] == e.block;
  }

  lemma AddChildChained(f: Forest, earlier: seq<seq<nat>>, last: seq<nat>, grown: seq<Node>, e: Entry)
    requires Chained(f) && f.stack != [] && f.built == earlier + [last]
    requires GrownAt(f.nodes, grown, f.stack[|f.stack| - 1].block) && e.block == |f.nodes|
    ensures Chained(f.(nodes := grown)) && Chained(f.(nodes := grown, stack := f.stack + [e]))
  {
    assert NodesWellFormed(f.nodes);
    hide NodesWellFormed, RootsWellFormed, AreRoots, Document, PreOrder, Range, Chained, OnSpine, GrownAt;
    var p := f.stack[|f.stack| - 1].block;
    ChainedParts(f, earlier, last);
    GrownWellFormed(f.nodes, grown, p);
    GrownSize(f.nodes, grown, p);
    RootsGrow(f.nodes, grown, earlier, last);
    RootsAscend(f.nodes, last);
    RootsAscend(grown, last);
    GrowDocument(f.nodes, grown, earlier, last, f.stack);
    SpinePush(f.nodes, grown, last, f.stack, e);
    ChainedAgain(f.(nodes := grown), earlier, last);
    ChainedAgain(f.(nodes := grown, stack := f.stack + [e]), earlier, last);
  }

  lemma ChainedAgain(f: Forest, earlier: seq<seq<nat>>, last: seq<nat>)
    requires NodesWellFormed(f.nodes) && f.built == earlier + [last]
    requires RootsWellFormed(f.nodes, earlier) && AreRoots(f.nodes, last)
    requires Document(f.nodes, earlier) + PreOrder(f.nodes, last) == Range(0, |f.nodes|)
    requires f.stack != [] && f.open && OnSpine(f.nodes, last, f.stack)
    ensures Chained(f)
  {
    hide NodesWellFormed, RootsWellFormed, AreRoots, Document, PreOrder, Range, Chained, OnSpine;
    ChainedParts(f, earlier, last);
  }

  /** Creating a block keeps the invariant, and so does opening it. */
  lemma AddBlockKeepsChained(f: Forest, t: BlockType, line: nat, endLine: nat, indent: nat)
    requires Chained(f) && Ready(f) && f.open
    ensures Chained(AddBlock(f, t, line, endLine)) && Chained(PushNew(AddBlock(f, t, line, endLine), indent))
  {
    hide Chained, Range;
    var g := AddBlock(f, t, line, endLine);
    var k, e := |f.built| - 1, Entry(indent, |f.nodes|);
    var earlier, last := f.built[..k], f.built[k];
    assert f.built == earlier + [last];
    if f.stack == [] {
      AddRootChained(f, earlier, last, g.nodes[|f.nodes|], e);
      assert g.built == earlier + [last + [|f.nodes|]];
      assert PushNew(g, indent).stack == [e];
    } else {
      AddChildChained(f, earlier, last, g.nodes, e);
    }
  }

  lemma RootsAscend(nodes: seq<Node>, ids: seq<nat>)
    requires AreRoots(nodes, ids)
    ensures Ascending(ids, |nodes|)
  {}

  // ----- Every token keeps the chain -----

  /** `other` is `nodes` with some block types changed. */
  ghost predicate SameShape(nodes: seq<Node>, other: seq<Node>) {
    |other| == |nodes| && forall i :: 0 <= i < |nodes| ==> other[i].(btype := nodes[i].btype) == nodes[i]
  }

  lemma {:induction false} SpineFrame(nodes: seq<Node>, other: seq<Node>, list: seq<nat>, stack: seq<Entry>)
    requires OnSpine(nodes, list, stack) && SameShape(nodes, other)
    ensures OnSpine(other, list, stack)
    decreases |stack|
  {
    if stack != [] {
      SpineFrame(nodes, other, nodes[stack[0].block].children, stack[1..]);
    }
  }

  lemma ShapeWellFormed(nodes: seq<Node>, other: seq<Node>, built: seq<seq<nat>>)
    requires NodesWellFormed(nodes) && RootsWellFormed(nodes, built) && SameShape(nodes, other)
    ensures NodesWellFormed(other) && RootsWellFormed(other, built)
  {
    forall i | 0 <= i < |other| ensures ChildrenMatch(other, i) {
      assert ChildrenMatch(nodes, i);
    }
    forall k | 0 <= k < |built| ensures AreRoots(other, built[k]) {
      assert AreRoots(nodes, built[k]);
    }
  }

  lemma RetypeKeepsChained(f: Forest, other: seq<Node>, skip: bool)
    requires Chained(f) && SameShape(f.nodes, other)
    ensures Chained(f.(nodes := other, skipNextEnd := skip))
  {
    hide NodesWellFormed, RootsWellFormed, Document, OnSpine, Range;
    ShapeWellFormed(f.nodes, other, f.built);
    DocumentFrame(f.nodes, other, f.built);
    if f.stack != [] {
      SpineFrame(f.nodes, other, f.built[|f.built| - 1], f.stack);
    }
  }

  lemma InsertKeepsChained(f: Forest, t: BlockType, indent: nat, line: nat, endLine: nat)
    requires Chained(f) && Ready(f)
    ensures Chained(GuardedInsert(f, t, indent, line, endLine))
  {
    hide Chained;
    if f.open && |f.stack| < MAX_NESTING_DEPTH {
      var back := f.(stack := PopStack(f.stack, indent));
      PopKeepsChained(f, back.stack);
      AddBlockKeepsChained(back, t, line, endLine, indent);
    }
  }

  lemma BranchKeepsChained(f: Forest, owner: BlockType, t: BlockType, tok: Token)
    requires Chained(f) && Ready(f)
    ensures Chained(Branch(f, owner, t, tok))
  {
    hide Chained;
    if f.open && StackHas(f.nodes, f.stack, owner) {
      var back := f.(stack := PopTo(f.nodes, f.stack, {owner}));
      PopKeepsChained(f, back.stack);
      AddBlockKeepsChained(back, t, tok.line, tok.endLine, tok.indent + 1);
    }
  }

  lemma HandlerKeepsChained(f: Forest, tok: Token)
    requires Chained(f) && Ready(f)
    ensures Chained(StartErrorHandler(f, tok))
  {
    hide Chained;
    if f.open && f.stack != [] && f.nodes[f.stack[|f.stack| - 1].block].btype == BlockBlock {
      var p := f.stack[|f.stack| - 1].block;
      var other := f.nodes[p := f.nodes[p].(btype := ErrorHandlerType)];
      RetypeKeepsChained(f, other, true);
      AddBlockKeepsChained(f.(nodes := other, skipNextEnd := true), ActionType, tok.line, tok.endLine, 0);
    } else {
      InsertKeepsChained(f, ErrorHandlerType, tok.indent, tok.line, tok.endLine);
    }
  }

  lemma SkipKeepsChained(f: Forest, skip: bool)
    requires Chained(f)
    ensures Chained(f.(skipNextEnd := skip))
  {}

  lemma CloseKeepsChained(f: Forest, tok: Token)
    requires Chained(f) && Ready(f)
    ensures Chained(CloseBlock(f, tok))
  {
    hide Chained;
    if f.open {
      var back := f.(stack := PopTo(f.nodes, f.stack, if f.skipNextEnd then {ErrorHandlerType} else CLOSABLE));
      PopKeepsChained(f, back.stack);
      if f.skipNextEnd {
        SkipKeepsChained(back, false);
        back := back.(skipNextEnd := false);
      }
      if back.stack != [] {
        AddBlockKeepsChained(back, EndType, tok.line, 0, 0);
        var ended := AddBlock(back, EndType, tok.line, 0);
        PopKeepsChained(ended, ended.stack[..|ended.stack| - 1]);
      }
    }
  }

  lemma SubflowStartKeepsChained(f: Forest)
    requires Chained(f)
    ensures Chained(f.(built := f.built + [[]], open := true, stack := [])) && Chained(f.(open := false, stack := []))
  {
    assert AreRoots(f.nodes, []) && PreOrder(f.nodes, []) == [];
    DocumentParts(f.nodes, f.built, []);
  }

  lemma StepKeepsChained(f: Forest, tok: Token)
    requires Chained(f) && Ready(f)
    ensures Chained(Step(f, tok))
  {
    hide Chained, GuardedInsert, Branch, StartErrorHandler, CloseBlock;
    match tok.kind {
      case TokSubflowStart => SubflowStartKeepsChained(f);
      case TokSubflowEnd => SubflowStartKeepsChained(f);
      case TokErrorHandlerStart => HandlerKeepsChained(f, tok);
      case TokBlockStart => InsertKeepsChained(f, BlockBlock, tok.indent, tok.line, tok.endLine);
      case TokSwitchStart => InsertKeepsChained(f, SwitchType, tok.indent, tok.line, tok.endLine);
      case TokLoopStart => InsertKeepsChained(f, LoopType, tok.indent, tok.line, tok.endLine);
      case TokConditionStart => InsertKeepsChained(f, ConditionType, tok.indent, tok.line, tok.endLine);
      case TokCase => BranchKeepsChained(f, SwitchType, CaseType, tok);
      case TokDefault => BranchKeepsChained(f, SwitchType, DefaultType, tok);
      case TokConditionElse => BranchKeepsChained(f, ConditionType, ElseType, tok);
      case TokEnd => CloseKeepsChained(f, tok);
      case TokComment => InsertKeepsChained(f, CommentType, tok.indent, tok.line, 0);
      case TokAction => InsertKeepsChained(f, tok.classified, tok.indent, tok.line, tok.endLine);
      case _ =>
    }
  }

  /** After any token sequence: every block created occurs once, pre-order is creation order,
      children name their parent, and the open blocks are a chain on the rightmost spine. */
  lemma {:induction false} ParseChained(tokens: seq<Token>)
    ensures Chained(Parse(tokens))
  {
    if tokens != [] {
      ParseChained(tokens[..|tokens| - 1]);
      hide Chained, Step;
      StepKeepsChained(Parse(tokens[..|tokens| - 1]), tokens[|tokens| - 1]);
    }
  }
}
