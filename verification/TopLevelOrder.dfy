/**
  Why the fast path of the document-order sort can be trusted (core/analyzer/engine.go, `inTopLevelOrder`): with ids
  as the parser mints them, the places read off the indexes are top-level places and follow the document; and for
  findings on top-level blocks the fast path is taken whenever they are in order.
 */
module TopLevelOrder {
  import opened Options
  import opened FlowIndex
  import opened DocumentOrder

  // ----- Positions of top-level blocks -----

  lemma {:induction false} FirstFinds(blocks: seq<Block>, id: string)
    ensures First(blocks, id) < |blocks| <==> id in IdsOf(blocks)
  {
    if blocks != [] {
      assert blocks == [blocks[0]] + blocks[1..];
      FirstFinds(blocks[1..], id);
    }
  }

  /** A block before a cut comes before a block after it. */
  lemma SplitOrder(blocks: seq<Block>, n: nat, x: Block, y: Block)
    requires Unique(blocks) && n <= |blocks| && x in blocks[..n] && y in blocks[n..] && !y.isEnd
    ensures First(blocks, x.id) < First(blocks, y.id)
  {
    hide First, Unique;
    var a, b := blocks[..n], blocks[n..];
    assert blocks == a + b;
    FirstConcat(a, b, x.id);
    FirstConcat(a, b, y.id);
    FirstFinds(a, x.id);
    FirstFinds(a, y.id);
    forall z | z in a ensures z.id != y.id {
      if z.id == y.id {
        UniqueAcross(a, b, z, y);
      }
    }
  }

  lemma {:induction false} GroupSplit(group: seq<Block>, i: nat, j: nat) returns (n: nat)
    requires i < j < |Concrete(group)|
    ensures n <= |Walk(group)| && Concrete(group)[i] in Walk(group)[..n] && Concrete(group)[j] in Walk(group)[n..]
  {
    hide Walk, Concrete;
    GroupParts(group);
    var h, rest := group[0], group[1..];
    var front, after := [h] + Walk(h.children), Walk(rest);
    if !h.isEnd && i == 0 {
      n := |front|;
      CutAt(front, after, 0);
      TopInWalk(rest, j - 1);
      assert Concrete(group)[j] == Concrete(rest)[j - 1];
    } else {
      var d := if h.isEnd then 0 else 1;
      var m := GroupSplit(rest, i - d, j - d);
      n := |front| + m;
      CutAt(front, after, m);
      assert Concrete(group)[i] == Concrete(rest)[i - d] && Concrete(group)[j] == Concrete(rest)[j - d];
    }
  }

  lemma GroupParts(group: seq<Block>)
    ensures group == [] ==> Concrete(group) == []
    ensures group != [] ==>
      Walk(group) == [group[0]] + Walk(group[0].children) + Walk(group[1..]) &&
      Concrete(group) == (if group[0].isEnd then [] else [group[0]]) + Concrete(group[1..])
  {
  }

  lemma CutAt(a: seq<Block>, b: seq<Block>, m: nat)
    requires m <= |b|
    ensures (a + b)[..|a| + m] == a + b[..m] && (a + b)[|a| + m..] == b[m..]
    ensures m == 0 ==> b[..m] == [] && b[m..] == b
  {
  }

  lemma {:induction false} TopInWalk(group: seq<Block>, j: nat)
    requires j < |Concrete(group)|
    ensures Concrete(group)[j] in Walk(group) && !Concrete(group)[j].isEnd
  {
    if group[0].isEnd || j > 0 {
      TopInWalk(group[1..], if group[0].isEnd then j else j - 1);
    }
  }

  function Top(flow: Flow, s: nat, j: nat): Block
    requires s < |flow| && j < |Concrete(flow[s].blocks)|
  {
    Concrete(flow[s].blocks)[j]
  }

  lemma FlowCut(flow: Flow, s: nat)
    requires s < |flow|
    ensures WalkFlow(flow) == WalkFlow(flow[..s]) + Walk(flow[s].blocks) + WalkFlow(flow[s + 1..])
  {
    hide WalkFlow, Walk;
    WalkFlowConcat(flow[..s], flow[s..]);
    assert flow == flow[..s] + flow[s..];
    FlowParts(flow[s..]);
    assert flow[s..][1..] == flow[s + 1..];
  }

  lemma FlowParts(flow: Flow)
    requires flow != []
    ensures WalkFlow(flow) == Walk(flow[0].blocks) + WalkFlow(flow[1..])
  {
  }

  /** Top-level blocks come in the order of their subflows and, within one, of their places. */
  lemma TopOrder(flow: Flow, s: nat, i: nat, t: nat, j: nat)
    requires Unique(WalkFlow(flow)) && s < |flow| && t < |flow|
    requires i < |Concrete(flow[s].blocks)| && j < |Concrete(flow[t].blocks)| && (s < t || (s == t && i < j))
    ensures First(WalkFlow(flow), Top(flow, s, i).id) < First(WalkFlow(flow), Top(flow, t, j).id)
  {
    hide Walk, WalkFlow, Concrete, First, Unique;
    var ws, before, own := WalkFlow(flow), WalkFlow(flow[..t]), Walk(flow[t].blocks);
    FlowCut(flow, t);
    TopInWalk(flow[s].blocks, i);
    TopInWalk(flow[t].blocks, j);
    var n := |before|;
    if s < t {
      FlowCut(flow[..t], s);
      assert ws[..n] == before && own <= ws[n..];
    } else {
      var m := GroupSplit(flow[t].blocks, i, j);
      assert ws[..n + m] == before + own[..m] && own[m..] <= ws[n + m..];
      n := n + m;
    }
    SplitOrder(ws, n, Top(flow, s, i), Top(flow, t, j));
  }

  /** A place the index gives is the block's own: the grouping by id cannot have mixed it with a nested one. */
  lemma TopPlaceIsTop(flow: Flow, id: string)
    requires Named(WalkFlow(flow))
    ensures var p := TopPlace(CollectFlow(flow), flow, id);
            p.Some? ==> var (s, j) := p.value; s < |flow| && j < |Concrete(flow[s].blocks)| && Top(flow, s, j).id == id
  {
    hide CollectFlow, WalkFlow, Concrete;
    FlowGroups(flow);
    FlowAdds(flow);
  }

  /** With ids that are not empty, no END with another block's id, and no duplicates, places follow the document. */
  lemma MintedPlacesFollow(flow: Flow)
    requires Named(WalkFlow(flow)) && EndsApart(WalkFlow(flow)) && |CollectFlow(flow).all| == CollectFlow(flow).total
    ensures PlacesFollow(flow)
  {
    hide *;
    CountTestsIds(flow);
    UniqueIsDistinct(WalkFlow(flow));
    UniquePlacesFollow(flow);
  }

  lemma UniquePlacesFollow(flow: Flow)
    requires Named(WalkFlow(flow)) && Unique(WalkFlow(flow))
    ensures PlacesFollow(flow)
  {
    hide CollectFlow, WalkFlow, First, TopPlace, Concrete, Top, Named, Unique;
    forall x, y | x in CollectFlow(flow).all && y in CollectFlow(flow).all && x != "" && y != ""
      ensures PairFollows(flow, x, y) {
      TopPlaceIsTop(flow, x);
      TopPlaceIsTop(flow, y);
      var p, q := TopPlace(CollectFlow(flow), flow, x), TopPlace(CollectFlow(flow), flow, y);
      if p.Some? && q.Some? && NoLater(p.value, q.value) && p != q {
        TopOrder(flow, p.value.0, p.value.1, q.value.0, q.value.1);
      }
    }
  }

  // ----- When the fast path is taken -----

  /** As the parser builds a flow: subflow ids differ, no block has one, and blocks record their own subflow. */
  ghost predicate Homed(flow: Flow) {
    && (forall s, t :: 0 <= s < t < |flow| ==> flow[s].id != flow[t].id)
    && (forall s, t :: 0 <= s < |flow| && 0 <= t < |flow| ==> flow[s].id !in IdsOf(Walk(flow[t].blocks)))
    && forall s, b :: 0 <= s < |flow| && b in Walk(flow[s].blocks) ==> b.subflow == flow[s].id
  }

  /** The blocks under a group's own. */
  function Below(group: seq<Block>): seq<Block> {
    if group == [] then [] else Walk(group[0].children) + Below(group[1..])
  }

  lemma {:induction false} WalkParts(group: seq<Block>, b: Block)
    ensures b in Walk(group) <==> b in group || b in Below(group)
  {
    if group != [] {
      assert group == [group[0]] + group[1..];
      WalkParts(group[1..], b);
    }
  }

  /** Nothing about block id `id` changed. */
  ghost predicate SamePlace(before: Index, after: Index, id: string) {
    && (id in after.parents <==> id in before.parents)
    && (id in after.places <==> id in before.places)
    && (id in before.places ==> after.places[id] == before.places[id])
  }

  lemma {:induction false} GroupFrame(ix: Index, ptrs: seq<Block>, parent: string, id: string)
    requires id !in IdsOf(ptrs)
    ensures SamePlace(ix, AddGroup(ix, ptrs, parent), id)
    decreases |ptrs|
  {
    if ptrs != [] {
      var init := ptrs[..|ptrs| - 1];
      assert ptrs == init + [ptrs[|ptrs| - 1]];
      GroupFrame(ix, init, parent, id);
    }
  }

  lemma {:induction false} CollectFrame(ix: Index, group: seq<Block>, parent: string, subflow: string, id: string)
    requires id !in IdsOf(Walk(group))
    ensures SamePlace(ix, Collect(ix, group, parent, subflow), id)
    decreases group, 1
  {
    hide AddGroup, Walk, Concrete, Below;
    forall b | b in Concrete(group) || b in Below(group) ensures b in Walk(group) {
      ConcreteMember(group, b);
      WalkParts(group, b);
    }
    GroupFrame(ix, Concrete(group), parent, id);
    var own := AddGroup(ix, Concrete(group), parent);
    BelowFrame(own.(siblings := own.siblings[SiblingKey(parent, subflow) := Concrete(group)]), group, subflow, id);
  }

  lemma {:induction false} BelowFrame(ix: Index, group: seq<Block>, subflow: string, id: string)
    requires id !in IdsOf(Below(group))
    ensures SamePlace(ix, CollectBelow(ix, group, subflow), id)
    decreases group, 0
  {
    if group != [] {
      var b := group[0];
      assert IdsOf(Below(group)) == IdsOf(Walk(b.children)) + IdsOf(Below(group[1..]));
      if b.children != [] {
        CollectFrame(ix, b.children, b.id, subflow, id);
      }
      BelowFrame(if b.children != [] then Collect(ix, b.children, b.id, subflow) else ix, group[1..], subflow, id);
    }
  }

  ghost predicate SameGroup(before: Index, after: Index, key: string) {
    (key in after.siblings <==> key in before.siblings) &&
      (key in before.siblings ==> after.siblings[key] == before.siblings[key])
  }

  /** A group filed under an id no block here has stays as it is. */
  lemma {:induction false} KeyFrame(ix: Index, group: seq<Block>, subflow: string, key: string)
    requires Named(Walk(group)) && key !in IdsOf(Walk(group))
    ensures SameGroup(ix, CollectBelow(ix, group, subflow), key)
    decreases group
  {
    if group != [] {
      var b := group[0];
      assert b in Walk(group);
      assert forall x :: x in Walk(b.children) || x in Walk(group[1..]) ==> x in Walk(group);
      var next := ix;
      if b.children != [] {
        var own := AddGroup(ix, Concrete(b.children), b.id);
        GroupParents(ix, Concrete(b.children), b.id);
        var filed := own.(siblings := own.siblings[b.id := Concrete(b.children)]);
        KeyFrame(filed, b.children, subflow, key);
        next := Collect(ix, b.children, b.id, subflow);
      }
      KeyFrame(next, group[1..], subflow, key);
    }
  }

  lemma {:induction false} GroupPlaces(ix: Index, ptrs: seq<Block>, parent: string, j: nat)
    requires j < |ptrs| && forall i :: 0 <= i < |ptrs| && i != j ==> ptrs[i].id != ptrs[j].id
    ensures var places := AddGroup(ix, ptrs, parent).places; ptrs[j].id in places && places[ptrs[j].id] == j
    decreases |ptrs|
  {
    if j < |ptrs| - 1 {
      GroupPlaces(ix, ptrs[..|ptrs| - 1], parent, j);
    }
  }

  lemma {:induction false} TopApart(group: seq<Block>, x: Block, y: Block)
    requires Unique(Walk(group)) && x in group && !x.isEnd && y in Below(group)
    ensures x.id != y.id
  {
    var h, rest := group[0], group[1..];
    var front := [h] + Walk(h.children);
    assert Walk(group) == front + Walk(rest) && Walk(group) == [h] + (Walk(h.children) + Walk(rest));
    WalkParts(rest, y);
    WalkParts(rest, x);
    if x.id == y.id {
      if y in Below(rest) && x in rest {
        UniqueTail(front, Walk(rest));
        TopApart(rest, x, y);
      } else if x in rest {
        UniqueAcross(front, Walk(rest), y, x);
      } else {
        UniqueAcross([h], Walk(h.children) + Walk(rest), x, y);
      }
    }
  }

  lemma {:induction false} UniqueTail(a: seq<Block>, b: seq<Block>)
    requires Unique(a + b)
    ensures Unique(b)
  {
    if a == [] {
      assert a + b == b;
    } else {
      assert (a + b)[1..] == a[1..] + b;
      UniqueTail(a[1..], b);
    }
  }

  lemma {:induction false} UniqueHead(a: seq<Block>, b: seq<Block>)
    requires Unique(a + b)
    ensures Unique(a)
  {
    if a != [] {
      assert (a + b)[1..] == a[1..] + b;
      UniqueHead(a[1..], b);
    }
  }

  lemma {:induction false} UniqueSame(blocks: seq<Block>, x: Block, y: Block)
    requires Unique(blocks) && x in blocks && y in blocks && x.id == y.id && !x.isEnd
    ensures x == y
  {
    assert blocks == [blocks[0]] + blocks[1..];
    if x in blocks[1..] && y in blocks[1..] {
      UniqueSame(blocks[1..], x, y);
    }
  }

  lemma {:induction false} FlowFrame(flow: Flow, id: string)
    requires id !in IdsOf(WalkFlow(flow))
    ensures id !in CollectFlow(flow).parents
    decreases |flow|
  {
    hide Walk, Collect, Concrete;
    if flow != [] {
      var n := |flow| - 1;
      FlowCut(flow, n);
      assert IdsOf(WalkFlow(flow)) == IdsOf(WalkFlow(flow[..n])) + IdsOf(Walk(flow[n].blocks));
      FlowFrame(flow[..n], id);
      CollectFrame(CollectFlow(flow[..n]), flow[n].blocks, "", flow[n].id, id);
    }
  }

  /** The index knows where a top-level block is. */
  ghost predicate Knows(ix: Index, flow: Flow, s: nat, j: nat)
    requires s < |flow| && j < |Concrete(flow[s].blocks)|
  {
    var id, key := Top(flow, s, j).id, flow[s].id;
    && id !in ix.parents && id in ix.places && ix.places[id] == j
    && key in ix.siblings && ix.siblings[key] == Concrete(flow[s].blocks)
    && key in ix.subflows && ix.subflows[key] == s
  }

  lemma KnowsLast(flow: Flow, was: Index, j: nat)
    requires flow != [] && j < |Concrete(flow[|flow| - 1].blocks)|
    requires Named(WalkFlow(flow)) && Unique(WalkFlow(flow)) && Homed(flow) && was == CollectFlow(flow[..|flow| - 1])
    ensures Knows(CollectFlow(flow), flow, |flow| - 1, j)
  {
    hide Walk, AddGroup, CollectBelow, Concrete, WalkFlow, Below;
    var n := |flow| - 1;
    var sf, x := flow[n], Top(flow, n, j);
    FlowCut(flow, n);
    var before, own := WalkFlow(flow[..n]), Walk(sf.blocks);
    EmptyWalk(flow);
    assert WalkFlow(flow) == before + own;
    TopInWalk(sf.blocks, j);
    forall y | y in before ensures y.id != x.id {
      if y.id == x.id {
        UniqueAcross(before, own, y, x);
      }
    }
    FlowFrame(flow[..n], x.id);
    UniqueTail(before, own);
    TopMember(sf.blocks, j);
    forall y | y in Below(sf.blocks) ensures y.id != x.id {
      TopApart(sf.blocks, x, y);
    }
    forall i | 0 <= i < |Concrete(sf.blocks)| && i != j ensures Concrete(sf.blocks)[i].id != x.id {
      if i < j {
        TopOrder(flow, n, i, n, j);
      } else {
        TopOrder(flow, n, j, n, i);
      }
    }
    var added := AddGroup(was, Concrete(sf.blocks), "");
    GroupParents(was, Concrete(sf.blocks), "");
    GroupPlaces(was, Concrete(sf.blocks), "", j);
    var filed := added.(siblings := added.siblings[sf.id := Concrete(sf.blocks)]);
    BelowFrame(filed, sf.blocks, sf.id, x.id);
    KeyFrame(filed, sf.blocks, sf.id, sf.id);
  }

  lemma EmptyWalk(flow: Flow)
    ensures WalkFlow(flow[|flow|..]) == []
  {
  }

  lemma {:induction false} TopMember(group: seq<Block>, j: nat)
    requires j < |Concrete(group)|
    ensures Concrete(group)[j] in group && !Concrete(group)[j].isEnd
  {
    ConcreteMember(group, Concrete(group)[j]);
  }

  lemma {:induction false} TopKnown(flow: Flow, s: nat, j: nat)
    requires Named(WalkFlow(flow)) && Unique(WalkFlow(flow)) && Homed(flow)
    requires s < |flow| && j < |Concrete(flow[s].blocks)|
    ensures Knows(CollectFlow(flow), flow, s, j)
    decreases |flow|
  {
    hide Walk, AddGroup, CollectBelow, Concrete, WalkFlow, Below, IdsOf;
    var n := |flow| - 1;
    if s == n {
      KnowsLast(flow, CollectFlow(flow[..n]), j);
    } else {
      var sf, was := flow[n], CollectFlow(flow[..n]);
      var before, own := WalkFlow(flow[..n]), Walk(sf.blocks);
      FlowCut(flow, n);
      EmptyWalk(flow);
      assert WalkFlow(flow) == before + own;
      UniqueHead(before, own);
      assert Homed(flow[..n]);
      TopKnown(flow[..n], s, j);
      TopFar(flow, s, j);
      CollectFrame(was, sf.blocks, "", sf.id, Top(flow, s, j).id);
      var added := AddGroup(was, Concrete(sf.blocks), "");
      GroupParents(was, Concrete(sf.blocks), "");
      KeyFrame(added.(siblings := added.siblings[sf.id := Concrete(sf.blocks)]), sf.blocks, sf.id, flow[s].id);
      CollectAdds(was, sf.blocks, "", sf.id);
    }
  }

  lemma TopFar(flow: Flow, s: nat, j: nat)
    requires Unique(WalkFlow(flow)) && s < |flow| - 1 && j < |Concrete(flow[s].blocks)|
    ensures Top(flow, s, j).id !in IdsOf(Walk(flow[|flow| - 1].blocks))
  {
    hide Walk, Concrete, WalkFlow;
    var n := |flow| - 1;
    var before, own, x := WalkFlow(flow[..n]), Walk(flow[n].blocks), Top(flow, s, j);
    FlowCut(flow, n);
    EmptyWalk(flow);
    assert WalkFlow(flow) == before + own;
    FlowCut(flow[..n], s);
    TopInWalk(flow[s].blocks, j);
    forall y | y in own ensures y.id != x.id {
      if y.id == x.id {
        UniqueAcross(before, own, x, y);
      }
    }
  }

  lemma TopHasPlace(flow: Flow, s: nat, j: nat)
    requires Named(WalkFlow(flow)) && Unique(WalkFlow(flow)) && Homed(flow)
    requires s < |flow| && j < |Concrete(flow[s].blocks)|
    ensures TopPlace(CollectFlow(flow), flow, Top(flow, s, j).id) == Some((s, j))
  {
    hide Walk, Concrete, WalkFlow, CollectFlow, Unique;
    var x := Top(flow, s, j);
    TopKnown(flow, s, j);
    FlowAdds(flow);
    TopInWalk(flow[s].blocks, j);
    FlowCut(flow, s);
    ConcreteMember(WalkFlow(flow), x);
    var found := CollectFlow(flow).all[x.id];
    ConcreteMember(WalkFlow(flow), found);
    UniqueSame(WalkFlow(flow), found, x);
  }

  /** Every block a finding names is a top-level block. */
  ghost predicate AnchorsOnTop(flow: Flow, fs: seq<Finding>) {
    forall f :: f in fs && f.block != "" ==>
      exists s: nat, j: nat :: s < |flow| && j < |Concrete(flow[s].blocks)| && Top(flow, s, j).id == f.block
  }

  /** No finding is anchored before (`k`, `last`), and after a blockless one none is anchored. */
  ghost predicate NoneEarlier(flow: Flow, fs: seq<Finding>, k: nat, last: int, blockless: bool) {
    forall f, s: nat, j: nat ::
      f in fs && f.block != "" && s < |flow| && j < |Concrete(flow[s].blocks)| && Top(flow, s, j).id == f.block ==>
        !blockless && (k < s || (k == s && last <= j))
  }

  lemma {:induction false} SortedAscends(flow: Flow, fs: seq<Finding>, k: nat, last: int, blockless: bool)
    requires Named(WalkFlow(flow)) && Unique(WalkFlow(flow)) && Homed(flow)
    requires Sorted(WalkFlow(flow), fs) && AnchorsOnTop(flow, fs) && NoneEarlier(flow, fs, k, last, blockless)
    ensures Ascending(CollectFlow(flow), flow, fs, k, last, blockless)
    decreases |fs|
  {
    hide CollectFlow, WalkFlow, Concrete, First, Unique, Named, Top, TopPlace, Homed;
    if fs != [] {
      var ws, f, rest := WalkFlow(flow), fs[0], fs[1..];
      assert fs == [f] + rest;
      if f.block == "" {
        forall g | g in rest && g.block != "" ensures false {
          var s: nat, j: nat :| s < |flow| && j < |Concrete(flow[s].blocks)| && Top(flow, s, j).id == g.block;
          TopIsFound(flow, s, j);
        }
        SortedAscends(flow, rest, k, last, true);
      } else {
        var s: nat, j: nat :| s < |flow| && j < |Concrete(flow[s].blocks)| && Top(flow, s, j).id == f.block;
        TopHasPlace(flow, s, j);
        forall g, t: nat, i: nat | g in rest && t < |flow| && i < |Concrete(flow[t].blocks)| &&
          Top(flow, t, i).id == g.block
          ensures s < t || (s == t && j <= i) {
          if t < s || (t == s && i < j) {
            TopIsFound(flow, s, j);
            TopIsFound(flow, t, i);
            TopOrder(flow, t, i, s, j);
          }
        }
        SortedAscends(flow, rest, s, j, false);
      }
    }
  }

  lemma TopIsFound(flow: Flow, s: nat, j: nat)
    requires Named(WalkFlow(flow)) && s < |flow| && j < |Concrete(flow[s].blocks)|
    ensures First(WalkFlow(flow), Top(flow, s, j).id) < |WalkFlow(flow)| && Top(flow, s, j).id != ""
  {
    TopInWalk(flow[s].blocks, j);
    FlowCut(flow, s);
    FirstFinds(WalkFlow(flow), Top(flow, s, j).id);
  }

  /** For findings on top-level blocks the fast path is exact: it is taken just when the findings are in order. */
  lemma FastPathExact(flow: Flow, fs: seq<Finding>)
    requires Named(WalkFlow(flow)) && Unique(WalkFlow(flow)) && Homed(flow)
    requires AnchorsOnTop(flow, fs)
    ensures Ascending(CollectFlow(flow), flow, fs, 0, -1, false) <==> Sorted(WalkFlow(flow), fs)
  {
    hide *;
    AnyFloor(flow);
    AnyPlace(flow, fs);
    if Ascending(CollectFlow(flow), flow, fs, 0, -1, false) {
      UniquePlacesFollow(flow);
      AscendingSorted(flow, fs, 0, -1, false, 0);
    }
    if Sorted(WalkFlow(flow), fs) {
      SortedAscends(flow, fs, 0, -1, false);
    }
  }

  lemma AnyPlace(flow: Flow, fs: seq<Finding>)
    ensures NoneEarlier(flow, fs, 0, -1, false)
  {
  }

  // ----- When it cannot -----

  /** A document whose first block is an END with the id of its last block. */
  function SharedEnd(): Flow {
    [Subflow("s", [Block("b", "s", true, []), Block("a", "s", false, []), Block("b", "s", false, [])])]
  }

  lemma SharedEndWalk()
    ensures var e, a, b := Block("b", "s", true, []), Block("a", "s", false, []), Block("b", "s", false, []);
            && SharedEnd()[0].blocks == [e, a, b] && Concrete([e, a, b]) == [a, b] && WalkFlow(SharedEnd()) == [e, a, b]
            && First([e, a, b], "a") == 1 && First([e, a, b], "b") == 0
  {
    var e, a, b := Block("b", "s", true, []), Block("a", "s", false, []), Block("b", "s", false, []);
    assert [e, a, b][1..] == [a, b] && [a, b][1..] == [b] && [b][1..] == [];
    assert Concrete([b]) == [b];
    assert Walk([b]) == [b];
    assert Walk([a, b]) == [a, b];
    assert SharedEnd()[1..] == [];
    assert First([a, b], "a") == 0;
  }

  lemma SharedEndIndex()
    ensures var a, b := Block("a", "s", false, []), Block("b", "s", false, []);
            CollectFlow(SharedEnd()) ==
                Index(map["a" := a, "b" := b], map[], map["s" := [a, b]], map["a" := 0, "b" := 1], map["s" := 0], 2)
  {
    var e, a, b := Block("b", "s", true, []), Block("a", "s", false, []), Block("b", "s", false, []);
    SharedEndWalk();
    hide Walk, WalkFlow, Concrete, First;
    var flow := SharedEnd();
    assert flow[..0] == [] && CollectFlow([]) == NO_INDEX;
    assert [a, b][..1] == [a] && [a][..0] == [];
    var one := AddBlock(NO_INDEX, a, 0, "");
    assert AddGroup(NO_INDEX, [], "") == NO_INDEX;
    assert AddGroup(NO_INDEX, [a], "") == one;
    assert AddGroup(NO_INDEX, [a, b], "") == AddBlock(one, b, 1, "");
    NothingBelow(AddBlock(one, b, 1, "").(siblings := map["s" := [a, b]]), [e, a, b]);
  }

  lemma NothingBelow(ix: Index, group: seq<Block>)
    requires forall i :: 0 <= i < |group| ==> group[i].children == []
    ensures CollectBelow(ix, group, "s") == ix
  {
    if group != [] {
      NothingBelow(ix, group[1..]);
    }
  }

  /** There the fast path leaves findings on the other two blocks as they are, and the sort would swap them. */
  lemma SharedEndMisleads()
    ensures var fs := [Anchored("a"), Anchored("b")];
            FastPath(SharedEnd(), fs) && DocSort(SharedEnd(), fs) != StableSort(WalkFlow(SharedEnd()), fs)
  {
    var flow, fs := SharedEnd(), [Anchored("a"), Anchored("b")];
    SharedEndIndex();
    SharedEndWalk();
    hide CollectFlow, WalkFlow, First, Ascending, StableSort, Sorted;
    assert |CollectFlow(flow).all| == |CollectFlow(flow).all.Keys| == |{"a", "b"}|;
    assert TopPlace(CollectFlow(flow), flow, "a") == Some((0, 0)) &&
      TopPlace(CollectFlow(flow), flow, "b") == Some((0, 1));
    PairMisleads(flow, "a", "b");
    SortedStays(WalkFlow(flow), fs);
  }
}
