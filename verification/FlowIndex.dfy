/**
  The structural indexes of a flow that the rules and the engine read (core/analyzer/facts.go): blocks by id, parents,
  sibling groups, places and subflows.
 */
module FlowIndex {

  /** `subflow` is the id the block records, which need not be the id of the subflow it is in. */
  datatype Block = Block(id: string, subflow: string, isEnd: bool, children: seq<Block>)

  datatype Subflow = Subflow(id: string, blocks: seq<Block>)

  type Flow = seq<Subflow>

  /** Every block of a sibling group and below, in pre-order. */
  function Walk(group: seq<Block>): seq<Block> {
    if group == [] then [] else [group[0]] + Walk(group[0].children) + Walk(group[1..])
  }

  function WalkFlow(flow: Flow): seq<Block> {
    if flow == [] then [] else Walk(flow[0].blocks) + WalkFlow(flow[1..])
  }

  /** The blocks that are no END. */
  function Concrete(blocks: seq<Block>): seq<Block> {
    if blocks == [] then [] else (if blocks[0].isEnd then [] else [blocks[0]]) + Concrete(blocks[1..])
  }

  function IdsOf(blocks: seq<Block>): set<string> {
    set b | b in blocks :: b.id
  }

  // ----- The indexes -----

  datatype Index = Index(
    all: map<string, Block>, parents: map<string, string>, siblings: map<string, seq<Block>>,
    places: map<string, nat>, subflows: map<string, nat>, total: nat)

  const NO_INDEX := Index(map[], map[], map[], map[], map[], 0)

  function AddBlock(ix: Index, b: Block, place: nat, parent: string): Index {
    ix.(all := ix.all[b.id := b], places := ix.places[b.id := place], total := ix.total + 1,
        parents := if parent != "" then ix.parents[b.id := parent] else ix.parents)
  }

  function AddGroup(ix: Index, ptrs: seq<Block>, parent: string): Index {
    if ptrs == [] then ix
    else AddBlock(AddGroup(ix, ptrs[..|ptrs| - 1], parent), ptrs[|ptrs| - 1], |ptrs| - 1, parent)
  }

  function SiblingKey(parent: string, subflow: string): string {
    if parent == "" then subflow else parent
  }

  /** Indexes one sibling group, and then the groups below it. */
  function Collect(ix: Index, group: seq<Block>, parent: string, subflow: string): Index
    decreases group, 1
  {
    var own := AddGroup(ix, Concrete(group), parent);
    CollectBelow(own.(siblings := own.siblings[SiblingKey(parent, subflow) := Concrete(group)]), group, subflow)
  }

  function CollectBelow(ix: Index, group: seq<Block>, subflow: string): Index
    decreases group, 0
  {
    if group == [] then ix
    else
      var b := group[0];
      CollectBelow(if b.children != [] then Collect(ix, b.children, b.id, subflow) else ix, group[1..], subflow)
  }

  function CollectFlow(flow: Flow): Index {
    if flow == [] then NO_INDEX
    else
      var n := |flow| - 1;
      var ix := Collect(CollectFlow(flow[..n]), flow[n].blocks, "", flow[n].id);
      ix.(subflows := ix.subflows[flow[n].id := n])
  }

  /** The structural indexes of the source's rule context. */
  class Context {
    var ix: Index

    constructor (flow: Flow)
      ensures ix == CollectFlow(flow)
    {
      ix := NO_INDEX;
      new;
      for i := 0 to |flow|
        invariant ix == CollectFlow(flow[..i])
      {
        assert flow[..i + 1][..i] == flow[..i];
        CollectBlocks(flow[i].blocks, "", flow[i].id);
        ix := ix.(subflows := ix.subflows[flow[i].id := i]);
      }
      assert flow[..|flow|] == flow;
    }

    method CollectBlocks(group: seq<Block>, parent: string, subflow: string)
      modifies this
      ensures ix == Collect(old(ix), group, parent, subflow)
      decreases group
    {
      var ptrs := ConcreteBlocks(group);
      for i := 0 to |ptrs|
        invariant ix == AddGroup(old(ix), ptrs[..i], parent)
      {
        assert ptrs[..i + 1][..i] == ptrs[..i];
        ix := AddBlock(ix, ptrs[i], i, parent);
      }
      assert ptrs[..|ptrs|] == ptrs;
      ix := ix.(siblings := ix.siblings[SiblingKey(parent, subflow) := ptrs]);
      ghost var own := ix;
      assert group[0..] == group;
      for i := 0 to |group|
        invariant CollectBelow(ix, group[i..], subflow) == CollectBelow(own, group, subflow)
      {
        hide AddBlock, AddGroup;
        assert group[i..][0] == group[i] && group[i..][1..] == group[i + 1..];
        if group[i].children != [] {
          CollectBlocks(group[i].children, group[i].id, subflow);
        }
      }
      assert group[|group|..] == [];
    }
  }

  method ConcreteBlocks(group: seq<Block>) returns (ptrs: seq<Block>)
    ensures ptrs == Concrete(group)
  {
    ptrs := [];
    for i := 0 to |group|
      invariant ptrs == Concrete(group[..i])
    {
      assert group[..i + 1] == group[..i] + [group[i]];
      ConcreteConcat(group[..i], [group[i]]);
      if !group[i].isEnd {
        ptrs := ptrs + [group[i]];
      }
    }
    assert group[..|group|] == group;
  }

  // ----- What the indexes hold -----

  /** The concrete blocks in the order in which they are indexed. */
  function Gathered(group: seq<Block>): seq<Block>
    decreases group, 1
  {
    Concrete(group) + GatheredBelow(group)
  }

  function GatheredBelow(group: seq<Block>): seq<Block>
    decreases group, 0
  {
    if group == [] then [] else Gathered(group[0].children) + GatheredBelow(group[1..])
  }

  lemma {:induction false} ConcreteConcat(a: seq<Block>, b: seq<Block>)
    ensures Concrete(a + b) == Concrete(a) + Concrete(b)
  {
    if a == [] {
      assert a + b == b;
    } else {
      assert (a + b)[1..] == a[1..] + b;
      ConcreteConcat(a[1..], b);
    }
  }

  lemma {:induction false} ConcreteMember(blocks: seq<Block>, b: Block)
    ensures b in Concrete(blocks) <==> b in blocks && !b.isEnd
  {
    if blocks != [] {
      assert blocks == [blocks[0]] + blocks[1..];
      ConcreteMember(blocks[1..], b);
    }
  }

  lemma {:induction false} GatheredIsWalk(group: seq<Block>)
    ensures multiset(Gathered(group)) == multiset(Concrete(Walk(group)))
    decreases group
  {
    if group != [] {
      var b := group[0];
      GatheredIsWalk(b.children);
      GatheredIsWalk(group[1..]);
      ConcreteConcat([b], Walk(b.children));
      ConcreteConcat([b] + Walk(b.children), Walk(group[1..]));
    }
  }

  /** `after` is `before` with the given concrete blocks added. */
  ghost predicate Added(before: Index, after: Index, blocks: seq<Block>) {
    && after.all.Keys == before.all.Keys + IdsOf(blocks)
    && after.total == before.total + |blocks|
    && after.subflows == before.subflows
    && forall id :: id in after.all ==>
         (after.all[id] in blocks && after.all[id].id == id) || (id in before.all && after.all[id] == before.all[id])
  }

  lemma AddedChain(a: Index, b: Index, c: Index, x: seq<Block>, y: seq<Block>)
    requires Added(a, b, x) && Added(b, c, y)
    ensures Added(a, c, x + y)
  {
    assert IdsOf(x + y) == IdsOf(x) + IdsOf(y);
  }

  lemma {:induction false} GroupAdds(ix: Index, ptrs: seq<Block>, parent: string)
    ensures Added(ix, AddGroup(ix, ptrs, parent), ptrs)
    ensures AddGroup(ix, ptrs, parent).siblings == ix.siblings
    decreases |ptrs|
  {
    if ptrs != [] {
      var init, b := ptrs[..|ptrs| - 1], ptrs[|ptrs| - 1];
      GroupAdds(ix, init, parent);
      assert Added(AddGroup(ix, init, parent), AddGroup(ix, ptrs, parent), [b]);
      AddedChain(ix, AddGroup(ix, init, parent), AddGroup(ix, ptrs, parent), init, [b]);
      assert ptrs == init + [b];
    }
  }

  lemma {:induction false} CollectAdds(ix: Index, group: seq<Block>, parent: string, subflow: string)
    ensures Added(ix, Collect(ix, group, parent, subflow), Gathered(group))
    decreases group, 1
  {
    hide Concrete, AddGroup, IdsOf;
    var own := AddGroup(ix, Concrete(group), parent);
    GroupAdds(ix, Concrete(group), parent);
    var filed := own.(siblings := own.siblings[SiblingKey(parent, subflow) := Concrete(group)]);
    BelowAdds(filed, group, subflow);
    assert Added(ix, filed, Concrete(group));
    AddedChain(ix, filed, CollectBelow(filed, group, subflow), Concrete(group), GatheredBelow(group));
  }

  lemma {:induction false} BelowAdds(ix: Index, group: seq<Block>, subflow: string)
    ensures Added(ix, CollectBelow(ix, group, subflow), GatheredBelow(group))
    decreases group, 0
  {
    if group != [] {
      var b := group[0];
      var next := if b.children != [] then Collect(ix, b.children, b.id, subflow) else ix;
      if b.children != [] {
        CollectAdds(ix, b.children, b.id, subflow);
      }
      assert Added(ix, next, Gathered(b.children));
      BelowAdds(next, group[1..], subflow);
      AddedChain(ix, next, CollectBelow(next, group[1..], subflow), Gathered(b.children), GatheredBelow(group[1..]));
    }
  }

  /** Block ids are never empty. */
  predicate Named(blocks: seq<Block>) {
    forall b :: b in blocks ==> b.id != ""
  }

  /** Every block of the group filed under `key` has a recorded parent. */
  ghost predicate Nested(ix: Index, key: string) {
    key in ix.siblings && forall b :: b in ix.siblings[key] ==> b.id in ix.parents
  }

  /** From `before` to `after` only nested groups were filed, and no parent was lost. */
  ghost predicate OnlyNested(before: Index, after: Index) {
    && before.parents.Keys <= after.parents.Keys
    && (forall id :: id in after.parents ==>
          after.parents[id] != "" || (id in before.parents && before.parents[id] == ""))
    && forall key :: key in after.siblings ==>
         Nested(after, key) || (key in before.siblings && after.siblings[key] == before.siblings[key])
  }

  lemma {:induction false} GroupParents(ix: Index, ptrs: seq<Block>, parent: string)
    ensures var after := AddGroup(ix, ptrs, parent);
            && after.siblings == ix.siblings && ix.parents.Keys <= after.parents.Keys
            && (parent == "" ==> after.parents == ix.parents)
            && (parent != "" ==> forall b :: b in ptrs ==> b.id in after.parents)
            && forall id :: id in after.parents ==>
                 after.parents[id] == parent != "" || (id in ix.parents && after.parents[id] == ix.parents[id])
    decreases |ptrs|
  {
    if ptrs != [] {
      var init := ptrs[..|ptrs| - 1];
      GroupParents(ix, init, parent);
      assert ptrs == init + [ptrs[|ptrs| - 1]];
    }
  }

  lemma {:induction false} CollectNested(ix: Index, group: seq<Block>, parent: string, subflow: string)
    requires Named(Walk(group)) && parent != ""
    ensures OnlyNested(ix, Collect(ix, group, parent, subflow))
    decreases group, 1
  {
    hide Concrete, AddGroup, Walk;
    var own := AddGroup(ix, Concrete(group), parent);
    GroupParents(ix, Concrete(group), parent);
    var filed := own.(siblings := own.siblings[parent := Concrete(group)]);
    assert Nested(filed, parent);
    assert OnlyNested(ix, filed);
    BelowNested(filed, group, subflow);
  }

  lemma {:induction false} BelowNested(ix: Index, group: seq<Block>, subflow: string)
    requires Named(Walk(group))
    ensures OnlyNested(ix, CollectBelow(ix, group, subflow))
    decreases group, 0
  {
    if group != [] {
      var b := group[0];
      var next := if b.children != [] then Collect(ix, b.children, b.id, subflow) else ix;
      assert b in Walk(group);
      assert forall x :: x in Walk(b.children) || x in Walk(group[1..]) ==> x in Walk(group);
      if b.children != [] {
        CollectNested(ix, b.children, b.id, subflow);
      }
      BelowNested(next, group[1..], subflow);
    }
  }

  /** What the finished index says about subflows and their groups. */
  ghost predicate GroupsKnown(flow: Flow, ix: Index) {
    && (forall name :: name in ix.subflows ==> ix.subflows[name] < |flow| && flow[ix.subflows[name]].id == name)
    && (forall id :: id in ix.parents ==> ix.parents[id] != "")
    && forall key :: key in ix.siblings ==>
         Nested(ix, key) || (key in ix.subflows && ix.siblings[key] == Concrete(flow[ix.subflows[key]].blocks))
  }

  lemma {:induction false} FlowGroups(flow: Flow)
    requires Named(WalkFlow(flow))
    ensures GroupsKnown(flow, CollectFlow(flow))
  {
    hide Walk, GroupsKnown, Collect;
    if flow == [] {
      NothingKnown();
    } else {
      var n := |flow| - 1;
      var was, sf := CollectFlow(flow[..n]), flow[n];
      WalkFlowConcat(flow[..n], [sf]);
      assert flow == flow[..n] + [sf];
      assert WalkFlow([sf]) == Walk(sf.blocks);
      FlowGroups(flow[..n]);
      FlowGroupsStep(flow, was);
    }
  }

  lemma NothingKnown()
    ensures GroupsKnown([], NO_INDEX)
  {
  }

  lemma FlowGroupsStep(flow: Flow, was: Index)
    requires flow != [] && GroupsKnown(flow[..|flow| - 1], was) && Named(Walk(flow[|flow| - 1].blocks))
    ensures var n := |flow| - 1;
            var ix := Collect(was, flow[n].blocks, "", flow[n].id);
            GroupsKnown(flow, ix.(subflows := ix.subflows[flow[n].id := n]))
  {
    hide Walk, Concrete, AddGroup, CollectBelow;
    var n := |flow| - 1;
    var sf := flow[n];
    var own := AddGroup(was, Concrete(sf.blocks), "");
    GroupParents(was, Concrete(sf.blocks), "");
    var filed := own.(siblings := own.siblings[sf.id := Concrete(sf.blocks)]);
    BelowNested(filed, sf.blocks, sf.id);
    CollectAdds(was, sf.blocks, "", sf.id);
    var ix := Collect(was, sf.blocks, "", sf.id);
    assert ix == CollectBelow(filed, sf.blocks, sf.id);
  }

  lemma {:induction false} WalkFlowConcat(a: Flow, b: Flow)
    ensures WalkFlow(a + b) == WalkFlow(a) + WalkFlow(b)
  {
    if a == [] {
      assert a + b == b;
    } else {
      assert (a + b)[1..] == a[1..] + b;
      WalkFlowConcat(a[1..], b);
    }
  }

  /** The index holds exactly the concrete blocks of the flow. */
  lemma {:induction false} FlowAdds(flow: Flow)
    ensures var ix, blocks := CollectFlow(flow), Concrete(WalkFlow(flow));
            ix.all.Keys == IdsOf(blocks) && ix.total == |blocks| &&
            forall id :: id in ix.all ==> ix.all[id] in blocks && ix.all[id].id == id
  {
    hide Walk, Collect, Gathered;
    if flow != [] {
      hide Concrete;
      var n := |flow| - 1;
      var sf, was := flow[n], CollectFlow(flow[..n]);
      FlowAdds(flow[..n]);
      CollectAdds(was, sf.blocks, "", sf.id);
      GatheredIsWalk(sf.blocks);
      SameBlocks(Gathered(sf.blocks), Concrete(Walk(sf.blocks)));
      assert WalkFlow([sf]) == Walk(sf.blocks);
      WalkFlowConcat(flow[..n], [sf]);
      assert flow == flow[..n] + [sf];
      ConcreteConcat(WalkFlow(flow[..n]), Walk(sf.blocks));
    }
  }

  lemma SameBlocks(a: seq<Block>, b: seq<Block>)
    requires multiset(a) == multiset(b)
    ensures |a| == |b| && IdsOf(a) == IdsOf(b) && forall x :: x in a <==> x in b
  {
    assert |multiset(a)| == |a| && |multiset(b)| == |b|;
    forall x ensures x in a <==> x in b {
      assert x in a <==> x in multiset(a);
    }
  }

  // ----- Uniqueness -----

  /** Two blocks with one id are both ENDs. */
  ghost predicate Unique(blocks: seq<Block>) {
    blocks != [] ==>
      Unique(blocks[1..]) && forall b :: b in blocks[1..] && b.id == blocks[0].id ==> blocks[0].isEnd && b.isEnd
  }

  /** No END has the id of a concrete block. */
  ghost predicate EndsApart(blocks: seq<Block>) {
    forall x, y :: x in blocks && y in blocks && x.isEnd && x.id == y.id ==> y.isEnd
  }

  predicate Distinct(blocks: seq<Block>) {
    blocks != [] ==> blocks[0].id !in IdsOf(blocks[1..]) && Distinct(blocks[1..])
  }

  lemma {:induction false} IdCount(blocks: seq<Block>)
    ensures |IdsOf(blocks)| <= |blocks|
    ensures |IdsOf(blocks)| == |blocks| <==> Distinct(blocks)
  {
    if blocks == [] {
      assert IdsOf(blocks) == {};
    } else {
      var first, rest := blocks[0], blocks[1..];
      IdCount(rest);
      assert blocks == [first] + rest;
      assert IdsOf(blocks) == {first.id} + IdsOf(rest);
      assert first.id in IdsOf(rest) ==> IdsOf(blocks) == IdsOf(rest);
      assert first.id !in IdsOf(rest) ==> |IdsOf(blocks)| == 1 + |IdsOf(rest)|;
    }
  }

  lemma {:induction false} UniqueIsDistinct(blocks: seq<Block>)
    requires EndsApart(blocks)
    ensures Unique(blocks) <==> Distinct(Concrete(blocks))
  {
    if blocks != [] {
      var first, rest := blocks[0], blocks[1..];
      assert blocks == [first] + rest;
      assert EndsApart(rest);
      UniqueIsDistinct(rest);
      forall b ensures b in Concrete(rest) <==> b in rest && !b.isEnd {
        ConcreteMember(rest, b);
      }
      if first.isEnd {
        assert Concrete(blocks) == Concrete(rest);
        assert forall b :: b in rest && b.id == first.id ==> b.isEnd;
      } else {
        assert Concrete(blocks)[1..] == Concrete(rest);
        assert forall b :: b in rest && b.id == first.id ==> !b.isEnd;
        assert first.id in IdsOf(Concrete(rest)) <==> exists b :: b in rest && b.id == first.id;
      }
    }
  }

  lemma {:induction false} UniqueAcross(a: seq<Block>, b: seq<Block>, x: Block, y: Block)
    requires Unique(a + b) && x in a && y in b && x.id == y.id
    ensures x.isEnd && y.isEnd
  {
    assert (a + b)[1..] == a[1..] + b;
    if x in a[1..] {
      UniqueAcross(a[1..], b, x, y);
    }
  }

  /** The count test finds duplicates: it holds exactly when no two concrete blocks share an id. */
  lemma CountTestsIds(flow: Flow)
    ensures |CollectFlow(flow).all| == CollectFlow(flow).total <==> Distinct(Concrete(WalkFlow(flow)))
  {
    hide Concrete, CollectFlow, WalkFlow;
    FlowAdds(flow);
    assert |CollectFlow(flow).all| == |CollectFlow(flow).all.Keys|;
    IdCount(Concrete(WalkFlow(flow)));
  }
}
