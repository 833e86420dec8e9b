/**
  Document order: the sort of a flow rule's findings by the position of their anchors, with its fast path
  (core/analyzer/engine.go, core/analyzer/facts.go).
  Blocks with different ids are different; `InTopLevelOrder` gives up when two blocks share one, so comparing blocks
  compares the pointers of the source.
 */
module DocumentOrder {
  import opened Options
  import opened FlowIndex
  import Sorting

  /** `text` stands for what else a rule says: its id, title, message and the like. */
  datatype Finding =
    Finding(block: string, subflow: string, severity: string, category: string, stage: string, text: string)

  // ----- Positions and the sort -----

  /** The first place where `id` occurs, or the length when it does not. */
  function First(blocks: seq<Block>, id: string): (n: nat)
    ensures n <= |blocks|
  {
    if blocks == [] || blocks[0].id == id then 0 else 1 + First(blocks[1..], id)
  }

  method DocPosition(flow: Flow) returns (pos: map<string, nat>)
    ensures forall id :: id in pos <==> First(WalkFlow(flow), id) < |WalkFlow(flow)|
    ensures forall id :: id in pos ==> pos[id] == First(WalkFlow(flow), id)
  {
    var blocks := WalkFlow(flow);
    pos := map[];
    for n := 0 to |blocks|
      invariant forall id :: id in pos <==> First(blocks[..n], id) < n
      invariant forall id :: id in pos ==> pos[id] == First(blocks[..n], id)
    {
      assert blocks[..n + 1] == blocks[..n] + [blocks[n]];
      forall id ensures First(blocks[..n + 1], id) ==
                        if First(blocks[..n], id) < n || blocks[n].id == id then First(blocks[..n], id) else n + 1 {
        FirstConcat(blocks[..n], [blocks[n]], id);
      }
      if blocks[n].id !in pos {
        pos := pos[blocks[n].id := n];
      }
    }
    assert blocks[..|blocks|] == blocks;
  }

  lemma {:induction false} FirstConcat(a: seq<Block>, b: seq<Block>, id: string)
    ensures First(a + b, id) == if First(a, id) < |a| then First(a, id) else |a| + First(b, id)
  {
    if a == [] {
      assert a + b == b;
    } else {
      assert (a + b)[1..] == a[1..] + b;
      FirstConcat(a[1..], b, id);
    }
  }

  /** A finding's sort key; one with no block, or with an unknown one, comes after every position. */
  function Key(blocks: seq<Block>, f: Finding): nat {
    if f.block == "" then |blocks| else First(blocks, f.block)
  }

  predicate Sorted(blocks: seq<Block>, fs: seq<Finding>) {
    forall i, j :: 0 <= i < j < |fs| ==> Key(blocks, fs[i]) <= Key(blocks, fs[j])
  }

  function ByPosition(blocks: seq<Block>): (Finding, Finding) -> bool {
    (a, b) => Key(blocks, a) <= Key(blocks, b)
  }

  /** The stable sort by position. */
  function StableSort(blocks: seq<Block>, fs: seq<Finding>): seq<Finding> {
    Sorting.Sort(ByPosition(blocks), fs)
  }

  /** `StableSort` is the stable sort: in order, the same findings, and those at one position in the order they came. */
  lemma StableSortMeaning(blocks: seq<Block>, fs: seq<Finding>, f: Finding)
    ensures Sorted(blocks, StableSort(blocks, fs)) && multiset(StableSort(blocks, fs)) == multiset(fs)
    ensures |StableSort(blocks, fs)| == |fs|
    ensures Sorting.Alike(ByPosition(blocks), StableSort(blocks, fs), f) == Sorting.Alike(ByPosition(blocks), fs, f)
  {
    hide Key, Sorting.Sort, Sorting.Alike;
    Sorting.SortMeaning(ByPosition(blocks), fs, f);
  }

  /** Sorting what is in order changes nothing, and only that. */
  lemma SortedStays(blocks: seq<Block>, fs: seq<Finding>)
    ensures StableSort(blocks, fs) == fs <==> Sorted(blocks, fs)
  {
    hide Key, Sorting.Sort;
    if Sorted(blocks, fs) {
      Sorting.OrderedStays(ByPosition(blocks), fs);
    }
    if fs != [] {
      StableSortMeaning(blocks, fs, fs[0]);
    }
  }

  // ----- The fast path -----

  /** The top-level place of the block a finding names, when the index shows it to have one. An index of the flow
      itself never names a subflow beyond it. */
  function TopPlace(ix: Index, flow: Flow, id: string): Option<(nat, nat)> {
    if id !in ix.all || (id in ix.parents && ix.parents[id] != "") || ix.all[id].subflow !in ix.subflows then None
    else
      var s := ix.subflows[ix.all[id].subflow];
      if s >= |flow| then None
      else
        var j := if id in ix.places then ix.places[id] else 0;
        var group := if flow[s].id in ix.siblings then ix.siblings[flow[s].id] else [];
        if j >= |group| || group[j] != ix.all[id] then None else Some((s, j))
  }

  /** The scan: places ascend from (`k`, `last`), and findings with no block come last. */
  predicate Ascending(ix: Index, flow: Flow, fs: seq<Finding>, k: nat, last: int, blockless: bool) {
    fs != [] ==>
      if fs[0].block == "" then Ascending(ix, flow, fs[1..], k, last, true)
      else
        !blockless &&
        match TopPlace(ix, flow, fs[0].block)
        case None => false
        case Some((s, j)) => (k < s || (k == s && last <= j)) && Ascending(ix, flow, fs[1..], s, j, false)
  }

  /** Every block counted has its own id, and the scan passes. */
  predicate FastPath(flow: Flow, fs: seq<Finding>) {
    var ix := CollectFlow(flow);
    |ix.all| == ix.total && Ascending(ix, flow, fs, 0, -1, false)
  }

  /** What the sort of a flow rule's findings gives. */
  function DocSort(flow: Flow, fs: seq<Finding>): seq<Finding> {
    if FastPath(flow, fs) then fs else StableSort(WalkFlow(flow), fs)
  }

  // ----- When the fast path is right -----

  predicate NoLater(p: (nat, nat), q: (nat, nat)) {
    p.0 < q.0 || (p.0 == q.0 && p.1 <= q.1)
  }

  predicate PairFollows(flow: Flow, x: string, y: string) {
    var p, q := TopPlace(CollectFlow(flow), flow, x), TopPlace(CollectFlow(flow), flow, y);
    p.Some? && q.Some? && NoLater(p.value, q.value) ==> First(WalkFlow(flow), x) <= First(WalkFlow(flow), y)
  }

  /** Blocks with a top-level place come in the document in the order of their places. */
  predicate PlacesFollow(flow: Flow) {
    forall x, y :: x in CollectFlow(flow).all && y in CollectFlow(flow).all && x != "" && y != "" ==>
      PairFollows(flow, x, y)
  }

  lemma PlacedIsIndexed(flow: Flow, x: string)
    ensures TopPlace(CollectFlow(flow), flow, x).Some? ==> x in CollectFlow(flow).all
  {
    hide CollectFlow;
  }

  ghost predicate Floor(flow: Flow, k: nat, last: int, bound: nat) {
    bound <= |WalkFlow(flow)| &&
    forall x :: x in CollectFlow(flow).all && x != "" ==> AboveFloor(flow, k, last, bound, x)
  }

  ghost predicate AboveFloor(flow: Flow, k: nat, last: int, bound: nat, x: string) {
    var p := TopPlace(CollectFlow(flow), flow, x);
    p.Some? && (k < p.value.0 || (k == p.value.0 && last <= p.value.1)) ==> bound <= First(WalkFlow(flow), x)
  }

  lemma PlaceFloor(flow: Flow, x: string)
    requires PlacesFollow(flow) && x != "" && TopPlace(CollectFlow(flow), flow, x).Some?
    ensures var (s, j) := TopPlace(CollectFlow(flow), flow, x).value; Floor(flow, s, j, First(WalkFlow(flow), x))
  {
    hide CollectFlow, WalkFlow, First, TopPlace;
    PlacedIsIndexed(flow, x);
    FirstBound(WalkFlow(flow), x);
    var (s, j) := TopPlace(CollectFlow(flow), flow, x).value;
    forall y | y in CollectFlow(flow).all && y != "" ensures AboveFloor(flow, s, j, First(WalkFlow(flow), x), y) {
      assert PairFollows(flow, x, y);
    }
  }

  lemma FirstBound(blocks: seq<Block>, id: string)
    ensures First(blocks, id) <= |blocks|
  {
  }

  /** Where places follow the document, findings that pass the scan are in document order. */
  lemma {:induction false} AscendingSorted(flow: Flow, fs: seq<Finding>, k: nat, last: int, blockless: bool, bound: nat)
    requires PlacesFollow(flow) && Ascending(CollectFlow(flow), flow, fs, k, last, blockless) &&
             Floor(flow, k, last, bound)
    ensures Sorted(WalkFlow(flow), fs)
    ensures forall f :: f in fs ==> bound <= Key(WalkFlow(flow), f) && (blockless ==> f.block == "")
    decreases |fs|
  {
    hide CollectFlow, WalkFlow, First, TopPlace, PlacesFollow;
    if fs != [] {
      var ws, f, rest := WalkFlow(flow), fs[0], fs[1..];
      assert fs == [f] + rest;
      if f.block == "" {
        AscendingSorted(flow, rest, k, last, true, bound);
        assert forall g :: g in rest ==> Key(ws, g) == |ws|;
      } else {
        var (s, j) := TopPlace(CollectFlow(flow), flow, f.block).value;
        PlacedIsIndexed(flow, f.block);
        assert AboveFloor(flow, k, last, bound, f.block);
        PlaceFloor(flow, f.block);
        AscendingSorted(flow, rest, s, j, false, First(ws, f.block));
      }
    }
  }

  lemma AnyFloor(flow: Flow)
    ensures Floor(flow, 0, -1, 0)
  {
  }

  lemma FastPathSorted(flow: Flow, fs: seq<Finding>)
    requires PlacesFollow(flow) && FastPath(flow, fs)
    ensures Sorted(WalkFlow(flow), fs)
  {
    hide CollectFlow, WalkFlow, PlacesFollow, Sorted, Floor;
    AnyFloor(flow);
    AscendingSorted(flow, fs, 0, -1, false, 0);
  }

  function Anchored(id: string): Finding {
    Finding(id, "", "", "", "", "")
  }

  /** A pair of places against the document is a list the fast path leaves out of order. */
  lemma PairMisleads(flow: Flow, x: string, y: string)
    requires |CollectFlow(flow).all| == CollectFlow(flow).total && x != "" && y != "" && !PairFollows(flow, x, y)
    ensures var fs := [Anchored(x), Anchored(y)]; FastPath(flow, fs) && !Sorted(WalkFlow(flow), fs)
  {
    hide CollectFlow, WalkFlow, First, TopPlace;
    var fs := [Anchored(x), Anchored(y)];
    var ix, last := CollectFlow(flow), [Anchored(y)];
    var p, q := TopPlace(ix, flow, x).value, TopPlace(ix, flow, y).value;
    assert last[1..] == [] && Ascending(ix, flow, [], q.0, q.1, false);
    assert fs[1..] == last && Ascending(ix, flow, last, p.0, p.1, false);
    assert Key(WalkFlow(flow), fs[1]) < Key(WalkFlow(flow), fs[0]);
  }

  /** The fast path never changes what the full stable sort would give, whatever the findings, exactly when two
      blocks share an id, so that it is never taken, or places follow the document. */
  lemma DocSortIsStableSort(flow: Flow)
    ensures (forall fs :: DocSort(flow, fs) == StableSort(WalkFlow(flow), fs)) <==>
            |CollectFlow(flow).all| != CollectFlow(flow).total || PlacesFollow(flow)
  {
    hide CollectFlow, WalkFlow, StableSort, Sorted, PairFollows, Ascending;
    if |CollectFlow(flow).all| != CollectFlow(flow).total || PlacesFollow(flow) {
      forall fs ensures DocSort(flow, fs) == StableSort(WalkFlow(flow), fs) {
        if FastPath(flow, fs) {
          FastPathSorted(flow, fs);
          SortedStays(WalkFlow(flow), fs);
        }
      }
    } else {
      var x, y :| x in CollectFlow(flow).all && y in CollectFlow(flow).all && x != "" && y != "" &&
        !PairFollows(flow, x, y);
      var fs := [Anchored(x), Anchored(y)];
      PairMisleads(flow, x, y);
      SortedStays(WalkFlow(flow), fs);
      assert DocSort(flow, fs) != StableSort(WalkFlow(flow), fs);
    }
  }

  // ----- The methods -----

  /** The fast path's test. */
  method InTopLevelOrder(flow: Flow, ix: Index, fs: seq<Finding>) returns (ordered: bool)
    requires ix == CollectFlow(flow)
    ensures ordered == FastPath(flow, fs)
    ensures ordered && PlacesFollow(flow) ==> Sorted(WalkFlow(flow), fs)
  {
    hide CollectFlow, WalkFlow, Ascending, PlacesFollow, Sorted;
    if FastPath(flow, fs) && PlacesFollow(flow) {
      FastPathSorted(flow, fs);
    }
    if |ix.all| != ix.total {
      return false;
    }
    ordered := ScanPlaces(flow, ix, fs);
  }

  method ScanPlaces(flow: Flow, ix: Index, fs: seq<Finding>) returns (ordered: bool)
    ensures ordered == Ascending(ix, flow, fs, 0, -1, false)
  {
    var k: nat, last: int, blockless := 0, -1, false;
    for i := 0 to |fs|
      invariant k <= |flow|
      invariant Ascending(ix, flow, fs[i..], k, last, blockless) == Ascending(ix, flow, fs, 0, -1, false)
    {
      var id := fs[i].block;
      assert fs[i..][0] == fs[i] && fs[i..][1..] == fs[i + 1..];
      if id == "" {
        blockless := true;
        continue;
      }
      var place := TopPlace(ix, flow, id);
      if blockless || place == None {
        return false;
      }
      var (s, j) := place.value;
      TopPlaceWithin(ix, flow, id);
      ghost var k0, last0 := k, last;
      while k < |flow| && k != s
        invariant k0 <= k <= |flow| && (k0 <= s ==> k <= s) && last == if k == k0 then last0 else -1
        decreases |flow| - k
      {
        k, last := k + 1, -1;
      }
      if k == |flow| || j < last {
        return false;
      }
      last := j;
    }
    assert fs[|fs|..] == [];
    ordered := true;
  }

  lemma TopPlaceWithin(ix: Index, flow: Flow, id: string)
    ensures TopPlace(ix, flow, id).Some? ==> TopPlace(ix, flow, id).value.0 < |flow|
  {
  }

  lemma ShortIsSorted(blocks: seq<Block>, fs: seq<Finding>)
    requires |fs| < 2
    ensures Sorted(blocks, fs)
  {
  }

  lemma SameIsSorted(blocks: seq<Block>, fs: seq<Finding>)
    requires forall m :: 0 <= m < |fs| ==> fs[m].block == fs[0].block
    ensures Sorted(blocks, fs)
  {
  }

  lemma NeighboursSort(blocks: seq<Block>, fs: seq<Finding>)
    requires forall i :: 1 <= i < |fs| ==> Key(blocks, fs[i - 1]) <= Key(blocks, fs[i])
    ensures Sorted(blocks, fs)
  {
    hide Key;
    if fs != [] {
      var init := fs[..|fs| - 1];
      NeighboursSort(blocks, init);
      forall i | 0 <= i < |fs| - 1 ensures Key(blocks, fs[i]) <= Key(blocks, fs[|fs| - 1]) {
        assert fs[i] == init[i] && fs[|fs| - 2] == init[|fs| - 2];
      }
      assert forall i :: 0 <= i < |init| ==> fs[i] == init[i];
    }
  }

  /** The slow path: positions from the map, no sort when the list is in order already. */
  method SortByPosition(flow: Flow, fs: seq<Finding>) returns (sorted: seq<Finding>)
    ensures sorted == StableSort(WalkFlow(flow), fs)
  {
    hide WalkFlow, First;
    var blocks := WalkFlow(flow);
    var pos := DocPosition(flow);
    var keys := seq(|fs|, i requires 0 <= i < |fs| =>
      if fs[i].block in pos && fs[i].block != "" then pos[fs[i].block] else |blocks|);
    forall i | 0 <= i < |fs| ensures keys[i] == Key(blocks, fs[i]) {
      FirstBound(blocks, fs[i].block);
    }
    var i := 1;
    while i < |fs| && keys[i - 1] <= keys[i]
      invariant 1 <= i && (fs != [] ==> i <= |fs|)
      invariant forall m :: 1 <= m < i && m < |fs| ==> keys[m - 1] <= keys[m]
    {
      i := i + 1;
    }
    if i >= |fs| {
      NeighboursSort(blocks, fs);
      SortedStays(blocks, fs);
      return fs;
    }
    sorted := StableSort(blocks, fs);
  }

  /** Sorts a flow rule's findings by document position, in place; the short cuts other than the fast path give
      what the sort would. */
  method SortByDocPosition(flow: Flow, ix: Index, fs: array<Finding>)
    requires ix == CollectFlow(flow)
    modifies fs
    ensures fs[..] == DocSort(flow, old(fs[..]))
    ensures PlacesFollow(flow) ==> fs[..] == StableSort(WalkFlow(flow), old(fs[..]))
  {
    hide *;
    hide FastPath;
    ghost var was := fs[..];
    DocSortStays(flow, was);
    if fs.Length < 2 {
      ShortIsSorted(WalkFlow(flow), was);
      return;
    }
    var same, i := true, 1;
    while i < fs.Length && same
      invariant 1 <= i <= fs.Length && (same <==> forall m :: 0 <= m < i ==> was[m].block == was[0].block)
      invariant fs[..] == was
    {
      same := fs[i].block == fs[0].block;
      i := i + 1;
    }
    if same {
      SameIsSorted(WalkFlow(flow), was);
      return;
    }
    var inOrder := InTopLevelOrder(flow, ix, fs[..]);
    if inOrder {
      return;
    }
    var sorted := SortByPosition(flow, fs[..]);
    StableSortMeaning(WalkFlow(flow), was, was[0]);
    forall m | 0 <= m < fs.Length {
      fs[m] := sorted[m];
    }
    assert fs[..] == sorted;
  }

  /** What leaving a list alone means for the sort. */
  lemma DocSortStays(flow: Flow, fs: seq<Finding>)
    ensures DocSort(flow, fs) == if FastPath(flow, fs) then fs else StableSort(WalkFlow(flow), fs)
    ensures Sorted(WalkFlow(flow), fs) ==> DocSort(flow, fs) == fs
    ensures PlacesFollow(flow) ==> DocSort(flow, fs) == StableSort(WalkFlow(flow), fs)
  {
    hide WalkFlow, CollectFlow, StableSort, Sorted, Ascending, PlacesFollow;
    SortedStays(WalkFlow(flow), fs);
    DocSortIsStableSort(flow);
  }
}
