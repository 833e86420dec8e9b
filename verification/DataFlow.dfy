/**
  The limited, indexed data-flow edges (core/analyzer/dataflow.go, `AnalyzeDataFlowCtx`) against the naive
  scans `findWriters` and `findReadersAfter`. The structural indexes are inputs.
 */
module DataFlow {
  import opened Options
  import Sorting

  type Id(==, !new)
  type Var(==, !new)

  /** What `buildContext` indexed: each block's line, the blocks writing and reading each variable in
      traversal order, and the variables each block reads and writes. */
  datatype Context = Context(
    lineOf: map<Id, int>,
    writersByVar: map<Var, seq<Id>>,
    readersByVar: map<Var, seq<Id>>,
    readVars: map<Id, seq<Var>>,
    writeVars: map<Id, seq<Var>>)

  function Lookup<K, V>(m: map<K, seq<V>>, k: K): seq<V> {
    if k in m then m[k] else []
  }

  // ----- The naive scans -----

  function Others(ids: seq<Id>, self: Id): seq<Id> {
    if ids == [] then []
    else Others(ids[..|ids| - 1], self) + if ids[|ids| - 1] == self then [] else [ids[|ids| - 1]]
  }

  function FindWriters(c: Context, v: Var, self: Id): seq<Id> {
    Others(Lookup(c.writersByVar, v), self)
  }

  function ReadersAfter(c: Context, ids: seq<Id>, writer: Id): seq<Id>
    requires writer in c.lineOf
  {
    if ids == [] then []
    else
      var id := ids[|ids| - 1];
      ReadersAfter(c, ids[..|ids| - 1], writer) +
      if id == writer || id !in c.lineOf || c.lineOf[id] <= c.lineOf[writer] then [] else [id]
  }

  function FindReadersAfter(c: Context, v: Var, writer: Id): seq<Id>
    requires writer in c.lineOf
  {
    ReadersAfter(c, Lookup(c.readersByVar, v), writer)
  }

  /** The unlimited upstream list of a block, over the first `n` variables it reads. */
  function AllUpstream(c: Context, id: Id, vars: seq<Var>): seq<Id> {
    if vars == [] then [] else AllUpstream(c, id, vars[..|vars| - 1]) + FindWriters(c, vars[|vars| - 1], id)
  }

  function AllDownstream(c: Context, id: Id, vars: seq<Var>): seq<Id>
    requires id in c.lineOf
  {
    if vars == [] then [] else AllDownstream(c, id, vars[..|vars| - 1]) + FindReadersAfter(c, vars[|vars| - 1], id)
  }

  // ----- Limits -----

  const MAX_INT: nat := 0x7FFF_FFFF_FFFF_FFFF

  /** A limit of 0 or less is unlimited. */
  function LimitOrMax(n: int): nat {
    if n <= 0 then MAX_INT else n
  }

  function Min3(a: nat, b: nat, c: nat): nat {
    if a <= b && a <= c then a else if b <= c then b else c
  }

  // ----- Upstream -----

  /** The first writers other than the block itself, as many as both limits allow. */
  method TakeWriters(ws: seq<Id>, self: Id, perVar: nat, budget: nat) returns (piece: seq<Id>, cut: bool)
    ensures |piece| == Min3(|Others(ws, self)|, perVar, budget) && piece <= Others(ws, self)
    ensures cut <==> |piece| < |Others(ws, self)|
  {
    piece, cut := [], false;
    var j := 0;
    while j < |ws| && |piece| < perVar && |piece| < budget
      invariant j <= |ws| && piece == Others(ws[..j], self) && |piece| <= perVar && |piece| <= budget
    {
      assert ws[..j + 1][..j] == ws[..j];
      if ws[j] != self {
        piece := piece + [ws[j]];
      }
      j := j + 1;
    }
    OthersGrow(ws, self, j);
    while j < |ws|
      invariant j <= |ws| && Others(ws[..j], self) == piece && piece <= Others(ws, self)
      invariant |piece| <= perVar && |piece| <= budget
      invariant j < |ws| ==> |piece| == perVar || |piece| == budget
    {
      assert ws[..j + 1][..j] == ws[..j];
      if ws[j] != self {
        cut := true;
        OthersGrow(ws, self, j + 1);
        return;
      }
      j := j + 1;
    }
    assert ws[..|ws|] == ws;
  }

  lemma {:induction false} OthersGrow(ws: seq<Id>, self: Id, j: nat)
    requires j <= |ws|
    ensures Others(ws[..j], self) <= Others(ws, self)
    decreases |ws| - j
  {
    if j == |ws| {
      assert ws[..j] == ws;
    } else {
      OthersGrow(ws, self, j + 1);
      assert ws[..j + 1][..j] == ws[..j];
    }
  }

  // ----- The by-line index -----

  datatype ReaderAt = ReaderAt(id: Id, line: int, pos: nat)

  /** The known readers among the first `n`, in traversal order. */
  function Entries(c: Context, ids: seq<Id>): seq<ReaderAt> {
    if ids == [] then []
    else
      var n := |ids| - 1;
      Entries(c, ids[..n]) + if ids[n] in c.lineOf then [ReaderAt(ids[n], c.lineOf[ids[n]], n)] else []
  }

  function Ids(rs: seq<ReaderAt>): (r: seq<Id>)
    ensures |r| == |rs| && forall i :: 0 <= i < |r| ==> r[i] == rs[i].id
  {
    seq(|rs|, i requires 0 <= i < |rs| => rs[i].id)
  }

  function After(rs: seq<ReaderAt>, line: int): seq<ReaderAt> {
    if rs == [] then []
    else After(rs[..|rs| - 1], line) + if rs[|rs| - 1].line > line then [rs[|rs| - 1]] else []
  }

  /** By line with ties by position (a stable sort by line of a list in position order), or by position. */
  datatype Order = ByLine | ByPos

  predicate Before(o: Order, a: ReaderAt, b: ReaderAt) {
    if o.ByPos? then a.pos < b.pos else a.line < b.line || (a.line == b.line && a.pos < b.pos)
  }

  predicate InOrder(o: Order, rs: seq<ReaderAt>) {
    forall i, j :: 0 <= i < j < |rs| ==> Before(o, rs[i], rs[j])
  }

  predicate DistinctPos(rs: seq<ReaderAt>) {
    forall i, j :: 0 <= i < j < |rs| ==> rs[i].pos != rs[j].pos
  }

  function NotAfter(o: Order): (ReaderAt, ReaderAt) -> bool {
    (a, b) => !Before(o, b, a)
  }

  function Sort(o: Order, rs: seq<ReaderAt>): seq<ReaderAt> {
    Sorting.Sort(NotAfter(o), rs)
  }

  lemma SortSorts(o: Order, rs: seq<ReaderAt>)
    requires DistinctPos(rs)
    ensures InOrder(o, Sort(o, rs)) && multiset(Sort(o, rs)) == multiset(rs) && |Sort(o, rs)| == |rs|
    ensures forall x :: x in Sort(o, rs) <==> x in rs
  {
    if rs != [] {
      hide Sorting.Sort, Sorting.Alike, DistinctPos, InOrder;
      var sorted := Sort(o, rs);
      assert Sorting.TotalPreorder(NotAfter(o));
      hide Sorting.TotalPreorder;
      Sorting.SortMeaning(NotAfter(o), rs, rs[0]);
      assert forall x :: x in sorted <==> x in multiset(sorted);
      assert forall x :: x in rs <==> x in multiset(rs);
      StaysDistinct(rs, sorted);
      OrderedInOrder(o, sorted);
    }
  }

  lemma OrderedInOrder(o: Order, rs: seq<ReaderAt>)
    requires Sorting.Ordered(NotAfter(o), rs) && DistinctPos(rs)
    ensures InOrder(o, rs)
  {
  }

  lemma {:induction false} CountsOnce(rs: seq<ReaderAt>, x: ReaderAt)
    requires DistinctPos(rs)
    ensures multiset(rs)[x] <= 1
  {
    if rs != [] {
      CountsOnce(rs[1..], x);
      assert rs == [rs[0]] + rs[1..];
      if x == rs[0] { assert x !in rs[1..]; }
    }
  }

  lemma CountsTwice(rs: seq<ReaderAt>, i: nat, j: nat)
    requires i < j < |rs| && rs[i] == rs[j]
    ensures multiset(rs)[rs[i]] >= 2
  {
    assert rs == rs[..i] + [rs[i]] + rs[i + 1..j] + [rs[j]] + rs[j + 1..];
  }

  /** A permutation of readers at distinct positions has them at distinct positions. */
  lemma StaysDistinct(rs: seq<ReaderAt>, ts: seq<ReaderAt>)
    requires DistinctPos(rs) && multiset(rs) == multiset(ts)
    ensures DistinctPos(ts)
  {
    forall i, j | 0 <= i < j < |ts| ensures ts[i].pos != ts[j].pos {
      assert ts[i] in multiset(rs) && ts[j] in multiset(rs);
      if ts[i] == ts[j] {
        CountsTwice(ts, i, j);
        CountsOnce(rs, ts[i]);
      }
    }
  }

  /** A list in order is determined by its elements. */
  lemma {:induction false} InOrderUnique(o: Order, rs: seq<ReaderAt>, ts: seq<ReaderAt>)
    requires InOrder(o, rs) && InOrder(o, ts) && multiset(rs) == multiset(ts)
    ensures rs == ts
  {
    if rs == [] {
      assert |multiset(ts)| == 0;
    } else {
      SameFirst(o, rs, ts);
      RestMultiset(rs);
      RestMultiset(ts);
      InOrderUnique(o, rs[1..], ts[1..]);
      assert rs == [rs[0]] + rs[1..] && ts == [ts[0]] + ts[1..];
    }
  }

  lemma RestMultiset(rs: seq<ReaderAt>)
    requires rs != []
    ensures multiset(rs[1..]) == multiset(rs) - multiset{rs[0]}
  {
    assert rs == [rs[0]] + rs[1..];
  }

  lemma SameFirst(o: Order, rs: seq<ReaderAt>, ts: seq<ReaderAt>)
    requires InOrder(o, rs) && InOrder(o, ts) && multiset(rs) == multiset(ts) && rs != []
    ensures ts != [] && rs[0] == ts[0]
  {
    assert rs[0] in multiset(ts);
    assert ts[0] in multiset(rs);
    FirstIsLeast(o, rs, ts[0]);
    FirstIsLeast(o, ts, rs[0]);
  }

  lemma FirstIsLeast(o: Order, rs: seq<ReaderAt>, x: ReaderAt)
    requires InOrder(o, rs) && x in rs
    ensures x == rs[0] || Before(o, rs[0], x)
  {}

  lemma {:induction false} EntriesInOrder(c: Context, ids: seq<Id>)
    ensures InOrder(ByPos, Entries(c, ids)) && forall r :: r in Entries(c, ids) ==> r.pos < |ids|
  {
    if ids != [] { EntriesInOrder(c, ids[..|ids| - 1]); }
  }

  /** The naive scan reads off the entries after the writer's line. */
  lemma {:induction false} ScanIsAfter(c: Context, ids: seq<Id>, writer: Id)
    requires writer in c.lineOf
    ensures ReadersAfter(c, ids, writer) == Ids(After(Entries(c, ids), c.lineOf[writer]))
  {
    if ids != [] {
      var n := |ids| - 1;
      ScanIsAfter(c, ids[..n], writer);
      var es := Entries(c, ids[..n]);
      if ids[n] in c.lineOf {
        var e := ReaderAt(ids[n], c.lineOf[ids[n]], n);
        assert (es + [e])[..|es|] == es;
      } else {
        assert es + [] == es;
      }
    }
  }

  lemma {:induction false} AfterKeepsOrder(o: Order, rs: seq<ReaderAt>, line: int)
    requires InOrder(o, rs)
    ensures InOrder(o, After(rs, line)) && forall x :: x in After(rs, line) <==> x in rs && x.line > line
  {
    if rs != [] {
      var n := |rs| - 1;
      AfterKeepsOrder(o, rs[..n], line);
      assert rs == rs[..n] + [rs[n]];
      var a := After(rs[..n], line);
      forall i | 0 <= i < |a| ensures Before(o, a[i], rs[n]) {
        assert a[i] in a;
      }
    }
  }

  lemma {:induction false} AfterCounts(rs: seq<ReaderAt>, line: int, x: ReaderAt)
    ensures multiset(After(rs, line))[x] == if x.line > line then multiset(rs)[x] else 0
  {
    if rs != [] {
      var n := |rs| - 1;
      AfterCounts(rs[..n], line, x);
      LastCounts(rs, x);
      LastCounts(After(rs[..n], line) + [rs[n]], x);
      assert (After(rs[..n], line) + [rs[n]])[..|After(rs[..n], line)|] == After(rs[..n], line);
    }
  }

  lemma LastCounts(rs: seq<ReaderAt>, x: ReaderAt)
    requires rs != []
    ensures multiset(rs)[x] == multiset(rs[..|rs| - 1])[x] + if rs[|rs| - 1] == x then 1 else 0
  {
    assert rs == rs[..|rs| - 1] + [rs[|rs| - 1]];
  }

  /** Filtering by line commutes with sorting. */
  lemma AfterOfSorted(es: seq<ReaderAt>, line: int)
    requires InOrder(ByPos, es)
    ensures var after := After(Sort(ByLine, es), line);
            multiset(after) == multiset(After(es, line)) && |after| == |After(es, line)| && DistinctPos(after)
    ensures Sort(ByPos, After(Sort(ByLine, es), line)) == After(es, line)
  {
    var after, plain := After(Sort(ByLine, es), line), After(es, line);
    SortSorts(ByLine, es);
    AfterKeepsOrder(ByLine, Sort(ByLine, es), line);
    AfterKeepsOrder(ByPos, es, line);
    hide After, Sort;
    assert multiset(after) == multiset(plain) by {
      forall x ensures multiset(after)[x] == multiset(plain)[x] {
        AfterCounts(Sort(ByLine, es), line, x);
        AfterCounts(es, line, x);
      }
    }
    assert |after| == |multiset(after)| == |multiset(plain)| == |plain|;
    SamePositions(after, plain);
    SortSorts(ByPos, after);
    InOrderUnique(ByPos, Sort(ByPos, after), plain);
  }

  lemma SamePositions(rs: seq<ReaderAt>, ts: seq<ReaderAt>)
    requires InOrder(ByLine, rs) && InOrder(ByPos, ts) && forall x :: x in rs <==> x in ts
    ensures DistinctPos(rs)
  {
    forall i, j | 0 <= i < j < |rs| ensures rs[i].pos != rs[j].pos {
      assert rs[i] in ts && rs[j] in ts && Before(ByLine, rs[i], rs[j]);
      var k :| 0 <= k < |ts| && ts[k] == rs[i];
      var l :| 0 <= l < |ts| && ts[l] == rs[j];
    }
  }

  /** `sort.Search`: the first entry after `line`. */
  method SearchAfter(idx: seq<ReaderAt>, line: int) returns (k: nat)
    requires InOrder(ByLine, idx)
    ensures k <= |idx| && idx[k..] == After(idx, line)
  {
    var lo, hi := 0, |idx|;
    while lo < hi
      invariant 0 <= lo <= hi <= |idx|
      invariant forall i :: 0 <= i < lo ==> idx[i].line <= line
      invariant forall i :: hi <= i < |idx| ==> idx[i].line > line
    {
      var mid := (lo + hi) / 2;
      if idx[mid].line > line {
        hi := mid;
      } else {
        lo := mid + 1;
      }
    }
    k := lo;
    SuffixIsAfter(idx, line, k);
  }

  lemma {:induction false} AfterNone(rs: seq<ReaderAt>, line: int)
    requires forall i :: 0 <= i < |rs| ==> rs[i].line <= line
    ensures After(rs, line) == []
  {
    if rs != [] { AfterNone(rs[..|rs| - 1], line); }
  }

  lemma {:induction false} AfterAll(rs: seq<ReaderAt>, line: int)
    requires forall i :: 0 <= i < |rs| ==> rs[i].line > line
    ensures After(rs, line) == rs
  {
    if rs != [] { AfterAll(rs[..|rs| - 1], line); }
  }

  lemma {:induction false} AfterConcat(a: seq<ReaderAt>, b: seq<ReaderAt>, line: int)
    ensures After(a + b, line) == After(a, line) + After(b, line)
  {
    if b == [] {
      assert a + b == a;
    } else {
      assert (a + b)[..|a + b| - 1] == a + b[..|b| - 1];
      AfterConcat(a, b[..|b| - 1], line);
    }
  }

  lemma SuffixIsAfter(rs: seq<ReaderAt>, line: int, k: nat)
    requires k <= |rs|
    requires forall i :: 0 <= i < k ==> rs[i].line <= line
    requires forall i :: k <= i < |rs| ==> rs[i].line > line
    ensures rs[k..] == After(rs, line)
  {
    hide After;
    assert rs == rs[..k] + rs[k..];
    AfterNone(rs[..k], line);
    AfterAll(rs[k..], line);
    AfterConcat(rs[..k], rs[k..], line);
  }

  // ----- Downstream -----

  /** `readersByLine`. */
  function LineIndex(c: Context, v: Var): seq<ReaderAt> {
    Sort(ByLine, Entries(c, Lookup(c.readersByVar, v)))
  }

  /** The readers after `line` with the lowest lines, as many as both limits allow, in traversal order. */
  method TakeReaders(c: Context, v: Var, writer: Id, idx: seq<ReaderAt>, perVar: nat, budget: nat)
    returns (piece: seq<Id>, cut: bool)
    requires writer in c.lineOf && idx == LineIndex(c, v)
    ensures var full := FindReadersAfter(c, v, writer);
            && |piece| == Min3(|full|, perVar, budget)
            && (cut <==> |piece| < |full|)
            && (!cut ==> piece == full)
    ensures var after := After(idx, c.lineOf[writer]);
            piece == Ids(Sort(ByPos, after[..Min3(|after|, perVar, budget)]))
  {
    var ids, line := Lookup(c.readersByVar, v), c.lineOf[writer];
    ScanIsAfter(c, ids, writer);
    EntriesInOrder(c, ids);
    SortSorts(ByLine, Entries(c, ids));
    AfterOfSorted(Entries(c, ids), line);
    hide Sort, After, Entries, InOrder, DistinctPos;
    var k := SearchAfter(idx, line);
    var after := idx[k..];
    var take := Min3(|after|, perVar, budget);
    cut := take < |after|;
    var scratch := Sort(ByPos, after[..take]);
    assert DistinctPos(after[..take]) by { PrefixDistinct(after, take); }
    SortSorts(ByPos, after[..take]);
    piece := Ids(scratch);
    if !cut { assert after[..take] == after; }
  }

  lemma PrefixDistinct(rs: seq<ReaderAt>, n: nat)
    requires DistinctPos(rs) && n <= |rs|
    ensures DistinctPos(rs[..n])
  {}

  // ----- All blocks -----

  datatype Limits = Limits(maxEdgesPerVariable: int, maxEdges: int)

  /** Every block listed once, with its line known: the sorted identifiers of all blocks are such a list. */
  predicate Enumerates(c: Context, ids: seq<Id>) {
    && (forall i :: 0 <= i < |ids| ==> ids[i] in c.lineOf)
    && (forall i, j :: 0 <= i < j < |ids| ==> ids[i] != ids[j])
  }

  /** How many edges the first `n` blocks were given. */
  ghost function Edges(lists: seq<seq<Id>>): nat {
    if lists == [] then 0 else Edges(lists[..|lists| - 1]) + |lists[|lists| - 1]|
  }

  /** The unlimited edges of the blocks listed, in both directions. */
  ghost function UpstreamLists(c: Context, ids: seq<Id>): seq<seq<Id>> {
    seq(|ids|, i requires 0 <= i < |ids| => AllUpstream(c, ids[i], Lookup(c.readVars, ids[i])))
  }

  ghost function DownstreamLists(c: Context, ids: seq<Id>): seq<seq<Id>>
    requires forall i :: 0 <= i < |ids| ==> ids[i] in c.lineOf
  {
    seq(|ids|, i requires 0 <= i < |ids| => AllDownstream(c, ids[i], Lookup(c.writeVars, ids[i])))
  }

  ghost function UpstreamTotal(c: Context, ids: seq<Id>): nat {
    Edges(UpstreamLists(c, ids))
  }

  ghost function DownstreamTotal(c: Context, ids: seq<Id>): nat
    requires forall i :: 0 <= i < |ids| ==> ids[i] in c.lineOf
  {
    Edges(DownstreamLists(c, ids))
  }

  /** What is known after the first `i` blocks, `fulls` being the unlimited lists: the budget left, whether a list
      was cut, and that nothing is cut without limits. */
  ghost predicate Known(
    fulls: seq<seq<Id>>, limits: Limits, i: nat, lists: seq<seq<Id>>, budget: int, truncated: bool) {
    && |lists| == i <= |fulls| && 0 <= budget == LimitOrMax(limits.maxEdges) - Edges(lists)
    && (truncated <==> exists k :: 0 <= k < i && lists[k] != fulls[k])
    && Edges(lists) <= Edges(fulls[..i])
    && (limits.maxEdgesPerVariable <= 0 && limits.maxEdges <= 0 && Edges(fulls) <= MAX_INT ==> !truncated)
  }

  lemma EdgesStep(lists: seq<seq<Id>>, list: seq<Id>)
    ensures Edges(lists + [list]) == Edges(lists) + |list|
  {
    assert (lists + [list])[..|lists|] == lists;
  }

  lemma {:induction false} EdgesGrow(fulls: seq<seq<Id>>, i: nat)
    requires i <= |fulls|
    ensures Edges(fulls[..i]) <= Edges(fulls)
    decreases |fulls| - i
  {
    if i == |fulls| {
      assert fulls[..i] == fulls;
    } else {
      EdgesGrow(fulls, i + 1);
      assert fulls[..i + 1] == fulls[..i] + [fulls[i]];
      EdgesStep(fulls[..i], fulls[i]);
    }
  }

  lemma NothingKnown(fulls: seq<seq<Id>>, limits: Limits)
    ensures Known(fulls, limits, 0, [], LimitOrMax(limits.maxEdges), false)
  {
    assert fulls[..0] == [];
  }

  lemma KnownStep(
    fulls: seq<seq<Id>>, limits: Limits, i: nat, lists: seq<seq<Id>>, budget: int, truncated: bool,
    list: seq<Id>, cut: bool)
    requires Known(fulls, limits, i, lists, budget, truncated) && i < |fulls| && |list| <= budget &&
             |list| <= |fulls[i]|
    requires cut <==> list != fulls[i]
    requires |fulls[i]| <= LimitOrMax(limits.maxEdgesPerVariable) && |fulls[i]| <= budget ==> !cut
    ensures Known(fulls, limits, i + 1, lists + [list], budget - |list|, truncated || cut)
  {
    EdgesStep(lists, list);
    EdgesStep(fulls[..i], fulls[i]);
    assert fulls[..i + 1] == fulls[..i] + [fulls[i]];
    EdgesGrow(fulls, i + 1);
    hide Edges;
    var more := lists + [list];
    assert forall k :: 0 <= k < i ==> more[k] == lists[k];
    if truncated {
      var k :| 0 <= k < i && lists[k] != fulls[k];
      assert more[k] != fulls[k];
    }
    assert cut ==> more[i] != fulls[i];
  }

  lemma {:induction false} UpstreamGrows(c: Context, id: Id, vars: seq<Var>, i: nat)
    requires i <= |vars|
    ensures |AllUpstream(c, id, vars[..i])| <= |AllUpstream(c, id, vars)|
    decreases |vars| - i
  {
    if i == |vars| {
      assert vars[..i] == vars;
    } else {
      UpstreamGrows(c, id, vars, i + 1);
      assert vars[..i + 1][..i] == vars[..i];
    }
  }

  /** The upstream list under the limits: for each variable in turn, the first writers the limits leave room for. */
  function LimitedUpstream(c: Context, id: Id, vars: seq<Var>, perVar: nat, budget: nat): (list: seq<Id>)
    ensures |list| <= budget
  {
    if vars == [] then []
    else
      var n := |vars| - 1;
      var before, full := LimitedUpstream(c, id, vars[..n], perVar, budget), FindWriters(c, vars[n], id);
      before + full[..Min3(|full|, perVar, budget - |before|)]
  }

  /** The downstream list under the limits: for each variable, the readers on the lowest later lines. */
  function LimitedDownstream(c: Context, id: Id, vars: seq<Var>, perVar: nat, budget: nat): seq<Id>
    requires id in c.lineOf
  {
    if vars == [] then []
    else
      var n := |vars| - 1;
      var before, later := LimitedDownstream(c, id, vars[..n], perVar, budget),
          After(LineIndex(c, vars[n]), c.lineOf[id]);
      before + Ids(Sort(ByPos, later[..Min3(|later|, perVar, if |before| <= budget then budget - |before| else 0)]))
  }

  method UpstreamOf(c: Context, id: Id, perVar: nat, budget: nat) returns (list: seq<Id>, cut: bool)
    ensures var full := AllUpstream(c, id, Lookup(c.readVars, id));
            && |list| <= budget && |list| <= |full|
            && (cut <==> list != full)
            && (|full| <= perVar && |full| <= budget ==> !cut)
    ensures list == LimitedUpstream(c, id, Lookup(c.readVars, id), perVar, budget)
  {
    hide AllUpstream, FindWriters, LimitedUpstream;
    var vars := Lookup(c.readVars, id);
    list, cut := [], false;
    UpstreamStep(c, id, [], None);
    LimitedStart(c, id, perVar, budget);
    for i := 0 to |vars|
      invariant |list| <= budget
      invariant if cut then |list| < |AllUpstream(c, id, vars[..i])| else list == AllUpstream(c, id, vars[..i])
      invariant |AllUpstream(c, id, vars)| <= perVar && |AllUpstream(c, id, vars)| <= budget ==> !cut
      invariant list == LimitedUpstream(c, id, vars[..i], perVar, budget)
    {
      LimitedUpStep(c, id, vars[..i], vars[i], perVar, budget);
      UpstreamStep(c, id, vars[..i], Some(vars[i]));
      assert vars[..i + 1] == vars[..i] + [vars[i]];
      UpstreamGrows(c, id, vars, i + 1);
      var piece, short := TakeWriters(Lookup(c.writersByVar, vars[i]), id, perVar, budget - |list|);
      list := list + piece;
      cut := cut || short;
    }
    assert vars[..|vars|] == vars;
  }

  lemma LimitedUpStep(c: Context, id: Id, vars: seq<Var>, v: Var, perVar: nat, budget: nat)
    ensures var before, full := LimitedUpstream(c, id, vars, perVar, budget), Others(Lookup(c.writersByVar, v), id);
            LimitedUpstream(c, id, vars + [v], perVar, budget) ==
                before + full[..Min3(|full|, perVar, budget - |before|)]
  {
    assert (vars + [v])[..|vars|] == vars;
  }

  lemma LimitedDownStep(c: Context, id: Id, vars: seq<Var>, v: Var, perVar: nat, budget: nat)
    requires id in c.lineOf
    ensures var before, later := LimitedDownstream(c, id, vars, perVar, budget), After(LineIndex(c, v), c.lineOf[id]);
            LimitedDownstream(c, id, vars + [v], perVar, budget) ==
            var left := if |before| <= budget then budget - |before| else 0;
            before + Ids(Sort(ByPos, later[..Min3(|later|, perVar, left)]))
  {
    hide LineIndex, Sort, After;
    assert (vars + [v])[..|vars|] == vars;
  }

  lemma LimitedStart(c: Context, id: Id, perVar: nat, budget: nat)
    ensures LimitedUpstream(c, id, [], perVar, budget) == []
    ensures id in c.lineOf ==> LimitedDownstream(c, id, [], perVar, budget) == []
  {}

  lemma UpstreamStep(c: Context, id: Id, vars: seq<Var>, v: Option<Var>)
    ensures AllUpstream(c, id, []) == []
    ensures v.Some? ==>
              AllUpstream(c, id, vars + [v.value]) ==
              AllUpstream(c, id, vars) + Others(Lookup(c.writersByVar, v.value), id)
  {
    if v.Some? { assert (vars + [v.value])[..|vars|] == vars; }
  }

  // ----- What a cut list is -----

  /** Some of the elements of `full`, in the same order. */
  predicate IsPart<T(==)>(part: seq<T>, full: seq<T>) {
    part == [] ||
    (full != [] &&
     (|| (part[|part| - 1] == full[|full| - 1] && IsPart(part[..|part| - 1], full[..|full| - 1]))
      || IsPart(part, full[..|full| - 1])))
  }

  lemma {:induction false} PartOfPrefix<T>(part: seq<T>, full: seq<T>, n: nat)
    requires n <= |full| && IsPart(part, full[..n])
    ensures IsPart(part, full)
    decreases |full| - n
  {
    if n == |full| {
      assert full[..n] == full;
    } else {
      assert full[..n + 1][..n] == full[..n];
      PartOfPrefix(part, full, n + 1);
    }
  }

  lemma {:induction false} WholeIsPart<T>(full: seq<T>)
    ensures IsPart(full, full)
  {
    if full != [] {
      WholeIsPart(full[..|full| - 1]);
    }
  }

  lemma {:induction false} PartsConcat<T>(a: seq<T>, x: seq<T>, b: seq<T>, y: seq<T>)
    requires IsPart(a, x) && IsPart(b, y)
    ensures IsPart(a + b, x + y)
  {
    if b == [] {
      assert a + b == a && (x + y)[..|x|] == x;
      PartOfPrefix(a, x + y, |x|);
    } else {
      var n := |y| - 1;
      assert (x + y)[..|x + y| - 1] == x + y[..n] && (x + y)[|x + y| - 1] == y[n];
      assert (a + b)[..|a + b| - 1] == a + b[..|b| - 1] && (a + b)[|a + b| - 1] == b[|b| - 1];
      if b[|b| - 1] == y[n] && IsPart(b[..|b| - 1], y[..n]) {
        PartsConcat(a, x, b[..|b| - 1], y[..n]);
      } else {
        PartsConcat(a, x, b, y[..n]);
      }
    }
  }

  /** Among lists in order, what has fewer elements is a part. */
  lemma {:induction false} FewerIsPart(o: Order, part: seq<ReaderAt>, full: seq<ReaderAt>)
    requires InOrder(o, part) && InOrder(o, full) && forall x :: x in part ==> x in full
    ensures IsPart(part, full)
  {
    if part != [] {
      assert part[0] in full;
      var n, m := |full| - 1, |part| - 1;
      if part[m] == full[n] {
        forall x | x in part[..m] ensures x in full[..n] {
          assert x in part && Before(o, x, part[m]);
        }
        FewerIsPart(o, part[..m], full[..n]);
      } else {
        assert part[m] in full;
        forall x | x in part ensures x in full[..n] {
          assert x in full && (x == part[m] || Before(o, x, part[m]));
          assert Before(o, part[m], full[n]);
        }
        FewerIsPart(o, part, full[..n]);
      }
    }
  }

  lemma {:induction false} IdsOfPart(part: seq<ReaderAt>, full: seq<ReaderAt>)
    requires IsPart(part, full)
    ensures IsPart(Ids(part), Ids(full))
  {
    if part != [] {
      var n := |full| - 1;
      assert Ids(full)[..n] == Ids(full[..n]) && Ids(part)[..|part| - 1] == Ids(part[..|part| - 1]);
      if part[|part| - 1] == full[n] && IsPart(part[..|part| - 1], full[..n]) {
        IdsOfPart(part[..|part| - 1], full[..n]);
      } else {
        IdsOfPart(part, full[..n]);
      }
    }
  }

  /** The readers on the `take` lowest later lines, put back in traversal order, are a part of the naive scan. */
  lemma LowestIsPart(c: Context, v: Var, writer: Id, take: nat)
    requires writer in c.lineOf && take <= |After(LineIndex(c, v), c.lineOf[writer])|
    ensures IsPart(Ids(Sort(ByPos, After(LineIndex(c, v), c.lineOf[writer])[..take])), FindReadersAfter(c, v, writer))
  {
    var ids, line := Lookup(c.readersByVar, v), c.lineOf[writer];
    var es := Entries(c, ids);
    ScanIsAfter(c, ids, writer);
    EntriesInOrder(c, ids);
    AfterOfSorted(es, line);
    var after := After(LineIndex(c, v), line);
    AfterKeepsOrder(ByPos, es, line);
    hide Sort, After, Entries, InOrder, IsPart;
    PrefixDistinct(after, take);
    SortSorts(ByPos, after[..take]);
    var part := Sort(ByPos, after[..take]);
    forall x | x in part ensures x in After(es, line) {
      assert x in after[..take] && x in after && x in multiset(after);
    }
    FewerIsPart(ByPos, part, After(es, line));
    IdsOfPart(part, After(es, line));
  }

  lemma {:induction false} LimitedUpIsPart(c: Context, id: Id, vars: seq<Var>, perVar: nat, budget: nat)
    ensures IsPart(LimitedUpstream(c, id, vars, perVar, budget), AllUpstream(c, id, vars))
  {
    if vars != [] {
      var n := |vars| - 1;
      var before, full := LimitedUpstream(c, id, vars[..n], perVar, budget), FindWriters(c, vars[n], id);
      LimitedUpIsPart(c, id, vars[..n], perVar, budget);
      var take := Min3(|full|, perVar, budget - |before|);
      WholeIsPart(full[..take]);
      hide IsPart, FindWriters;
      PartOfPrefix(full[..take], full, take);
      PartsConcat(before, AllUpstream(c, id, vars[..n]), full[..take], full);
    }
  }

  lemma {:induction false} LimitedDownIsPart(c: Context, id: Id, vars: seq<Var>, perVar: nat, budget: nat)
    requires id in c.lineOf
    ensures IsPart(LimitedDownstream(c, id, vars, perVar, budget), AllDownstream(c, id, vars))
  {
    if vars != [] {
      var n := |vars| - 1;
      hide FindReadersAfter, After, LineIndex, Sort;
      var before, later := LimitedDownstream(c, id, vars[..n], perVar, budget),
          After(LineIndex(c, vars[n]), c.lineOf[id]);
      LimitedDownIsPart(c, id, vars[..n], perVar, budget);
      var take := Min3(|later|, perVar, if |before| <= budget then budget - |before| else 0);
      LowestIsPart(c, vars[n], id, take);
      hide IsPart;
      var piece := Ids(Sort(ByPos, later[..take]));
      PartsConcat(before, AllDownstream(c, id, vars[..n]), piece, FindReadersAfter(c, vars[n], id));
    }
  }

  /** What the limit on all edges leaves for block `i`. */
  ghost function BudgetFor(limits: Limits, lists: seq<seq<Id>>, i: nat): int
    requires i <= |lists|
  {
    LimitOrMax(limits.maxEdges) - Edges(lists[..i])
  }

  /** List `i` is the part of the naive list that the limits leave. */
  ghost predicate UpLimited(c: Context, ids: seq<Id>, limits: Limits, lists: seq<seq<Id>>, i: nat) {
    && i < |ids| && i < |lists| && BudgetFor(limits, lists, i) >= 0
    && var vars, perVar := Lookup(c.readVars, ids[i]), LimitOrMax(limits.maxEdgesPerVariable);
    && lists[i] == LimitedUpstream(c, ids[i], vars, perVar, BudgetFor(limits, lists, i))
    && IsPart(lists[i], AllUpstream(c, ids[i], vars))
  }

  ghost predicate DownLimited(c: Context, ids: seq<Id>, limits: Limits, lists: seq<seq<Id>>, i: nat) {
    && i < |ids| && i < |lists| && BudgetFor(limits, lists, i) >= 0 && ids[i] in c.lineOf
    && var vars, perVar := Lookup(c.writeVars, ids[i]), LimitOrMax(limits.maxEdgesPerVariable);
    && lists[i] == LimitedDownstream(c, ids[i], vars, perVar, BudgetFor(limits, lists, i))
    && IsPart(lists[i], AllDownstream(c, ids[i], vars))
  }

  lemma UpLimitedStep(c: Context, ids: seq<Id>, limits: Limits, lists: seq<seq<Id>>, list: seq<Id>, budget: nat)
    requires |lists| < |ids| && budget == LimitOrMax(limits.maxEdges) - Edges(lists)
    requires var vars := Lookup(c.readVars, ids[|lists|]);
             list == LimitedUpstream(c, ids[|lists|], vars, LimitOrMax(limits.maxEdgesPerVariable), budget)
    requires forall i :: 0 <= i < |lists| ==> UpLimited(c, ids, limits, lists, i)
    ensures forall i :: 0 <= i <= |lists| ==> UpLimited(c, ids, limits, lists + [list], i)
  {
    hide Edges, LimitedUpstream, AllUpstream, IsPart;
    var id, more := ids[|lists|], lists + [list];
    LimitedUpIsPart(c, id, Lookup(c.readVars, id), LimitOrMax(limits.maxEdgesPerVariable), budget);
    forall i | 0 <= i <= |lists| ensures UpLimited(c, ids, limits, more, i) {
      assert more[..i] == lists[..i] && lists[..|lists|] == lists;
      if i < |lists| { assert UpLimited(c, ids, limits, lists, i); }
    }
  }

  lemma DownLimitedStep(c: Context, ids: seq<Id>, limits: Limits, lists: seq<seq<Id>>, list: seq<Id>, budget: nat)
    requires |lists| < |ids| && budget == LimitOrMax(limits.maxEdges) - Edges(lists) && ids[|lists|] in c.lineOf
    requires var vars := Lookup(c.writeVars, ids[|lists|]);
             list == LimitedDownstream(c, ids[|lists|], vars, LimitOrMax(limits.maxEdgesPerVariable), budget)
    requires forall i :: 0 <= i < |lists| ==> DownLimited(c, ids, limits, lists, i)
    ensures forall i :: 0 <= i <= |lists| ==> DownLimited(c, ids, limits, lists + [list], i)
  {
    hide Edges, LimitedDownstream, AllDownstream, IsPart;
    var id, more := ids[|lists|], lists + [list];
    LimitedDownIsPart(c, id, Lookup(c.writeVars, id), LimitOrMax(limits.maxEdgesPerVariable), budget);
    forall i | 0 <= i <= |lists| ensures DownLimited(c, ids, limits, more, i) {
      assert more[..i] == lists[..i] && lists[..|lists|] == lists;
      if i < |lists| { assert DownLimited(c, ids, limits, lists, i); }
    }
  }

  /** Upstream edges of every block: within the limit, and flagged exactly when some list is cut short. */
  method UpstreamEdges(c: Context, ids: seq<Id>, limits: Limits) returns (lists: seq<seq<Id>>, truncated: bool)
    ensures |lists| == |ids| && Edges(lists) <= LimitOrMax(limits.maxEdges)
    ensures truncated <==> exists i :: 0 <= i < |ids| && lists[i] != AllUpstream(c, ids[i], Lookup(c.readVars, ids[i]))
    ensures forall i :: 0 <= i < |ids| ==> UpLimited(c, ids, limits, lists, i)
    ensures limits.maxEdgesPerVariable <= 0 && limits.maxEdges <= 0 && UpstreamTotal(c, ids) <= MAX_INT ==> !truncated
  {
    hide AllUpstream, LimitedUpstream, Edges, UpLimited;
    ghost var fulls := UpstreamLists(c, ids);
    var perVar, budget := LimitOrMax(limits.maxEdgesPerVariable), LimitOrMax(limits.maxEdges);
    lists, truncated := [], false;
    NothingKnown(fulls, limits);
    for i := 0 to |ids|
      invariant Known(fulls, limits, i, lists, budget, truncated)
      invariant |lists| == i && forall k :: 0 <= k < i ==> UpLimited(c, ids, limits, lists, k)
    {
      var list, cut := UpstreamOf(c, ids[i], perVar, budget);
      UpLimitedStep(c, ids, limits, lists, list, budget);
      KnownStep(fulls, limits, i, lists, budget, truncated, list, cut);
      hide Known;
      lists := lists + [list];
      budget := budget - |list|;
      truncated := truncated || cut;
    }
  }

  lemma {:induction false} DownstreamGrows(c: Context, id: Id, vars: seq<Var>, i: nat)
    requires i <= |vars| && id in c.lineOf
    ensures |AllDownstream(c, id, vars[..i])| <= |AllDownstream(c, id, vars)|
    decreases |vars| - i
  {
    if i == |vars| {
      assert vars[..i] == vars;
    } else {
      DownstreamGrows(c, id, vars, i + 1);
      assert vars[..i + 1][..i] == vars[..i];
    }
  }

  lemma DownstreamStep(c: Context, id: Id, vars: seq<Var>, v: Option<Var>)
    requires id in c.lineOf
    ensures AllDownstream(c, id, []) == []
    ensures v.Some? ==>
              AllDownstream(c, id, vars + [v.value]) == AllDownstream(c, id, vars) + FindReadersAfter(c, v.value, id)
  {
    if v.Some? { assert (vars + [v.value])[..|vars|] == vars; }
  }

  /** The indexes built so far. */
  ghost predicate Indexed(c: Context, byLine: map<Var, seq<ReaderAt>>) {
    forall v :: v in byLine ==> byLine[v] == LineIndex(c, v)
  }

  method DownstreamOf(c: Context, id: Id, perVar: nat, budget: nat, built: map<Var, seq<ReaderAt>>)
    returns (list: seq<Id>, cut: bool, byLine: map<Var, seq<ReaderAt>>)
    requires id in c.lineOf && Indexed(c, built)
    ensures var full := AllDownstream(c, id, Lookup(c.writeVars, id));
            && |list| <= budget && |list| <= |full|
            && (cut <==> list != full)
            && (|full| <= perVar && |full| <= budget ==> !cut)
    ensures list == LimitedDownstream(c, id, Lookup(c.writeVars, id), perVar, budget)
    ensures Indexed(c, byLine)
  {
    hide AllDownstream, FindReadersAfter, LineIndex, Sort, After, LimitedDownstream;
    var vars := Lookup(c.writeVars, id);
    list, cut, byLine := [], false, built;
    DownstreamStep(c, id, [], None);
    LimitedStart(c, id, perVar, budget);
    for i := 0 to |vars|
      invariant |list| <= budget && Indexed(c, byLine)
      invariant if cut then |list| < |AllDownstream(c, id, vars[..i])| else list == AllDownstream(c, id, vars[..i])
      invariant |AllDownstream(c, id, vars)| <= perVar && |AllDownstream(c, id, vars)| <= budget ==> !cut
      invariant list == LimitedDownstream(c, id, vars[..i], perVar, budget)
    {
      LimitedDownStep(c, id, vars[..i], vars[i], perVar, budget);
      DownstreamStep(c, id, vars[..i], Some(vars[i]));
      assert vars[..i + 1] == vars[..i] + [vars[i]];
      DownstreamGrows(c, id, vars, i + 1);
      if vars[i] !in byLine {
        byLine := byLine[vars[i] := LineIndex(c, vars[i])];
      }
      var piece, short := TakeReaders(c, vars[i], id, byLine[vars[i]], perVar, budget - |list|);
      list := list + piece;
      cut := cut || short;
    }
    assert vars[..|vars|] == vars;
  }

  /** Downstream edges of every block, likewise. */
  method DownstreamEdges(c: Context, ids: seq<Id>, limits: Limits) returns (lists: seq<seq<Id>>, truncated: bool)
    requires Enumerates(c, ids)
    ensures |lists| == |ids| && Edges(lists) <= LimitOrMax(limits.maxEdges)
    ensures truncated <==>
            exists i :: 0 <= i < |ids| && lists[i] != AllDownstream(c, ids[i], Lookup(c.writeVars, ids[i]))
    ensures forall i :: 0 <= i < |ids| ==> DownLimited(c, ids, limits, lists, i)
    ensures limits.maxEdgesPerVariable <= 0 && limits.maxEdges <= 0 && DownstreamTotal(c, ids) <= MAX_INT ==> !truncated
  {
    hide AllDownstream, LimitedDownstream, Edges, Indexed, DownLimited;
    ghost var fulls := DownstreamLists(c, ids);
    var perVar, budget := LimitOrMax(limits.maxEdgesPerVariable), LimitOrMax(limits.maxEdges);
    var byLine: map<Var, seq<ReaderAt>> := map[];
    NothingIndexed(c);
    lists, truncated := [], false;
    NothingKnown(fulls, limits);
    for i := 0 to |ids|
      invariant Indexed(c, byLine) && Known(fulls, limits, i, lists, budget, truncated)
      invariant |lists| == i && forall k :: 0 <= k < i ==> DownLimited(c, ids, limits, lists, k)
    {
      var list, cut, more := DownstreamOf(c, ids[i], perVar, budget, byLine);
      DownLimitedStep(c, ids, limits, lists, list, budget);
      KnownStep(fulls, limits, i, lists, budget, truncated, list, cut);
      hide Known;
      byLine := more;
      lists := lists + [list];
      budget := budget - |list|;
      truncated := truncated || cut;
    }
  }

  lemma NothingIndexed(c: Context)
    ensures Indexed(c, map[])
  {
  }

  /** The edge part of `AnalyzeDataFlowCtx`: every list is the part of the naive one that the limits leave, and
      `edgesTruncated` is set exactly when some list of either direction differs from the unlimited analysis. */
  method AnalyzeEdges(c: Context, ids: seq<Id>, limits: Limits)
    returns (upstream: seq<seq<Id>>, downstream: seq<seq<Id>>, edgesTruncated: bool)
    requires Enumerates(c, ids)
    ensures |upstream| == |downstream| == |ids|
    ensures forall i :: 0 <= i < |ids| ==> UpLimited(c, ids, limits, upstream, i)
    ensures forall i :: 0 <= i < |ids| ==> DownLimited(c, ids, limits, downstream, i)
    ensures Edges(upstream) <= LimitOrMax(limits.maxEdges) && Edges(downstream) <= LimitOrMax(limits.maxEdges)
    ensures edgesTruncated <==> exists i ::
              && 0 <= i < |ids|
              && (|| upstream[i] != AllUpstream(c, ids[i], Lookup(c.readVars, ids[i]))
                  || downstream[i] != AllDownstream(c, ids[i], Lookup(c.writeVars, ids[i])))
    ensures limits.maxEdgesPerVariable <= 0 && limits.maxEdges <= 0 && UpstreamTotal(c, ids) <= MAX_INT &&
            DownstreamTotal(c, ids) <= MAX_INT ==>
              !edgesTruncated
  {
    hide AllUpstream, AllDownstream, UpstreamTotal, DownstreamTotal, Edges, UpLimited, DownLimited;
    var up, down;
    upstream, up := UpstreamEdges(c, ids, limits);
    downstream, down := DownstreamEdges(c, ids, limits);
    edgesTruncated := up || down;
  }
}
