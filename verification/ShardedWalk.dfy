/**
  The engine's dispatcher (core/analyzer/engine.go): block rules run over contiguous shards of the document,
  interleaved in any order, flow rules run once beside them, and the buckets are put together rule by rule.
  Whether the context has ended is asked before every block and every flow rule; the answers are arbitrary.
 */
module ShardedWalk {
  import opened Options
  import opened FlowIndex
  import opened DocumentOrder
  import opened TopLevelOrder
  import opened RuleFindings

  function Panics(rules: seq<Rule>, b: Block): nat {
    if rules == [] then 0
    else (if rules[0].check.BlockRule? && rules[0].check.check(b).None? then 1 else 0) + Panics(rules[1..], b)
  }

  function PanicsOn(rules: seq<Rule>, blocks: seq<Block>): nat {
    if blocks == [] then 0 else Panics(rules, blocks[0]) + PanicsOn(rules, blocks[1..])
  }

  function Unknowns(rules: seq<Rule>): nat {
    if rules == [] then 0 else (if rules[0].check.UnknownKind? then 1 else 0) + Unknowns(rules[1..])
  }

  /** Those of the first `n` rules that are flow rules and panicked. */
  function FlowPanics(rules: seq<Rule>, n: nat): nat
    requires n <= |rules|
  {
    if n == 0 then 0
    else
      var c := rules[n - 1].check;
      FlowPanics(rules, n - 1) + if c.FlowRule? && c.found.None? then 1 else 0
  }

  // ----- The shards -----

  const MAX_WORKERS: nat := 8
  const SMALL_FLOW: nat := 256

  function Workers(procs: int, blocks: nat): (w: nat)
    ensures 1 <= w <= MAX_WORKERS && (blocks > 0 ==> w <= blocks)
  {
    var w := if procs > MAX_WORKERS then MAX_WORKERS else procs;
    var w := if blocks < SMALL_FLOW then 1 else w;
    var w := if w > blocks then blocks else w;
    if w < 1 then 1 else w
  }

  function ShardSize(n: nat, workers: nat): (size: nat)
    requires workers > 0
    ensures n <= workers * size
  {
    ShardSizeCovers(n, workers);
    (n + workers - 1) / workers
  }

  lemma ShardSizeCovers(n: nat, workers: nat)
    requires workers > 0
    ensures 0 <= (n + workers - 1) / workers && n <= workers * ((n + workers - 1) / workers)
  {
    var q, r := (n + workers - 1) / workers, (n + workers - 1) % workers;
    assert n + workers - 1 == workers * q + r;
  }

  /** Where shard `w` starts. */
  function Bound(n: nat, size: nat, w: nat): (b: nat)
    ensures b <= n
  {
    if w * size < n then w * size else n
  }

  function ShardBlocks(blocks: seq<Block>, size: nat, w: nat): seq<Block> {
    BoundsOrdered(|blocks|, size, w);
    blocks[Bound(|blocks|, size, w)..Bound(|blocks|, size, w + 1)]
  }

  lemma BoundsOrdered(n: nat, size: nat, w: nat)
    ensures Bound(n, size, w) <= Bound(n, size, w + 1)
  {
    assert (w + 1) * size == w * size + size;
  }

  datatype Shard = Shard(buckets: seq<seq<Finding>>, checked: seq<nat>, skipped: nat)

  /** A shard that has run over `done`. */
  ghost predicate HasRun(s: Shard, rules: seq<Rule>, done: seq<Block>) {
    && |s.buckets| == |s.checked| == |rules|
    && s.skipped == PanicsOn(rules, done)
    && forall i :: 0 <= i < |rules| ==>
         s.buckets[i] == OnBlocks(rules[i], done) && s.checked[i] == if rules[i].check.UnknownKind? then 0 else |done|
  }

  lemma {:induction false} OnBlocksConcat(r: Rule, a: seq<Block>, b: seq<Block>)
    ensures OnBlocks(r, a + b) == OnBlocks(r, a) + OnBlocks(r, b)
  {
    if a == [] {
      assert a + b == b;
    } else {
      assert (a + b)[1..] == a[1..] + b;
      OnBlocksConcat(r, a[1..], b);
    }
  }

  lemma {:induction false} PanicsConcat(rules: seq<Rule>, a: seq<Block>, b: seq<Block>)
    ensures PanicsOn(rules, a + b) == PanicsOn(rules, a) + PanicsOn(rules, b)
  {
    if a == [] {
      assert a + b == b;
    } else {
      assert (a + b)[1..] == a[1..] + b;
      PanicsConcat(rules, a[1..], b);
    }
  }

  method FinishAll(r: Rule, fs: seq<Finding>) returns (out: seq<Finding>)
    ensures out == Finish(r, fs)
  {
    out := [];
    for j := 0 to |fs|
      invariant |out| == j && forall k :: 0 <= k < j ==> out[k] == FinishOne(r, fs[k])
    {
      out := out + [FinishOne(r, fs[j])];
    }
  }

  /** One shard's next block: every rule in turn. */
  method RunBlock(s: Shard, rules: seq<Rule>, b: Block, ghost done: seq<Block>) returns (after: Shard)
    requires HasRun(s, rules, done)
    ensures HasRun(after, rules, done + [b])
  {
    hide OnBlocks, PanicsOn, Finish;
    after := s;
    for i := 0 to |rules|
      invariant |after.buckets| == |after.checked| == |rules|
      invariant after.skipped + Panics(rules[i..], b) == s.skipped + Panics(rules, b)
      invariant forall k :: 0 <= k < i ==>
        after.buckets[k] == s.buckets[k] + OnBlock(rules[k], b) &&
        after.checked[k] == s.checked[k] + if rules[k].check.UnknownKind? then 0 else 1
      invariant forall k :: i <= k < |rules| ==> after.buckets[k] == s.buckets[k] && after.checked[k] == s.checked[k]
    {
      assert rules[i..][0] == rules[i] && rules[i..][1..] == rules[i + 1..];
      match rules[i].check
      case UnknownKind =>
      case FlowRule(_) =>
        after := after.(checked := after.checked[i := after.checked[i] + 1]);
      case BlockRule(check) =>
        match check(b)
        case None =>
          after := after.(skipped := after.skipped + 1, checked := after.checked[i := after.checked[i] + 1]);
        case Some(fs) =>
          var out := FinishAll(rules[i], fs);
          after := after.(buckets := after.buckets[i := after.buckets[i] + out],
              checked := after.checked[i := after.checked[i] + 1]);
    }
    assert rules[|rules|..] == [];
    PanicsConcat(rules, done, [b]);
    OneBlock(rules, b);
    forall i | 0 <= i < |rules|
      ensures OnBlocks(rules[i], done + [b]) == OnBlocks(rules[i], done) + OnBlock(rules[i], b) {
      OnBlocksConcat(rules[i], done, [b]);
      OneBlockFound(rules[i], b);
    }
  }

  lemma OneBlock(rules: seq<Rule>, b: Block)
    ensures PanicsOn(rules, [b]) == Panics(rules, b)
  {
    assert [b][1..] == [];
  }

  lemma OneBlockFound(r: Rule, b: Block)
    ensures OnBlocks(r, [b]) == OnBlock(r, b)
  {
    assert [b][1..] == [];
  }

  // ----- The walk -----

  datatype WalkResult =
    WalkResult(findings: seq<Finding>, counts: seq<nat>, checked: seq<nat>, skipped: nat, complete: bool)

  /** What a walk reports that has seen these blocks and run the first `ran` rules' flow checks. */
  ghost predicate IsWalk(res: WalkResult, rules: seq<Rule>, flow: Flow, seen: seq<Block>, ran: nat) {
    && ran <= |rules|
    && res.findings == Sequential(rules, flow, seen, ran)
    && res.skipped == Unknowns(rules) + FlowPanics(rules, ran) + PanicsOn(rules, seen)
    && |res.counts| == |res.checked| == |rules|
    && forall i :: 0 <= i < |rules| ==>
         res.counts[i] == |FlowPart(rules, flow, ran, i)| + |OnBlocks(rules[i], seen)| &&
         res.checked[i] == if rules[i].check.UnknownKind? then 0 else |seen|
  }

  /** The whole walk, whatever the number of workers and the order in which they run. */
  ghost predicate IsSequential(res: WalkResult, rules: seq<Rule>, flow: Flow) {
    IsWalk(res, rules, flow, Concrete(WalkFlow(flow)), |rules|)
  }

  function NewShard(n: nat): Shard {
    Shard(seq(n, _ => []), seq(n, _ => 0), 0)
  }

  lemma NewShardHasRun(rules: seq<Rule>)
    ensures HasRun(NewShard(|rules|), rules, [])
  {
  }

  function Flatten(pieces: seq<seq<Block>>): seq<Block> {
    if pieces == [] then [] else Flatten(pieces[..|pieces| - 1]) + pieces[|pieces| - 1]
  }

  lemma FlattenStep(pieces: seq<seq<Block>>, w: nat)
    requires w < |pieces|
    ensures Flatten(pieces[..w + 1]) == Flatten(pieces[..w]) + pieces[w]
  {
    assert pieces[..w + 1][..w] == pieces[..w];
  }

  lemma PrefixGrows(blocks: seq<Block>, size: nat, w: nat)
    ensures blocks[..Bound(|blocks|, size, w + 1)] == blocks[..Bound(|blocks|, size, w)] + ShardBlocks(blocks, size, w)
  {
  }

  /** The shards, in order, cut up the document; one that would start past the end is empty and never runs. */
  method Split(blocks: seq<Block>, workers: nat) returns (shards: seq<seq<Block>>)
    requires workers > 0
    ensures |shards| == workers && Flatten(shards) == blocks
  {
    var size := ShardSize(|blocks|, workers);
    shards := [];
    assert blocks[..Bound(|blocks|, size, 0)] == [];
    for w := 0 to workers
      invariant |shards| == w && Flatten(shards) == blocks[..Bound(|blocks|, size, w)]
    {
      var lo := w * size;
      var hi := if lo + size > |blocks| then |blocks| else lo + size;
      assert (w + 1) * size == lo + size;
      PrefixGrows(blocks, size, w);
      var piece := if lo >= hi then [] else blocks[lo..hi];
      assert piece == ShardBlocks(blocks, size, w);
      assert (shards + [piece])[..w] == shards;
      shards := shards + [piece];
    }
    assert blocks[..|blocks|] == blocks;
  }

  /** One flow rule, its findings sorted. */
  method RunFlowRule(flow: Flow, ix: Index, r: Rule) returns (found: seq<Finding>, skipped: nat)
    requires ix == CollectFlow(flow)
    ensures found == OnFlow(r, flow) && skipped == if r.check.FlowRule? && r.check.found.None? then 1 else 0
  {
    hide WalkFlow, CollectFlow, Finish, DocSort, StableSort, PlacesFollow;
    found, skipped := [], 0;
    match r.check
    case BlockRule(_) =>
    case UnknownKind =>
    case FlowRule(None) => skipped := 1;
    case FlowRule(Some(fs)) =>
      var out := FinishAll(r, fs);
      var a := new Finding[|out|](i requires 0 <= i < |out| => out[i]);
      assert a[..] == out;
      SortByDocPosition(flow, ix, a);
      found := a[..];
  }

  /** How far everybody is: `at` counts a shard's blocks done, `ran` the rules whose flow checks are done. */
  datatype Progress = Progress(at: seq<nat>, stopped: seq<bool>, ran: nat, flowStopped: bool)

  ghost predicate InRange(p: Progress, shards: seq<seq<Block>>, rules: seq<Rule>) {
    && |p.at| == |p.stopped| == |shards| && p.ran <= |rules|
    && forall w :: 0 <= w < |shards| ==> p.at[w] <= |shards[w]|
  }

  /** Who can take a step: a shard with blocks left or, under the number after theirs, the flow rules. */
  predicate CanRun(actor: nat, shards: seq<seq<Block>>, rules: seq<Rule>, p: Progress)
    requires |p.at| == |p.stopped| == |shards|
  {
    if actor < |shards| then !p.stopped[actor] && p.at[actor] < |shards[actor]|
    else actor == |shards| && !p.flowStopped && p.ran < |rules|
  }

  /** Nobody was stopped. */
  predicate Unstopped(p: Progress) {
    !p.flowStopped && forall w :: 0 <= w < |p.stopped| ==> !p.stopped[w]
  }

  /** The blocks each shard has done. */
  ghost function Done(shards: seq<seq<Block>>, p: Progress, rules: seq<Rule>): (done: seq<seq<Block>>)
    requires InRange(p, shards, rules)
    ensures |done| == |shards|
  {
    seq(|shards|, w requires 0 <= w < |shards| => shards[w][..p.at[w]])
  }

  /** When nobody can take a step and nobody was stopped, everything is done. */
  lemma AllDone(shards: seq<seq<Block>>, rules: seq<Rule>, p: Progress)
    requires InRange(p, shards, rules) && Unstopped(p)
    requires forall actor: nat :: actor <= |shards| ==> !CanRun(actor, shards, rules, p)
    ensures p.ran == |rules| && Done(shards, p, rules) == shards
  {
    assert !CanRun(|shards|, shards, rules, p);
    forall w | 0 <= w < |shards| ensures shards[w][..p.at[w]] == shards[w] {
      assert !CanRun(w, shards, rules, p);
    }
  }

  /** The steps that are left, as a measure that falls. */
  ghost function Left(shards: seq<seq<Block>>, p: Progress): set<(int, int)>
    requires |p.at| == |p.stopped| == |shards|
  {
    set w, k | 0 <= w < |shards| && !p.stopped[w] && p.at[w] <= k < |shards[w]| :: (w, k)
  }

  ghost function FlowLeft(rules: seq<Rule>, p: Progress): nat {
    if p.flowStopped || p.ran >= |rules| then 0 else |rules| - p.ran
  }

  function Advance(p: Progress, actor: nat): Progress
    requires actor <= |p.at|
  {
    if actor < |p.at| then p.(at := p.at[actor := p.at[actor] + 1]) else p.(ran := p.ran + 1)
  }

  function Stop(p: Progress, actor: nat): Progress
    requires actor <= |p.at| == |p.stopped|
  {
    if actor < |p.at| then p.(stopped := p.stopped[actor := true]) else p.(flowStopped := true)
  }

  lemma StepFalls(shards: seq<seq<Block>>, rules: seq<Rule>, p: Progress, q: Progress, actor: nat)
    requires InRange(p, shards, rules) && actor <= |shards| && CanRun(actor, shards, rules, p)
    requires q == Advance(p, actor) || q == Stop(p, actor)
    ensures InRange(q, shards, rules) && |Left(shards, q)| + FlowLeft(rules, q) < |Left(shards, p)| + FlowLeft(rules, p)
  {
    var before, after := Left(shards, p), Left(shards, q);
    assert after <= before;
    if actor < |shards| {
      assert (actor, p.at[actor]) in before && (actor, p.at[actor]) !in after;
      Fewer(after, before, (actor, p.at[actor]));
    } else {
      assert after == before;
    }
  }

  lemma Fewer(a: set<(int, int)>, b: set<(int, int)>, x: (int, int))
    requires a <= b && x in b && x !in a
    ensures |a| < |b|
  {
    assert a <= b - {x};
    Smaller(a, b - {x});
  }

  lemma Smaller(a: set<(int, int)>, b: set<(int, int)>)
    requires a <= b
    ensures |a| <= |b|
  {
    assert b == a + (b - a);
  }

  /** Whether an actor asks about the context now: a shard before each block, the flow side before each flow rule. */
  predicate Asks(actor: nat, shards: seq<seq<Block>>, rules: seq<Rule>, p: Progress) {
    actor < |shards| || (p.ran < |rules| && rules[p.ran].check.FlowRule?)
  }

  ghost predicate Collected(
    rules: seq<Rule>, flow: Flow, done: seq<seq<Block>>, ran: nat, results: seq<Shard>,
    flowFound: seq<seq<Finding>>, skipped: nat) {
    && |results| == |done| && (forall w :: 0 <= w < |done| ==> HasRun(results[w], rules, done[w]))
    && |flowFound| == ran <= |rules| && (forall i :: 0 <= i < ran ==> flowFound[i] == OnFlow(rules[i], flow))
    && skipped == Unknowns(rules) + FlowPanics(rules, ran)
  }

  /** Runs the shards and the flow rules, one step of any of them at a time, until nobody can go on. `ended` gives
      the answers to the questions whether the context has ended. */
  method RunAll(flow: Flow, ix: Index, rules: seq<Rule>, shards: seq<seq<Block>>, ended: nat -> bool)
    returns (results: seq<Shard>, flowFound: seq<seq<Finding>>, skipped: nat, p: Progress)
    requires ix == CollectFlow(flow)
    ensures InRange(p, shards, rules)
    ensures Collected(rules, flow, Done(shards, p, rules), p.ran, results, flowFound, skipped)
    ensures Unstopped(p) ==> p.ran == |rules| && Done(shards, p, rules) == shards
    ensures (forall n :: !ended(n)) ==> Unstopped(p)
  {
    hide OnBlocks, OnFlow, PanicsOn, HasRun, WalkFlow, CollectFlow, NewShard, Unknowns, Left, FlowLeft;
    NewShardHasRun(rules);
    results, flowFound, skipped := seq(|shards|, _ => NewShard(|rules|)), [], CountUnknown(rules);
    p := Progress(seq(|shards|, _ => 0), seq(|shards|, _ => false), 0, false);
    var asked := 0;
    while exists actor: nat :: actor <= |shards| && CanRun(actor, shards, rules, p)
      invariant InRange(p, shards, rules)
      invariant Collected(rules, flow, Done(shards, p, rules), p.ran, results, flowFound, skipped)
      invariant (forall n :: !ended(n)) ==> Unstopped(p)
      decreases |Left(shards, p)| + FlowLeft(rules, p)
    {
      var actor: nat :| actor <= |shards| && CanRun(actor, shards, rules, p);
      StepFalls(shards, rules, p, Advance(p, actor), actor);
      StepFalls(shards, rules, p, Stop(p, actor), actor);
      if Asks(actor, shards, rules, p) {
        asked := asked + 1;
        if ended(asked - 1) {
          StopKeepsDone(shards, rules, p, actor);
          p := Stop(p, actor);
          continue;
        }
      }
      if actor == |shards| {
        var found, skip := RunFlowRule(flow, ix, rules[p.ran]);
        FlowDone(shards, rules, p);
        flowFound, skipped := flowFound + [found], skipped + skip;
      } else {
        var k := p.at[actor];
        ghost var done := Done(shards, p, rules);
        var after := RunBlock(results[actor], rules, shards[actor][k], done[actor]);
        BlockDone(shards, rules, p, actor);
        results := results[actor := after];
      }
      p := Advance(p, actor);
    }
    if Unstopped(p) {
      AllDone(shards, rules, p);
    }
  }

  function CountUnknown(rules: seq<Rule>): (n: nat)
    ensures n == Unknowns(rules) + FlowPanics(rules, 0)
  {
    Unknowns(rules)
  }

  lemma StopKeepsDone(shards: seq<seq<Block>>, rules: seq<Rule>, p: Progress, actor: nat)
    requires InRange(p, shards, rules) && actor <= |shards|
    ensures InRange(Stop(p, actor), shards, rules) && Done(shards, Stop(p, actor), rules) == Done(shards, p, rules)
    ensures Stop(p, actor).ran == p.ran
  {
  }

  lemma FlowDone(shards: seq<seq<Block>>, rules: seq<Rule>, p: Progress)
    requires InRange(p, shards, rules) && p.ran < |rules|
    ensures var q := Advance(p, |shards|);
            InRange(q, shards, rules) && Done(shards, q, rules) == Done(shards, p, rules) && q.ran == p.ran + 1
  {
  }

  lemma BlockDone(shards: seq<seq<Block>>, rules: seq<Rule>, p: Progress, w: nat)
    requires InRange(p, shards, rules) && w < |shards| && p.at[w] < |shards[w]|
    ensures var q := Advance(p, w);
            && InRange(q, shards, rules) && q.ran == p.ran
            && Done(shards, q, rules) == Done(shards, p, rules)[w := Done(shards, p, rules)[w] + [shards[w][p.at[w]]]]
  {
    assert shards[w][..p.at[w] + 1] == shards[w][..p.at[w]] + [shards[w][p.at[w]]];
  }

  // ----- Putting the buckets together -----

  lemma SequentialStep(rules: seq<Rule>, flow: Flow, blocks: seq<Block>, ran: nat, i: nat)
    requires i < |rules|
    ensures Sequential(rules[i..], flow, blocks, if ran < i then 0 else ran - i) ==
            FlowPart(rules, flow, ran, i) + OnBlocks(rules[i], blocks) +
            Sequential(rules[i + 1..], flow, blocks, if ran < i + 1 then 0 else ran - (i + 1))
  {
    assert rules[i..][0] == rules[i] && rules[i..][1..] == rules[i + 1..];
  }

  /** Puts the buckets together: rule by rule, and for each rule its flow findings and then shard by shard. */
  method Aggregate(
    rules: seq<Rule>, ghost flow: Flow, ghost done: seq<seq<Block>>, ghost ran: nat, results: seq<Shard>,
    flowFound: seq<seq<Finding>>, skipped: nat, complete: bool)
    returns (res: WalkResult)
    requires Collected(rules, flow, done, ran, results, flowFound, skipped)
    ensures IsWalk(res, rules, flow, Flatten(done), ran) && res.complete == complete
  {
    hide OnBlocks, OnFlow, PanicsOn, Flatten, HasRun, Sequential, Unknowns, FlowPanics;
    ghost var seen := Flatten(done);
    res := WalkResult([], [], [], skipped, complete);
    assert rules[0..] == rules;
    for i := 0 to |rules|
      invariant res.findings + Sequential(rules[i..], flow, seen, if ran < i then 0 else ran - i) ==
                  Sequential(rules, flow, seen, ran)
      invariant res.skipped == skipped && res.complete == complete && |res.counts| == |res.checked| == i
      invariant forall k :: 0 <= k < i ==>
        res.counts[k] == |FlowPart(rules, flow, ran, k)| + |OnBlocks(rules[k], seen)| &&
        res.checked[k] == if rules[k].check.UnknownKind? then 0 else |seen|
    {
      SequentialStep(rules, flow, seen, ran, i);
      var found, checked := JoinBuckets(rules, i, done, results);
      var flowPart := if i < |flowFound| then flowFound[i] else [];
      Regroup(res.findings, flowPart, found,
          Sequential(rules[i + 1..], flow, seen, if ran < i + 1 then 0 else ran - (i + 1)));
      res := res.(findings := res.findings + flowPart + found, counts := res.counts + [|flowPart| + |found|],
                  checked := res.checked + [checked]);
    }
    NothingLeft(rules, flow, seen, ran);
    var panics := JoinSkips(rules, done, results);
    res := res.(skipped := res.skipped + panics);
  }

  lemma Regroup(a: seq<Finding>, b: seq<Finding>, c: seq<Finding>, d: seq<Finding>)
    ensures a + (b + c + d) == a + b + c + d
  {
  }

  lemma NothingLeft(rules: seq<Rule>, flow: Flow, blocks: seq<Block>, ran: nat)
    ensures Sequential(rules[|rules|..], flow, blocks, ran) == []
    ensures Sequential(rules[|rules|..], flow, blocks, if ran < |rules| then 0 else ran - |rules|) == []
  {
  }

  method JoinBuckets(rules: seq<Rule>, i: nat, ghost done: seq<seq<Block>>, results: seq<Shard>)
    returns (found: seq<Finding>, checked: nat)
    requires i < |rules| && |results| == |done| && forall w :: 0 <= w < |done| ==> HasRun(results[w], rules, done[w])
    ensures found == OnBlocks(rules[i], Flatten(done))
    ensures checked == if rules[i].check.UnknownKind? then 0 else |Flatten(done)|
  {
    found, checked := [], 0;
    assert done[..0] == [];
    for w := 0 to |results|
      invariant found == OnBlocks(rules[i], Flatten(done[..w]))
      invariant checked == if rules[i].check.UnknownKind? then 0 else |Flatten(done[..w])|
    {
      hide OnBlocks, PanicsOn, Flatten;
      FlattenStep(done, w);
      OnBlocksConcat(rules[i], Flatten(done[..w]), done[w]);
      found, checked := found + results[w].buckets[i], checked + results[w].checked[i];
    }
    assert done[..|done|] == done;
  }

  method JoinSkips(rules: seq<Rule>, ghost done: seq<seq<Block>>, results: seq<Shard>) returns (skipped: nat)
    requires |results| == |done| && forall w :: 0 <= w < |done| ==> HasRun(results[w], rules, done[w])
    ensures skipped == PanicsOn(rules, Flatten(done))
  {
    skipped := 0;
    assert done[..0] == [];
    for w := 0 to |results|
      invariant skipped == PanicsOn(rules, Flatten(done[..w]))
    {
      hide PanicsOn, Flatten;
      FlattenStep(done, w);
      PanicsConcat(rules, Flatten(done[..w]), done[w]);
      skipped := skipped + results[w].skipped;
    }
    assert done[..|done|] == done;
  }

  /** The walk has one answer. */
  lemma OneAnswer(a: WalkResult, b: WalkResult, rules: seq<Rule>, flow: Flow)
    requires IsSequential(a, rules, flow) && IsSequential(b, rules, flow) && a.complete == b.complete
    ensures a == b
  {
    hide Concrete, WalkFlow, OnBlocks, FlowPart, PanicsOn, Unknowns, FlowPanics, Sequential;
    assert a.counts == b.counts && a.checked == b.checked;
  }

  /** The whole walk. `procs` decides how many shards there are, and nothing else. A complete walk is the sequential
      one, and only a context that ends keeps it from being complete; then it is the sequential walk over the blocks
      seen, which are a beginning of each shard. */
  method CollectFindings(procs: int, flow: Flow, rules: seq<Rule>, ended: nat -> bool)
    returns (res: WalkResult, ghost seen: seq<Block>, ghost ran: nat)
    ensures IsWalk(res, rules, flow, seen, ran)
    ensures AllStamped(Returned(rules, flow, seen, ran), res.findings)
    ensures res.complete ==> seen == Concrete(WalkFlow(flow)) && ran == |rules| && IsSequential(res, rules, flow)
    ensures (forall n :: !ended(n)) ==> res.complete
  {
    hide *;
    hide CanRun;
    var ctx := new Context(flow);
    var blocks := ConcreteBlocks(WalkFlow(flow));
    var workers := Workers(procs, |blocks|);
    var shards := Split(blocks, workers);
    var results, flowFound, skipped, p := RunAll(flow, ctx.ix, rules, shards, ended);
    var complete := Unstopped(p);
    ghost var done := Done(shards, p, rules);
    seen, ran := Flatten(done), p.ran;
    res := Aggregate(rules, flow, done, p.ran, results, flowFound, skipped, complete);
    WalkStamped(res, rules, flow, seen, ran);
    if complete {
      WholeWalk(res, rules, flow);
    }
  }

  lemma WalkStamped(res: WalkResult, rules: seq<Rule>, flow: Flow, seen: seq<Block>, ran: nat)
    requires IsWalk(res, rules, flow, seen, ran)
    ensures AllStamped(Returned(rules, flow, seen, ran), res.findings)
  {
    hide Returned, Sequential, AllStamped, WalkFlow, OnBlocks, FlowPart;
    SequentialStamped(rules, flow, seen, ran);
  }

  lemma WholeWalk(res: WalkResult, rules: seq<Rule>, flow: Flow)
    requires IsWalk(res, rules, flow, Concrete(WalkFlow(flow)), |rules|)
    ensures IsSequential(res, rules, flow)
  {
  }

  /** With ids as minted, a flow rule's findings come in the full stable sort's order. */
  lemma FlowFindingsInOrder(r: Rule, flow: Flow)
    requires Named(WalkFlow(flow)) && EndsApart(WalkFlow(flow)) && r.check.FlowRule? && r.check.found.Some?
    ensures OnFlow(r, flow) == StableSort(WalkFlow(flow), Finish(r, r.check.found.value))
  {
    hide WalkFlow, CollectFlow, PlacesFollow, DocSort, StableSort, Named, EndsApart;
    if |CollectFlow(flow).all| == CollectFlow(flow).total {
      MintedPlacesFollow(flow);
    }
    DocSortIsStableSort(flow);
  }

  // ----- Handing findings to a visitor instead -----

  ghost function FoundAt(rules: seq<Rule>, b: Block): multiset<Finding> {
    if rules == [] then multiset{} else multiset(OnBlock(rules[0], b)) + FoundAt(rules[1..], b)
  }

  ghost function FoundOn(rules: seq<Rule>, blocks: seq<Block>): multiset<Finding> {
    if blocks == [] then multiset{} else FoundAt(rules, blocks[0]) + FoundOn(rules, blocks[1..])
  }

  ghost function FoundInFlow(rules: seq<Rule>, flow: Flow, ran: nat): multiset<Finding>
    requires ran <= |rules|
  {
    if ran == 0 then multiset{} else FoundInFlow(rules, flow, ran - 1) + multiset(OnFlow(rules[ran - 1], flow))
  }

  lemma {:induction false} FoundOnConcat(rules: seq<Rule>, a: seq<Block>, b: seq<Block>)
    ensures FoundOn(rules, a + b) == FoundOn(rules, a) + FoundOn(rules, b)
  {
    if a == [] {
      assert a + b == b;
    } else {
      assert (a + b)[1..] == a[1..] + b;
      FoundOnConcat(rules, a[1..], b);
    }
  }

  /** One more block anywhere adds what it gives. */
  lemma {:induction false} FoundGrows(rules: seq<Rule>, done: seq<seq<Block>>, w: nat, b: Block)
    requires w < |done|
    ensures FoundOn(rules, Flatten(done[w := done[w] + [b]])) == FoundOn(rules, Flatten(done)) + FoundAt(rules, b)
  {
    hide FoundOn, FoundAt, Flatten;
    var n := |done| - 1;
    var more := done[w := done[w] + [b]];
    FoundInLast(rules, done);
    FoundInLast(rules, more);
    if w < n {
      assert more[..n] == done[..n][w := done[..n][w] + [b]];
      FoundGrows(rules, done[..n], w, b);
    } else {
      assert more[..n] == done[..n];
      FoundOnConcat(rules, done[n], [b]);
      FoundOnOne(rules, b);
    }
  }

  lemma FoundInLast(rules: seq<Rule>, done: seq<seq<Block>>)
    requires done != []
    ensures var n := |done| - 1;
            FoundOn(rules, Flatten(done)) == FoundOn(rules, Flatten(done[..n])) + FoundOn(rules, done[n])
  {
    hide FoundOn;
    FoundOnConcat(rules, Flatten(done[..|done| - 1]), done[|done| - 1]);
  }

  lemma FoundOnOne(rules: seq<Rule>, b: Block)
    ensures FoundOn(rules, [b]) == FoundAt(rules, b)
  {
    assert [b][1..] == [];
  }

  /** Counting rule by rule or block by block comes to the same. */
  lemma {:induction false} RuleMajor(rules: seq<Rule>, blocks: seq<Block>)
    requires rules != []
    ensures FoundOn(rules, blocks) == multiset(OnBlocks(rules[0], blocks)) + FoundOn(rules[1..], blocks)
  {
    if blocks != [] {
      RuleMajor(rules, blocks[1..]);
    }
  }

  lemma {:induction false} NoRules(blocks: seq<Block>)
    ensures FoundOn([], blocks) == multiset{}
  {
    if blocks != [] {
      NoRules(blocks[1..]);
    }
  }

  lemma {:induction false} FlowTail(rules: seq<Rule>, flow: Flow, ran: nat)
    requires 0 < ran <= |rules|
    ensures FoundInFlow(rules, flow, ran) == multiset(OnFlow(rules[0], flow)) + FoundInFlow(rules[1..], flow, ran - 1)
  {
    if ran > 1 {
      FlowTail(rules, flow, ran - 1);
    }
  }

  /** The sequential walk's findings, counted. */
  lemma {:induction false} SequentialCounts(rules: seq<Rule>, flow: Flow, blocks: seq<Block>, ran: nat)
    requires ran <= |rules|
    ensures multiset(Sequential(rules, flow, blocks, ran)) == FoundInFlow(rules, flow, ran) + FoundOn(rules, blocks)
  {
    hide OnFlow, OnBlocks;
    if rules == [] {
      NoRules(blocks);
    } else {
      RuleMajor(rules, blocks);
      hide FoundOn;
      if ran > 0 {
        FlowTail(rules, flow, ran);
      }
      SequentialCounts(rules[1..], flow, blocks, if ran == 0 then 0 else ran - 1);
    }
  }

  method VisitBlock(rules: seq<Rule>, b: Block) returns (handed: seq<Finding>)
    ensures multiset(handed) == FoundAt(rules, b)
  {
    handed := [];
    for i := 0 to |rules|
      invariant multiset(handed) + FoundAt(rules[i..], b) == FoundAt(rules, b)
    {
      assert rules[i..][0] == rules[i] && rules[i..][1..] == rules[i + 1..];
      if rules[i].check.BlockRule? {
        var fs := rules[i].check.check(b);
        if fs.Some? {
          var out := FinishAll(rules[i], fs.value);
          handed := handed + out;
        }
      }
    }
    assert rules[|rules|..] == [];
  }

  method VisitFlowRule(flow: Flow, r: Rule) returns (handed: seq<Finding>)
    ensures multiset(handed) == multiset(OnFlow(r, flow))
  {
    handed := [];
    if r.check.FlowRule? && r.check.found.Some? {
      handed := FinishAll(r, r.check.found.value);
      SortPermutes(flow, handed);
    }
  }

  lemma SortPermutes(flow: Flow, fs: seq<Finding>)
    ensures multiset(DocSort(flow, fs)) == multiset(fs)
  {
    hide WalkFlow, StableSort, FastPath;
    if fs != [] {
      StableSortMeaning(WalkFlow(flow), fs, fs[0]);
    } else {
      StableSortMeaning(WalkFlow(flow), fs, Anchored(""));
    }
  }

  /** A visitor gets every finding of the walk exactly once, in the order the schedule happens to give. */
  method VisitFindings(procs: int, flow: Flow, rules: seq<Rule>, ended: nat -> bool)
    returns (visited: seq<Finding>, complete: bool, ghost seen: seq<Block>, ghost ran: nat)
    ensures ran <= |rules| && multiset(visited) == multiset(Sequential(rules, flow, seen, ran))
    ensures complete ==> seen == Concrete(WalkFlow(flow)) && ran == |rules|
    ensures (forall n :: !ended(n)) ==> complete
  {
    hide OnFlow, OnBlocks, WalkFlow, CollectFlow, Left, FlowLeft, FoundAt, FoundOn, Flatten, Sequential, Concrete;
    var blocks := ConcreteBlocks(WalkFlow(flow));
    var shards := Split(blocks, Workers(procs, |blocks|));
    visited := [];
    var p := Progress(seq(|shards|, _ => 0), seq(|shards|, _ => false), 0, false);
    NothingFound(rules, Done(shards, p, rules));
    var asked := 0;
    while exists actor: nat :: actor <= |shards| && CanRun(actor, shards, rules, p)
      invariant InRange(p, shards, rules)
      invariant multiset(visited) == FoundInFlow(rules, flow, p.ran) + FoundOn(rules, Flatten(Done(shards, p, rules)))
      invariant (forall n :: !ended(n)) ==> Unstopped(p)
      decreases |Left(shards, p)| + FlowLeft(rules, p)
    {
      var actor: nat :| actor <= |shards| && CanRun(actor, shards, rules, p);
      StepFalls(shards, rules, p, Advance(p, actor), actor);
      StepFalls(shards, rules, p, Stop(p, actor), actor);
      if Asks(actor, shards, rules, p) {
        asked := asked + 1;
        if ended(asked - 1) {
          StopKeepsDone(shards, rules, p, actor);
          p := Stop(p, actor);
          continue;
        }
      }
      var handed;
      if actor == |shards| {
        handed := VisitFlowRule(flow, rules[p.ran]);
        FlowDone(shards, rules, p);
      } else {
        handed := VisitBlock(rules, shards[actor][p.at[actor]]);
        BlockDone(shards, rules, p, actor);
        FoundGrows(rules, Done(shards, p, rules), actor, shards[actor][p.at[actor]]);
      }
      visited := visited + handed;
      p := Advance(p, actor);
    }
    complete := Unstopped(p);
    if complete {
      AllDone(shards, rules, p);
    }
    seen, ran := Flatten(Done(shards, p, rules)), p.ran;
    SequentialCounts(rules, flow, seen, ran);
  }

  lemma {:induction false} NothingFound(rules: seq<Rule>, done: seq<seq<Block>>)
    requires forall w :: 0 <= w < |done| ==> done[w] == []
    ensures FoundOn(rules, Flatten(done)) == multiset{}
  {
    if done != [] {
      NothingFound(rules, done[..|done| - 1]);
      assert Flatten(done) == Flatten(done[..|done| - 1]);
    }
  }
}
