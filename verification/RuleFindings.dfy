/**
  What the engine does to the findings of one rule (core/analyzer/engine.go, collectFindings), and the walk that asks
  one rule after the other. A rule is the pure function its check is; `None` is a check that panicked.
 */
module RuleFindings {
  import opened Options
  import opened FlowIndex
  import opened DocumentOrder
  import Sorting

  datatype Check =
    | BlockRule(check: Block -> Option<seq<Finding>>)
    | FlowRule(found: Option<seq<Finding>>)
    | UnknownKind

  /** An enabled rule with what the engine adds to its findings: `severity` overrides theirs unless empty, `category`
      fills a missing one. */
  datatype Rule = Rule(check: Check, severity: string, category: string, shadowsBuiltin: bool)

  const STABLE := "stable"

  function FinishOne(r: Rule, f: Finding): Finding {
    f.(severity := if r.severity != "" then r.severity else f.severity,
       category := if f.category == "" then r.category else f.category,
       stage := if r.shadowsBuiltin then STABLE else f.stage)
  }

  function Finish(r: Rule, fs: seq<Finding>): seq<Finding> {
    seq(|fs|, j requires 0 <= j < |fs| => FinishOne(r, fs[j]))
  }

  // ----- The sequential walk -----

  /** What rule `r` reports on one block. */
  function OnBlock(r: Rule, b: Block): seq<Finding> {
    if r.check.BlockRule? && r.check.check(b).Some? then Finish(r, r.check.check(b).value) else []
  }

  function OnBlocks(r: Rule, blocks: seq<Block>): seq<Finding> {
    if blocks == [] then [] else OnBlock(r, blocks[0]) + OnBlocks(r, blocks[1..])
  }

  function OnFlow(r: Rule, flow: Flow): seq<Finding> {
    if r.check.FlowRule? && r.check.found.Some? then DocSort(flow, Finish(r, r.check.found.value)) else []
  }

  /** A flow rule's part, when it is among the `ran` first rules. */
  function FlowPart(rules: seq<Rule>, flow: Flow, ran: nat, i: nat): seq<Finding>
    requires i < |rules|
  {
    if i < ran then OnFlow(rules[i], flow) else []
  }

  /** One rule at a time: the first `ran` rules over the flow, and each over the blocks. */
  function Sequential(rules: seq<Rule>, flow: Flow, blocks: seq<Block>, ran: nat): seq<Finding> {
    if rules == [] then []
    else
      FlowPart(rules, flow, ran, 0) + OnBlocks(rules[0], blocks) +
      Sequential(rules[1..], flow, blocks, if ran == 0 then 0 else ran - 1)
  }

  // ----- What comes out of what the checks return -----

  /** `out` is `raw` as the engine reports it for rule `r`. */
  ghost predicate Stamped(r: Rule, raw: Finding, out: Finding) {
    && out.block == raw.block && out.subflow == raw.subflow && out.text == raw.text
    && (if r.severity == "" then out.severity == raw.severity else out.severity == r.severity)
    && (if raw.category == "" then out.category == r.category else out.category == raw.category)
    && (if r.shadowsBuiltin then out.stage == "stable" else out.stage == raw.stage)
  }

  /** What the checks of the first `ran` rules return for the flow, sorted, and every check for the blocks, rule by
      rule, each with its rule. */
  function Returned(rules: seq<Rule>, flow: Flow, blocks: seq<Block>, ran: nat): seq<(Rule, Finding)> {
    if rules == [] then []
    else
      (if ran > 0 then Tag(rules[0], ReturnedForFlow(rules[0], flow)) else []) +
      Tag(rules[0], ReturnedOn(rules[0], blocks)) +
      Returned(rules[1..], flow, blocks, if ran == 0 then 0 else ran - 1)
  }

  function Tag(r: Rule, fs: seq<Finding>): seq<(Rule, Finding)> {
    seq(|fs|, j requires 0 <= j < |fs| => (r, fs[j]))
  }

  function ReturnedForFlow(r: Rule, flow: Flow): seq<Finding> {
    match r.check
    case FlowRule(Some(fs)) => DocSort(flow, fs)
    case _ => []
  }

  function ReturnedFor(r: Rule, b: Block): seq<Finding> {
    match r.check
    case BlockRule(check) => (match check(b) case Some(fs) => fs case None => [])
    case _ => []
  }

  function ReturnedOn(r: Rule, blocks: seq<Block>): seq<Finding> {
    if blocks == [] then [] else ReturnedFor(r, blocks[0]) + ReturnedOn(r, blocks[1..])
  }

  /** One to one, and in this order. */
  ghost predicate AllStamped(raw: seq<(Rule, Finding)>, out: seq<Finding>) {
    |out| == |raw| && forall k :: 0 <= k < |raw| ==> Stamped(raw[k].0, raw[k].1, out[k])
  }

  /** A flow rule's findings are sorted after they are finished, which comes to the same. */
  lemma SortFinished(r: Rule, flow: Flow, fs: seq<Finding>)
    ensures DocSort(flow, Finish(r, fs)) == Finish(r, DocSort(flow, fs))
  {
    var ix := CollectFlow(flow);
    FinishedAscends(r, ix, flow, fs, 0, -1, false);
    FinishedSorts(r, WalkFlow(flow), fs);
  }

  lemma FinishAt(r: Rule, fs: seq<Finding>)
    requires fs != []
    ensures Finish(r, fs) != [] && Finish(r, fs)[0] == FinishOne(r, fs[0]) && Finish(r, fs)[1..] == Finish(r, fs[1..])
    ensures Finish(r, fs) == [FinishOne(r, fs[0])] + Finish(r, fs[1..])
  {
  }

  lemma {:induction false} FinishedAscends(
    r: Rule, ix: Index, flow: Flow, fs: seq<Finding>, k: nat, last: int, blockless: bool)
    ensures Ascending(ix, flow, Finish(r, fs), k, last, blockless) == Ascending(ix, flow, fs, k, last, blockless)
  {
    if fs != [] {
      FinishAt(r, fs);
      hide Finish;
      if fs[0].block == "" {
        FinishedAscends(r, ix, flow, fs[1..], k, last, true);
      } else if TopPlace(ix, flow, fs[0].block).Some? {
        var (s, j) := TopPlace(ix, flow, fs[0].block).value;
        FinishedAscends(r, ix, flow, fs[1..], s, j, false);
      }
    }
  }

  lemma {:induction false} FinishedInsert(r: Rule, blocks: seq<Block>, f: Finding, fs: seq<Finding>)
    ensures Sorting.Insert(ByPosition(blocks), FinishOne(r, f), Finish(r, fs)) ==
            Finish(r, Sorting.Insert(ByPosition(blocks), f, fs))
  {
    var more := Sorting.Insert(ByPosition(blocks), f, fs);
    if fs != [] {
      FinishAt(r, fs);
      FinishedInsert(r, blocks, f, fs[1..]);
    }
    FinishAt(r, more);
    FinishAt(r, [f] + fs);
  }

  lemma {:induction false} FinishedSorts(r: Rule, blocks: seq<Block>, fs: seq<Finding>)
    ensures StableSort(blocks, Finish(r, fs)) == Finish(r, StableSort(blocks, fs))
  {
    if fs != [] {
      FinishAt(r, fs);
      FinishedSorts(r, blocks, fs[1..]);
      FinishedInsert(r, blocks, fs[0], Sorting.Sort(ByPosition(blocks), fs[1..]));
    }
  }

  lemma FinishStamps(r: Rule, fs: seq<Finding>)
    ensures AllStamped(Tag(r, fs), Finish(r, fs))
  {
  }

  lemma StampedConcat(a: seq<(Rule, Finding)>, b: seq<(Rule, Finding)>, x: seq<Finding>, y: seq<Finding>)
    requires AllStamped(a, x) && AllStamped(b, y)
    ensures AllStamped(a + b, x + y)
  {
    hide Stamped;
  }

  lemma {:induction false} BlocksStamped(r: Rule, blocks: seq<Block>)
    ensures OnBlocks(r, blocks) == Finish(r, ReturnedOn(r, blocks))
  {
    if blocks != [] {
      BlocksStamped(r, blocks[1..]);
      assert OnBlock(r, blocks[0]) == Finish(r, ReturnedFor(r, blocks[0]));
    }
  }

  /** The sequential walk reports what the checks return, as stamped. */
  lemma {:induction false} SequentialStamped(rules: seq<Rule>, flow: Flow, blocks: seq<Block>, ran: nat)
    ensures AllStamped(Returned(rules, flow, blocks, ran), Sequential(rules, flow, blocks, ran))
  {
    if rules != [] {
      var r, rest := rules[0], if ran == 0 then 0 else ran - 1;
      SequentialStamped(rules[1..], flow, blocks, rest);
      BlocksStamped(r, blocks);
      FlowStamped(r, flow);
      hide Stamped, Finish, Tag, OnFlow, OnBlocks, ReturnedForFlow, ReturnedOn;
      FinishStamps(r, ReturnedOn(r, blocks));
      var found := if ran > 0 then Tag(r, ReturnedForFlow(r, flow)) else [];
      FinishStamps(r, ReturnedForFlow(r, flow));
      assert AllStamped(found, FlowPart(rules, flow, ran, 0));
      StampedConcat(found, Tag(r, ReturnedOn(r, blocks)), FlowPart(rules, flow, ran, 0), OnBlocks(r, blocks));
      StampedConcat(found + Tag(r, ReturnedOn(r, blocks)), Returned(rules[1..], flow, blocks, rest),
          FlowPart(rules, flow, ran, 0) + OnBlocks(r, blocks), Sequential(rules[1..], flow, blocks, rest));
    }
  }

  lemma FlowStamped(r: Rule, flow: Flow)
    ensures OnFlow(r, flow) == Finish(r, ReturnedForFlow(r, flow))
  {
    match r.check
    case FlowRule(Some(fs)) => SortFinished(r, flow, fs);
    case _ =>
  }

  /** Rule `r`'s checks return `f` for the flow or for one of the blocks. */
  ghost predicate Returns(r: Rule, f: Finding, blocks: seq<Block>, forFlow: bool) {
    || (forFlow && r.check.FlowRule? && r.check.found.Some? && f in r.check.found.value)
    || (exists b :: b in blocks && r.check.BlockRule? && r.check.check(b).Some? && f in r.check.check(b).value)
  }

  lemma {:induction false} ReturnedOnMeaning(r: Rule, blocks: seq<Block>, f: Finding)
    ensures f in ReturnedOn(r, blocks) <==> exists b :: b in blocks && f in ReturnedFor(r, b)
  {
    if blocks != [] {
      ReturnedOnMeaning(r, blocks[1..], f);
      assert blocks == [blocks[0]] + blocks[1..];
    }
  }

  lemma SortKeeps(flow: Flow, fs: seq<Finding>, f: Finding)
    ensures f in DocSort(flow, fs) <==> f in fs
  {
    hide Sorting.Sort, Key, FastPath;
    StableSortMeaning(WalkFlow(flow), fs, f);
    assert f in StableSort(WalkFlow(flow), fs) <==> f in multiset(StableSort(WalkFlow(flow), fs));
  }

  lemma OneRuleReturns(r: Rule, flow: Flow, blocks: seq<Block>, forFlow: bool, f: Finding)
    ensures Returns(r, f, blocks, forFlow) <==>
            f in ReturnedOn(r, blocks) || (forFlow && f in ReturnedForFlow(r, flow))
  {
    ReturnedOnMeaning(r, blocks, f);
    hide ReturnedOn, DocSort;
    match r.check
    case FlowRule(Some(fs)) => SortKeeps(flow, fs, f);
    case _ =>
  }

  lemma TagKeeps(r: Rule, fs: seq<Finding>, q: Rule, f: Finding)
    ensures (q, f) in Tag(r, fs) <==> q == r && f in fs
  {
    if f in fs {
      var j :| 0 <= j < |fs| && fs[j] == f;
      assert Tag(r, fs)[j] == (r, f);
    }
  }

  /** The list holds exactly what some rule's checks return, with that rule; of the flow checks only the first `ran`. */
  lemma {:induction false} ReturnedMeaning(
    rules: seq<Rule>, flow: Flow, blocks: seq<Block>, ran: nat, r: Rule, f: Finding)
    ensures (r, f) in Returned(rules, flow, blocks, ran) <==>
            exists i :: 0 <= i < |rules| && rules[i] == r && Returns(rules[i], f, blocks, i < ran)
  {
    if rules != [] {
      var rest := if ran == 0 then 0 else ran - 1;
      ReturnedMeaning(rules[1..], flow, blocks, rest, r, f);
      OneRuleReturns(rules[0], flow, blocks, ran > 0, f);
      TagKeeps(rules[0], ReturnedForFlow(rules[0], flow), r, f);
      TagKeeps(rules[0], ReturnedOn(rules[0], blocks), r, f);
      hide Tag, ReturnedForFlow, ReturnedOn, Returns;
      forall i | 1 <= i < |rules|
        ensures rules[1..][i - 1] == rules[i] && (i - 1 < rest <==> i < ran)
      {
      }
      assert (exists i :: 1 <= i < |rules| && rules[i] == r && Returns(rules[i], f, blocks, i < ran)) <==>
             (r, f) in Returned(rules[1..], flow, blocks, rest) by {
        if k :| 0 <= k < |rules[1..]| && rules[1..][k] == r && Returns(rules[1..][k], f, blocks, k < rest) {
          assert rules[k + 1] == r && Returns(rules[k + 1], f, blocks, k + 1 < ran);
        }
        if i :| 1 <= i < |rules| && rules[i] == r && Returns(rules[i], f, blocks, i < ran) {
          assert rules[1..][i - 1] == r && Returns(rules[1..][i - 1], f, blocks, i - 1 < rest);
        }
      }
    }
  }
}
