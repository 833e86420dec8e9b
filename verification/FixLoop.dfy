/**
  The iterative auto-fix loop (core/analyzer/apply_fixes.go, `applyFixesLoop`): parse, analyze, apply the
  first accepted patch, repeat. The parser, the rules, the fixers and the context are arbitrary.
 */
module FixLoop {
  import opened Options

  type Source(==, !new)
  type Doc(==, !new)
  type Finding(==, !new)
  type Patch(==, !new)

  /** What the loop calls into. `fix` is None when the fixer declines, errs or offers no edit;
      `ended(n)` is what the context says when it is asked for the n-th time. */
  datatype Env = Env(
    parse: Source -> Option<Doc>,
    analyze: Doc -> seq<Finding>,
    eligible: Finding -> bool,
    signature: Finding -> string,
    hasBlock: (Doc, Finding) -> bool,
    fix: (Doc, Finding) -> Option<Patch>,
    apply: (Source, Patch) -> Source,
    countErrors: Doc -> nat,
    ended: nat -> bool)

  datatype Outcome = Completed | Interrupted | ParseFailed

  datatype FixResult = FixResult(fixed: nat, doc: Option<Doc>, beforeErrors: nat, afterErrors: nat, partial: bool)

  const STALL_LIMIT := 3

  // ----- What the loop may do to the source -----

  /** A fix the loop may choose for `s`: some eligible finding's fixer offers it on the parse of `s`. */
  ghost predicate Offered(env: Env, s: Source, p: Patch) {
    exists d, f :: env.parse(s) == Some(d) && f in env.analyze(d) && env.eligible(f) && env.hasBlock(d, f) &&
      env.fix(d, f) == Some(p)
  }

  /** `t` is `s` with the patches applied in order, each offered on the source it is applied to. */
  ghost predicate Patched(env: Env, s: Source, patches: seq<Patch>, t: Source)
    decreases |patches|
  {
    if patches == [] then s == t
    else
      var n := |patches| - 1;
      exists m :: Patched(env, s, patches[..n], m) && Offered(env, m, patches[n]) && t == env.apply(m, patches[n])
  }

  lemma PatchedStep(env: Env, s: Source, patches: seq<Patch>, m: Source, p: Patch)
    requires Patched(env, s, patches, m) && Offered(env, m, p)
    ensures Patched(env, s, patches + [p], env.apply(m, p))
  {
    hide Offered;
    assert (patches + [p])[..|patches|] == patches;
  }

  // ----- Counting candidates -----

  function Fixable(env: Env, fs: seq<Finding>, skipped: set<string>): nat {
    if fs == [] then 0
    else
      var f := fs[|fs| - 1];
      Fixable(env, fs[..|fs| - 1], skipped) + if env.eligible(f) && env.signature(f) !in skipped then 1 else 0
  }

  lemma {:induction false} FixableHas(env: Env, fs: seq<Finding>, skipped: set<string>, i: nat)
    requires i < |fs| && env.eligible(fs[i]) && env.signature(fs[i]) !in skipped
    ensures Fixable(env, fs, skipped) >= 1
  {
    if i < |fs| - 1 { FixableHas(env, fs[..|fs| - 1], skipped, i); }
  }

  method CountFixable(env: Env, fs: seq<Finding>, skipped: set<string>) returns (n: nat)
    ensures n == Fixable(env, fs, skipped)
  {
    n := 0;
    for i := 0 to |fs|
      invariant n == Fixable(env, fs[..i], skipped)
    {
      assert fs[..i + 1][..i] == fs[..i];
      if env.eligible(fs[i]) && env.signature(fs[i]) !in skipped {
        n := n + 1;
      }
    }
    assert fs[..|fs|] == fs;
  }

  datatype Pick = Pick(finding: Finding, patch: Patch)

  predicate Declined(env: Env, doc: Doc, f: Finding) {
    env.eligible(f) && env.hasBlock(doc, f) && env.fix(doc, f).None?
  }

  /** The fingerprints of the findings among `fs` whose fixer declines. */
  function DeclinedPrints(env: Env, doc: Doc, fs: seq<Finding>): set<string> {
    set f | f in fs && Declined(env, doc, f) :: env.signature(f)
  }

  /** The scan goes over the first `n` findings: those with a block it gives up on, and the next is the pick. */
  ghost predicate ScansTo(env: Env, doc: Doc, given: set<string>, n: nat, pick: Option<Pick>, more: set<string>) {
    var fs := env.analyze(doc);
    && n <= |fs| && more == given + DeclinedPrints(env, doc, fs[..n])
    && (forall j :: 0 <= j < n && env.eligible(fs[j]) && env.hasBlock(doc, fs[j]) ==> env.signature(fs[j]) in more)
    && match pick
       case None => n == |fs|
       case Some(p) =>
         && n < |fs| && fs[n] == p.finding && env.eligible(p.finding) && env.hasBlock(doc, p.finding)
         && env.signature(p.finding) !in more && env.fix(doc, p.finding) == Some(p.patch)
  }

  /** `pick` is the first acceptable finding of `doc`, with its patch, when the fingerprints in `given` are given up
      on; those of the findings declined before it make it `more`. */
  ghost predicate PicksFirst(env: Env, doc: Doc, given: set<string>, pick: Option<Pick>, more: set<string>) {
    exists n :: ScansTo(env, doc, given, n, pick, more)
  }

  /** The first eligible finding not skipped whose fixer offers a patch; declined ones are skipped from now on. */
  method PickFix(env: Env, doc: Doc, fs: seq<Finding>, skipped: set<string>)
    returns (pick: Option<Pick>, more: set<string>)
    requires fs == env.analyze(doc)
    ensures PicksFirst(env, doc, skipped, pick, more)
    ensures pick.Some? ==> Fixable(env, fs, skipped) >= 1
  {
    more := skipped;
    for i := 0 to |fs|
      invariant more == skipped + DeclinedPrints(env, doc, fs[..i])
      invariant forall j :: 0 <= j < i && env.eligible(fs[j]) && env.hasBlock(doc, fs[j]) ==>
                  env.signature(fs[j]) in more
    {
      var f := fs[i];
      assert fs[..i + 1] == fs[..i] + [f];
      if env.eligible(f) && env.signature(f) !in more && env.hasBlock(doc, f) {
        var candidate := env.fix(doc, f);
        if candidate.Some? {
          FixableHas(env, fs, skipped, i);
          pick := Some(Pick(f, candidate.value));
          assert ScansTo(env, doc, skipped, i, pick, more);
          return;
        }
        more := more + {env.signature(f)};
      }
    }
    pick := None;
    assert fs[..|fs|] == fs;
    assert ScansTo(env, doc, skipped, |fs|, pick, more);
  }

  // ----- Whole runs -----

  /** One fix: the source it was chosen on, what was chosen, and the fingerprints given up on before. */
  datatype Round = Round(source: Source, finding: Finding, patch: Patch, given: set<string>)

  /** The fingerprint of the last fix. */
  function LastPrint(env: Env, rounds: seq<Round>): string {
    if rounds == [] then "" else env.signature(rounds[|rounds| - 1].finding)
  }

  /** How many eligible findings of `s` are not given up on. */
  function PoolOn(env: Env, s: Source, given: set<string>): nat {
    if env.parse(s).None? then 0 else Fixable(env, env.analyze(env.parse(s).value), given)
  }

  function Pools(env: Env, rounds: seq<Round>): seq<nat> {
    seq(|rounds|, k requires 0 <= k < |rounds| => PoolOn(env, rounds[k].source, rounds[k].given))
  }

  ghost predicate NoNewMinimum(pools: seq<nat>, k: int) {
    0 <= k < |pools| && exists j :: 0 <= j < k && pools[j] <= pools[k]
  }

  /** Three in a row. */
  ghost predicate Stalled(pools: seq<nat>) {
    var n := |pools|;
    NoNewMinimum(pools, n - 1) && NoNewMinimum(pools, n - 2) && NoNewMinimum(pools, n - 3)
  }

  /** Round `r` follows the rounds `before`. */
  ghost predicate GoesOn(env: Env, before: seq<Round>, r: Round, more: set<string>) {
    && env.parse(r.source).Some? && !Stalled(Pools(env, before) + [PoolOn(env, r.source, r.given)])
    && PicksFirst(env, env.parse(r.source).value, r.given, Some(Pick(r.finding, r.patch)), more)
    && env.signature(r.finding) != LastPrint(env, before)
  }

  /** The rounds lead from `original` to `source`, with `given` given up on by then. */
  ghost predicate Ran(env: Env, original: Source, rounds: seq<Round>, source: Source, given: set<string>)
    decreases |rounds|
  {
    if rounds == [] then source == original && given == {}
    else
      var n := |rounds| - 1;
      var r := rounds[n];
      Ran(env, original, rounds[..n], r.source, r.given) && GoesOn(env, rounds[..n], r, given) &&
      source == env.apply(r.source, r.patch)
  }

  /** Why the loop ends before its limit: three rounds in a row brought no new minimum, or every eligible finding that
      has a block is given up on, or the first acceptable one has the fingerprint of the last fix. */
  ghost predicate Stops(env: Env, rounds: seq<Round>, s: Source, given: set<string>) {
    env.parse(s).Some? &&
    (|| Stalled(Pools(env, rounds) + [PoolOn(env, s, given)])
     || exists pick, more :: PicksFirst(env, env.parse(s).value, given, pick, more) &&
          (pick.None? || env.signature(pick.value.finding) == LastPrint(env, rounds)))
  }

  lemma RanStep(env: Env, original: Source, rounds: seq<Round>, r: Round, more: set<string>)
    requires Ran(env, original, rounds, r.source, r.given) && GoesOn(env, rounds, r, more)
    ensures Ran(env, original, rounds + [r], env.apply(r.source, r.patch), more)
    ensures Pools(env, rounds + [r]) == Pools(env, rounds) + [PoolOn(env, r.source, r.given)]
    ensures LastPrint(env, rounds + [r]) == env.signature(r.finding)
  {
    hide GoesOn, PoolOn;
    assert (rounds + [r])[..|rounds|] == rounds;
  }

  /** How many of the last rounds in a row brought no new minimum. */
  ghost function Stalls(pools: seq<nat>): nat {
    if pools == [] then 0
    else
      var n := |pools| - 1;
      if NoNewMinimum(pools, n) then Stalls(pools[..n]) + 1 else 0
  }

  lemma EarlierMinimum(pools: seq<nat>, n: nat, k: int)
    requires k < n <= |pools|
    ensures NoNewMinimum(pools[..n], k) <==> NoNewMinimum(pools, k)
  {
    if NoNewMinimum(pools, k) {
      var j :| 0 <= j < k && pools[j] <= pools[k];
      assert pools[..n][j] <= pools[..n][k];
    }
  }

  lemma StallsStep(pools: seq<nat>, n: nat)
    requires 0 < n <= |pools|
    ensures Stalls(pools[..n]) == if NoNewMinimum(pools, n - 1) then Stalls(pools[..n - 1]) + 1 else 0
  {
    EarlierMinimum(pools, n, n - 1);
    assert pools[..n][..n - 1] == pools[..n - 1];
    hide NoNewMinimum;
  }

  lemma StallsMeaning(pools: seq<nat>)
    ensures Stalls(pools) >= STALL_LIMIT <==> Stalled(pools)
  {
    hide Stalls;
    var n := |pools|;
    assert pools[..n] == pools;
    if n >= 3 {
      StallsStep(pools, n);
      StallsStep(pools, n - 1);
      StallsStep(pools, n - 2);
    } else {
      FewStalls(pools);
    }
  }

  lemma {:induction false} FewStalls(pools: seq<nat>)
    ensures Stalls(pools) <= |pools|
  {
    if pools != [] {
      FewStalls(pools[..|pools| - 1]);
    }
  }

  ghost predicate IsLowest(pools: seq<nat>, m: int) {
    if pools == [] then m == -1 else m in pools && forall k :: 0 <= k < |pools| ==> m <= pools[k]
  }

  lemma NextPool(pools: seq<nat>, m: int, x: nat)
    requires IsLowest(pools, m)
    ensures IsLowest(pools + [x], if m < 0 || x < m then x else m)
    ensures Stalls(pools + [x]) == if m < 0 || x < m then 0 else Stalls(pools) + 1
  {
    var more := pools + [x];
    assert more[..|pools|] == pools;
    if 0 <= m <= x {
      var j :| 0 <= j < |pools| && pools[j] == m;
      assert more[j] <= more[|pools|];
      assert NoNewMinimum(more, |pools|);
    }
  }

  // ----- The loop -----

  /** The eligible findings on the original source; none if it does not parse. */
  function FirstPool(env: Env, s: Source): nat {
    PoolOn(env, s, {})
  }

  /** Some finding on the original source has a fix to offer, under a fingerprint no declined one shares. */
  ghost predicate HasFix(env: Env, s: Source) {
    && env.parse(s).Some?
    && var d := env.parse(s).value;
       && (forall f :: f in env.analyze(d) && env.eligible(f) ==> env.signature(f) != "")
       && exists f ::
            && f in env.analyze(d) && env.eligible(f) && env.hasBlock(d, f)
            && forall g :: g in env.analyze(d) && Declined(env, d, g) ==> env.signature(g) != env.signature(f)
  }

  /** With a fix to offer the loop does not end before the first one. */
  lemma FirstFixComes(env: Env, s: Source)
    requires HasFix(env, s)
    ensures !Stops(env, [], s, {})
  {
    var d := env.parse(s).value;
    var f :| f in env.analyze(d) && env.eligible(f) && env.hasBlock(d, f) &&
        forall g :: g in env.analyze(d) && Declined(env, d, g) ==> env.signature(g) != env.signature(f);
    forall pick, more | PicksFirst(env, d, {}, pick, more)
      ensures pick.Some? && env.signature(pick.value.finding) != ""
    {
      var n :| ScansTo(env, d, {}, n, pick, more);
      assert env.signature(f) !in more;
      var i :| 0 <= i < |env.analyze(d)| && env.analyze(d)[i] == f;
    }
  }

  /** Every round applies a patch offered on its source. */
  lemma {:induction false} RanPatches(
    env: Env, original: Source, rounds: seq<Round>, source: Source, given: set<string>)
    requires Ran(env, original, rounds, source, given)
    ensures exists patches :: |patches| == |rounds| && Patched(env, original, patches, source)
    decreases |rounds|
  {
    if rounds == [] {
      assert Patched(env, original, [], source);
    } else {
      var n := |rounds| - 1;
      var r := rounds[n];
      RanPatches(env, original, rounds[..n], r.source, r.given);
      var patches :| |patches| == n && Patched(env, original, patches, r.source);
      OfferedRound(env, rounds[..n], r, given);
      hide Patched, GoesOn, Offered;
      PatchedStep(env, original, patches, r.source, r.patch);
      assert |patches + [r.patch]| == |rounds|;
    }
  }

  lemma OfferedRound(env: Env, before: seq<Round>, r: Round, more: set<string>)
    requires GoesOn(env, before, r, more)
    ensures Offered(env, r.source, r.patch)
  {
    var d := env.parse(r.source).value;
    var n :| ScansTo(env, d, r.given, n, Some(Pick(r.finding, r.patch)), more);
    assert r.finding in env.analyze(d);
  }

  function Min(a: nat, b: nat): nat {
    if a < b then a else b
  }

  method ApplyFixes(env: Env, original: Source, limit: int)
    returns (source: Source, res: FixResult, outcome: Outcome, ghost rounds: seq<Round>, ghost given: set<string>)
    // The bound holds whatever parser, rules and fixers do.
    ensures res.fixed <= (if limit < 0 then 0 else limit) && res.fixed <= 3 * FirstPool(env, original)
    // The source is what exactly `fixed` rounds make of the original, and before its limit the loop ends for a reason.
    ensures |rounds| == res.fixed && Ran(env, original, rounds, source, given)
    ensures outcome == Completed && res.fixed < limit ==> Stops(env, rounds, source, given)
    // Its patches were all offered, and it does not give up before the first fix.
    ensures exists patches :: |patches| == res.fixed && Patched(env, original, patches, source)
    ensures outcome == Completed && limit > 0 && HasFix(env, original) ==> res.fixed >= 1
    // When every fix does its work and no context ends, it fixes all there is, up to the limit.
    ensures TidyFrom(env, original) && (forall n :: !env.ended(n)) && limit >= 0 ==>
              outcome == Completed && res.fixed == Min(limit, FirstPool(env, original))
    ensures outcome == ParseFailed ==> env.parse(source).None?
    ensures outcome == Interrupted ==> exists n :: env.ended(n)
    // Success and Partial come with the parse of that source.
    ensures outcome == Completed || res.partial ==>
              res.doc.Some? && res.doc == env.parse(source) && res.afterErrors == env.countErrors(res.doc.value)
    ensures res.partial <==> outcome == Interrupted && res.fixed > 0
    ensures outcome == Completed && limit > 0 ==>
            env.parse(original).Some? && res.beforeErrors == env.countErrors(env.parse(original).value)
  {
    hide Patched, Offered, HasFix, TidyFrom, Ran, GoesOn, Stops, Stalled, Stalls;
    hide Pools, PoolOn, PicksFirst, Fixable, IsLowest, LastPrint;
    source := original;
    res := FixResult(0, None, 0, 0, false);
    ghost var pool := FirstPool(env, original);
    var lastSignature, skipped: set<string>, stall, minFixable := "", {}, 0, -1;
    var docIsCurrent, interrupted, asked, iter := false, false, 0, 0;
    rounds, given := [], {};
    NoRounds(env, original);
    while iter < limit
      invariant 0 <= iter == res.fixed == |rounds| && !res.partial && (iter == 0 || iter <= limit) &&
                res.fixed <= 3 * pool
      invariant Ran(env, original, rounds, source, given) && given == skipped && !interrupted && !docIsCurrent
      invariant IsLowest(Pools(env, rounds), minFixable) && Stalls(Pools(env, rounds)) == stall < STALL_LIMIT
      invariant lastSignature == LastPrint(env, rounds)
      invariant iter == 0 ==> minFixable == -1 && source == original && res.doc == None && skipped == {}
      invariant iter > 0 ==> 1 <= minFixable && res.fixed <= 3 * (pool - minFixable) + stall + 1
      invariant iter > 0 ==> env.parse(original).Some? && res.beforeErrors == env.countErrors(env.parse(original).value)
    {
      asked := asked + 1;
      if env.ended(asked) { interrupted := true; break; }
      var parsed := env.parse(source);
      if parsed.None? {
        RanPatches(env, original, rounds, source, given);
        TidyParses(env, original, rounds, source, given);
        return source, res, ParseFailed, rounds, given;
      }
      var doc := parsed.value;
      res := res.(doc := parsed);
      docIsCurrent := true;
      if iter == 0 { res := res.(beforeErrors := env.countErrors(doc)); }
      var findings := env.analyze(doc);
      asked := asked + 1;
      if env.ended(asked) { interrupted := true; break; }

      var fixable := CountFixable(env, findings, skipped);
      ghost var pools := Pools(env, rounds) + [fixable];
      NextPool(Pools(env, rounds), minFixable, fixable);
      StallsMeaning(pools);
      PoolIs(env, source, skipped);
      FirstPoolIs(env, original);
      if minFixable < 0 || fixable < minFixable {
        minFixable := fixable;
        stall := 0;
      } else {
        stall := stall + 1;
        if stall >= STALL_LIMIT {
          StopsStalled(env, rounds, source, given);
          break;
        }
      }
      var pick, more := PickFix(env, doc, findings, skipped);
      skipped := more;
      if pick.None? {
        StopsAtPick(env, rounds, source, given, pick, more);
        break;
      }
      var signature := env.signature(pick.value.finding);
      if signature == lastSignature {
        StopsAtPick(env, rounds, source, given, pick, more);
        break;
      }
      lastSignature := signature;

      ghost var r := Round(source, pick.value.finding, pick.value.patch, given);
      Goes(env, rounds, r, more, pools);
      RanStep(env, original, rounds, r, more);
      rounds, given := rounds + [r], more;
      source := env.apply(source, pick.value.patch);
      res := res.(fixed := res.fixed + 1);
      docIsCurrent := false;
      iter := iter + 1;
    }
    RanPatches(env, original, rounds, source, given);
    TidyParses(env, original, rounds, source, given);
    if res.fixed == 0 && HasFix(env, original) {
      NothingRan(env, original, source, given);
      FirstFixComes(env, original);
    }
    if interrupted && res.fixed == 0 { return source, res, Interrupted, rounds, given; }
    if res.doc.None? || (res.fixed > 0 && !docIsCurrent) {
      var parsed := env.parse(source);
      if parsed.None? { return source, res, ParseFailed, rounds, given; }
      res := res.(doc := parsed);
    }
    res := res.(afterErrors := env.countErrors(res.doc.value));
    if interrupted { return source, res.(partial := true), Interrupted, rounds, given; }
    outcome := Completed;
  }

  lemma NoRounds(env: Env, s: Source)
    ensures Ran(env, s, [], s, {}) && Pools(env, []) == [] && Stalls([]) == 0 && IsLowest([], -1)
    ensures LastPrint(env, []) == ""
  {}

  lemma TidyParses(env: Env, original: Source, rounds: seq<Round>, source: Source, given: set<string>)
    requires Ran(env, original, rounds, source, given)
    ensures TidyFrom(env, original) ==>
              && env.parse(source).Some? && |rounds| <= FirstPool(env, original)
              && (Stops(env, rounds, source, given) ==> |rounds| == FirstPool(env, original))
  {
    hide *;
    if TidyFrom(env, original) {
      TidyEnds(env, original, rounds, source, given);
    }
  }

  lemma NothingRan(env: Env, original: Source, source: Source, given: set<string>)
    requires Ran(env, original, [], source, given)
    ensures source == original && given == {}
  {}

  lemma PoolIs(env: Env, s: Source, given: set<string>)
    ensures env.parse(s).Some? ==> PoolOn(env, s, given) == Fixable(env, env.analyze(env.parse(s).value), given)
  {}

  lemma FirstPoolIs(env: Env, s: Source)
    ensures FirstPool(env, s) == PoolOn(env, s, {})
  {}

  lemma StopsStalled(env: Env, rounds: seq<Round>, s: Source, given: set<string>)
    requires env.parse(s).Some? && Stalled(Pools(env, rounds) + [PoolOn(env, s, given)])
    ensures Stops(env, rounds, s, given)
  {}

  lemma StopsAtPick(
    env: Env, rounds: seq<Round>, s: Source, given: set<string>, pick: Option<Pick>, more: set<string>)
    requires env.parse(s).Some? && PicksFirst(env, env.parse(s).value, given, pick, more)
    requires pick.None? || env.signature(pick.value.finding) == LastPrint(env, rounds)
    ensures Stops(env, rounds, s, given)
  {}

  lemma Goes(env: Env, before: seq<Round>, r: Round, more: set<string>, pools: seq<nat>)
    requires env.parse(r.source).Some? && pools == Pools(env, before) + [PoolOn(env, r.source, r.given)]
    requires !Stalled(pools) && env.signature(r.finding) != LastPrint(env, before)
    requires PicksFirst(env, env.parse(r.source).value, r.given, Some(Pick(r.finding, r.patch)), more)
    ensures GoesOn(env, before, r, more)
  {}

  // ----- When every fix does its work -----

  /** The fingerprints of the eligible findings. */
  function Prints(env: Env, fs: seq<Finding>): multiset<string> {
    if fs == [] then multiset{}
    else
      var f := fs[|fs| - 1];
      Prints(env, fs[..|fs| - 1]) + if env.eligible(f) then multiset{env.signature(f)} else multiset{}
  }

  function PrintsOn(env: Env, s: Source): multiset<string> {
    if env.parse(s).None? then multiset{} else Prints(env, env.analyze(env.parse(s).value))
  }

  /** `f` has a block, a fingerprint of its own, and a fix that removes it and no other finding. */
  ghost predicate TidyFinding(env: Env, s: Source, d: Doc, f: Finding) {
    && env.hasBlock(d, f) && env.signature(f) != "" && PrintsOn(env, s)[env.signature(f)] == 1
    && env.fix(d, f).Some?
    && PrintsOn(env, env.apply(s, env.fix(d, f).value)) == PrintsOn(env, s) - multiset{env.signature(f)}
  }

  /** `s` parses, and all its eligible findings are like that. */
  ghost predicate Tidy(env: Env, s: Source) {
    && env.parse(s).Some?
    && var d := env.parse(s).value;
    forall f :: f in env.analyze(d) && env.eligible(f) ==> TidyFinding(env, s, d, f)
  }

  /** Every source that offered patches lead to is tidy. */
  ghost predicate TidyFrom(env: Env, original: Source) {
    forall patches, s :: Patched(env, original, patches, s) ==> Tidy(env, s)
  }

  lemma {:induction false} PrintsCount(env: Env, fs: seq<Finding>)
    ensures Fixable(env, fs, {}) == |Prints(env, fs)|
    ensures forall f :: f in fs && env.eligible(f) ==> env.signature(f) in Prints(env, fs)
    ensures (forall f :: f in fs ==> !env.eligible(f)) ==> Prints(env, fs) == multiset{}
  {
    if fs != [] {
      var rest, last := fs[..|fs| - 1], fs[|fs| - 1];
      PrintsCount(env, rest);
      PrintsStep(env, rest, last);
      assert fs == rest + [last];
      hide Fixable, Prints;
      assert forall f :: f in fs <==> f in rest || f == last;
    }
  }

  lemma PrintsStep(env: Env, fs: seq<Finding>, f: Finding)
    ensures Fixable(env, fs + [f], {}) == Fixable(env, fs, {}) + if env.eligible(f) then 1 else 0
    ensures Prints(env, fs + [f]) ==
            Prints(env, fs) + if env.eligible(f) then multiset{env.signature(f)} else multiset{}
  {
    assert (fs + [f])[..|fs|] == fs;
  }

  lemma PoolIsPrints(env: Env, s: Source)
    ensures PoolOn(env, s, {}) == |PrintsOn(env, s)|
  {
    if env.parse(s).Some? {
      PrintsCount(env, env.analyze(env.parse(s).value));
    }
  }

  lemma TidyHas(env: Env, s: Source, f: Finding)
    requires Tidy(env, s)
    ensures env.parse(s).Some?
    ensures var d := env.parse(s).value;
            && (f in env.analyze(d) && env.eligible(f) ==> TidyFinding(env, s, d, f))
            && (f in env.analyze(d) ==> !Declined(env, d, f) && (env.eligible(f) ==> env.hasBlock(d, f)))
  {}

  /** On a tidy source the scan gives up on nothing, and passes over what is not eligible. */
  lemma TidyScan(env: Env, s: Source, n: nat, pick: Option<Pick>, more: set<string>)
    requires Tidy(env, s) && ScansTo(env, env.parse(s).value, {}, n, pick, more)
    ensures more == {}
    ensures forall f :: f in env.analyze(env.parse(s).value)[..n] ==> !env.eligible(f)
  {
    var d := env.parse(s).value;
    var fs := env.analyze(d);
    hide TidyFinding, Tidy;
    forall f | f in fs[..n]
      ensures !Declined(env, d, f) && (env.eligible(f) ==> env.hasBlock(d, f))
    {
      TidyHas(env, s, f);
    }
    assert more == {};
    forall f | f in fs[..n] ensures !env.eligible(f) {
      var j :| 0 <= j < n && fs[..n][j] == f;
      assert fs[j] == f;
    }
  }

  /** So it picks the first eligible finding, if there is one. */
  lemma TidyPick(env: Env, s: Source, pick: Option<Pick>, more: set<string>)
    requires Tidy(env, s) && PicksFirst(env, env.parse(s).value, {}, pick, more)
    ensures more == {} && (pick.None? ==> PrintsOn(env, s) == multiset{})
    ensures pick.Some? ==>
              && env.signature(pick.value.finding) in PrintsOn(env, s)
              && TidyFinding(env, s, env.parse(s).value, pick.value.finding)
              && env.fix(env.parse(s).value, pick.value.finding) == Some(pick.value.patch)
  {
    var d := env.parse(s).value;
    var fs := env.analyze(d);
    var n: nat :| ScansTo(env, d, {}, n, pick, more);
    PrintsCount(env, fs);
    TidyScan(env, s, n, pick, more);
    hide Tidy, TidyFinding, Prints, Fixable;
    if pick.None? {
      assert fs[..n] == fs;
    } else {
      assert pick.value.finding in fs;
      TidyHas(env, s, pick.value.finding);
    }
  }

  lemma OneFewer(a: multiset<string>, b: multiset<string>, x: string)
    requires x in a && b == a - multiset{x}
    ensures |b| == |a| - 1 && (a[x] == 1 ==> x !in b)
  {}

  /** A round on a tidy source takes one fingerprint out of the pool, and nothing is given up on. */
  lemma TidyRound(env: Env, before: seq<Round>, r: Round, more: set<string>)
    requires GoesOn(env, before, r, more) && Tidy(env, r.source) && r.given == {}
    ensures more == {} && |PrintsOn(env, env.apply(r.source, r.patch))| == |PrintsOn(env, r.source)| - 1
    ensures env.signature(r.finding) !in PrintsOn(env, env.apply(r.source, r.patch)) && env.signature(r.finding) != ""
  {
    hide Tidy, PrintsOn, ScansTo, Stalled;
    TidyPick(env, r.source, Some(Pick(r.finding, r.patch)), more);
    OneFewer(PrintsOn(env, r.source), PrintsOn(env, env.apply(r.source, r.patch)), env.signature(r.finding));
  }

  lemma RanTidy(env: Env, original: Source, rounds: seq<Round>, source: Source, given: set<string>)
    requires TidyFrom(env, original) && Ran(env, original, rounds, source, given)
    ensures Tidy(env, source)
  {
    RanPatches(env, original, rounds, source, given);
  }

  lemma LastRound(env: Env, original: Source, rounds: seq<Round>, source: Source, given: set<string>)
    requires Ran(env, original, rounds, source, given) && rounds != []
    ensures var n := |rounds| - 1;
            var r := rounds[n];
            && Ran(env, original, rounds[..n], r.source, r.given) && GoesOn(env, rounds[..n], r, given)
            && source == env.apply(r.source, r.patch) && LastPrint(env, rounds) == env.signature(r.finding)
            && Pools(env, rounds) == Pools(env, rounds[..n]) + [PoolOn(env, r.source, r.given)]
  {
    hide GoesOn, PoolOn;
  }

  /** Pool sizes that fall by one from round to round. */
  ghost predicate Falling(pools: seq<nat>, first: nat) {
    forall k :: 0 <= k < |pools| ==> pools[k] + k == first
  }

  /** Each round takes one fingerprint out of the pool. */
  lemma {:induction false} TidyRounds(
    env: Env, original: Source, rounds: seq<Round>, source: Source, given: set<string>)
    requires TidyFrom(env, original) && Ran(env, original, rounds, source, given)
    ensures given == {} && |PrintsOn(env, source)| + |rounds| == |PrintsOn(env, original)|
    ensures rounds == [] || LastPrint(env, rounds) !in PrintsOn(env, source)
    ensures Falling(Pools(env, rounds), |PrintsOn(env, original)|)
    decreases |rounds|
  {
    hide TidyFrom, Ran, GoesOn, PrintsOn, PoolOn, LastPrint;
    if rounds == [] {
      NothingRan(env, original, source, given);
    } else {
      LastRound(env, original, rounds, source, given);
      hide Pools;
      var n := |rounds| - 1;
      var r := rounds[n];
      TidyRounds(env, original, rounds[..n], r.source, r.given);
      RanTidy(env, original, rounds[..n], r.source, r.given);
      TidyRound(env, rounds[..n], r, given);
      PoolIsPrints(env, r.source);
    }
  }

  /** Then the loop does not end before the pool is empty. */
  lemma TidyEnds(env: Env, original: Source, rounds: seq<Round>, source: Source, given: set<string>)
    requires TidyFrom(env, original) && Ran(env, original, rounds, source, given)
    ensures env.parse(source).Some? && |rounds| <= FirstPool(env, original)
    ensures Stops(env, rounds, source, given) ==> |rounds| == FirstPool(env, original)
  {
    TidyRounds(env, original, rounds, source, given);
    RanTidy(env, original, rounds, source, given);
    PoolIsPrints(env, original);
    PoolIsPrints(env, source);
    assert env.parse(source).Some?;
    hide Ran, Tidy, TidyFrom, PrintsOn, PicksFirst, PoolOn, LastPrint;
    NotStalled(env, rounds, PoolOn(env, source, given), |PrintsOn(env, original)|);
    forall pick, more | PicksFirst(env, env.parse(source).value, given, pick, more)
      ensures pick.None? ==> PrintsOn(env, source) == multiset{}
      ensures pick.Some? ==> env.signature(pick.value.finding) != LastPrint(env, rounds)
    {
      TidyPick(env, source, pick, more);
      NoPrintYet(env, rounds);
    }
  }

  lemma NoPrintYet(env: Env, rounds: seq<Round>)
    ensures rounds == [] ==> LastPrint(env, rounds) == ""
  {}

  lemma NotStalled(env: Env, rounds: seq<Round>, last: nat, first: nat)
    requires Falling(Pools(env, rounds), first) && last + |rounds| == first
    ensures !Stalled(Pools(env, rounds) + [last])
  {
    hide PoolOn;
    var all := Pools(env, rounds) + [last];
    assert Falling(all, first);
    assert !NoNewMinimum(all, |all| - 1);
  }
}
