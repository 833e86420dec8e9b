/**
  The audit agrees with the suppression pass (core/analyzer/suppress.go, core/analyzer/suppress_inventory.go): an entry
  is live exactly when its directive alone silences a finding, and the pass is the union of its directives.
 */
module SuppressionMeaning {
  import opened Options
  import opened Suppression
  import opened SuppressionAudit
  import opened SuppressionEntries
  import Sorting

  // ----- One directive, one rule, alone -----

  /** Whether comment `id` carries a directive here. */
  predicate IsDirective(b: Block, id: string) {
    b.isComment && b.id == id && b.directive.Some?
  }

  /** The blocks with every directive blanked but the one in comment `id`, which names just `rule`. */
  function Solo(blocks: seq<Block>, id: string, rule: string): seq<Block> {
    if blocks == [] then []
    else
      var b := blocks[0];
      var directive := if IsDirective(b, id) then Some(Only([rule])) else None;
      [b.(directive := directive, children := Solo(b.children, id, rule))] +
      Solo(blocks[1..], id, rule)
  }

  function SoloFlow(flow: Flow, id: string, rule: string): Flow {
    if flow == [] then [] else [flow[0].(blocks := Solo(flow[0].blocks, id, rule))] + SoloFlow(flow[1..], id, rule)
  }

  /** The scopes of the flow in which only that directive, for that rule, is left. */
  function SoloScopes(flow: Flow, id: string, rule: string): Scopes {
    Collect(SoloFlow(flow, id, rule), NO_SCOPES, false)
  }

  /** The blocks the directive in comment `id` is aimed at; `armed` once it has been passed. */
  function Targets(blocks: seq<Block>, id: string, armed: bool): set<string> {
    if blocks == [] then {}
    else
      var b := blocks[0];
      if b.isComment then Targets(blocks[1..], id, armed || IsDirective(b, id))
      else (if armed then {b.id} else {}) + Targets(b.children, id, false) + Targets(blocks[1..], id, false)
  }

  predicate InHeader(blocks: seq<Block>, id: string) {
    blocks != [] && blocks[0].isComment && (IsDirective(blocks[0], id) || InHeader(blocks[1..], id))
  }

  predicate Covers(h: Header, f: Finding) {
    f.block in h.comments || (f.block == "" && (f.subflow == h.subflow || h.file))
  }

  /** Whether directive `id` of this group reaches finding `f`. */
  predicate ReachesIn(blocks: seq<Block>, h: Option<Header>, id: string, f: Finding) {
    f.block in Targets(blocks, id, false) || (h.Some? && InHeader(blocks, id) && Covers(h.value, f))
  }

  predicate Reaches(flow: Flow, id: string, f: Finding, fileScoped: bool) {
    flow != [] &&
    var first := !fileScoped && flow[0].blocks != [];
    ReachesIn(flow[0].blocks, Some(HeaderOf(flow[0], first)), id, f) || Reaches(flow[1..], id, f, fileScoped || first)
  }

  predicate Hits(rule: string, found: string) {
    rule == ALL || rule == found
  }

  lemma {:induction false} WalkSolo(blocks: seq<Block>, id: string, rule: string, armed: bool, m: RuleMap, x: string)
    ensures Lookup(Walk(Solo(blocks, id, rule), if armed then {rule} else {}, m), x) ==
            Lookup(m, x) + if x in Targets(blocks, id, armed) then {rule} else {}
    decreases blocks
  {
    if blocks != [] {
      var b, rest := blocks[0], blocks[1..];
      SoloStep(blocks, id, rule, armed, m);
      TargetsStep(blocks, id, armed);
      hide Walk, Solo, Targets;
      if b.isComment {
        WalkSolo(rest, id, rule, armed || IsDirective(b, id), m, x);
      } else {
        var covered := if armed then Merge(m, b.id, {rule}) else m;
        WalkSolo(b.children, id, rule, false, covered, x);
        WalkSolo(rest, id, rule, false, Walk(Solo(b.children, id, rule), {}, covered), x);
      }
    }
  }

  /** The pass over the first of the blocks with one directive left. */
  lemma SoloStep(blocks: seq<Block>, id: string, rule: string, armed: bool, m: RuleMap)
    requires blocks != []
    ensures var b, rest := blocks[0], Solo(blocks[1..], id, rule);
            Walk(Solo(blocks, id, rule), if armed then {rule} else {}, m) ==
            if b.isComment then Walk(rest, if armed || IsDirective(b, id) then {rule} else {}, m)
            else Walk(rest, {}, Walk(Solo(b.children, id, rule), {}, if armed then Merge(m, b.id, {rule}) else m))
  {
    var b, solo := blocks[0], Solo(blocks, id, rule);
    assert solo[1..] == Solo(blocks[1..], id, rule);
    var now := armed || IsDirective(b, id);
    assert b.isComment ==> (if armed then {rule} else {}) + DirectiveRules(solo[0]) == if now then {rule} else {};
  }

  lemma TargetsStep(blocks: seq<Block>, id: string, armed: bool)
    requires blocks != []
    ensures var b, rest := blocks[0], blocks[1..];
            Targets(blocks, id, armed) ==
            if b.isComment then Targets(rest, id, armed || IsDirective(b, id))
            else (if armed then {b.id} else {}) + Targets(b.children, id, false) + Targets(rest, id, false)
  {
  }

  lemma {:induction false} HeaderSolo(blocks: seq<Block>, id: string, rule: string)
    ensures HeaderRules(Solo(blocks, id, rule)) == (if InHeader(blocks, id) then {rule} else {})
    ensures LeadingIds(Solo(blocks, id, rule)) == LeadingIds(blocks)
    ensures |Solo(blocks, id, rule)| == |blocks|
  {
    if blocks != [] {
      var solo := Solo(blocks, id, rule);
      assert solo[1..] == Solo(blocks[1..], id, rule);
      HeaderSolo(blocks[1..], id, rule);
      assert DirectiveRules(solo[0]) == if IsDirective(blocks[0], id) then {rule} else {};
    }
  }

  lemma {:induction false} MergeAllLookup(m: RuleMap, ids: seq<string>, rules: set<string>, x: string)
    ensures Lookup(MergeAll(m, ids, rules), x) == Lookup(m, x) + if x in ids then rules else {}
    decreases |ids|
  {
    if ids != [] {
      MergeAllLookup(Merge(m, ids[0], rules), ids[1..], rules, x);
      assert ids == [ids[0]] + ids[1..];
    }
  }

  lemma SubflowSolo(sf: Subflow, id: string, rule: string, s: Scopes, first: bool, f: Finding)
    requires Lookup(s.subflows, f.subflow) <= {rule} && s.file <= {rule} && (first ==> s.file == {})
    ensures var after := CollectSubflow(sf.(blocks := Solo(sf.blocks, id, rule)), s, first);
            && Lookup(after.subflows, f.subflow) <= {rule} && after.file <= {rule} && (!first ==> after.file == s.file)
            && (Suppresses(after, f) <==>
                Suppresses(s, f) || (Hits(rule, f.rule) && ReachesIn(sf.blocks, Some(HeaderOf(sf, first)), id, f)))
  {
    hide Walk, Solo, MergeAll, HeaderRules, LeadingIds, Targets, InHeader;
    HeaderSolo(sf.blocks, id, rule);
    WalkSolo(sf.blocks, id, rule, false, s.blocks, f.block);
    MergeAllLookup(Walk(Solo(sf.blocks, id, rule), {}, s.blocks), LeadingIds(sf.blocks), {rule}, f.block);
  }

  /** One directive alone silences exactly the findings of its rule that it reaches. */
  lemma {:induction false} CollectSolo(flow: Flow, id: string, rule: string, s: Scopes, fileScoped: bool, f: Finding)
    requires Lookup(s.subflows, f.subflow) <= {rule} && s.file <= {rule} && (fileScoped || s.file == {})
    ensures Suppresses(Collect(SoloFlow(flow, id, rule), s, fileScoped), f) <==>
            Suppresses(s, f) || (Hits(rule, f.rule) && Reaches(flow, id, f, fileScoped))
    decreases |flow|
  {
    hide CollectSubflow, Suppresses, ReachesIn, Hits, Solo, HeaderOf;
    if flow != [] {
      var sf, solo := flow[0], SoloFlow(flow, id, rule);
      assert solo[1..] == SoloFlow(flow[1..], id, rule);
      var first := !fileScoped && sf.blocks != [];
      HeaderSolo(sf.blocks, id, rule);
      SubflowSolo(sf, id, rule, s, first, f);
      CollectSolo(flow[1..], id, rule, CollectSubflow(solo[0], s, first), fileScoped || first, f);
    }
  }

  lemma SoloMeaning(flow: Flow, id: string, rule: string, f: Finding)
    ensures Suppresses(SoloScopes(flow, id, rule), f) <==> Hits(rule, f.rule) && Reaches(flow, id, f, false)
  {
    CollectSolo(flow, id, rule, NO_SCOPES, false, f);
  }

  // ----- The audit agrees with the pass -----

  /** Block ids as the parser mints them: never empty, and no two directives share one. */
  predicate Named(blocks: seq<Block>) {
    blocks != [] ==> blocks[0].id != "" && Named(blocks[0].children) && Named(blocks[1..])
  }

  /** The comments, of those a walk visits, that carry a directive. */
  function DirectiveIds(blocks: seq<Block>): set<string> {
    if blocks == [] then {}
    else
      var b := blocks[0];
      (if b.isComment then (if b.directive.Some? then {b.id} else {})
       else DirectiveIds(b.children)) + DirectiveIds(blocks[1..])
  }

  predicate Apart(blocks: seq<Block>) {
    blocks != [] ==>
      var b, others := blocks[0], DirectiveIds(blocks[1..]);
      Apart(blocks[1..]) &&
      if b.isComment then b.directive.Some? ==> b.id !in others
      else Apart(b.children) && DirectiveIds(b.children) !! others
  }

  function FlowIds(flow: Flow): set<string> {
    if flow == [] then {} else DirectiveIds(flow[0].blocks) + FlowIds(flow[1..])
  }

  predicate WellNamed(flow: Flow) {
    flow != [] ==>
      Named(flow[0].blocks) && Apart(flow[0].blocks) && DirectiveIds(flow[0].blocks) !! FlowIds(flow[1..]) &&
        WellNamed(flow[1..])
  }

  lemma {:induction false} RecordMeaning(fs: seq<Finding>, key: string, rule: string)
    ensures rule in Lookup(Record(fs).blocks, key) <==> exists f :: f in fs && f.block == key != "" && f.rule == rule
    ensures rule in Lookup(Record(fs).blockless, key) <==>
            exists f :: f in fs && f.block == "" && f.subflow == key && f.rule == rule
    decreases |fs|
  {
    if fs != [] {
      var init := fs[..|fs| - 1];
      RecordMeaning(init, key, rule);
      assert fs == init + [fs[|fs| - 1]];
      assert forall f :: f in fs <==> f in init || f == fs[|fs| - 1];
    }
  }

  lemma BlockFires(fs: seq<Finding>, key: string, rule: string)
    requires key != ""
    ensures SetFires(Lookup(Record(fs).blocks, key), rule) <==>
            exists f :: f in fs && f.block == key && Hits(rule, f.rule)
  {
    hide Record, Lookup;
    if r :| r in Lookup(Record(fs).blocks, key) && Hits(rule, r) {
      RecordMeaning(fs, key, r);
    }
    if f :| f in fs && f.block == key && Hits(rule, f.rule) {
      RecordMeaning(fs, key, f.rule);
    }
  }

  lemma BlocklessFires(fs: seq<Finding>, key: string, rule: string)
    ensures SetFires(Lookup(Record(fs).blockless, key), rule) <==>
            exists f :: f in fs && f.block == "" && f.subflow == key && Hits(rule, f.rule)
  {
    hide Record, Lookup;
    if r :| r in Lookup(Record(fs).blockless, key) && Hits(rule, r) {
      RecordMeaning(fs, key, r);
    }
    if f :| f in fs && f.block == "" && f.subflow == key && Hits(rule, f.rule) {
      RecordMeaning(fs, key, f.rule);
    }
  }

  lemma HeaderMeaning(fs: seq<Finding>, h: Header, rule: string)
    requires "" !in h.comments
    ensures HeaderFires(Record(fs), h, rule) <==> exists f :: f in fs && Hits(rule, f.rule) && Covers(h, f)
  {
    hide Record, SetFires, Hits;
    var fi := Record(fs);
    forall k
      ensures SetFires(Lookup(fi.blockless, k), rule) <==>
              exists f :: f in fs && f.block == "" && f.subflow == k && Hits(rule, f.rule) {
      BlocklessFires(fs, k, rule);
    }
    forall k | k != ""
      ensures SetFires(Lookup(fi.blocks, k), rule) <==> exists f :: f in fs && f.block == k && Hits(rule, f.rule) {
      BlockFires(fs, k, rule);
    }
    if HeaderFires(fi, h, rule) {
      if i :| 0 <= i < |h.comments| && SetFires(Lookup(fi.blocks, h.comments[i]), rule) {
      } else if h.file && exists k :: k in fi.blockless && SetFires(fi.blockless[k], rule) {
        var k :| k in fi.blockless && SetFires(fi.blockless[k], rule);
        assert SetFires(Lookup(fi.blockless, k), rule);
      }
    }
    if f :| f in fs && Hits(rule, f.rule) && Covers(h, f) {
      if f.block == "" {
        assert SetFires(Lookup(fi.blockless, f.subflow), rule);
        EmptyIsQuiet(rule);
      }
    }
  }

  lemma EmptyIsQuiet(rule: string)
    ensures !SetFires({}, rule)
  {
  }

  /** The audit's verdict, in terms of the findings. */
  lemma LiveMeaning(fs: seq<Finding>, rule: string, next: Option<string>, h: Option<Header>)
    requires next != Some("") && (h.Some? ==> "" !in h.value.comments)
    ensures !IsStale(Record(fs), rule, next, h) <==>
            exists f :: f in fs && Hits(rule, f.rule) && (next == Some(f.block) || (h.Some? && Covers(h.value, f)))
  {
    hide Record, SetFires, Hits, HeaderFires, Covers;
    if next.Some? {
      BlockFires(fs, next.value, rule);
    }
    if h.Some? {
      HeaderMeaning(fs, h.value, rule);
    }
  }

  lemma {:induction false} TargetsOutside(blocks: seq<Block>, id: string, armed: bool)
    requires id !in DirectiveIds(blocks)
    ensures Targets(blocks, id, armed) ==
            if armed && NextConcrete(blocks).Some? then {NextConcrete(blocks).value} else {}
    ensures !InHeader(blocks, id)
  {
    if blocks != [] {
      TargetsOutside(blocks[1..], id, blocks[0].isComment && armed);
      if !blocks[0].isComment {
        TargetsOutside(blocks[0].children, id, false);
      }
    }
  }

  lemma {:induction false} NextNamed(blocks: seq<Block>)
    requires Named(blocks)
    ensures NextConcrete(blocks) != Some("") && "" !in LeadingIds(blocks)
  {
    if blocks != [] {
      NextNamed(blocks[1..]);
    }
  }

  lemma {:induction false} EntryOf(
    b: Block, rules: seq<string>, next: Option<Block>, h: Option<Header>, fi: Firing, subflow: string, e: Entry)
    requires e in EntriesOf(b, rules, next, h, fi, subflow)
    ensures e.id == b.id && e.rule in rules && e.stale == IsStale(fi, e.rule, IdOf(next), h)
    decreases |rules|
  {
    if e != EntriesOf(b, rules, next, h, fi, subflow)[0] {
      EntryOf(b, rules[1..], next, h, fi, subflow, e);
    }
  }

  lemma {:induction false} EntryIds(blocks: seq<Block>, h: Option<Header>, fi: Firing, subflow: string, e: Entry)
    requires e in Audit(blocks, h, fi, subflow)
    ensures e.id in DirectiveIds(blocks)
  {
    hide IsStale, EntriesOf;
    var b, rest := blocks[0], blocks[1..];
    if b.isComment {
      if e in Audit(rest, h, fi, subflow) {
        EntryIds(rest, h, fi, subflow, e);
      } else {
        EntryOf(b, NamedRules(b.directive), NextBlock(rest), h, fi, subflow, e);
      }
    } else if e in Audit(rest, None, fi, subflow) {
      EntryIds(rest, None, fi, subflow, e);
    } else {
      EntryIds(b.children, None, fi, subflow, e);
    }
  }

  /** In one group, an entry is live exactly when its directive reaches a finding of its rule. */
  lemma {:induction false} AuditExact(
    blocks: seq<Block>, h: Option<Header>, fs: seq<Finding>, subflow: string, e: Entry)
    requires Named(blocks) && Apart(blocks) && (h.Some? ==> "" !in h.value.comments)
    requires e in Audit(blocks, h, Record(fs), subflow)
    ensures !e.stale <==> exists f :: f in fs && Hits(e.rule, f.rule) && ReachesIn(blocks, h, e.id, f)
  {
    hide IsStale, EntriesOf, Record, Hits, Covers;
    var b, rest, fi := blocks[0], blocks[1..], Record(fs);
    if b.isComment {
      if e in Audit(rest, h, fi, subflow) {
        EntryIds(rest, h, fi, subflow, e);
        AuditExact(rest, h, fs, subflow, e);
        assert forall f :: ReachesIn(blocks, h, e.id, f) == ReachesIn(rest, h, e.id, f);
      } else {
        EntryOf(b, NamedRules(b.directive), NextBlock(rest), h, fi, subflow, e);
        TargetsOutside(rest, e.id, true);
        NextNamed(rest);
        LiveMeaning(fs, e.rule, NextConcrete(rest), h);
      }
    } else if e in Audit(rest, None, fi, subflow) {
      EntryIds(rest, None, fi, subflow, e);
      TargetsOutside(b.children, e.id, false);
      AuditExact(rest, None, fs, subflow, e);
      assert forall f :: ReachesIn(blocks, h, e.id, f) == ReachesIn(rest, None, e.id, f);
    } else {
      EntryIds(b.children, None, fi, subflow, e);
      TargetsOutside(rest, e.id, false);
      AuditExact(b.children, None, fs, subflow, e);
      assert forall f :: ReachesIn(blocks, h, e.id, f) == ReachesIn(b.children, None, e.id, f);
    }
  }

  lemma {:induction false} ReachesOutside(flow: Flow, id: string, f: Finding, fileScoped: bool)
    requires id !in FlowIds(flow)
    ensures !Reaches(flow, id, f, fileScoped)
    decreases |flow|
  {
    if flow != [] {
      TargetsOutside(flow[0].blocks, id, false);
      ReachesOutside(flow[1..], id, f, fileScoped || flow[0].blocks != []);
    }
  }

  lemma {:induction false} FlowEntryIds(flow: Flow, fi: Firing, fileScoped: bool, e: Entry)
    requires e in AuditFlow(flow, fi, fileScoped)
    ensures e.id in FlowIds(flow)
    decreases |flow|
  {
    var first := !fileScoped && flow[0].blocks != [];
    if e in AuditFlow(flow[1..], fi, fileScoped || first) {
      FlowEntryIds(flow[1..], fi, fileScoped || first, e);
    } else {
      EntryIds(flow[0].blocks, Some(HeaderOf(flow[0], first)), fi, flow[0].name, e);
    }
  }

  lemma {:induction false} AuditFlowExact(flow: Flow, fs: seq<Finding>, fileScoped: bool, e: Entry)
    requires WellNamed(flow) && e in AuditFlow(flow, Record(fs), fileScoped)
    ensures !e.stale <==> exists f :: f in fs && Hits(e.rule, f.rule) && Reaches(flow, e.id, f, fileScoped)
    decreases |flow|
  {
    hide Audit, Record, Hits, ReachesIn, Named, Apart, DirectiveIds;
    var sf, rest, fi := flow[0], flow[1..], Record(fs);
    var first := !fileScoped && sf.blocks != [];
    var h := Some(HeaderOf(sf, first));
    if e in AuditFlow(rest, fi, fileScoped || first) {
      FlowEntryIds(rest, fi, fileScoped || first, e);
      AuditFlowExact(rest, fs, fileScoped || first, e);
      forall f ensures !ReachesIn(sf.blocks, h, e.id, f) {
        QuietOutside(sf.blocks, h, e.id, f);
      }
    } else {
      EntryIds(sf.blocks, h, fi, sf.name, e);
      NextNamed(sf.blocks);
      AuditExact(sf.blocks, h, fs, sf.name, e);
      var scoped := fileScoped || first;
      forall f ensures !Reaches(rest, e.id, f, scoped) {
        ReachesOutside(rest, e.id, f, scoped);
      }
    }
  }

  lemma QuietOutside(blocks: seq<Block>, h: Option<Header>, id: string, f: Finding)
    requires id !in DirectiveIds(blocks)
    ensures !ReachesIn(blocks, h, id, f)
  {
    TargetsOutside(blocks, id, false);
  }

  /** An entry is live exactly when its directive alone, restricted to its rule, silences some finding under
      the suppression pass. */
  lemma LiveMeansSilencing(flow: Flow, fs: seq<Finding>, e: Entry)
    requires WellNamed(flow) && e in AuditFlow(flow, Record(fs), false)
    ensures !e.stale <==> exists f :: f in fs && Suppresses(SoloScopes(flow, e.id, e.rule), f)
  {
    hide *;
    AuditFlowExact(flow, fs, false, e);
    forall f
      ensures Suppresses(SoloScopes(flow, e.id, e.rule), f) <==> Hits(e.rule, f.rule) && Reaches(flow, e.id, f, false) {
      SoloMeaning(flow, e.id, e.rule, f);
    }
  }

  // ----- The pass is the union of its directives -----

  /** Whether directive `id` of this group, or of a nested one, names `rule`. */
  predicate Names(blocks: seq<Block>, id: string, rule: string) {
    blocks != [] &&
    var b := blocks[0];
    (if b.isComment then b.id == id && rule in NamedRules(b.directive) else Names(b.children, id, rule)) ||
      Names(blocks[1..], id, rule)
  }

  predicate FlowNames(flow: Flow, id: string, rule: string) {
    flow != [] && (Names(flow[0].blocks, id, rule) || FlowNames(flow[1..], id, rule))
  }

  /** Whether some directive that names `rule` is aimed at block `x`; `armed` once one has been passed. */
  predicate Aimed(blocks: seq<Block>, rule: string, armed: bool, x: string) {
    blocks != [] &&
    var b := blocks[0];
    if b.isComment then Aimed(blocks[1..], rule, armed || rule in NamedRules(b.directive), x)
    else (armed && b.id == x) || Aimed(b.children, rule, false, x) || Aimed(blocks[1..], rule, false, x)
  }

  lemma {:induction false} WalkRules(blocks: seq<Block>, pending: set<string>, m: RuleMap, x: string, rule: string)
    ensures rule in Lookup(Walk(blocks, pending, m), x) <==>
            rule in Lookup(m, x) || Aimed(blocks, rule, rule in pending, x)
    decreases blocks
  {
    if blocks != [] {
      var b := blocks[0];
      if b.isComment {
        WalkRules(blocks[1..], pending + DirectiveRules(b), m, x, rule);
      } else {
        var covered := if pending != {} then Merge(m, b.id, pending) else m;
        WalkRules(b.children, {}, covered, x, rule);
        WalkRules(blocks[1..], {}, Walk(b.children, {}, covered), x, rule);
      }
    }
  }

  lemma {:induction false} NamesInside(blocks: seq<Block>, id: string, rule: string)
    requires Names(blocks, id, rule)
    ensures id in DirectiveIds(blocks)
  {
    var b := blocks[0];
    if Names(blocks[1..], id, rule) {
      NamesInside(blocks[1..], id, rule);
    } else if !b.isComment {
      NamesInside(b.children, id, rule);
    }
  }

  /** What is aimed at a block, beyond what was pending, comes from one directive. */
  lemma {:induction false} AimedBy(blocks: seq<Block>, rule: string, armed: bool, x: string) returns (id: string)
    requires Aimed(blocks, rule, armed, x) && Apart(blocks)
    ensures (armed && NextConcrete(blocks) == Some(x)) || (Names(blocks, id, rule) && x in Targets(blocks, id, false))
  {
    var b, rest := blocks[0], blocks[1..];
    id := "";
    if b.isComment {
      id := AimedBy(rest, rule, armed || rule in NamedRules(b.directive), x);
      if Names(rest, id, rule) && x in Targets(rest, id, false) {
        NamesInside(rest, id, rule);
      } else if rule in NamedRules(b.directive) {
        id := b.id;
        TargetsOutside(rest, id, true);
      }
    } else if Aimed(rest, rule, false, x) {
      id := AimedBy(rest, rule, false, x);
    } else if Aimed(b.children, rule, false, x) {
      id := AimedBy(b.children, rule, false, x);
    }
  }

  lemma {:induction false} AimsAt(blocks: seq<Block>, id: string, rule: string, armed: bool, x: string)
    requires Apart(blocks) && Names(blocks, id, rule) && x in Targets(blocks, id, false)
    ensures Aimed(blocks, rule, armed, x)
    decreases blocks
  {
    var b, rest := blocks[0], blocks[1..];
    if Names(rest, id, rule) {
      NamesInside(rest, id, rule);
      if !b.isComment {
        TargetsOutside(b.children, id, false);
      }
      AimsAt(rest, id, rule, b.isComment && (armed || rule in NamedRules(b.directive)), x);
    } else if b.isComment {
      TargetsOutside(rest, id, true);
      NextIsAimed(rest, rule);
    } else {
      NamesInside(b.children, id, rule);
      TargetsOutside(rest, id, false);
      AimsAt(b.children, id, rule, false, x);
    }
  }

  lemma {:induction false} NextIsAimed(blocks: seq<Block>, rule: string)
    ensures NextConcrete(blocks).Some? ==> Aimed(blocks, rule, true, NextConcrete(blocks).value)
  {
    if blocks != [] {
      NextIsAimed(blocks[1..], rule);
    }
  }

  lemma AimedMeaning(blocks: seq<Block>, rule: string, x: string)
    requires Apart(blocks)
    ensures Aimed(blocks, rule, false, x) <==> exists id :: Names(blocks, id, rule) && x in Targets(blocks, id, false)
  {
    hide *;
    if Aimed(blocks, rule, false, x) {
      var id := AimedBy(blocks, rule, false, x);
    }
    if id :| Names(blocks, id, rule) && x in Targets(blocks, id, false) {
      AimsAt(blocks, id, rule, false, x);
    }
  }

  lemma {:induction false} HeaderNamer(blocks: seq<Block>, rule: string) returns (id: string)
    requires rule in HeaderRules(blocks)
    ensures Names(blocks, id, rule) && InHeader(blocks, id)
  {
    if rule in DirectiveRules(blocks[0]) {
      id := blocks[0].id;
    } else {
      id := HeaderNamer(blocks[1..], rule);
    }
  }

  lemma {:induction false} HeaderNamed(blocks: seq<Block>, id: string, rule: string)
    requires Apart(blocks) && Names(blocks, id, rule) && InHeader(blocks, id)
    ensures rule in HeaderRules(blocks)
  {
    if Names(blocks[1..], id, rule) {
      NamesInside(blocks[1..], id, rule);
      HeaderNamed(blocks[1..], id, rule);
    }
  }

  lemma HeaderRulesMeaning(blocks: seq<Block>, rule: string)
    requires Apart(blocks)
    ensures rule in HeaderRules(blocks) <==> exists id :: Names(blocks, id, rule) && InHeader(blocks, id)
  {
    hide Names, InHeader, HeaderRules, Apart;
    if rule in HeaderRules(blocks) {
      var id := HeaderNamer(blocks, rule);
    }
    if id :| Names(blocks, id, rule) && InHeader(blocks, id) {
      HeaderNamed(blocks, id, rule);
      assert exists i :: Names(blocks, i, rule) && InHeader(blocks, i);
    }
  }

  /** Whether one directive of the group, for one rule it names, silences `f`. */
  ghost predicate SomeDirectiveIn(blocks: seq<Block>, h: Header, f: Finding) {
    exists id, rule :: Names(blocks, id, rule) && Hits(rule, f.rule) && ReachesIn(blocks, Some(h), id, f)
  }

  ghost predicate SomeDirective(flow: Flow, f: Finding, fileScoped: bool) {
    exists id, rule :: FlowNames(flow, id, rule) && Hits(rule, f.rule) && Reaches(flow, id, f, fileScoped)
  }

  lemma RuleSetMeaning(rules: set<string>, found: string)
    ensures RuleSetHas(rules, found) <==> exists rule :: rule in rules && Hits(rule, found)
  {
    if ALL in rules {
      assert Hits(ALL, found);
    } else if found in rules {
      assert Hits(found, found);
    }
  }

  lemma SubflowUnion(sf: Subflow, s: Scopes, first: bool, f: Finding)
    requires Apart(sf.blocks) && (sf.id == f.subflow ==> Lookup(s.subflows, f.subflow) == {}) &&
             (first ==> s.file == {})
    ensures Suppresses(CollectSubflow(sf, s, first), f) <==>
            Suppresses(s, f) || SomeDirectiveIn(sf.blocks, HeaderOf(sf, first), f)
  {
    hide Walk, MergeAll, HeaderRules, LeadingIds, Targets, InHeader, Names, Aimed, NextConcrete, RuleSetHas, Hits;
    var h, header, after := HeaderOf(sf, first), HeaderRules(sf.blocks), CollectSubflow(sf, s, first);
    var walked := Walk(sf.blocks, {}, s.blocks);
    MergeAllLookup(walked, LeadingIds(sf.blocks), header, f.block);
    assert forall rule :: rule in Lookup(after.blocks, f.block) <==>
                          rule in Lookup(walked, f.block) || (rule in header && f.block in h.comments);
    forall rule ensures rule in Lookup(walked, f.block) <==>
                        rule in Lookup(s.blocks, f.block) ||
                          exists id :: Names(sf.blocks, id, rule) && f.block in Targets(sf.blocks, id, false) {
      WalkRules(sf.blocks, {}, s.blocks, f.block, rule);
      AimedMeaning(sf.blocks, rule, f.block);
    }
    forall rule ensures rule in header <==> exists id :: Names(sf.blocks, id, rule) && InHeader(sf.blocks, id) {
      HeaderRulesMeaning(sf.blocks, rule);
    }
    RuleSetMeaning(Lookup(s.blocks, f.block), f.rule);
    RuleSetMeaning(Lookup(after.blocks, f.block), f.rule);
    RuleSetMeaning(Lookup(s.subflows, f.subflow), f.rule);
    RuleSetMeaning(Lookup(after.subflows, f.subflow), f.rule);
    RuleSetMeaning(s.file, f.rule);
    RuleSetMeaning(after.file, f.rule);
  }

  /** The subflows' ids, and whether they are all different. */
  predicate DistinctSubflows(flow: Flow) {
    forall i, j :: 0 <= i < j < |flow| ==> flow[i].id != flow[j].id
  }

  lemma {:induction false} FlowNamesInside(flow: Flow, id: string, rule: string)
    requires FlowNames(flow, id, rule)
    ensures id in FlowIds(flow)
  {
    if Names(flow[0].blocks, id, rule) {
      NamesInside(flow[0].blocks, id, rule);
    } else {
      FlowNamesInside(flow[1..], id, rule);
    }
  }

  lemma SplitDirective(flow: Flow, f: Finding, fileScoped: bool)
    requires flow != [] && WellNamed(flow)
    ensures var first := !fileScoped && flow[0].blocks != [];
            SomeDirective(flow, f, fileScoped) <==>
            SomeDirectiveIn(flow[0].blocks, HeaderOf(flow[0], first), f) ||
              SomeDirective(flow[1..], f, fileScoped || first)
  {
    hide Names, Hits, ReachesIn, DirectiveIds, Named, Apart, HeaderOf;
    var sf, rest, first := flow[0], flow[1..], !fileScoped && flow[0].blocks != [];
    var h, scoped := HeaderOf(sf, first), fileScoped || first;
    if id, rule :| FlowNames(flow, id, rule) && Hits(rule, f.rule) && Reaches(flow, id, f, fileScoped) {
      if FlowNames(rest, id, rule) {
        FlowNamesInside(rest, id, rule);
        QuietOutside(sf.blocks, Some(h), id, f);
        assert Reaches(rest, id, f, scoped);
      } else {
        NamesInside(sf.blocks, id, rule);
        ReachesOutside(rest, id, f, scoped);
        assert Names(sf.blocks, id, rule) && ReachesIn(sf.blocks, Some(h), id, f);
      }
    }
    if id, rule :| Names(sf.blocks, id, rule) && Hits(rule, f.rule) && ReachesIn(sf.blocks, Some(h), id, f) {
      assert FlowNames(flow, id, rule) && Reaches(flow, id, f, fileScoped);
    }
    if id, rule :| FlowNames(rest, id, rule) && Hits(rule, f.rule) && Reaches(rest, id, f, scoped) {
      assert FlowNames(flow, id, rule) && Reaches(flow, id, f, fileScoped);
    }
  }

  lemma {:induction false} CollectUnion(flow: Flow, s: Scopes, fileScoped: bool, f: Finding)
    requires WellNamed(flow) && DistinctSubflows(flow) && (fileScoped || s.file == {})
    requires (exists i :: 0 <= i < |flow| && flow[i].id == f.subflow) ==> Lookup(s.subflows, f.subflow) == {}
    ensures Suppresses(Collect(flow, s, fileScoped), f) <==> Suppresses(s, f) || SomeDirective(flow, f, fileScoped)
    decreases |flow|
  {
    hide Suppresses, SomeDirectiveIn, SomeDirective, HeaderOf, Walk, MergeAll, HeaderRules, LeadingIds, Named, Apart;
    hide DirectiveIds;
    if flow != [] {
      var sf, rest, first := flow[0], flow[1..], !fileScoped && flow[0].blocks != [];
      SubflowUnion(sf, s, first, f);
      SplitDirective(flow, f, fileScoped);
      if i :| 0 <= i < |rest| && rest[i].id == f.subflow {
        assert flow[i + 1].id == f.subflow;
      }
      CollectUnion(rest, CollectSubflow(sf, s, first), fileScoped || first, f);
    } else {
      NoDirective(f, fileScoped);
    }
  }

  lemma NoDirective(f: Finding, fileScoped: bool)
    ensures !SomeDirective([], f, fileScoped)
  {
  }

  /** The inventory has one entry for every rule of every directive. */
  lemma {:induction false} AuditNames(
    blocks: seq<Block>, h: Option<Header>, fi: Firing, subflow: string, id: string, rule: string)
    ensures (exists e :: e in Audit(blocks, h, fi, subflow) && e.id == id && e.rule == rule) <==>
            Names(blocks, id, rule)
  {
    hide IsStale, EntriesOf;
    if blocks != [] {
      var b, rest := blocks[0], blocks[1..];
      if b.isComment {
        EntriesName(b, NamedRules(b.directive), NextBlock(rest), h, fi, subflow, id, rule);
        AuditNames(rest, h, fi, subflow, id, rule);
      } else {
        AuditNames(b.children, None, fi, subflow, id, rule);
        AuditNames(rest, None, fi, subflow, id, rule);
      }
    }
  }

  lemma {:induction false} EntriesName(
    b: Block, rules: seq<string>, next: Option<Block>, h: Option<Header>, fi: Firing, subflow: string, id: string,
    rule: string)
    ensures (exists e :: e in EntriesOf(b, rules, next, h, fi, subflow) && e.id == id && e.rule == rule) <==>
            b.id == id && rule in rules
    decreases |rules|
  {
    if rules != [] {
      var all := EntriesOf(b, rules, next, h, fi, subflow);
      EntriesName(b, rules[1..], next, h, fi, subflow, id, rule);
      assert all[0].id == b.id && all[0].rule == rules[0] && all[1..] == EntriesOf(b, rules[1..], next, h, fi, subflow);
      assert forall e :: e in all <==> e == all[0] || e in all[1..];
    }
  }

  lemma {:induction false} AuditFlowNames(flow: Flow, fi: Firing, fileScoped: bool, id: string, rule: string)
    ensures (exists e :: e in AuditFlow(flow, fi, fileScoped) && e.id == id && e.rule == rule) <==>
            FlowNames(flow, id, rule)
    decreases |flow|
  {
    hide Audit, Names;
    if flow != [] {
      var first := !fileScoped && flow[0].blocks != [];
      AuditNames(flow[0].blocks, Some(HeaderOf(flow[0], first)), fi, flow[0].name, id, rule);
      AuditFlowNames(flow[1..], fi, fileScoped || first, id, rule);
    }
  }

  /** A finding is silenced by the whole pass exactly when some inventory entry's directive, alone and for
      its rule, silences it: directives neither help nor hinder one another. */
  lemma PassIsUnion(flow: Flow, fi: Firing, f: Finding)
    requires WellNamed(flow) && DistinctSubflows(flow)
    ensures Suppresses(Collect(flow, NO_SCOPES, false), f) <==>
            exists e :: e in AuditFlow(flow, fi, false) && Suppresses(SoloScopes(flow, e.id, e.rule), f)
  {
    hide *;
    QuietStart(f);
    CollectUnion(flow, NO_SCOPES, false, f);
    if SomeDirective(flow, f, false) {
      var id, rule := PickDirective(flow, f);
      AuditFlowNames(flow, fi, false, id, rule);
      var e :| e in AuditFlow(flow, fi, false) && e.id == id && e.rule == rule;
      SoloMeaning(flow, id, rule, f);
    }
    if e :| e in AuditFlow(flow, fi, false) && Suppresses(SoloScopes(flow, e.id, e.rule), f) {
      AuditFlowNames(flow, fi, false, e.id, e.rule);
      SoloMeaning(flow, e.id, e.rule, f);
      HasDirective(flow, f, e.id, e.rule);
    }
  }

  lemma QuietStart(f: Finding)
    ensures !Suppresses(NO_SCOPES, f) && Lookup(NO_SCOPES.subflows, f.subflow) == {} && NO_SCOPES.file == {}
  {
  }

  lemma PickDirective(flow: Flow, f: Finding) returns (id: string, rule: string)
    requires SomeDirective(flow, f, false)
    ensures FlowNames(flow, id, rule) && Hits(rule, f.rule) && Reaches(flow, id, f, false)
  {
    id, rule :| FlowNames(flow, id, rule) && Hits(rule, f.rule) && Reaches(flow, id, f, false);
  }

  lemma HasDirective(flow: Flow, f: Finding, id: string, rule: string)
    requires FlowNames(flow, id, rule) && Hits(rule, f.rule) && Reaches(flow, id, f, false)
    ensures SomeDirective(flow, f, false)
  {
  }

  /** Every entry is stale exactly when the suppression pass silences nothing. */
  lemma AllStaleMeansIdle(flow: Flow, fs: seq<Finding>)
    requires WellNamed(flow) && DistinctSubflows(flow)
    ensures (forall e :: e in AuditFlow(flow, Record(fs), false) ==> e.stale) <==>
            (forall f :: f in fs ==> !Suppresses(Collect(flow, NO_SCOPES, false), f))
  {
    hide *;
    forall e | e in AuditFlow(flow, Record(fs), false)
      ensures !e.stale <==> exists f :: f in fs && Suppresses(SoloScopes(flow, e.id, e.rule), f) {
      LiveMeansSilencing(flow, fs, e);
    }
    forall f ensures Suppresses(Collect(flow, NO_SCOPES, false), f) <==>
                     exists e :: e in AuditFlow(flow, Record(fs), false) &&
                       Suppresses(SoloScopes(flow, e.id, e.rule), f) {
      PassIsUnion(flow, Record(fs), f);
    }
  }

  // ----- The pre-check, and the inventory -----

  /** Whether a walk would meet a directive. */
  method ScanGroup(blocks: seq<Block>) returns (found: bool)
    ensures found <==> DirectiveIds(blocks) != {}
    decreases blocks
  {
    for i := 0 to |blocks|
      invariant DirectiveIds(blocks[i..]) == DirectiveIds(blocks)
    {
      var b := blocks[i];
      assert blocks[i..][0] == b && blocks[i..][1..] == blocks[i + 1..];
      if b.isComment {
        if b.directive.Some? {
          assert b.id in DirectiveIds(blocks[i..]);
          return true;
        }
      } else {
        var inner := ScanGroup(b.children);
        if inner {
          return true;
        }
      }
    }
    assert blocks[|blocks|..] == [];
    return false;
  }

  method HasPadIgnoreDirective(flow: Flow) returns (found: bool)
    ensures found <==> FlowIds(flow) != {}
  {
    for i := 0 to |flow|
      invariant FlowIds(flow[i..]) == FlowIds(flow)
    {
      assert flow[i..][0] == flow[i] && flow[i..][1..] == flow[i + 1..];
      var inner := ScanGroup(flow[i].blocks);
      if inner {
        return true;
      }
    }
    assert flow[|flow|..] == [];
    return false;
  }

  // ----- The order of the entries -----

  /** The order of strings, byte by byte. */
  predicate NotGreater(a: string, b: string) {
    a == [] || (b != [] && (a[0] < b[0] || (a[0] == b[0] && NotGreater(a[1..], b[1..]))))
  }

  lemma {:induction false} NotGreaterTotal(a: string, b: string)
    ensures NotGreater(a, b) || NotGreater(b, a)
  {
    if a != [] && b != [] {
      NotGreaterTotal(a[1..], b[1..]);
    }
  }

  lemma {:induction false} NotGreaterTransitive(a: string, b: string, c: string)
    requires NotGreater(a, b) && NotGreater(b, c)
    ensures NotGreater(a, c)
  {
    if a != [] && a[0] == b[0] == c[0] {
      NotGreaterTransitive(a[1..], b[1..], c[1..]);
    }
  }

  /** Entries are listed by line and then by rule. */
  function ByLine(): (Entry, Entry) -> bool {
    (a: Entry, b: Entry) => a.line < b.line || (a.line == b.line && NotGreater(a.rule, b.rule))
  }

  lemma ByLineOrders()
    ensures Sorting.TotalPreorder(ByLine())
  {
    forall a: Entry, b: Entry ensures ByLine()(a, b) || ByLine()(b, a) {
      NotGreaterTotal(a.rule, b.rule);
    }
    forall a: Entry, b: Entry, c: Entry | ByLine()(a, b) && ByLine()(b, c) ensures ByLine()(a, c) {
      if a.line == b.line == c.line {
        NotGreaterTransitive(a.rule, b.rule, c.rule);
      }
    }
  }

  lemma SortedEntries(es: seq<Entry>)
    ensures Sorting.Ordered(ByLine(), Sorting.Sort(ByLine(), es)) &&
            multiset(Sorting.Sort(ByLine(), es)) == multiset(es)
    ensures forall e :: e in Sorting.Sort(ByLine(), es) <==> e in es
  {
    hide Sorting.Sort, Sorting.TotalPreorder, ByLine;
    ByLineOrders();
    var any := Entry("", 0, "", "", "", "", false, "");
    Sorting.SortMeaning(ByLine(), es, any);
    var sorted := Sorting.Sort(ByLine(), es);
    assert forall e :: e in sorted <==> e in multiset(sorted);
    assert forall e :: e in es <==> e in multiset(es);
  }

  /** Audits every directive against the unsuppressed findings `fs`: one entry for each rule each directive names,
      by line and rule, live exactly when that directive alone silences a finding. */
  method SuppressionInventory(flow: Flow, fs: seq<Finding>) returns (entries: seq<Entry>)
    ensures entries == Sorting.Sort(ByLine(), AuditFlow(flow, Record(fs), false)) && Sorting.Ordered(ByLine(), entries)
    ensures forall e :: e in entries <==> e in AuditFlow(flow, Record(fs), false)
    ensures forall e :: e in entries ==> exists k :: 0 <= k < |flow| && HasPlace(flow[k].blocks, flow[k].name, e)
    ensures WellNamed(flow) ==> forall e :: e in entries ==>
              (!e.stale <==> exists f :: f in fs && Suppresses(SoloScopes(flow, e.id, e.rule), f))
  {
    hide *;
    var all := AuditFlow(flow, Record(fs), false);
    SortedEntries(all);
    forall e | e in all ensures exists k :: 0 <= k < |flow| && HasPlace(flow[k].blocks, flow[k].name, e) {
      EntryPlaces(flow, Record(fs), false, e);
    }
    if WellNamed(flow) {
      forall e | e in all ensures !e.stale <==> exists f :: f in fs && Suppresses(SoloScopes(flow, e.id, e.rule), f) {
        LiveMeansSilencing(flow, fs, e);
      }
    }
    var any := HasPadIgnoreDirective(flow);
    if !any {
      NoDirectiveNoEntry(flow, Record(fs));
      NothingToSort();
      return [];
    }
    var found := AuditAll(flow, fs);
    entries := Sorting.Sort(ByLine(), found);
  }

  lemma NothingToSort()
    ensures Sorting.Sort(ByLine(), []) == []
  {
  }

  /** What a reason says: none for a live entry; otherwise whether there is a target, and whether any rule fires
      there. */
  lemma ReasonMeaning(fs: seq<Finding>, next: Option<Block>, stale: bool)
    requires next.Some? ==> next.value.id != ""
    ensures var reason := ReasonOf(Record(fs), next, stale);
            && (reason == "" <==> !stale)
            && (reason == NO_TARGET <==> stale && next.None?)
            && (reason == NOTHING_FIRES <==> stale && next.Some? && forall f :: f in fs ==> f.block != next.value.id)
            && (reason == NOT_THIS_RULE <==> stale && next.Some? && exists f :: f in fs && f.block == next.value.id)
  {
    if next.Some? {
      BlockFires(fs, next.value.id, ALL);
    }
  }

  lemma AuditFlowParts(flow: Flow, fi: Firing, fileScoped: bool)
    ensures flow == [] ==> AuditFlow(flow, fi, fileScoped) == []
    ensures flow != [] ==>
      var first := !fileScoped && flow[0].blocks != [];
      AuditFlow(flow, fi, fileScoped) ==
      Audit(flow[0].blocks, Some(HeaderOf(flow[0], first)), fi, flow[0].name) +
      AuditFlow(flow[1..], fi, fileScoped || first)
  {
  }

  /** The full audit, without the pre-check. */
  method AuditAll(flow: Flow, fs: seq<Finding>) returns (entries: seq<Entry>)
    ensures entries == AuditFlow(flow, Record(fs), false)
  {
    hide Audit, Record, HeaderOf, AuditFlow;
    assert flow[0..] == flow;
    var inv := new Inventory();
    inv.RecordAll(fs);
    var fileScoped := false;
    for i := 0 to |flow|
      invariant inv.firing == Record(fs)
      invariant inv.entries + AuditFlow(flow[i..], inv.firing, fileScoped) == AuditFlow(flow, inv.firing, false)
    {
      var sf := flow[i];
      assert flow[i..][0] == sf && flow[i..][1..] == flow[i + 1..];
      var first := !fileScoped && sf.blocks != [];
      AuditFlowParts(flow[i..], inv.firing, fileScoped);
      fileScoped := fileScoped || first;
      inv.AuditGroup(sf.blocks, Some(HeaderOf(sf, first)), sf.name);
    }
    AuditFlowParts(flow[|flow|..], inv.firing, fileScoped);
    entries := inv.entries;
  }

  /** The pre-check loses nothing. */
  lemma NoDirectiveNoEntry(flow: Flow, fi: Firing)
    requires FlowIds(flow) == {}
    ensures AuditFlow(flow, fi, false) == []
  {
    if AuditFlow(flow, fi, false) != [] {
      FlowEntryIds(flow, fi, false, AuditFlow(flow, fi, false)[0]);
    }
  }
}
