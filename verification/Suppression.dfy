/**
  Inline `pad-ignore` directives: the pass that silences findings (core/analyzer/suppress.go).
  A comment's parsed directive is part of the block.
 */
module Suppression {
  import opened Options

  /** `parsePadIgnore` on a comment: every rule, or a non-empty list of rules. */
  datatype Directive = AllRules | Only(rules: seq<string>)

  /** `title` is the name without the white space around it. */
  datatype Block = Block(
    id: string, isComment: bool, line: int, title: string, rawType: string, kind: string,
    directive: Option<Directive>, children: seq<Block>)

  datatype Subflow = Subflow(id: string, name: string, blocks: seq<Block>)

  type Flow = seq<Subflow>

  datatype Finding = Finding(rule: string, block: string, subflow: string)

  const ALL := "*"

  type RuleMap = map<string, set<string>>

  function Lookup(m: RuleMap, key: string): set<string> {
    if key in m then m[key] else {}
  }

  // ----- The suppression pass -----

  function DirectiveRules(b: Block): set<string> {
    match b.directive
    case None => {}
    case Some(AllRules) => {ALL}
    case Some(Only(rules)) => set r | r in rules
  }

  function Merge(m: RuleMap, key: string, rules: set<string>): RuleMap {
    m[key := Lookup(m, key) + rules]
  }

  /** One sibling group: a directive reaches the next block that is no comment, in the same group. */
  function Walk(blocks: seq<Block>, pending: set<string>, m: RuleMap): RuleMap {
    if blocks == [] then m
    else
      var b := blocks[0];
      if b.isComment then Walk(blocks[1..], pending + DirectiveRules(b), m)
      else
        var covered := if pending != {} then Merge(m, b.id, pending) else m;
        Walk(blocks[1..], {}, Walk(b.children, {}, covered))
  }

  function LeadingIds(blocks: seq<Block>): seq<string> {
    if blocks == [] || !blocks[0].isComment then [] else [blocks[0].id] + LeadingIds(blocks[1..])
  }

  /** The rules named by the comments that open a subflow. */
  function HeaderRules(blocks: seq<Block>): set<string> {
    if blocks == [] || !blocks[0].isComment then {} else DirectiveRules(blocks[0]) + HeaderRules(blocks[1..])
  }

  function MergeAll(m: RuleMap, ids: seq<string>, rules: set<string>): RuleMap
    decreases |ids|
  {
    if ids == [] then m else MergeAll(Merge(m, ids[0], rules), ids[1..], rules)
  }

  datatype Scopes = Scopes(blocks: RuleMap, subflows: RuleMap, file: set<string>)

  const NO_SCOPES := Scopes(map[], map[], {})

  /** One subflow; the header also covers its own comments, the subflow, and, for the first subflow with
      blocks, the file. */
  function CollectSubflow(sf: Subflow, s: Scopes, first: bool): Scopes {
    var header := HeaderRules(sf.blocks);
    var walked := Walk(sf.blocks, {}, s.blocks);
    if header == {} then s.(blocks := walked)
    else
      Scopes(MergeAll(walked, LeadingIds(sf.blocks), header), s.subflows[sf.id := header],
             if first then header else s.file)
  }

  function Collect(flow: Flow, s: Scopes, fileScoped: bool): Scopes {
    if flow == [] then s
    else
      var first := !fileScoped && flow[0].blocks != [];
      Collect(flow[1..], CollectSubflow(flow[0], s, first), fileScoped || first)
  }

  predicate RuleSetHas(rules: set<string>, rule: string) {
    ALL in rules || rule in rules
  }

  predicate Suppresses(s: Scopes, f: Finding) {
    RuleSetHas(Lookup(s.blocks, f.block), f.rule) ||
    (f.block == "" && (RuleSetHas(Lookup(s.subflows, f.subflow), f.rule) || RuleSetHas(s.file, f.rule)))
  }

  function Kept(fs: seq<Finding>, s: Scopes): seq<Finding> {
    if fs == [] then [] else (if Suppresses(s, fs[0]) then [] else [fs[0]]) + Kept(fs[1..], s)
  }

  /** `kept` is what stands at the ascending places `at` of `fs`, and those are the places of what is not silenced. */
  ghost predicate StandsAt(fs: seq<Finding>, s: Scopes, kept: seq<Finding>, at: seq<nat>) {
    && |at| == |kept| && (forall k :: 0 <= k < |at| ==> at[k] < |fs| && kept[k] == fs[at[k]])
    && (forall k, l :: 0 <= k < l < |at| ==> at[k] < at[l])
    && (forall i: nat :: i in at <==> i < |fs| && !Suppresses(s, fs[i]))
  }

  /** The findings that survive, each in its place, and how many were silenced. */
  method ApplyInlineSuppressions(fs: seq<Finding>, s: Scopes)
    returns (kept: seq<Finding>, suppressed: nat, ghost at: seq<nat>)
    ensures kept == Kept(fs, s) && suppressed == |fs| - |kept| && StandsAt(fs, s, kept, at)
    ensures suppressed > 0 <==> exists f :: f in fs && Suppresses(s, f)
  {
    hide Suppresses, StandsAt, Kept;
    NothingStands(s);
    assert fs[..0] == [] && fs[0..] == fs;
    kept, suppressed, at := [], 0, [];
    for i := 0 to |fs|
      invariant StandsAt(fs[..i], s, kept, at)
      invariant kept + Kept(fs[i..], s) == Kept(fs, s) && suppressed == i - |kept|
      invariant suppressed > 0 <==> exists k :: 0 <= k < i && Suppresses(s, fs[k])
    {
      assert fs[..i + 1] == fs[..i] + [fs[i]];
      KeptNext(fs, i, s);
      NextStands(fs[..i], fs[i], s, kept, at);
      if Suppresses(s, fs[i]) {
        suppressed := suppressed + 1;
      } else {
        kept, at := kept + [fs[i]], at + [i];
      }
    }
    NothingKept(s);
    assert fs[|fs|..] == [] && fs[..|fs|] == fs;
  }

  lemma KeptNext(fs: seq<Finding>, i: nat, s: Scopes)
    requires i < |fs|
    ensures Kept(fs[i..], s) == (if Suppresses(s, fs[i]) then [] else [fs[i]]) + Kept(fs[i + 1..], s)
  {
    assert fs[i..][1..] == fs[i + 1..];
  }

  lemma NothingKept(s: Scopes)
    ensures Kept([], s) == []
  {
  }

  lemma NothingStands(s: Scopes)
    ensures StandsAt([], s, [], [])
  {
  }

  lemma NextStands(fs: seq<Finding>, f: Finding, s: Scopes, kept: seq<Finding>, at: seq<nat>)
    requires StandsAt(fs, s, kept, at)
    ensures if Suppresses(s, f) then StandsAt(fs + [f], s, kept, at)
            else StandsAt(fs + [f], s, kept + [f], at + [|fs|])
  {
    hide Suppresses;
    forall i: nat ensures i in at + [|fs|] <==> i in at || i == |fs| {
    }
  }

  /** The scopes as they are built up, one sibling group at a time. */
  class Collector {
    var scopes: Scopes

    constructor ()
      ensures scopes == NO_SCOPES
    {
      scopes := NO_SCOPES;
    }

    /** Walks one group; only a subflow's top-level group (`top`) has a header. */
    method WalkGroup(group: seq<Block>, top: bool) returns (header: set<string>)
      modifies this
      ensures header == if top then HeaderRules(group) else {}
      ensures scopes == old(scopes).(blocks :=
        var walked := Walk(group, {}, old(scopes).blocks);
        if header == {} then walked else MergeAll(walked, LeadingIds(group), header))
      decreases group
    {
      var pending, inHeader := {}, top;
      header := {};
      for i := 0 to |group|
        invariant Walk(group[i..], pending, scopes.blocks) == Walk(group, {}, old(scopes).blocks)
        invariant header + (if inHeader then HeaderRules(group[i..]) else {}) == if top then HeaderRules(group) else {}
        invariant scopes == old(scopes).(blocks := scopes.blocks)
      {
        var b := group[i];
        assert group[i..][0] == b && group[i..][1..] == group[i + 1..];
        if b.isComment {
          pending := pending + DirectiveRules(b);
          if inHeader {
            header := header + DirectiveRules(b);
          }
        } else {
          inHeader := false;
          if pending != {} {
            scopes := scopes.(blocks := Merge(scopes.blocks, b.id, pending));
            pending := {};
          }
          var _ := WalkGroup(b.children, false);
        }
      }
      assert group[|group|..] == [];
      if header != {} {
        scopes := scopes.(blocks := MergeAll(scopes.blocks, LeadingIds(group), header));
      }
    }
  }

  /** Resolves every directive of the flow into its scopes. */
  method CollectInlineSuppressions(flow: Flow) returns (s: Scopes)
    ensures s == Collect(flow, NO_SCOPES, false)
  {
    var c := new Collector();
    var fileScoped := false;
    for i := 0 to |flow|
      invariant Collect(flow[i..], c.scopes, fileScoped) == Collect(flow, NO_SCOPES, false)
    {
      var sf := flow[i];
      assert flow[i..][0] == sf && flow[i..][1..] == flow[i + 1..];
      var header := c.WalkGroup(sf.blocks, true);
      if header != {} {
        c.scopes := c.scopes.(subflows := c.scopes.subflows[sf.id := header]);
      }
      if !fileScoped && sf.blocks != [] {
        fileScoped := true;
        if header != {} {
          c.scopes := c.scopes.(file := header);
        }
      }
    }
    assert flow[|flow|..] == [];
    s := c.scopes;
  }
}
