/**
  The audit of `pad-ignore` directives that flags stale ones (core/analyzer/suppress_inventory.go), written
  separately from the suppression pass in the source.
 */
module SuppressionAudit {
  import opened Options
  import opened Suppression

  // ----- The audit -----

  /** One directive's verdict for one rule it names; `id` is the comment's. */
  datatype Entry = Entry(
    id: string, line: int, rule: string, target: string, blockType: string, subflow: string,
    stale: bool, reason: string)

  /** The header of one subflow: `file` when it is also the file's, `comments` the leading comments themselves. */
  datatype Header = Header(subflow: string, file: bool, comments: seq<string>)

  /** Rules that fire, by block and, for findings with no block, by subflow. */
  datatype Firing = Firing(blocks: RuleMap, blockless: RuleMap)

  const SILENT := Firing(map[], map[])

  function Record(fs: seq<Finding>): Firing {
    if fs == [] then SILENT
    else
      var f, before := fs[|fs| - 1], Record(fs[..|fs| - 1]);
      if f.block == "" then before.(blockless := Merge(before.blockless, f.subflow, {f.rule}))
      else before.(blocks := Merge(before.blocks, f.block, {f.rule}))
  }

  predicate SetFires(rules: set<string>, rule: string) {
    if rule == ALL then rules != {} else rule in rules
  }

  predicate HeaderFires(fi: Firing, h: Header, rule: string) {
    SetFires(Lookup(fi.blockless, h.subflow), rule) ||
    (h.file && exists k :: k in fi.blockless && SetFires(fi.blockless[k], rule)) ||
    exists i :: 0 <= i < |h.comments| && SetFires(Lookup(fi.blocks, h.comments[i]), rule)
  }

  /** The first block of the group that is no comment. */
  function NextBlock(blocks: seq<Block>): Option<Block> {
    if blocks == [] then None else if blocks[0].isComment then NextBlock(blocks[1..]) else Some(blocks[0])
  }

  function IdOf(next: Option<Block>): Option<string> {
    if next.None? then None else Some(next.value.id)
  }

  /** Its id. */
  function NextConcrete(blocks: seq<Block>): Option<string> {
    IdOf(NextBlock(blocks))
  }

  predicate IsStale(fi: Firing, rule: string, next: Option<string>, h: Option<Header>) {
    !(next.Some? && SetFires(Lookup(fi.blocks, next.value), rule)) && !(h.Some? && HeaderFires(fi, h.value, rule))
  }

  function NamedRules(d: Option<Directive>): seq<string> {
    match d
    case None => []
    case Some(AllRules) => [ALL]
    case Some(Only(rules)) => rules
  }

  const NO_BLOCK := "<no following block>"
  const HEADER_ONLY := "<subflow header>"
  const NO_TARGET := "directive has no following block"
  const NOTHING_FIRES := "no rule currently fires on this block"
  const NOT_THIS_RULE := "rule does not currently fire here"

  /** How the target is shown. A directive with no target that is live is live for its header. */
  function LabelOf(next: Option<Block>, stale: bool): string {
    if next.None? then (if stale then NO_BLOCK else HEADER_ONLY)
    else if next.value.title != "" then next.value.title
    else next.value.rawType
  }

  function ReasonOf(fi: Firing, next: Option<Block>, stale: bool): string {
    if !stale then ""
    else if next.None? then NO_TARGET
    else if Lookup(fi.blocks, next.value.id) == {} then NOTHING_FIRES
    else NOT_THIS_RULE
  }

  function MakeEntry(b: Block, rule: string, next: Option<Block>, fi: Firing, subflow: string, stale: bool): Entry {
    Entry(b.id, b.line, rule, LabelOf(next, stale), if next.Some? then next.value.kind else "", subflow, stale,
          ReasonOf(fi, next, stale))
  }

  /** One entry for each rule the directive in `b` names, `next` being its target. */
  function EntriesOf(
    b: Block, rules: seq<string>, next: Option<Block>, h: Option<Header>, fi: Firing, subflow: string): seq<Entry>
    decreases |rules|
  {
    if rules == [] then []
    else
      [MakeEntry(b, rules[0], next, fi, subflow, IsStale(fi, rules[0], IdOf(next), h))] +
      EntriesOf(b, rules[1..], next, h, fi, subflow)
  }

  function Audit(blocks: seq<Block>, h: Option<Header>, fi: Firing, subflow: string): seq<Entry> {
    if blocks == [] then []
    else
      var b, rest := blocks[0], blocks[1..];
      if b.isComment
      then EntriesOf(b, NamedRules(b.directive), NextBlock(rest), h, fi, subflow) + Audit(rest, h, fi, subflow)
      else Audit(b.children, None, fi, subflow) + Audit(rest, None, fi, subflow)
  }

  function HeaderOf(sf: Subflow, first: bool): Header {
    Header(sf.id, first, LeadingIds(sf.blocks))
  }

  function AuditFlow(flow: Flow, fi: Firing, fileScoped: bool): seq<Entry> {
    if flow == [] then []
    else
      var first := !fileScoped && flow[0].blocks != [];
      Audit(flow[0].blocks, Some(HeaderOf(flow[0], first)), fi, flow[0].name) +
      AuditFlow(flow[1..], fi, fileScoped || first)
  }

  class Inventory {
    var firing: Firing
    var entries: seq<Entry>

    constructor ()
      ensures firing == SILENT && entries == []
    {
      firing, entries := SILENT, [];
    }

    method RecordAll(fs: seq<Finding>)
      requires firing == SILENT
      modifies this`firing
      ensures firing == Record(fs)
    {
      for i := 0 to |fs|
        invariant firing == Record(fs[..i])
      {
        var f := fs[i];
        assert fs[..i + 1][..i] == fs[..i];
        if f.block == "" {
          firing := firing.(blockless := Merge(firing.blockless, f.subflow, {f.rule}));
        } else {
          firing := firing.(blocks := Merge(firing.blocks, f.block, {f.rule}));
        }
      }
      assert fs[..|fs|] == fs;
    }

    method CheckHeader(h: Header, rule: string) returns (live: bool)
      ensures live == HeaderFires(firing, h, rule)
    {
      if SetFires(Lookup(firing.blockless, h.subflow), rule) {
        return true;
      }
      if h.file {
        var left := firing.blockless.Keys;
        while left != {}
          invariant left <= firing.blockless.Keys
          invariant forall k :: k in firing.blockless.Keys - left ==> !SetFires(firing.blockless[k], rule)
          decreases |left|
        {
          var k :| k in left;
          if SetFires(firing.blockless[k], rule) {
            return true;
          }
          left := left - {k};
        }
      }
      for i := 0 to |h.comments|
        invariant forall j :: 0 <= j < i ==> !SetFires(Lookup(firing.blocks, h.comments[j]), rule)
      {
        if SetFires(Lookup(firing.blocks, h.comments[i]), rule) {
          return true;
        }
      }
      return false;
    }

    /** Appends one entry for each rule the directive in `b` names. */
    method AuditDirective(b: Block, next: Option<Block>, h: Option<Header>, subflow: string)
      modifies this`entries
      ensures entries == old(entries) + EntriesOf(b, NamedRules(b.directive), next, h, firing, subflow)
    {
      hide MakeEntry, IsStale;
      var rules := NamedRules(b.directive);
      for k := 0 to |rules|
        invariant entries + EntriesOf(b, rules[k..], next, h, firing, subflow) ==
                  old(entries) + EntriesOf(b, rules, next, h, firing, subflow)
      {
        assert rules[k..][0] == rules[k] && rules[k..][1..] == rules[k + 1..];
        var e := AuditRule(b, rules[k], next, h, subflow);
        entries := entries + [e];
      }
      assert rules[|rules|..] == [];
    }

    /** One rule of one directive: its target decides, and failing that its header. */
    method AuditRule(b: Block, rule: string, next: Option<Block>, h: Option<Header>, subflow: string) returns (e: Entry)
      ensures e == MakeEntry(b, rule, next, firing, subflow, IsStale(firing, rule, IdOf(next), h))
    {
      e := Entry(b.id, b.line, rule, NO_BLOCK, "", subflow, true, NO_TARGET);
      if next.Some? {
        var fires := Lookup(firing.blocks, next.value.id);
        var shown := if next.value.title != "" then next.value.title else next.value.rawType;
        e := e.(target := shown, blockType := next.value.kind, stale := !SetFires(fires, rule), reason := "");
        if e.stale {
          e := e.(reason := if fires == {} then NOTHING_FIRES else NOT_THIS_RULE);
        }
      }
      if h.Some? && e.stale {
        var live := CheckHeader(h.value, rule);
        if live {
          e := e.(stale := false, reason := "", target := if next.None? then HEADER_ONLY else e.target);
        }
      }
    }

    method AuditGroup(group: seq<Block>, header: Option<Header>, subflow: string)
      modifies this`entries
      ensures entries == old(entries) + Audit(group, header, firing, subflow)
      decreases group
    {
      hide EntriesOf, NextBlock, NamedRules;
      var h := header;
      for i := 0 to |group|
        invariant entries + Audit(group[i..], h, firing, subflow) ==
                    old(entries) + Audit(group, header, firing, subflow)
      {
        var b := group[i];
        assert group[i..][0] == b && group[i..][1..] == group[i + 1..];
        if b.isComment {
          var next := NextConcreteSibling(group, i);
          AuditDirective(b, next, h, subflow);
        } else {
          h := None;
          AuditGroup(b.children, None, subflow);
        }
      }
      assert group[|group|..] == [];
    }
  }

  method NextConcreteSibling(blocks: seq<Block>, i: nat) returns (next: Option<Block>)
    requires i < |blocks|
    ensures next == NextBlock(blocks[i + 1..])
  {
    for j := i + 1 to |blocks|
      invariant NextBlock(blocks[j..]) == NextBlock(blocks[i + 1..])
    {
      assert blocks[j..][1..] == blocks[j + 1..];
      if !blocks[j].isComment {
        return Some(blocks[j]);
      }
    }
    return None;
  }
}
