/**
  What an entry of the audit shows (core/analyzer/suppress_inventory.go): the comment it is for, the block that comment
  is aimed at, and the subflow it is in, said of the flow itself.
 */
module SuppressionEntries {
  import opened Options
  import opened Suppression
  import opened SuppressionAudit

  /** A sibling group the walk visits: the given one, or one below a block of it that is no comment. */
  ghost predicate IsGroup(blocks: seq<Block>, group: seq<Block>)
    decreases blocks
  {
    group == blocks || exists i :: 0 <= i < |blocks| && !blocks[i].isComment && IsGroup(blocks[i].children, group)
  }

  /** The first block after `i` in its group that is no comment. */
  ghost predicate NextIs(group: seq<Block>, i: nat, next: Option<Block>) {
    match next
    case None => forall k :: i < k < |group| ==> group[k].isComment
    case Some(x) =>
      exists j :: i < j < |group| && group[j] == x && !x.isComment && forall k :: i < k < j ==> group[k].isComment
  }

  predicate Names(d: Directive, rule: string) {
    match d
    case AllRules => rule == "*"
    case Only(rules) => rule in rules
  }

  /** How the target is shown: by its title or, without one, its raw type; when there is none, by a placeholder that
      tells whether the header keeps the directive live. */
  predicate Shows(next: Option<Block>, e: Entry) {
    match next
    case None => e.blockType == "" && e.target == if e.stale then "<no following block>" else "<subflow header>"
    case Some(x) => e.blockType == x.kind && e.target == if x.title == "" then x.rawType else x.title
  }

  /** `e` is for the comment at place `i` of the group. */
  ghost predicate IsFor(group: seq<Block>, i: nat, subflow: string, e: Entry) {
    && i < |group| && group[i].isComment && group[i].directive.Some? && Names(group[i].directive.value, e.rule)
    && e.id == group[i].id && e.line == group[i].line && e.subflow == subflow
    && exists next :: NextIs(group, i, next) && Shows(next, e)
  }

  ghost predicate HasPlace(blocks: seq<Block>, subflow: string, e: Entry) {
    exists group, i :: IsGroup(blocks, group) && IsFor(group, i, subflow, e)
  }

  lemma {:induction false} NextFound(group: seq<Block>, i: nat, from: nat)
    requires i < from <= |group| && forall k :: i < k < from ==> group[k].isComment
    ensures NextIs(group, i, NextBlock(group[from..]))
    decreases |group| - from
  {
    if from < |group| {
      assert group[from..][0] == group[from] && group[from..][1..] == group[from + 1..];
      if group[from].isComment {
        NextFound(group, i, from + 1);
      }
    }
  }

  lemma {:induction false} EntriesShow(
    b: Block, rules: seq<string>, next: Option<Block>, h: Option<Header>, fi: Firing, subflow: string, e: Entry)
    requires e in EntriesOf(b, rules, next, h, fi, subflow)
    ensures e.id == b.id && e.line == b.line && e.rule in rules && e.subflow == subflow && Shows(next, e)
    decreases |rules|
  {
    if e != EntriesOf(b, rules, next, h, fi, subflow)[0] {
      EntriesShow(b, rules[1..], next, h, fi, subflow, e);
    }
  }

  lemma {:induction false} GroupEntries(
    group: seq<Block>, from: nat, h: Option<Header>, fi: Firing, subflow: string, e: Entry)
    requires from <= |group| && e in Audit(group[from..], h, fi, subflow)
    ensures HasPlace(group, subflow, e)
    decreases group, |group| - from
  {
    hide EntriesOf, NextBlock;
    var blocks := group[from..];
    var b := blocks[0];
    assert blocks[1..] == group[from + 1..];
    if b.isComment {
      if e in Audit(blocks[1..], h, fi, subflow) {
        GroupEntries(group, from + 1, h, fi, subflow, e);
      } else {
        EntriesShow(b, NamedRules(b.directive), NextBlock(blocks[1..]), h, fi, subflow, e);
        NextFound(group, from, from + 1);
        assert IsGroup(group, group) && IsFor(group, from, subflow, e);
      }
    } else if e in Audit(blocks[1..], None, fi, subflow) {
      GroupEntries(group, from + 1, None, fi, subflow, e);
    } else {
      assert b.children[0..] == b.children;
      GroupEntries(b.children, 0, None, fi, subflow, e);
      var below, i :| IsGroup(b.children, below) && IsFor(below, i, subflow, e);
      assert IsGroup(group, below);
    }
  }

  /** Every entry is for a comment of the flow with a directive that names its rule, and shows that comment's id and
      line, its subflow's name, and the block it is aimed at. */
  lemma {:induction false} EntryPlaces(flow: Flow, fi: Firing, fileScoped: bool, e: Entry)
    requires e in AuditFlow(flow, fi, fileScoped)
    ensures exists k :: 0 <= k < |flow| && HasPlace(flow[k].blocks, flow[k].name, e)
    decreases |flow|
  {
    hide HasPlace, Audit;
    var first := !fileScoped && flow[0].blocks != [];
    if e in AuditFlow(flow[1..], fi, fileScoped || first) {
      EntryPlaces(flow[1..], fi, fileScoped || first, e);
      var k :| 0 <= k < |flow[1..]| && HasPlace(flow[1..][k].blocks, flow[1..][k].name, e);
      assert HasPlace(flow[k + 1].blocks, flow[k + 1].name, e);
    } else {
      assert flow[0].blocks[0..] == flow[0].blocks;
      GroupEntries(flow[0].blocks, 0, Some(HeaderOf(flow[0], first)), fi, flow[0].name, e);
    }
  }
}
