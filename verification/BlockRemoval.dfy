/**
  Which source lines `RemoveBlockPatch` deletes (core/analyzer/autofix.go), for a document parsed
  from tokens whose line spans increase.
 */
module BlockRemoval {
  import opened FlowParser
  import opened FlowForest
  import opened FlowBounds
  import opened FlowTrees

  // ----- The patch -----

  /** The last line recorded for a block or token itself; an end line of 0 means "same line". */
  function SpanEnd(line: nat, endLine: nat): nat {
    Max(line, endLine)
  }

  /** `blockEndLine`: the last line of a block or of any descendant. */
  function BlockEndLine(t: Tree): nat {
    LastLine(t.children, SpanEnd(t.line, t.endLine))
  }

  function LastLine(ts: seq<Tree>, least: nat): nat
    decreases ts
  {
    if ts == [] then least else LastLine(ts[1..], Max(least, BlockEndLine(ts[0])))
  }

  datatype LineRange = LineRange(startLine: nat, endLine: nat)

  function RemoveBlockRange(t: Tree): LineRange {
    LineRange(t.line, BlockEndLine(t))
  }

  // ----- A subtree is a run of consecutively created blocks -----

  lemma {:induction false} SubRange(a: seq<nat>, b: seq<nat>, lo: nat, hi: nat)
    requires lo <= hi && a + b == Range(lo, hi)
    ensures |a| <= hi - lo && a == Range(lo, lo + |a|) && b == Range(lo + |a|, hi)
    decreases |b|
  {
    RangeAt(lo, hi);
    assert |a + b| == hi - lo;
    RangeAt(lo, lo + |a|);
    RangeAt(lo + |a|, hi);
    assert forall i :: 0 <= i < |a| ==> a[i] == (a + b)[i];
    assert forall i :: 0 <= i < |b| ==> b[i] == (a + b)[|a| + i];
  }

  lemma SingleSubtree(nodes: seq<Node>, x: nat)
    requires NodesWellFormed(nodes) && x < |nodes|
    ensures Ascending([x], |nodes|) && Ascending(nodes[x].children, |nodes|)
    ensures PreOrder(nodes, [x]) == [x] + PreOrder(nodes, nodes[x].children)
  {
    assert [x][1..] == [];
  }

  lemma FirstSubtree(nodes: seq<Node>, ids: seq<nat>)
    requires NodesWellFormed(nodes) && Ascending(ids, |nodes|) && PreOrder(nodes, ids) != []
    ensures ids != [] && ids[0] < |nodes| && Ascending(nodes[ids[0]].children, |nodes|) && Ascending(ids[1..], |nodes|)
    ensures PreOrder(nodes, ids) == ([ids[0]] + PreOrder(nodes, nodes[ids[0]].children)) + PreOrder(nodes, ids[1..])
    ensures nodes[ids[0]].children != [] ==> ids[0] < nodes[ids[0]].children[0] < |nodes|
    ensures |ids| > 1 ==> ids[0] < ids[1] < |nodes|
  {
  }

  /** The parts of a run of numbers. */
  lemma RunParts(x: nat, below: seq<nat>, after: seq<nat>, lo: nat, hi: nat)
    requires lo <= hi && ([x] + below) + after == Range(lo, hi)
    ensures var mid := lo + 1 + |below|;
            x == lo && mid <= hi && below == Range(lo + 1, mid) && after == Range(mid, hi) &&
              [x] + below == Range(lo, mid)
  {
    hide Range;
    var mid := lo + 1 + |below|;
    SubRange([x] + below, after, lo, hi);
    SubRange([x], below, lo, mid);
    RangeAt(lo, lo + 1);
    assert [x][0] == Range(lo, lo + 1)[0] == lo;
  }

  lemma {:induction false} SubtreeIsRun(nodes: seq<Node>, ids: seq<nat>, lo: nat, hi: nat, x: nat) returns (end: nat)
    requires NodesWellFormed(nodes) && Ascending(ids, |nodes|)
    requires lo <= hi && PreOrder(nodes, ids) == Range(lo, hi) && x in PreOrder(nodes, ids)
    ensures Ascending([x], |nodes|) && x < end <= hi && PreOrder(nodes, [x]) == Range(x, end)
    decreases if ids == [] then 0 else |nodes| - ids[0]
  {
    hide PreOrder, NodesWellFormed, Ascending, Range;
    FirstSubtree(nodes, ids);
    var below, after := PreOrder(nodes, nodes[ids[0]].children), PreOrder(nodes, ids[1..]);
    RunParts(ids[0], below, after, lo, hi);
    var mid := lo + 1 + |below|;
    if x == ids[0] {
      SingleSubtree(nodes, x);
      end := mid;
    } else if x in below {
      end := SubtreeIsRun(nodes, nodes[ids[0]].children, lo + 1, mid, x);
    } else {
      end := SubtreeIsRun(nodes, ids[1..], mid, hi, x);
    }
  }

  lemma {:induction false} DocumentSubtree(nodes: seq<Node>, built: seq<seq<nat>>, hi: nat, x: nat) returns (end: nat)
    requires NodesWellFormed(nodes) && RootsWellFormed(nodes, built)
    requires Document(nodes, built) == Range(0, hi) && x in Document(nodes, built)
    ensures Ascending([x], |nodes|) && x < end <= hi && PreOrder(nodes, [x]) == Range(x, end)
    decreases |built|
  {
    var k := |built| - 1;
    var a, b := Document(nodes, built[..k]), PreOrder(nodes, built[k]);
    SubRange(a, b, 0, hi);
    if x in a {
      end := DocumentSubtree(nodes, built[..k], |a|, x);
    } else {
      end := SubtreeIsRun(nodes, built[k], |a|, hi, x);
    }
  }

  // ----- The end line of a subtree -----

  /** `end` is the largest of `least` and the span ends of the blocks listed. */
  ghost predicate IsLastLine(nodes: seq<Node>, blocks: seq<nat>, least: nat, end: nat) {
    && least <= end
    && (forall i :: 0 <= i < |blocks| && blocks[i] < |nodes| ==>
          SpanEnd(nodes[blocks[i]].line, nodes[blocks[i]].endLine) <= end)
    && (end == least || exists i :: 0 <= i < |blocks| && blocks[i] < |nodes| &&
                          SpanEnd(nodes[blocks[i]].line, nodes[blocks[i]].endLine) == end)
  }

  lemma LastLineJoin(nodes: seq<Node>, a: seq<nat>, b: seq<nat>, x: nat, least: nat, m: nat, e: nat)
    requires x < |nodes|
    requires IsLastLine(nodes, a, SpanEnd(nodes[x].line, nodes[x].endLine), m)
    requires IsLastLine(nodes, b, Max(least, m), e)
    ensures IsLastLine(nodes, [x] + a + b, least, e)
  {
    var s := [x] + a + b;
    assert s[0] == x;
    assert forall i :: 0 <= i < |a| ==> s[1 + i] == a[i];
    assert forall i :: 0 <= i < |b| ==> s[1 + |a| + i] == b[i];
  }

  lemma {:induction false} LastLineOfTrees(nodes: seq<Node>, ids: seq<nat>, least: nat)
    requires NodesWellFormed(nodes) && Ascending(ids, |nodes|)
    ensures IsLastLine(nodes, PreOrder(nodes, ids), least, LastLine(ToTrees(nodes, ids), least))
    decreases if ids == [] then 0 else |nodes| - ids[0]
  {
    if ids != [] {
      var x := ids[0];
      var ts, own := ToTrees(nodes, ids), SpanEnd(nodes[x].line, nodes[x].endLine);
      assert ts[1..] == ToTrees(nodes, ids[1..]);
      var m := LastLine(ts[0].children, own);
      LastLineOfTrees(nodes, nodes[x].children, own);
      LastLineOfTrees(nodes, ids[1..], Max(least, m));
      hide IsLastLine;
      assert BlockEndLine(ts[0]) == m;
      LastLineJoin(nodes, PreOrder(nodes, nodes[x].children), PreOrder(nodes, ids[1..]), x, least, m,
          LastLine(ts, least));
    }
  }

  // ----- Lines follow creation order -----

  predicate MayCreate(tok: Token) {
    !tok.kind.TokEmpty? && !tok.kind.TokError? && !tok.kind.TokSubflowStart? && !tok.kind.TokSubflowEnd? &&
      !tok.kind.TokInlineOnError?
  }

  /** The line spans of the tokens that can become blocks increase strictly. */
  predicate SpansIncrease(tokens: seq<Token>) {
    forall i, j :: 0 <= i < j < |tokens| && MayCreate(tokens[i]) && MayCreate(tokens[j]) ==>
      SpanEnd(tokens[i].line, tokens[i].endLine) < tokens[j].line
  }

  predicate LinesAscend(nodes: seq<Node>) {
    forall i, j :: 0 <= i < j < |nodes| ==> SpanEnd(nodes[i].line, nodes[i].endLine) < nodes[j].line
  }

  predicate Covers(tok: Token, b: Node) {
    MayCreate(tok) && b.line == tok.line && SpanEnd(b.line, b.endLine) <= SpanEnd(tok.line, tok.endLine)
  }

  /** The block's lines lie within those of one of the tokens. */
  ghost predicate FromToken(b: Node, tokens: seq<Token>) {
    exists i :: 0 <= i < |tokens| && Covers(tokens[i], b)
  }

  ghost predicate FromTokens(nodes: seq<Node>, tokens: seq<Token>) {
    forall n :: 0 <= n < |nodes| ==> FromToken(nodes[n], tokens)
  }

  /** `more` has the blocks of `nodes`, lines unchanged, and at most one besides, from `tok`. */
  predicate AddsAtMostOne(nodes: seq<Node>, more: seq<Node>, tok: Token) {
    && |nodes| <= |more| <= |nodes| + 1
    && (forall n :: 0 <= n < |nodes| ==> more[n].line == nodes[n].line && more[n].endLine == nodes[n].endLine)
    && (|more| > |nodes| ==> Covers(tok, more[|nodes|]))
  }

  lemma AddBlockAddsOne(f: Forest, t: BlockType, tok: Token, endLine: nat)
    requires Ready(f) && f.open && MayCreate(tok) && (endLine == tok.endLine || endLine == 0)
    ensures AddsAtMostOne(f.nodes, AddBlock(f, t, tok.line, endLine).nodes, tok)
  {}

  lemma InsertAddsOne(f: Forest, t: BlockType, tok: Token, endLine: nat)
    requires Ready(f) && MayCreate(tok) && (endLine == tok.endLine || endLine == 0)
    ensures AddsAtMostOne(f.nodes, GuardedInsert(f, t, tok.indent, tok.line, endLine).nodes, tok)
  {
    if f.open {
      AddBlockAddsOne(f.(stack := PopStack(f.stack, tok.indent)), t, tok, endLine);
      hide AddBlock;
    }
  }

  lemma BranchAddsOne(f: Forest, owner: BlockType, t: BlockType, tok: Token)
    requires Ready(f) && MayCreate(tok)
    ensures AddsAtMostOne(f.nodes, Branch(f, owner, t, tok).nodes, tok)
  {
    if f.open {
      AddBlockAddsOne(f.(stack := PopTo(f.nodes, f.stack, {owner})), t, tok, tok.endLine);
      hide AddBlock;
    }
  }

  lemma HandlerAddsOne(f: Forest, tok: Token)
    requires Ready(f) && MayCreate(tok)
    ensures AddsAtMostOne(f.nodes, StartErrorHandler(f, tok).nodes, tok)
  {
    if f.open && f.stack != [] && f.nodes[f.stack[|f.stack| - 1].block].btype == BlockBlock {
      var p := f.stack[|f.stack| - 1].block;
      AddBlockAddsOne(f.(nodes := f.nodes[p := f.nodes[p].(btype := ErrorHandlerType)], skipNextEnd := true),
          ActionType, tok, tok.endLine);
      hide AddBlock;
    } else {
      InsertAddsOne(f, ErrorHandlerType, tok, tok.endLine);
    }
  }

  lemma CloseAddsOne(f: Forest, tok: Token)
    requires Ready(f) && MayCreate(tok)
    ensures AddsAtMostOne(f.nodes, CloseBlock(f, tok).nodes, tok)
  {
    if f.open {
      AddBlockAddsOne(f.(stack := PopTo(f.nodes, f.stack, CLOSABLE)), EndType, tok, 0);
      AddBlockAddsOne(f.(stack := PopTo(f.nodes, f.stack, {ErrorHandlerType}), skipNextEnd := false), EndType, tok, 0);
      hide AddBlock;
    }
  }

  lemma StepAddsAtMostOne(f: Forest, tok: Token)
    requires Ready(f)
    ensures AddsAtMostOne(f.nodes, Step(f, tok).nodes, tok)
  {
    hide GuardedInsert, Branch, StartErrorHandler, CloseBlock;
    match tok.kind {
      case TokErrorHandlerStart => HandlerAddsOne(f, tok);
      case TokBlockStart => InsertAddsOne(f, BlockBlock, tok, tok.endLine);
      case TokSwitchStart => InsertAddsOne(f, SwitchType, tok, tok.endLine);
      case TokLoopStart => InsertAddsOne(f, LoopType, tok, tok.endLine);
      case TokConditionStart => InsertAddsOne(f, ConditionType, tok, tok.endLine);
      case TokCase => BranchAddsOne(f, SwitchType, CaseType, tok);
      case TokDefault => BranchAddsOne(f, SwitchType, DefaultType, tok);
      case TokConditionElse => BranchAddsOne(f, ConditionType, ElseType, tok);
      case TokEnd => CloseAddsOne(f, tok);
      case TokComment => InsertAddsOne(f, CommentType, tok, 0);
      case TokAction => InsertAddsOne(f, tok.classified, tok, tok.endLine);
      case _ =>
    }
  }

  lemma {:induction false} ParseLines(tokens: seq<Token>)
    requires SpansIncrease(tokens)
    ensures LinesAscend(Parse(tokens).nodes) && FromTokens(Parse(tokens).nodes, tokens)
  {
    if tokens != [] {
      var before, tok := tokens[..|tokens| - 1], tokens[|tokens| - 1];
      ParseLines(before);
      StepAddsAtMostOne(Parse(before), tok);
      assert tokens == before + [tok];
      NextLines(Parse(before).nodes, Step(Parse(before), tok).nodes, before, tok);
    }
  }

  lemma NextLines(nodes: seq<Node>, more: seq<Node>, before: seq<Token>, tok: Token)
    requires SpansIncrease(before + [tok]) && AddsAtMostOne(nodes, more, tok)
    requires LinesAscend(nodes) && FromTokens(nodes, before)
    ensures LinesAscend(more) && FromTokens(more, before + [tok])
  {
    var tokens := before + [tok];
    assert tokens[|before|] == tok;
    forall n | 0 <= n < |more| ensures FromToken(more[n], tokens) {
      if n < |nodes| {
        assert FromToken(nodes[n], before);
        var i :| 0 <= i < |before| && Covers(before[i], nodes[n]);
        assert tokens[i] == before[i] && Covers(tokens[i], more[n]);
      } else {
        assert Covers(tokens[|before|], more[n]);
      }
    }
    forall i, j | 0 <= i < j < |more| ensures SpanEnd(more[i].line, more[i].endLine) < more[j].line {
      if j == |nodes| {
        assert FromToken(nodes[i], before);
        var k :| 0 <= k < |before| && Covers(before[k], nodes[i]);
        assert tokens[k] == before[k];
      }
    }
  }

  // ----- The deleted range -----

  /** The range deleted for block `x` holds the recorded lines of every block in its subtree, and
      touches those of no other block. */
  lemma RemovalIsExact(tokens: seq<Token>, x: nat)
    requires SpansIncrease(tokens) && x < |Parse(tokens).nodes|
    ensures var nodes := Parse(tokens).nodes;
            && NodesWellFormed(nodes) && Ascending([x], |nodes|) && |ToTrees(nodes, [x])| == 1
            && var range := RemoveBlockRange(ToTrees(nodes, [x])[0]);
               forall y :: 0 <= y < |nodes| ==>
                 if y in PreOrder(nodes, [x])
                 then range.startLine <= nodes[y].line && SpanEnd(nodes[y].line, nodes[y].endLine) <= range.endLine
                 else SpanEnd(nodes[y].line, nodes[y].endLine) < range.startLine || range.endLine < nodes[y].line
  {
    var f := Parse(tokens);
    ParseChained(tokens);
    ParseLines(tokens);
    RangeAt(0, |f.nodes|);
    assert Range(0, |f.nodes|)[x] == x;
    var end := DocumentSubtree(f.nodes, f.built, |f.nodes|, x);
    SubtreeRange(f.nodes, x, end);
  }

  lemma SubtreeRange(nodes: seq<Node>, x: nat, end: nat)
    requires NodesWellFormed(nodes) && LinesAscend(nodes) && Ascending([x], |nodes|)
    requires x < end <= |nodes| && PreOrder(nodes, [x]) == Range(x, end)
    ensures |ToTrees(nodes, [x])| == 1
    ensures var range := RemoveBlockRange(ToTrees(nodes, [x])[0]);
            forall y :: 0 <= y < |nodes| ==>
              if y in PreOrder(nodes, [x])
              then range.startLine <= nodes[y].line && SpanEnd(nodes[y].line, nodes[y].endLine) <= range.endLine
              else SpanEnd(nodes[y].line, nodes[y].endLine) < range.startLine || range.endLine < nodes[y].line
  {
    SingleSubtree(nodes, x);
    var t := ToTrees(nodes, [x])[0];
    assert [x][1..] == [] && ToTrees(nodes, [x]) == [t] && t.children == ToTrees(nodes, nodes[x].children);
    var below := PreOrder(nodes, nodes[x].children);
    LastLineOfTrees(nodes, nodes[x].children, SpanEnd(nodes[x].line, nodes[x].endLine));
    hide ToTrees, PreOrder, NodesWellFormed, Range;
    assert [x] + below == Range(x, end);
    RunOfLines(nodes, x, below, end, BlockEndLine(t));
  }

  lemma RunOfLines(nodes: seq<Node>, x: nat, below: seq<nat>, end: nat, last: nat)
    requires LinesAscend(nodes) && x < end <= |nodes| && [x] + below == Range(x, end)
    requires IsLastLine(nodes, below, SpanEnd(nodes[x].line, nodes[x].endLine), last)
    ensures forall y :: 0 <= y < |nodes| ==>
              if y in Range(x, end)
              then nodes[x].line <= nodes[y].line && SpanEnd(nodes[y].line, nodes[y].endLine) <= last
              else SpanEnd(nodes[y].line, nodes[y].endLine) < nodes[x].line || last < nodes[y].line
  {
    RangeAt(x, end);
    var whole := [x] + below;
    assert |below| == end - x - 1 && forall i :: 0 <= i < |below| ==> below[i] == whole[1 + i] == x + 1 + i;
    hide Range;
    forall y | 0 <= y < |nodes|
      ensures if y in Range(x, end)
              then nodes[x].line <= nodes[y].line && SpanEnd(nodes[y].line, nodes[y].endLine) <= last
              else SpanEnd(nodes[y].line, nodes[y].endLine) < nodes[x].line || last < nodes[y].line
    {
      hide IsLastLine, LinesAscend;
      RangeMember(x, end, y);
      LinesOfOne(nodes, x, below, end, last, y);
    }
  }

  lemma RangeMember(lo: nat, hi: nat, y: nat)
    requires lo <= hi
    ensures y in Range(lo, hi) <==> lo <= y < hi
  {
    RangeAt(lo, hi);
    if lo <= y < hi { assert Range(lo, hi)[y - lo] == y; }
  }

  lemma LinesOfOne(nodes: seq<Node>, x: nat, below: seq<nat>, end: nat, last: nat, y: nat)
    requires LinesAscend(nodes) && x < end <= |nodes| && y < |nodes|
    requires |below| == end - x - 1 && forall i :: 0 <= i < |below| ==> below[i] == x + 1 + i
    requires IsLastLine(nodes, below, SpanEnd(nodes[x].line, nodes[x].endLine), last)
    ensures if x <= y < end
            then nodes[x].line <= nodes[y].line && SpanEnd(nodes[y].line, nodes[y].endLine) <= last
            else SpanEnd(nodes[y].line, nodes[y].endLine) < nodes[x].line || last < nodes[y].line
  {
    if x < y < end { assert below[y - x - 1] == y; }
  }
}
