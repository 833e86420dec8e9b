/**
  How many ENDs a block gets (core/parser/parser.go, handleEnd): one for LOOP, IF, SWITCH and BLOCK, and its last child.
  A BLOCK converted into a handler is meant to get one more, for its handler section; exactly when it gets no more.
 */
module FlowEnds {
  import opened Options
  import opened FlowParser
  import opened FlowForest
  import opened FlowBounds
  import opened FlowNesting

  /** How many of the blocks `ids` are ENDs. */
  function EndCount(nodes: seq<Node>, ids: seq<nat>): nat {
    if ids == [] then 0
    else
      var id := ids[|ids| - 1];
      EndCount(nodes, ids[..|ids| - 1]) + if id < |nodes| && nodes[id].btype == EndType then 1 else 0
  }

  /** How many children of block `h` are ENDs. */
  ghost function EndChildren(tokens: seq<Token>, h: nat): nat {
    if h < |Blocks(tokens)| then EndCount(Blocks(tokens), Blocks(tokens)[h].children) else 0
  }

  /** The last child of block `h` is an END. */
  ghost predicate EndsLast(tokens: seq<Token>, h: nat) {
    && h < |Blocks(tokens)| && Blocks(tokens)[h].children != []
    && var children := Blocks(tokens)[h].children;
    TypeOf(tokens, children[|children| - 1]) == EndType
  }

  /** The END `tok` goes to block `h`. */
  ghost predicate EndGoesTo(tokens: seq<Token>, tok: Token, h: nat) {
    tok.kind.TokEnd? && Makes(tokens, tok) && NewBlock(tokens, tok).parent == Some(h)
  }

  /** How many ENDs block `h` got for a handler section, which leave it open. */
  ghost function SectionEnds(tokens: seq<Token>, h: nat): nat {
    if tokens == [] then 0
    else
      var before, tok := tokens[..|tokens| - 1], tokens[|tokens| - 1];
      SectionEnds(before, h) + if EndGoesTo(before, tok, h) && Pending(before) then 1 else 0
  }

  /** Block `h` got its own END. */
  ghost predicate ClosedByEnd(tokens: seq<Token>, h: nat) {
    tokens != [] &&
    var before, tok := tokens[..|tokens| - 1], tokens[|tokens| - 1];
    ClosedByEnd(before, h) || (EndGoesTo(before, tok, h) && !Pending(before))
  }

  /** Block `h` was a BLOCK before an ON BLOCK ERROR made a handler of it. */
  ghost predicate Converted(tokens: seq<Token>, h: nat) {
    tokens != [] &&
    var before, tok := tokens[..|tokens| - 1], tokens[|tokens| - 1];
    Converted(before, h) || (Converts(before, tok) && NewBlock(before, tok).parent == Some(h))
  }

  function Once(happens: bool): nat {
    if happens then 1 else 0
  }

  ghost predicate EndsRule(tokens: seq<Token>, h: nat) {
    && EndChildren(tokens, h) == SectionEnds(tokens, h) + Once(ClosedByEnd(tokens, h))
    && (ClosedByEnd(tokens, h) ==> EndsLast(tokens, h) && !Open(tokens, h))
    && (SectionEnds(tokens, h) > 0 || Converted(tokens, h) ==> TypeOf(tokens, h) == ErrorHandlerType)
    && (EndChildren(tokens, h) > 0 ==> TypeOf(tokens, h) in CLOSABLE)
  }

  lemma EndsSnoc(tokens: seq<Token>, tok: Token, h: nat)
    ensures var more := tokens + [tok];
            && SectionEnds(more, h) == SectionEnds(tokens, h) + Once(EndGoesTo(tokens, tok, h) && Pending(tokens))
            && (ClosedByEnd(more, h) <==> ClosedByEnd(tokens, h) || (EndGoesTo(tokens, tok, h) && !Pending(tokens)))
            && (Converted(more, h) <==>
                Converted(tokens, h) || (Converts(tokens, tok) && NewBlock(tokens, tok).parent == Some(h)))
  {
    assert (tokens + [tok])[..|tokens|] == tokens;
  }

  lemma {:induction false} EndCountFrame(nodes: seq<Node>, other: seq<Node>, ids: seq<nat>)
    requires |nodes| <= |other| && forall i :: 0 <= i < |ids| ==> ids[i] < |nodes|
    requires forall k :: 0 <= k < |nodes| ==> (other[k].btype == EndType <==> nodes[k].btype == EndType)
    ensures EndCount(other, ids) == EndCount(nodes, ids)
  {
    if ids != [] {
      EndCountFrame(nodes, other, ids[..|ids| - 1]);
    }
  }

  lemma EndCountSnoc(nodes: seq<Node>, ids: seq<nat>, id: nat)
    requires id < |nodes|
    ensures EndCount(nodes, ids + [id]) == EndCount(nodes, ids) + Once(nodes[id].btype == EndType)
  {
    assert (ids + [id])[..|ids|] == ids;
  }

  /** What the rules of nesting say of the new block. */
  lemma NewBlockFacts(tokens: seq<Token>, tok: Token)
    ensures Makes(tokens, tok) ==>
              var b := NewBlock(tokens, tok);
              && (b.btype == EndType <==> tok.kind.TokEnd?)
              && (b.parent.Some? ==> Open(tokens, b.parent.value) && b.parent.value < |Blocks(tokens)|)
              && (tok.kind.TokEnd? ==> b.parent.Some? && TypeOf(tokens, b.parent.value) in Targets(tokens))
              && (Converts(tokens, tok) ==> b.parent.Some? && TypeOf(tokens, b.parent.value) == BlockBlock)
  {
    Nesting(tokens, tok);
    ParseNests(tokens);
    OpenAreMade(tokens);
    hide Open, InSubflow, Pending, OpenedAt, Nests, Blocks;
  }

  lemma ChildrenInRange(tokens: seq<Token>, h: nat)
    requires h < |Blocks(tokens)|
    ensures var children := Blocks(tokens)[h].children;
            && (forall i :: 0 <= i < |children| ==> h < children[i] < |Blocks(tokens)|)
            && (children == [] || h < children[0] < |Blocks(tokens)|)
  {
    ParseChained(tokens);
    assert ChildrenMatch(Blocks(tokens), h);
  }

  lemma EndTypesStay(tokens: seq<Token>, tok: Token)
    ensures forall k :: 0 <= k < |Blocks(tokens)| <= |Blocks(tokens + [tok])| ==>
              (Blocks(tokens + [tok])[k].btype == EndType <==> Blocks(tokens)[k].btype == EndType)
  {
    var was, now := Blocks(tokens), Blocks(tokens + [tok]);
    OldBlocks(tokens, tok);
    NewBlockFacts(tokens, tok);
    hide Blocks, Open;
    forall k | 0 <= k < |was| ensures now[k].btype == EndType <==> was[k].btype == EndType {
      assert OldBlock(was, now, tok, k);
    }
  }

  lemma EndCountStep(was: seq<Node>, now: seq<Node>, tok: Token, h: nat)
    requires h < |was| && OldBlock(was, now, tok, h)
    requires forall i :: 0 <= i < |was[h].children| ==> was[h].children[i] < |was|
    requires forall k :: 0 <= k < |was| ==> (now[k].btype == EndType <==> was[k].btype == EndType)
    ensures EndCount(now, now[h].children) == EndCount(was, was[h].children) +
            Once(|was| < |now| && now[|was|].parent == Some(h) && now[|was|].btype == EndType)
  {
    EndCountFrame(was, now, was[h].children);
    if |was| < |now| {
      EndCountSnoc(now, was[h].children, |was|);
    }
    hide EndCount;
  }

  lemma NewBlockHasNoEnds(tokens: seq<Token>, tok: Token, h: nat)
    requires h >= |Blocks(tokens)|
    ensures EndChildren(tokens + [tok], h) == 0
  {
    hide Blocks, OldBlock, EndCount;
    var now := Blocks(tokens + [tok]);
    OldBlocks(tokens, tok);
    if h < |now| {
      ChildrenInRange(tokens + [tok], h);
      assert now[h].children == [];
      assert EndCount(now, []) == 0 by { NoneCounted(now); }
    }
  }

  lemma NoneCounted(nodes: seq<Node>)
    ensures EndCount(nodes, []) == 0
  {
  }

  /** An END that goes to `h` is one more END among its children, and nothing else changes their number. */
  lemma EndChildrenStep(tokens: seq<Token>, tok: Token, h: nat)
    ensures EndChildren(tokens + [tok], h) == EndChildren(tokens, h) + Once(EndGoesTo(tokens, tok, h))
    ensures EndGoesTo(tokens, tok, h) ==> EndsLast(tokens + [tok], h)
  {
    hide Blocks, Open, EndCount, Converts, Targets;
    var was, now := Blocks(tokens), Blocks(tokens + [tok]);
    OldBlocks(tokens, tok);
    NewBlockFacts(tokens, tok);
    EndTypesStay(tokens, tok);
    if h < |was| {
      ChildrenInRange(tokens, h);
      assert OldBlock(was, now, tok, h);
      EndCountStep(was, now, tok, h);
    } else {
      NewBlockHasNoEnds(tokens, tok, h);
    }
  }

  /** A closed block gains no children. */
  lemma EndStaysLast(tokens: seq<Token>, tok: Token, h: nat)
    requires EndsLast(tokens, h) && !Open(tokens, h)
    ensures EndsLast(tokens + [tok], h) && !Open(tokens + [tok], h)
  {
    var was, now := Blocks(tokens), Blocks(tokens + [tok]);
    OldBlocks(tokens, tok);
    NewBlockFacts(tokens, tok);
    EndTypesStay(tokens, tok);
    ChildrenInRange(tokens, h);
    Snoc(tokens, tok);
    hide Blocks, Open;
    assert OldBlock(was, now, tok, h);
  }

  /** Types stay, except that a BLOCK can become a handler. */
  lemma TypeSteps(tokens: seq<Token>, tok: Token, h: nat)
    requires h < |Blocks(tokens)|
    ensures var t := TypeOf(tokens, h);
            TypeOf(tokens + [tok], h) ==
            if Converts(tokens, tok) && NewBlock(tokens, tok).parent == Some(h) then ErrorHandlerType else t
    ensures Converts(tokens, tok) && NewBlock(tokens, tok).parent == Some(h) ==> TypeOf(tokens, h) == BlockBlock
  {
    var was, now := Blocks(tokens), Blocks(tokens + [tok]);
    OldBlocks(tokens, tok);
    NewBlockFacts(tokens, tok);
    hide Blocks, Open;
    assert OldBlock(was, now, tok, h);
  }

  lemma EndsStep(tokens: seq<Token>, tok: Token, h: nat)
    requires EndsRule(tokens, h)
    ensures EndsRule(tokens + [tok], h)
  {
    EndsSnoc(tokens, tok, h);
    EndChildrenStep(tokens, tok, h);
    NewBlockFacts(tokens, tok);
    Snoc(tokens, tok);
    if ClosedByEnd(tokens, h) {
      EndStaysLast(tokens, tok, h);
    }
    if h < |Blocks(tokens)| {
      TypeSteps(tokens, tok, h);
    }
    hide Blocks, Open, Pending, SectionEnds, ClosedByEnd, Converted, EndChildren, EndsLast, InSubflow;
  }

  /** ENDs of a handler section leave the handler open; an END of its own closes a block and is its last child. */
  lemma {:induction false} EndsOfBlock(tokens: seq<Token>, h: nat)
    ensures EndsRule(tokens, h)
  {
    if tokens != [] {
      var before, tok := tokens[..|tokens| - 1], tokens[|tokens| - 1];
      EndsOfBlock(before, h);
      hide EndsRule;
      EndsStep(before, tok, h);
      assert before + [tok] == tokens;
    }
  }

  /** LOOP, IF, SWITCH and BLOCK have at most one END, their last child, which closes them. */
  lemma OneEnd(tokens: seq<Token>, h: nat)
    requires TypeOf(tokens, h) in {LoopType, ConditionType, SwitchType, BlockBlock}
    ensures EndChildren(tokens, h) <= 1
    ensures EndChildren(tokens, h) == 1 ==> EndsLast(tokens, h) && !Open(tokens, h)
  {
    EndsOfBlock(tokens, h);
    hide EndChildren, SectionEnds, ClosedByEnd, EndsLast, Open;
  }

  // ----- The END of a handler section -----

  /** What the parser is meant to do with a converted BLOCK: one END for its handler section beside its own, and none
      beside its own for any other block. */
  ghost predicate SectionsEndOnce(tokens: seq<Token>) {
    forall h: nat :: EndChildren(tokens, h) <= Once(Converted(tokens, h)) + Once(ClosedByEnd(tokens, h))
  }

  /** `tok` is no END of a pending handler section, or goes to a converted block without an END child. */
  ghost predicate FindsItsHandler(tokens: seq<Token>, tok: Token, h: nat) {
    Pending(tokens) && EndGoesTo(tokens, tok, h) ==> Converted(tokens, h) && EndChildren(tokens, h) == 0
  }

  ghost predicate AllFind(tokens: seq<Token>, tok: Token) {
    forall h: nat :: FindsItsHandler(tokens, tok, h)
  }

  /** Every END that comes while a handler section is pending, and finds an open handler, finds innermost a converted
      one without an END child. */
  ghost predicate Steady(tokens: seq<Token>) {
    tokens != [] ==>
      var before, tok := tokens[..|tokens| - 1], tokens[|tokens| - 1];
      Steady(before) && AllFind(before, tok)
  }

  /** One END for the handler section of a converted block at most, and none for another. */
  ghost predicate Within(tokens: seq<Token>, h: nat) {
    SectionEnds(tokens, h) <= Once(Converted(tokens, h))
  }

  lemma SteadySnoc(tokens: seq<Token>, tok: Token)
    ensures Steady(tokens + [tok]) <==> Steady(tokens) && AllFind(tokens, tok)
  {
    assert (tokens + [tok])[..|tokens|] == tokens;
  }

  /** One token, for one block. */
  lemma SectionStep(tokens: seq<Token>, tok: Token, h: nat)
    ensures Within(tokens + [tok], h) <==> Within(tokens, h) && FindsItsHandler(tokens, tok, h)
  {
    EndsOfBlock(tokens, h);
    EndsSnoc(tokens, tok, h);
    NewBlockFacts(tokens, tok);
    if h < |Blocks(tokens)| {
      TypeSteps(tokens, tok, h);
    }
    hide Blocks, Open, Pending, SectionEnds, ClosedByEnd, Converted, EndChildren, EndsLast, InSubflow;
  }

  lemma SectionsCounted(tokens: seq<Token>)
    ensures SectionsEndOnce(tokens) <==> AllWithin(tokens)
  {
    forall h: nat
      ensures Within(tokens, h) <==> EndChildren(tokens, h) <= Once(Converted(tokens, h)) + Once(ClosedByEnd(tokens, h))
    {
      EndsOfBlock(tokens, h);
    }
    hide EndChildren, SectionEnds, ClosedByEnd, Converted, Within;
  }

  ghost predicate AllWithin(tokens: seq<Token>) {
    forall h: nat :: Within(tokens, h)
  }

  lemma WithinStep(tokens: seq<Token>, tok: Token)
    ensures AllWithin(tokens + [tok]) <==> AllWithin(tokens) && AllFind(tokens, tok)
  {
    hide Within, FindsItsHandler;
    forall h: nat ensures Within(tokens + [tok], h) <==> Within(tokens, h) && FindsItsHandler(tokens, tok, h) {
      SectionStep(tokens, tok, h);
    }
    if AllWithin(tokens + [tok]) {
      forall h: nat ensures Within(tokens, h) && FindsItsHandler(tokens, tok, h) {
        assert Within(tokens + [tok], h);
      }
    }
    if AllWithin(tokens) && AllFind(tokens, tok) {
      forall h: nat ensures Within(tokens + [tok], h) {
        assert Within(tokens, h) && FindsItsHandler(tokens, tok, h);
      }
    }
  }

  lemma NoneWithin()
    ensures AllWithin([])
  {
  }

  lemma {:induction false} SteadyWithin(tokens: seq<Token>)
    ensures AllWithin(tokens) <==> Steady(tokens)
  {
    hide AllWithin, AllFind;
    if tokens == [] {
      NoneWithin();
    } else {
      var before, tok := tokens[..|tokens| - 1], tokens[|tokens| - 1];
      SteadyWithin(before);
      WithinStep(before, tok);
      assert tokens == before + [tok];
      SteadySnoc(before, tok);
    }
  }

  /** No block gets more ENDs than meant exactly when every section END finds its own handler. */
  lemma SectionsEndExactly(tokens: seq<Token>)
    ensures SectionsEndOnce(tokens) <==> Steady(tokens)
  {
    hide SectionsEndOnce, AllWithin, Steady;
    SectionsCounted(tokens);
    SteadyWithin(tokens);
  }

  /** A converted BLOCK holding another one that its indentation closes before the END of its section. */
  function InnerClosedByIndent(): seq<Token> {
    [Token(TokSubflowStart, 1, 1, 0, ActionType), Token(TokBlockStart, 2, 2, 0, ActionType),
     Token(TokErrorHandlerStart, 3, 3, 0, ActionType), Token(TokEnd, 4, 4, 0, ActionType),
     Token(TokBlockStart, 5, 5, 4, ActionType), Token(TokErrorHandlerStart, 6, 6, 4, ActionType),
     Token(TokAction, 7, 7, 2, ActionType), Token(TokEnd, 8, 8, 2, ActionType), Token(TokEnd, 9, 9, 0, ActionType)]
  }

  /** The blocks' types, the first block's children, and the stack. */
  predicate Looks(f: Forest, types: seq<BlockType>, children: seq<nat>, stack: seq<Entry>, skip: bool) {
    && Ready(f) && ParentsOlder(f.nodes) && f.open && f.stack == stack && f.skipNextEnd == skip
    && |f.nodes| == |types| && (forall i :: 0 <= i < |types| ==> f.nodes[i].btype == types[i])
    && (types != [] ==> f.nodes[0].children == children)
  }

  lemma NextLooks(f: Forest, types: seq<BlockType>, children: seq<nat>, stack: seq<Entry>, skip: bool,
                  t: BlockType, line: nat, endLine: nat)
    requires Looks(f, types, children, stack, skip)
    ensures Looks(AddBlock(f, t, line, endLine), types + [t],
                  if types == [] then [] else if Top(stack) == Some(0) then children + [|types|] else children,
                  stack, skip)
  {
    AddedBlock(f, t, line, endLine);
    if types == [] {
      assert stack == [];
    }
    hide AddBlock;
  }

  lemma OpeningLooks(f: Forest, types: seq<BlockType>, children: seq<nat>, stack: seq<Entry>, left: seq<Entry>,
                     skip: bool, t: BlockType, indent: nat, line: nat, endLine: nat)
    requires Looks(f, types, children, stack, skip) && PopStack(stack, indent) == left && |stack| < MAX_NESTING_DEPTH
    ensures Looks(GuardedInsert(f, t, indent, line, endLine), types + [t],
                  if types == [] then [] else if Top(left) == Some(0) then children + [|types|] else children,
                  left + [Entry(indent, |types|)], skip)
  {
    NextLooks(f.(stack := left), types, children, left, skip, t, line, endLine);
    hide AddBlock;
  }

  lemma ConvertingLooks(f: Forest, types: seq<BlockType>, children: seq<nat>, stack: seq<Entry>, p: nat, tok: Token)
    requires Looks(f, types, children, stack, false) && Top(stack) == Some(p) && p < |types| && types[p] == BlockBlock
    ensures Looks(StartErrorHandler(f, tok), types[p := ErrorHandlerType] + [ActionType],
                  if p == 0 then children + [|types|] else children, stack, true)
  {
    var g := f.(nodes := f.nodes[p := f.nodes[p].(btype := ErrorHandlerType)], skipNextEnd := true);
    NextLooks(g, types[p := ErrorHandlerType], children, stack, true, ActionType, tok.line, tok.endLine);
    hide AddBlock;
  }

  lemma SectionEndLooks(f: Forest, types: seq<BlockType>, children: seq<nat>, stack: seq<Entry>, tok: Token)
    requires Looks(f, types, children, stack, true) && stack != [] && stack[0].block == 0 && types != []
    requires types[0] == ErrorHandlerType
    requires forall i :: 1 <= i < |stack| ==> stack[i].block < |types| && types[stack[i].block] != ErrorHandlerType
    ensures Looks(CloseBlock(f, tok), types + [EndType], children + [|types|], stack[..1], false)
  {
    PopToFirst(f.nodes, stack);
    NextLooks(f.(stack := stack[..1], skipNextEnd := false), types, children, stack[..1], false, EndType, tok.line, 0);
    hide AddBlock;
  }

  lemma ClosingEndLooks(f: Forest, types: seq<BlockType>, children: seq<nat>, stack: seq<Entry>, tok: Token)
    requires Looks(f, types, children, stack, false) && |stack| == 1 && stack[0].block == 0 && types != []
    requires types[0] == ErrorHandlerType
    ensures Looks(CloseBlock(f, tok), types + [EndType], children + [|types|], [], false)
  {
    assert PopTo(f.nodes, f.stack, CLOSABLE) == f.stack && f.(stack := f.stack) == f;
    NextLooks(f, types, children, stack, false, EndType, tok.line, 0);
    hide AddBlock;
  }

  lemma {:induction false} PopToFirst(nodes: seq<Node>, stack: seq<Entry>)
    requires StackIn(nodes, stack) && stack != [] && nodes[stack[0].block].btype == ErrorHandlerType
    requires forall i :: 1 <= i < |stack| ==> nodes[stack[i].block].btype != ErrorHandlerType
    ensures PopTo(nodes, stack, {ErrorHandlerType}) == stack[..1]
  {
    if |stack| > 1 {
      var rest := stack[..|stack| - 1];
      assert rest[..1] == stack[..1];
      PopToFirst(nodes, rest);
    }
  }

  lemma NextToken(tokens: seq<Token>, k: nat)
    requires k < |tokens|
    ensures Parse(tokens[..k + 1]) == Step(Parse(tokens[..k]), tokens[k])
  {
    assert tokens[..k + 1] == tokens[..k] + [tokens[k]];
    ParseSnoc(tokens[..k], tokens[k]);
  }

  lemma StartLooks(tokens: seq<Token>)
    requires tokens != [] && tokens[0].kind.TokSubflowStart?
    ensures Looks(Parse(tokens[..1]), [], [], [], false)
  {
    assert tokens[..1][..0] == [];
  }

  lemma OuterSectionEnded()
    ensures Looks(Parse(InnerClosedByIndent()[..4]), [ErrorHandlerType, ActionType, EndType], [1, 2],
                  [Entry(0, 0)], false)
  {
    var t := InnerClosedByIndent();
    hide Parse, AddBlock, Looks, GuardedInsert, StartErrorHandler, CloseBlock;
    StartLooks(t);
    NextToken(t, 1);
    OpeningLooks(Parse(t[..1]), [], [], [], [], false, BlockBlock, 0, 2, 2);
    assert [] + [BlockBlock] == [BlockBlock] && [] + [Entry(0, 0)] == [Entry(0, 0)];
    NextToken(t, 2);
    ConvertingLooks(Parse(t[..2]), [BlockBlock], [], [Entry(0, 0)], 0, t[2]);
    assert [BlockBlock][0 := ErrorHandlerType] + [ActionType] == [ErrorHandlerType, ActionType] && [] + [1] == [1];
    NextToken(t, 3);
    SectionEndLooks(Parse(t[..3]), [ErrorHandlerType, ActionType], [1], [Entry(0, 0)], t[3]);
    assert [ErrorHandlerType, ActionType] + [EndType] == [ErrorHandlerType, ActionType, EndType] && [1] + [2] == [1, 2];
    assert [Entry(0, 0)][..1] == [Entry(0, 0)];
  }

  lemma InnerConverted()
    ensures Looks(Parse(InnerClosedByIndent()[..6]),
                  [ErrorHandlerType, ActionType, EndType, ErrorHandlerType, ActionType], [1, 2, 3],
                  [Entry(0, 0), Entry(4, 3)], true)
  {
    var t := InnerClosedByIndent();
    hide Parse, AddBlock, Looks, GuardedInsert, StartErrorHandler, CloseBlock;
    OuterSectionEnded();
    var types := [ErrorHandlerType, ActionType, EndType];
    NextToken(t, 4);
    OpeningLooks(Parse(t[..4]), types, [1, 2], [Entry(0, 0)], [Entry(0, 0)], false, BlockBlock, 4, 5, 5);
    var more, stack := types + [BlockBlock], [Entry(0, 0), Entry(4, 3)];
    assert [Entry(0, 0)] + [Entry(4, 3)] == stack && [1, 2] + [3] == [1, 2, 3];
    NextToken(t, 5);
    ConvertingLooks(Parse(t[..5]), more, [1, 2, 3], stack, 3, t[5]);
    assert more[3 := ErrorHandlerType] + [ActionType] ==
           [ErrorHandlerType, ActionType, EndType, ErrorHandlerType, ActionType];
  }

  lemma InnerPopped()
    ensures PopStack([Entry(0, 0), Entry(4, 3)], 2) == [Entry(0, 0)]
  {
    var stack := [Entry(0, 0), Entry(4, 3)];
    assert stack[..1] == [Entry(0, 0)];
  }

  lemma InnerLeft()
    ensures Looks(Parse(InnerClosedByIndent()[..7]),
                  [ErrorHandlerType, ActionType, EndType, ErrorHandlerType, ActionType, ActionType], [1, 2, 3, 5],
                  [Entry(0, 0), Entry(2, 5)], true)
  {
    hide Parse, AddBlock, Looks, GuardedInsert, PopStack;
    var t := InnerClosedByIndent();
    InnerConverted();
    InnerPopped();
    NextToken(t, 6);
    var types := [ErrorHandlerType, ActionType, EndType, ErrorHandlerType, ActionType];
    var stack := [Entry(0, 0), Entry(4, 3)];
    OpeningLooks(Parse(t[..6]), types, [1, 2, 3], stack, [Entry(0, 0)], true, ActionType, 2, 7, 7);
    assert [Entry(0, 0)] + [Entry(2, 5)] == [Entry(0, 0), Entry(2, 5)] && [1, 2, 3] + [5] == [1, 2, 3, 5];
    assert types + [ActionType] == [ErrorHandlerType, ActionType, EndType, ErrorHandlerType, ActionType, ActionType];
  }

  lemma InnerClosed()
    ensures Looks(Parse(InnerClosedByIndent()[..8]),
                  [ErrorHandlerType, ActionType, EndType, ErrorHandlerType, ActionType, ActionType, EndType],
                  [1, 2, 3, 5, 6], [Entry(0, 0)], false)
  {
    hide Parse, AddBlock, Looks, CloseBlock;
    var t := InnerClosedByIndent();
    InnerLeft();
    NextToken(t, 7);
    var types := [ErrorHandlerType, ActionType, EndType, ErrorHandlerType, ActionType, ActionType];
    var stack := [Entry(0, 0), Entry(2, 5)];
    SectionEndLooks(Parse(t[..7]), types, [1, 2, 3, 5], stack, t[7]);
    assert stack[..1] == [Entry(0, 0)] && [1, 2, 3, 5] + [6] == [1, 2, 3, 5, 6];
    assert types + [EndType] ==
           [ErrorHandlerType, ActionType, EndType, ErrorHandlerType, ActionType, ActionType, EndType];
  }

  lemma OuterClosed()
    ensures Looks(Parse(InnerClosedByIndent()),
                  [ErrorHandlerType, ActionType, EndType, ErrorHandlerType, ActionType, ActionType, EndType, EndType],
                  [1, 2, 3, 5, 6, 7], [], false)
  {
    hide Parse, AddBlock, Looks, CloseBlock;
    var t := InnerClosedByIndent();
    InnerClosed();
    NextToken(t, 8);
    assert t[..9] == t;
    var types := [ErrorHandlerType, ActionType, EndType, ErrorHandlerType, ActionType, ActionType, EndType];
    ClosingEndLooks(Parse(t[..8]), types, [1, 2, 3, 5, 6], [Entry(0, 0)], t[8]);
    assert [1, 2, 3, 5, 6] + [7] == [1, 2, 3, 5, 6, 7];
    assert types + [EndType] ==
           [ErrorHandlerType, ActionType, EndType, ErrorHandlerType, ActionType, ActionType, EndType, EndType];
  }

  /** The outer one gets three ENDs: its section's, the inner section's and its own. */
  lemma ThreeEnds()
    ensures EndChildren(InnerClosedByIndent(), 0) == 3 && !SectionsEndOnce(InnerClosedByIndent())
  {
    hide Parse, EndCount, InnerClosedByIndent, Converted, ClosedByEnd;
    var t := InnerClosedByIndent();
    OuterClosed();
    ThreeCounted(Blocks(t));
    assert EndChildren(t, 0) > Once(Converted(t, 0)) + Once(ClosedByEnd(t, 0));
  }

  lemma ThreeCounted(nodes: seq<Node>)
    requires |nodes| == 8
    requires forall k :: 0 <= k < 8 ==> (nodes[k].btype == EndType <==> k in {2, 6, 7})
    ensures EndCount(nodes, [1, 2, 3, 5, 6, 7]) == 3
  {
    hide EndCount;
    EndCountSnoc(nodes, [1, 2, 3, 5, 6], 7);
    EndCountSnoc(nodes, [1, 2, 3, 5], 6);
    EndCountSnoc(nodes, [1, 2, 3], 5);
    EndCountSnoc(nodes, [1, 2], 3);
    EndCountSnoc(nodes, [1], 2);
    EndCountSnoc(nodes, [], 1);
    NoneCounted(nodes);
    assert [] + [1] == [1] && [1] + [2] == [1, 2] && [1, 2] + [3] == [1, 2, 3] && [1, 2, 3] + [5] == [1, 2, 3, 5];
    assert [1, 2, 3, 5] + [6] == [1, 2, 3, 5, 6] && [1, 2, 3, 5, 6] + [7] == [1, 2, 3, 5, 6, 7];
  }
}
