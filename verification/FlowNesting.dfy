/**
  What nests where (core/parser/parser.go), for every token sequence: which token makes a block, of which type, and
  under which open block. Which blocks are open is told from the blocks made so far, without the parser's stack: a block
  stays open until a subflow boundary, an END that finds nothing to close, a block made outside it, or its own END.
 */
module FlowNesting {
  import opened Options
  import opened FlowParser
  import opened FlowForest
  import opened FlowBounds

  // ----- What a token does, told from the blocks -----

  /** The blocks made by a token sequence. */
  ghost function Blocks(tokens: seq<Token>): seq<Node> {
    Parse(tokens).nodes
  }

  /** `tok`, read after `tokens`, makes a block. */
  ghost predicate Makes(tokens: seq<Token>, tok: Token) {
    |Blocks(tokens + [tok])| == |Blocks(tokens)| + 1
  }

  /** That block. */
  ghost function NewBlock(tokens: seq<Token>, tok: Token): Node
    requires Makes(tokens, tok)
  {
    Blocks(tokens + [tok])[|Blocks(tokens)|]
  }

  /** ON BLOCK ERROR makes an action when it converts the BLOCK it is in. */
  ghost predicate Converts(tokens: seq<Token>, tok: Token) {
    tok.kind.TokErrorHandlerStart? && Makes(tokens, tok) && NewBlock(tokens, tok).btype == ActionType
  }

  ghost predicate InSubflow(tokens: seq<Token>) {
    tokens != [] &&
    var tok := tokens[|tokens| - 1];
    tok.kind.TokSubflowStart? || (!tok.kind.TokSubflowEnd? && InSubflow(tokens[..|tokens| - 1]))
  }

  /** A BLOCK was converted, and no END has come since. */
  ghost predicate Pending(tokens: seq<Token>) {
    tokens != [] &&
    var before, tok := tokens[..|tokens| - 1], tokens[|tokens| - 1];
    Converts(before, tok) || (!(tok.kind.TokEnd? && InSubflow(before)) && Pending(before))
  }

  /** Block `q` is block `r` or above it. */
  ghost predicate Above(nodes: seq<Node>, q: nat, r: nat)
    requires ParentsOlder(nodes)
    decreases r
  {
    r < |nodes| && (q == r || (nodes[r].parent.Some? && Above(nodes, q, nodes[r].parent.value)))
  }

  /** What `tok`, read after `tokens`, closes. */
  ghost predicate Closes(tokens: seq<Token>, tok: Token, q: nat) {
    || tok.kind.TokSubflowStart? || tok.kind.TokSubflowEnd?
    || (tok.kind.TokEnd? && InSubflow(tokens) && !Makes(tokens, tok))
    || (Makes(tokens, tok) &&
        (|| !(ParentsOlder(Blocks(tokens + [tok])) && Above(Blocks(tokens + [tok]), q, |Blocks(tokens)|))
         || (tok.kind.TokEnd? && !Pending(tokens) && NewBlock(tokens, tok).parent == Some(q))))
  }

  /** Whether the block `tok` makes can hold others. */
  ghost predicate Opens(tokens: seq<Token>, tok: Token) {
    Makes(tokens, tok) && !tok.kind.TokEnd? && !Converts(tokens, tok)
  }

  /** Block `q` is open after `tokens`. */
  ghost predicate Open(tokens: seq<Token>, q: nat) {
    tokens != [] &&
    var before, tok := tokens[..|tokens| - 1], tokens[|tokens| - 1];
    (Opens(before, tok) && q == |Blocks(before)|) || (Open(before, q) && !Closes(before, tok, q))
  }

  ghost function OpenBlocks(tokens: seq<Token>): set<nat> {
    set q | 0 <= q < |Blocks(tokens)| && Open(tokens, q)
  }

  predicate IsBranch(tok: Token) {
    tok.kind.TokCase? || tok.kind.TokDefault? || tok.kind.TokConditionElse?
  }

  /** The indentation block `q` was opened at; a branch counts one more than its line. */
  ghost function OpenedAt(tokens: seq<Token>, q: nat): nat {
    if tokens == [] then 0
    else
      var before, tok := tokens[..|tokens| - 1], tokens[|tokens| - 1];
      if q < |Blocks(before)| then OpenedAt(before, q) else if IsBranch(tok) then tok.indent + 1 else tok.indent
  }

  ghost function TypeOf(tokens: seq<Token>, q: nat): BlockType {
    if q < |Blocks(tokens)| then Blocks(tokens)[q].btype else UnknownType
  }

  /** `p` is the last open block that is `good`, or there is none. */
  ghost predicate IsInnermost(tokens: seq<Token>, p: Option<nat>, good: nat -> bool) {
    match p
    case None => forall q: nat :: Open(tokens, q) ==> !good(q)
    case Some(x) => Open(tokens, x) && good(x) && forall q: nat :: Open(tokens, q) && good(q) ==> q <= x
  }

  // ----- The stack holds the open blocks -----

  predicate OnStack(stack: seq<Entry>, q: nat) {
    exists i :: 0 <= i < |stack| && stack[i].block == q
  }

  function UnderEntry(stack: seq<Entry>, i: nat): Option<nat>
    requires i <= |stack|
  {
    if i == 0 then None else Some(stack[i - 1].block)
  }

  predicate Linked(nodes: seq<Node>, stack: seq<Entry>, i: nat) {
    i < |stack| && stack[i].block < |nodes| && nodes[stack[i].block].parent == UnderEntry(stack, i)
  }

  /** Everything made after `q` is below it. */
  ghost predicate AboveLater(nodes: seq<Node>, q: nat)
    requires ParentsOlder(nodes)
  {
    forall r :: q <= r < |nodes| ==> Above(nodes, q, r)
  }

  /** The stack is a chain of parents, and everything made after a block on it is below that block. */
  ghost predicate ChainUp(f: Forest) {
    && Ready(f) && ParentsOlder(f.nodes)
    && (forall i :: 0 <= i < |f.stack| ==> Linked(f.nodes, f.stack, i))
    && (forall i :: 0 <= i < |f.stack| ==> AboveLater(f.nodes, f.stack[i].block))
  }

  lemma {:induction false} AboveFrame(nodes: seq<Node>, other: seq<Node>, q: nat, r: nat)
    requires ParentsOlder(nodes) && ParentsOlder(other) && r < |nodes| <= |other|
    requires forall i :: 0 <= i < |nodes| ==> other[i].parent == nodes[i].parent
    ensures Above(other, q, r) <==> Above(nodes, q, r)
    decreases r
  {
    if nodes[r].parent.Some? {
      AboveFrame(nodes, other, q, nodes[r].parent.value);
    }
  }

  lemma {:induction false} StackAscends(f: Forest, i: nat, j: nat)
    requires ChainUp(f) && i < j < |f.stack|
    ensures f.stack[i].block < f.stack[j].block
    decreases j
  {
    assert Linked(f.nodes, f.stack, j);
    if i < j - 1 {
      StackAscends(f, i, j - 1);
    }
  }

  lemma PopKeepsChain(f: Forest, prefix: seq<Entry>, skip: bool)
    requires ChainUp(f) && prefix <= f.stack
    ensures ChainUp(f.(stack := prefix, skipNextEnd := skip))
  {
    forall i | 0 <= i < |prefix| ensures Linked(f.nodes, prefix, i) {
      assert Linked(f.nodes, f.stack, i);
    }
    forall i | 0 <= i < |prefix| ensures AboveLater(f.nodes, prefix[i].block) {
      assert prefix[i] == f.stack[i];
    }
  }

  function Top(stack: seq<Entry>): Option<nat> {
    UnderEntry(stack, |stack|)
  }

  /** Block `i` once a new block hangs under the stack. */
  function WithChild(f: Forest, i: nat): Node
    requires i < |f.nodes|
  {
    if Top(f.stack) == Some(i) then f.nodes[i].(children := f.nodes[i].children + [|f.nodes|]) else f.nodes[i]
  }

  /** A block added under the stack. */
  lemma AddedBlock(f: Forest, t: BlockType, line: nat, endLine: nat)
    requires Ready(f) && ParentsOlder(f.nodes) && f.open
    ensures var g, n := AddBlock(f, t, line, endLine), |f.nodes|;
            && g.stack == f.stack && |g.nodes| == n + 1 && ParentsOlder(g.nodes)
            && g.nodes[n].btype == t && g.nodes[n].line == line && g.nodes[n].endLine == endLine
            && g.nodes[n].parent == Top(f.stack)
            && g.open == f.open && g.skipNextEnd == f.skipNextEnd
            && (forall i :: 0 <= i < n ==> g.nodes[i] == WithChild(f, i))
  {
  }

  /** It is below exactly the blocks on the stack. */
  lemma AddKeepsChain(f: Forest, t: BlockType, line: nat, endLine: nat)
    requires ChainUp(f) && f.open
    ensures var g, n := AddBlock(f, t, line, endLine), |f.nodes|;
            && ParentsOlder(g.nodes) && ChainUp(g)
            && (forall q :: Above(g.nodes, q, n) <==> q == n || OnStack(f.stack, q))
  {
    var g, n := AddBlock(f, t, line, endLine), |f.nodes|;
    AddedBlock(f, t, line, endLine);
    hide AddBlock;
    forall q, r | 0 <= r < n ensures Above(g.nodes, q, r) <==> Above(f.nodes, q, r) {
      AboveFrame(f.nodes, g.nodes, q, r);
    }
    forall q ensures Above(g.nodes, q, n) <==> q == n || OnStack(f.stack, q) {
      if f.stack != [] {
        AboveTop(f, q);
      }
    }
    forall i | 0 <= i < |g.stack| ensures Linked(g.nodes, g.stack, i) {
      assert Linked(f.nodes, f.stack, i);
    }
    forall i | 0 <= i < |g.stack| ensures AboveLater(g.nodes, g.stack[i].block) {
      assert AboveLater(f.nodes, f.stack[i].block) && OnStack(f.stack, f.stack[i].block);
    }
  }

  /** The blocks above the top of the stack are those on it. */
  lemma {:induction false} AboveTop(f: Forest, q: nat)
    requires ChainUp(f) && f.stack != []
    ensures Above(f.nodes, q, f.stack[|f.stack| - 1].block) <==> OnStack(f.stack, q)
    decreases |f.stack|
  {
    var k := |f.stack| - 1;
    assert Linked(f.nodes, f.stack, k);
    if k > 0 {
      var back := f.(stack := f.stack[..k]);
      PopKeepsChain(f, f.stack[..k], f.skipNextEnd);
      assert f.(stack := f.stack[..k], skipNextEnd := f.skipNextEnd) == back;
      AboveTop(back, q);
      assert OnStack(f.stack, q) <==> q == f.stack[k].block || OnStack(back.stack, q);
    } else {
      assert OnStack(f.stack, q) <==> q == f.stack[0].block;
    }
  }

  lemma PushKeepsChain(f: Forest, indent: nat)
    requires ChainUp(f) && f.nodes != [] && f.nodes[|f.nodes| - 1].parent == Top(f.stack)
    ensures ChainUp(PushNew(f, indent))
  {
    var g := PushNew(f, indent);
    forall i | 0 <= i < |g.stack| ensures Linked(g.nodes, g.stack, i) {
      if i < |f.stack| { assert Linked(f.nodes, f.stack, i); }
    }
    forall i | 0 <= i < |g.stack| ensures AboveLater(g.nodes, g.stack[i].block) {
      if i < |f.stack| { assert AboveLater(f.nodes, f.stack[i].block) && g.stack[i] == f.stack[i]; }
    }
  }

  lemma RetypeKeepsChain(f: Forest, p: nat, t: BlockType)
    requires ChainUp(f) && p < |f.nodes|
    ensures ChainUp(f.(nodes := f.nodes[p := f.nodes[p].(btype := t)], skipNextEnd := true))
  {
    var other := f.nodes[p := f.nodes[p].(btype := t)];
    assert ParentsOlder(other);
    forall i | 0 <= i < |f.stack| ensures Linked(other, f.stack, i) {
      assert Linked(f.nodes, f.stack, i);
    }
    forall i | 0 <= i < |f.stack| ensures AboveLater(other, f.stack[i].block) {
      assert AboveLater(f.nodes, f.stack[i].block);
      forall r | f.stack[i].block <= r < |other| ensures Above(other, f.stack[i].block, r) {
        AboveFrame(f.nodes, other, f.stack[i].block, r);
      }
    }
  }

  /** What the stack and the flags mean. */
  ghost predicate Nests(tokens: seq<Token>) {
    var f := Parse(tokens);
    && ChainUp(f) && f.open == InSubflow(tokens) && f.skipNextEnd == Pending(tokens)
    && (forall q: nat :: OnStack(f.stack, q) <==> Open(tokens, q))
    && (forall i :: 0 <= i < |f.stack| ==> f.stack[i].indent == OpenedAt(tokens, f.stack[i].block))
  }

  lemma ParseSnoc(tokens: seq<Token>, tok: Token)
    ensures (tokens + [tok])[..|tokens|] == tokens && Parse(tokens + [tok]) == Step(Parse(tokens), tok)
  {
    assert (tokens + [tok])[..|tokens|] == tokens;
  }

  lemma Snoc(tokens: seq<Token>, tok: Token)
    ensures var more := tokens + [tok];
            && (InSubflow(more) <==> tok.kind.TokSubflowStart? || (!tok.kind.TokSubflowEnd? && InSubflow(tokens)))
            && (Pending(more) <==>
                Converts(tokens, tok) || (!(tok.kind.TokEnd? && InSubflow(tokens)) && Pending(tokens)))
            && (forall q: nat :: Open(more, q) <==>
                  (Opens(tokens, tok) && q == |Blocks(tokens)|) || (Open(tokens, q) && !Closes(tokens, tok, q)))
            && (forall q: nat :: OpenedAt(more, q) ==
                  if q < |Blocks(tokens)| then OpenedAt(tokens, q)
                  else if IsBranch(tok) then tok.indent + 1
                  else tok.indent)
  {
    ParseSnoc(tokens, tok);
  }

  /** A token that makes no block and leaves the stack and the flags. */
  lemma NothingHappens(tokens: seq<Token>, tok: Token)
    requires Nests(tokens) && Parse(tokens + [tok]) == Parse(tokens)
    requires !tok.kind.TokSubflowStart? && !tok.kind.TokSubflowEnd? && !(tok.kind.TokEnd? && InSubflow(tokens))
    ensures Nests(tokens + [tok]) && !Makes(tokens, tok)
  {
    hide Open, InSubflow, Pending, OpenedAt, ChainUp, Parse;
    Snoc(tokens, tok);
    OpenAreMade(tokens);
  }

  lemma OpenAreMade(tokens: seq<Token>)
    requires Nests(tokens)
    ensures forall q: nat :: Open(tokens, q) ==> q < |Blocks(tokens)|
  {
    hide Open, InSubflow, Pending, OpenedAt;
    var f := Parse(tokens);
    forall q: nat | Open(tokens, q) ensures q < |f.nodes| {
      assert OnStack(f.stack, q);
      var i :| 0 <= i < |f.stack| && f.stack[i].block == q;
      assert Linked(f.nodes, f.stack, i);
    }
  }

  // ----- Every token keeps the meaning of the stack -----

  /** The block a token makes under `base`, which is what is left open of the stack. */
  lemma AddStep(tokens: seq<Token>, tok: Token, base: Forest, t: BlockType, line: nat, endLine: nat)
    requires ChainUp(base) && base.open && |base.nodes| == |Blocks(tokens)|
    requires Blocks(tokens + [tok]) == AddBlock(base, t, line, endLine).nodes
    ensures Makes(tokens, tok)
    ensures var b := NewBlock(tokens, tok);
            b.btype == t && b.line == line && b.endLine == endLine && b.parent == Top(base.stack)
    ensures ParentsOlder(Blocks(tokens + [tok]))
    ensures forall q: nat :: Above(Blocks(tokens + [tok]), q, |Blocks(tokens)|) <==>
                             q == |Blocks(tokens)| || OnStack(base.stack, q)
    ensures forall i :: 0 <= i < |base.nodes| ==> Blocks(tokens + [tok])[i] == WithChild(base, i)
  {
    hide AddBlock, Above, ChainUp;
    assert Ready(base) && ParentsOlder(base.nodes) by { ChainReady(base); }
    AddedBlock(base, t, line, endLine);
    AddKeepsChain(base, t, line, endLine);
  }

  lemma ChainReady(f: Forest)
    requires ChainUp(f)
    ensures Ready(f) && ParentsOlder(f.nodes)
  {
  }

  lemma PrefixOnStack(prefix: seq<Entry>, stack: seq<Entry>)
    requires prefix <= stack
    ensures forall q: nat :: OnStack(prefix, q) ==> OnStack(stack, q)
  {
    forall q: nat | OnStack(prefix, q) ensures OnStack(stack, q) {
      var i :| 0 <= i < |prefix| && prefix[i].block == q;
      assert stack[i].block == q;
    }
  }

  lemma PushedOnStack(stack: seq<Entry>, e: Entry)
    ensures forall q: nat :: OnStack(stack + [e], q) <==> OnStack(stack, q) || q == e.block
  {
    forall q: nat ensures OnStack(stack + [e], q) <==> OnStack(stack, q) || q == e.block {
      if OnStack(stack, q) {
        var i :| 0 <= i < |stack| && stack[i].block == q;
        assert (stack + [e])[i].block == q;
      }
      if q == e.block {
        assert (stack + [e])[|stack|].block == q;
      }
    }
  }

  /** A block made under `base` and opened. */
  lemma OpeningKeepsNests(
    tokens: seq<Token>, tok: Token, base: Forest, t: BlockType, line: nat, endLine: nat, indent: nat)
    requires Nests(tokens) && InSubflow(tokens) && ChainUp(base) && base == Parse(tokens).(stack := base.stack)
    requires base.stack <= Parse(tokens).stack
    requires !tok.kind.TokSubflowStart? && !tok.kind.TokSubflowEnd? && !tok.kind.TokEnd?
    requires tok.kind.TokErrorHandlerStart? ==> t != ActionType
    requires Parse(tokens + [tok]) == PushNew(AddBlock(base, t, line, endLine), indent)
    requires indent == if IsBranch(tok) then tok.indent + 1 else tok.indent
    ensures Nests(tokens + [tok]) && Makes(tokens, tok)
  {
    hide AddBlock, ChainUp, Parse, Open, InSubflow, Pending, OpenedAt, Above;
    var f, g, n := Parse(tokens), Parse(tokens + [tok]), |Blocks(tokens)|;
    ChainReady(base);
    AddedBlock(base, t, line, endLine);
    AddKeepsChain(base, t, line, endLine);
    PushKeepsChain(AddBlock(base, t, line, endLine), indent);
    AddStep(tokens, tok, base, t, line, endLine);
    Snoc(tokens, tok);
    OpenAreMade(tokens);
    PrefixOnStack(base.stack, f.stack);
    PushedOnStack(base.stack, Entry(indent, n));
    assert g.stack == base.stack + [Entry(indent, n)];
    forall i | 0 <= i < |g.stack| ensures g.stack[i].indent == OpenedAt(tokens + [tok], g.stack[i].block) {
      if i < |base.stack| {
        assert g.stack[i] == f.stack[i] && OnStack(f.stack, f.stack[i].block);
      }
    }
  }

  /** ON BLOCK ERROR inside a BLOCK. */
  lemma ConvertingKeepsNests(tokens: seq<Token>, tok: Token, base: Forest, p: nat)
    requires Nests(tokens) && InSubflow(tokens) && tok.kind.TokErrorHandlerStart? && p < |Blocks(tokens)|
    requires var f := Parse(tokens);
             base == f.(nodes := f.nodes[p := f.nodes[p].(btype := ErrorHandlerType)], skipNextEnd := true)
    requires ChainUp(base) && Parse(tokens + [tok]) == AddBlock(base, ActionType, tok.line, tok.endLine)
    ensures Nests(tokens + [tok]) && Converts(tokens, tok)
  {
    hide AddBlock, ChainUp, Parse, Open, InSubflow, Pending, OpenedAt, Above;
    ChainReady(base);
    AddedBlock(base, ActionType, tok.line, tok.endLine);
    AddKeepsChain(base, ActionType, tok.line, tok.endLine);
    AddStep(tokens, tok, base, ActionType, tok.line, tok.endLine);
    Snoc(tokens, tok);
    OpenAreMade(tokens);
    var f, g := Parse(tokens), Parse(tokens + [tok]);
    forall i | 0 <= i < |g.stack| ensures g.stack[i].indent == OpenedAt(tokens + [tok], g.stack[i].block) {
      assert OnStack(f.stack, f.stack[i].block);
    }
  }

  /** An END that hangs under a handler section and leaves it open. */
  lemma SectionEndKeepsNests(tokens: seq<Token>, tok: Token, base: Forest)
    requires Nests(tokens) && InSubflow(tokens) && Pending(tokens) && tok.kind.TokEnd? && ChainUp(base)
    requires base == Parse(tokens).(stack := base.stack, skipNextEnd := false) && base.stack <= Parse(tokens).stack
    requires Parse(tokens + [tok]) == AddBlock(base, EndType, tok.line, 0)
    ensures Nests(tokens + [tok]) && Makes(tokens, tok)
  {
    hide AddBlock, ChainUp, Parse, Open, InSubflow, Pending, OpenedAt, Above;
    ChainReady(base);
    AddedBlock(base, EndType, tok.line, 0);
    AddKeepsChain(base, EndType, tok.line, 0);
    AddStep(tokens, tok, base, EndType, tok.line, 0);
    Snoc(tokens, tok);
    OpenAreMade(tokens);
    PrefixOnStack(base.stack, Parse(tokens).stack);
    var f, g := Parse(tokens), Parse(tokens + [tok]);
    forall i | 0 <= i < |g.stack| ensures g.stack[i].indent == OpenedAt(tokens + [tok], g.stack[i].block) {
      assert g.stack[i] == f.stack[i] && OnStack(f.stack, f.stack[i].block);
    }
  }

  lemma LastOnStack(f: Forest)
    requires ChainUp(f) && f.stack != []
    ensures var k := |f.stack| - 1;
            forall q: nat :: OnStack(f.stack[..k], q) <==> OnStack(f.stack, q) && q != f.stack[k].block
  {
    var k := |f.stack| - 1;
    assert f.stack == f.stack[..k] + [f.stack[k]];
    PushedOnStack(f.stack[..k], f.stack[k]);
    forall i | 0 <= i < k ensures f.stack[i].block != f.stack[k].block {
      StackAscends(f, i, k);
    }
  }

  /** An END that closes its block. */
  lemma ClosingEndKeepsNests(tokens: seq<Token>, tok: Token, base: Forest)
    requires Nests(tokens) && InSubflow(tokens) && !Pending(tokens) && tok.kind.TokEnd? && ChainUp(base)
    requires base == Parse(tokens).(stack := base.stack) && base.stack <= Parse(tokens).stack && base.stack != []
    requires var ended := AddBlock(base, EndType, tok.line, 0);
             Parse(tokens + [tok]) == ended.(stack := ended.stack[..|ended.stack| - 1])
    ensures Nests(tokens + [tok]) && Makes(tokens, tok)
  {
    hide AddBlock, ChainUp, Parse, Open, InSubflow, Pending, OpenedAt, Above;
    var f, g := Parse(tokens), Parse(tokens + [tok]);
    ChainReady(base);
    AddedBlock(base, EndType, tok.line, 0);
    AddKeepsChain(base, EndType, tok.line, 0);
    AddStep(tokens, tok, base, EndType, tok.line, 0);
    var ended := AddBlock(base, EndType, tok.line, 0);
    PopKeepsChain(ended, ended.stack[..|ended.stack| - 1], ended.skipNextEnd);
    assert ended.(stack := g.stack, skipNextEnd := ended.skipNextEnd) == g;
    LastOnStack(base);
    Snoc(tokens, tok);
    OpenAreMade(tokens);
    PrefixOnStack(base.stack, f.stack);
    forall i | 0 <= i < |g.stack| ensures g.stack[i].indent == OpenedAt(tokens + [tok], g.stack[i].block) {
      assert g.stack[i] == f.stack[i] && OnStack(f.stack, f.stack[i].block);
    }
  }

  /** An END that finds nothing to close, and a subflow boundary. */
  lemma ClearingKeepsNests(tokens: seq<Token>, tok: Token)
    requires tok.kind.TokSubflowStart? || tok.kind.TokSubflowEnd? || (tok.kind.TokEnd? && InSubflow(tokens))
    requires Nests(tokens) && Parse(tokens + [tok]).stack == [] && Blocks(tokens + [tok]) == Blocks(tokens)
    requires var g := Parse(tokens + [tok]);
             && (g.open ==> g.built != [])
             && g.open == (tok.kind.TokSubflowStart? || (!tok.kind.TokSubflowEnd? && InSubflow(tokens)))
             && g.skipNextEnd == (!tok.kind.TokEnd? && Pending(tokens))
    ensures Nests(tokens + [tok]) && !Makes(tokens, tok)
  {
    hide Parse, Open, InSubflow, Pending, OpenedAt, Above;
    Snoc(tokens, tok);
    assert forall q: nat :: !OnStack([], q);
  }

  // ----- Popping -----

  lemma {:induction false} PopStackMeaning(stack: seq<Entry>, indent: nat)
    ensures forall i :: |PopStack(stack, indent)| <= i < |stack| ==> stack[i].indent >= indent
  {
    if stack != [] && stack[|stack| - 1].indent >= indent {
      PopStackMeaning(stack[..|stack| - 1], indent);
    }
  }

  lemma {:induction false} PopToMeaning(nodes: seq<Node>, stack: seq<Entry>, types: set<BlockType>)
    requires StackIn(nodes, stack)
    ensures forall i :: |PopTo(nodes, stack, types)| <= i < |stack| ==> nodes[stack[i].block].btype !in types
  {
    if stack != [] && nodes[stack[|stack| - 1].block].btype !in types {
      PopToMeaning(nodes, stack[..|stack| - 1], types);
    }
  }

  ghost function Shallower(tokens: seq<Token>, indent: nat): nat -> bool {
    (q: nat) => OpenedAt(tokens, q) < indent
  }

  ghost function OfType(tokens: seq<Token>, types: set<BlockType>): nat -> bool {
    (q: nat) => TypeOf(tokens, q) in types
  }

  /** What is left of the stack ends in the innermost good block. */
  lemma LeftIsInnermost(tokens: seq<Token>, left: seq<Entry>, good: nat -> bool)
    requires Nests(tokens) && left <= Parse(tokens).stack
    requires left != [] ==> good(left[|left| - 1].block)
    requires forall i :: |left| <= i < |Parse(tokens).stack| ==> !good(Parse(tokens).stack[i].block)
    ensures IsInnermost(tokens, Top(left), good)
  {
    hide Parse, Open, InSubflow, Pending, OpenedAt;
    var f := Parse(tokens);
    forall q: nat | Open(tokens, q) && good(q) ensures left != [] && q <= left[|left| - 1].block {
      assert OnStack(f.stack, q);
      var i :| 0 <= i < |f.stack| && f.stack[i].block == q;
      if i < |left| - 1 {
        StackAscends(f, i, |left| - 1);
      }
    }
    if left != [] {
      assert OnStack(f.stack, f.stack[|left| - 1].block);
    }
  }

  /** There are as many open blocks as stack entries. */
  lemma OpenCount(tokens: seq<Token>)
    requires Nests(tokens)
    ensures |OpenBlocks(tokens)| == |Parse(tokens).stack|
  {
    hide Parse, Open, InSubflow, Pending, OpenedAt;
    OpenAreMade(tokens);
    var f := Parse(tokens);
    StackSet(f, |f.stack|);
    var onStack := set i | 0 <= i < |f.stack| :: f.stack[i].block;
    assert OpenBlocks(tokens) == onStack by {
      forall q ensures q in OpenBlocks(tokens) <==> q in onStack {
        if q in onStack {
          assert OnStack(f.stack, q);
        }
      }
    }
  }

  lemma {:induction false} StackSet(f: Forest, n: nat)
    requires ChainUp(f) && n <= |f.stack|
    ensures |set i | 0 <= i < n :: f.stack[i].block| == n
  {
    if n > 0 {
      StackSet(f, n - 1);
      var before := set i | 0 <= i < n - 1 :: f.stack[i].block;
      forall i | 0 <= i < n - 1 ensures f.stack[i].block != f.stack[n - 1].block {
        StackAscends(f, i, n - 1);
      }
      assert (set i | 0 <= i < n :: f.stack[i].block) == before + {f.stack[n - 1].block};
    }
  }

  // ----- What each token makes, and where -----

  /** The type of block an ordinary token makes. */
  function OrdinaryType(tok: Token): Option<BlockType> {
    match tok.kind
    case TokBlockStart => Some(BlockBlock)
    case TokSwitchStart => Some(SwitchType)
    case TokLoopStart => Some(LoopType)
    case TokConditionStart => Some(ConditionType)
    case TokComment => Some(CommentType)
    case TokAction => Some(tok.classified)
    case _ => None
  }

  /** The type of block a branch token makes, and of the block it belongs to. */
  function BranchTypes(tok: Token): (BlockType, BlockType)
    requires IsBranch(tok)
  {
    if tok.kind.TokCase? then (CaseType, SwitchType)
    else if tok.kind.TokDefault? then (DefaultType, SwitchType)
    else (ElseType, ConditionType)
  }

  /** A block of type `t` under the last open block of smaller indentation, if there is room for it. */
  ghost predicate MadeByIndent(tokens: seq<Token>, tok: Token, t: BlockType) {
    && (Makes(tokens, tok) <==> InSubflow(tokens) && |OpenBlocks(tokens)| < 200)
    && (Makes(tokens, tok) ==>
          var b := NewBlock(tokens, tok);
          && b.btype == t && b.line == tok.line && b.endLine == (if tok.kind.TokComment? then 0 else tok.endLine)
          && IsInnermost(tokens, b.parent, Shallower(tokens, tok.indent)))
  }

  /** A block of type `t` under the innermost open block of one of `types`, if there is one. */
  ghost predicate MadeUnder(tokens: seq<Token>, tok: Token, t: BlockType, types: set<BlockType>) {
    && (Makes(tokens, tok) <==> InSubflow(tokens) && exists q :: Open(tokens, q) && TypeOf(tokens, q) in types)
    && (Makes(tokens, tok) ==>
          var b := NewBlock(tokens, tok);
          && b.btype == t && b.line == tok.line && b.endLine == (if tok.kind.TokEnd? then 0 else tok.endLine)
          && b.parent.Some? && IsInnermost(tokens, b.parent, OfType(tokens, types)))
  }

  /** The innermost open block is `p`. */
  ghost predicate InnermostOpen(tokens: seq<Token>, p: nat) {
    Open(tokens, p) && forall q: nat :: Open(tokens, q) ==> q <= p
  }

  /** A block made under what its indentation leaves of the stack. */
  lemma IndentMade(tokens: seq<Token>, tok: Token, t: BlockType, endLine: nat, left: seq<Entry>)
    requires Nests(tokens) && !IsBranch(tok) && InSubflow(tokens) && |OpenBlocks(tokens)| < MAX_NESTING_DEPTH
    requires !tok.kind.TokSubflowStart? && !tok.kind.TokSubflowEnd? && !tok.kind.TokEnd?
    requires tok.kind.TokErrorHandlerStart? ==> t != ActionType
    requires endLine == if tok.kind.TokComment? then 0 else tok.endLine
    requires left <= Parse(tokens).stack && IsInnermost(tokens, Top(left), Shallower(tokens, tok.indent))
    requires var base := Parse(tokens).(stack := left);
             Ready(base) && Parse(tokens + [tok]) == PushNew(AddBlock(base, t, tok.line, endLine), tok.indent)
    ensures Nests(tokens + [tok]) && MadeByIndent(tokens, tok, t)
  {
    var f := Parse(tokens);
    var base := f.(stack := left);
    hide Parse, Open, InSubflow, Pending, OpenedAt, AddBlock, ChainUp, Above, OpenBlocks, IsInnermost, Shallower;
    PopKeepsChain(f, left, f.skipNextEnd);
    assert f.(stack := left, skipNextEnd := f.skipNextEnd) == base;
    OpeningKeepsNests(tokens, tok, base, t, tok.line, endLine, tok.indent);
    AddStep(tokens, tok, base, t, tok.line, endLine);
  }

  /** Popping by indentation leaves the last open block of smaller indentation on top. */
  lemma PopByIndent(tokens: seq<Token>, indent: nat)
    requires Nests(tokens)
    ensures var left := PopStack(Parse(tokens).stack, indent);
            left <= Parse(tokens).stack && IsInnermost(tokens, Top(left), Shallower(tokens, indent))
  {
    var f := Parse(tokens);
    PopStackMeaning(f.stack, indent);
    forall i | 0 <= i < |f.stack|
      ensures Shallower(tokens, indent)(f.stack[i].block) <==> f.stack[i].indent < indent
    {
    }
    hide Parse, Open, InSubflow, Pending, OpenedAt, ChainUp, Shallower, PopStack;
    LeftIsInnermost(tokens, PopStack(f.stack, indent), Shallower(tokens, indent));
  }

  lemma GuardedUnfolds(f: Forest, t: BlockType, indent: nat, line: nat, endLine: nat)
    requires Ready(f)
    ensures var base := f.(stack := PopStack(f.stack, indent));
            && Ready(base)
            && GuardedInsert(f, t, indent, line, endLine) ==
               if f.open && |f.stack| < MAX_NESTING_DEPTH then PushNew(AddBlock(base, t, line, endLine), indent) else f
  {
    hide PopStack, AddBlock, PushNew;
  }

  lemma IndentStep(tokens: seq<Token>, tok: Token, t: BlockType, endLine: nat)
    requires Nests(tokens) && !IsBranch(tok)
    requires !tok.kind.TokSubflowStart? && !tok.kind.TokSubflowEnd? && !tok.kind.TokEnd?
    requires tok.kind.TokErrorHandlerStart? ==> t != ActionType
    requires endLine == if tok.kind.TokComment? then 0 else tok.endLine
    requires Parse(tokens + [tok]) == GuardedInsert(Parse(tokens), t, tok.indent, tok.line, endLine)
    ensures Nests(tokens + [tok]) && MadeByIndent(tokens, tok, t)
  {
    var f := Parse(tokens);
    OpenCount(tokens);
    assert Ready(f) && f.open == InSubflow(tokens);
    GuardedUnfolds(f, t, tok.indent, tok.line, endLine);
    PopByIndent(tokens, tok.indent);
    hide Parse, Open, InSubflow, Pending, OpenedAt, AddBlock, Nests, OpenBlocks, IsInnermost, Shallower, GuardedInsert;
    hide PushNew, PopStack;
    if f.open && |f.stack| < MAX_NESTING_DEPTH {
      IndentMade(tokens, tok, t, endLine, PopStack(f.stack, tok.indent));
    } else {
      NothingHappens(tokens, tok);
    }
  }

  lemma OfTypeIsStackType(tokens: seq<Token>, types: set<BlockType>)
    requires Nests(tokens)
    ensures var f := Parse(tokens);
            forall i :: 0 <= i < |f.stack| ==>
              && f.stack[i].block < |f.nodes|
              && OfType(tokens, types)(f.stack[i].block) == (f.nodes[f.stack[i].block].btype in types)
  {
    var f := Parse(tokens);
    forall i | 0 <= i < |f.stack|
      ensures f.stack[i].block < |f.nodes|
      ensures OfType(tokens, types)(f.stack[i].block) == (f.nodes[f.stack[i].block].btype in types)
    {
      assert Linked(f.nodes, f.stack, i);
    }
  }

  /** Popping the stack to one of `types` leaves the innermost open block of them on top. */
  lemma PopToInnermost(tokens: seq<Token>, types: set<BlockType>)
    requires Nests(tokens)
    ensures var left := PopTo(Parse(tokens).nodes, Parse(tokens).stack, types);
            && left <= Parse(tokens).stack && IsInnermost(tokens, Top(left), OfType(tokens, types))
            && (left != [] <==> exists q: nat :: Open(tokens, q) && TypeOf(tokens, q) in types)
  {
    var f := Parse(tokens);
    var left := PopTo(f.nodes, f.stack, types);
    PopToMeaning(f.nodes, f.stack, types);
    OfTypeIsStackType(tokens, types);
    hide Parse, Open, InSubflow, Pending, OpenedAt, ChainUp, TypeOf;
    LeftIsInnermost(tokens, left, OfType(tokens, types));
  }

  /** A branch made under its construct. */
  lemma BranchMade(tokens: seq<Token>, tok: Token, left: seq<Entry>)
    requires Nests(tokens) && IsBranch(tok) && left <= Parse(tokens).stack && left != [] && InSubflow(tokens)
    requires IsInnermost(tokens, Top(left), OfType(tokens, {BranchTypes(tok).1}))
    requires var base := Parse(tokens).(stack := left);
             Ready(base) && Parse(tokens + [tok]) ==
             PushNew(AddBlock(base, BranchTypes(tok).0, tok.line, tok.endLine), tok.indent + 1)
    ensures Nests(tokens + [tok])
    ensures MadeUnder(tokens, tok, BranchTypes(tok).0, {BranchTypes(tok).1})
  {
    var f, t := Parse(tokens), BranchTypes(tok).0;
    var base := f.(stack := left);
    hide Parse, Open, InSubflow, Pending, OpenedAt, AddBlock, ChainUp, Above, BranchTypes;
    PopKeepsChain(f, left, f.skipNextEnd);
    assert f.(stack := left, skipNextEnd := f.skipNextEnd) == base;
    OpeningKeepsNests(tokens, tok, base, t, tok.line, tok.endLine, tok.indent + 1);
    AddStep(tokens, tok, base, t, tok.line, tok.endLine);
    assert Open(tokens, Top(left).value) && TypeOf(tokens, Top(left).value) in {BranchTypes(tok).1};
  }

  lemma BranchParse(tokens: seq<Token>, tok: Token)
    requires IsBranch(tok)
    ensures Parse(tokens + [tok]) == Branch(Parse(tokens), BranchTypes(tok).1, BranchTypes(tok).0, tok)
  {
    ParseSnoc(tokens, tok);
    hide Parse, Branch;
  }

  /** CASE, DEFAULT and ELSE. */
  lemma BranchStep(tokens: seq<Token>, tok: Token)
    requires Nests(tokens) && IsBranch(tok)
    ensures Nests(tokens + [tok])
    ensures MadeUnder(tokens, tok, BranchTypes(tok).0, {BranchTypes(tok).1})
  {
    var f, t, owner := Parse(tokens), BranchTypes(tok).0, BranchTypes(tok).1;
    assert Ready(f) && f.open == InSubflow(tokens);
    BranchParse(tokens, tok);
    BranchUnfolds(f, owner, t, tok);
    PopToInnermost(tokens, {owner});
    StackHasOpen(tokens, owner);
    hide Parse, Open, InSubflow, Pending, OpenedAt, AddBlock, PopTo, IsInnermost, Branch, Nests;
    hide StackHas, TypeOf, PushNew;
    if f.open && StackHas(f.nodes, f.stack, owner) {
      BranchMade(tokens, tok, PopTo(f.nodes, f.stack, {owner}));
    } else {
      NothingHappens(tokens, tok);
    }
  }

  lemma StackHasOpen(tokens: seq<Token>, t: BlockType)
    requires Nests(tokens)
    ensures var f := Parse(tokens);
            StackHas(f.nodes, f.stack, t) <==> exists q: nat :: Open(tokens, q) && TypeOf(tokens, q) in {t}
  {
    var f := Parse(tokens);
    OfTypeIsStackType(tokens, {t});
    hide Parse, Open, InSubflow, Pending, OpenedAt, ChainUp, TypeOf;
    if StackHas(f.nodes, f.stack, t) {
      var i :| 0 <= i < |f.stack| && f.nodes[f.stack[i].block].btype == t;
      assert OnStack(f.stack, f.stack[i].block) && OfType(tokens, {t})(f.stack[i].block);
    }
    if q: nat :| Open(tokens, q) && TypeOf(tokens, q) in {t} {
      assert OnStack(f.stack, q) && OfType(tokens, {t})(q);
    }
  }

  /** What an END can close: a pending handler section takes the next END. */
  ghost function Targets(tokens: seq<Token>): set<BlockType> {
    if Pending(tokens) then {ErrorHandlerType}
    else {LoopType, ConditionType, SwitchType, BlockBlock, ErrorHandlerType}
  }

  /** An END made under the block it closes. */
  lemma EndMade(tokens: seq<Token>, tok: Token, left: seq<Entry>)
    requires Nests(tokens) && tok.kind.TokEnd? && InSubflow(tokens) && left <= Parse(tokens).stack && left != []
    requires IsInnermost(tokens, Top(left), OfType(tokens, Targets(tokens)))
    requires var base := Parse(tokens).(stack := left, skipNextEnd := false);
             Ready(base) &&
             var ended := AddBlock(base, EndType, tok.line, 0);
             Parse(tokens + [tok]) ==
             if Pending(tokens) then ended else ended.(stack := ended.stack[..|ended.stack| - 1])
    ensures Nests(tokens + [tok]) && MadeUnder(tokens, tok, EndType, Targets(tokens))
  {
    var f := Parse(tokens);
    var base := f.(stack := left, skipNextEnd := false);
    assert f.open && f.skipNextEnd == Pending(tokens) && ChainUp(f);
    hide Parse, Open, InSubflow, Pending, OpenedAt, AddBlock, ChainUp, Above, Targets, Nests;
    PopKeepsChain(f, left, false);
    if Pending(tokens) {
      SectionEndKeepsNests(tokens, tok, base);
    } else {
      assert base == f.(stack := left);
      ClosingEndKeepsNests(tokens, tok, base);
    }
    AddStep(tokens, tok, base, EndType, tok.line, 0);
    assert Open(tokens, Top(left).value) && TypeOf(tokens, Top(left).value) in Targets(tokens);
  }

  lemma CloseUnfolds(f: Forest, tok: Token)
    requires Ready(f)
    ensures var left := PopTo(f.nodes, f.stack, if f.skipNextEnd then {ErrorHandlerType} else CLOSABLE);
            var base := f.(stack := left, skipNextEnd := false);
            Ready(base) && CloseBlock(f, tok) ==
            if !f.open then f
            else if left == [] then base
            else
              var ended := AddBlock(base, EndType, tok.line, 0);
              if f.skipNextEnd then ended else ended.(stack := ended.stack[..|ended.stack| - 1])
  {
    hide PopTo, AddBlock;
    assert !f.skipNextEnd ==>
             f.(stack := PopTo(f.nodes, f.stack, CLOSABLE), skipNextEnd := false) ==
             f.(stack := PopTo(f.nodes, f.stack, CLOSABLE));
  }

  /** An END that finds nothing to close. */
  lemma EndStray(tokens: seq<Token>, tok: Token)
    requires Nests(tokens) && tok.kind.TokEnd? && InSubflow(tokens)
    requires forall q: nat :: Open(tokens, q) ==> TypeOf(tokens, q) !in Targets(tokens)
    requires Parse(tokens + [tok]) == Parse(tokens).(stack := [], skipNextEnd := false)
    ensures Nests(tokens + [tok]) && MadeUnder(tokens, tok, EndType, Targets(tokens))
  {
    var f := Parse(tokens);
    assert f.open && (f.open ==> f.built != []);
    hide Parse, Open, InSubflow, Pending, OpenedAt, Nests;
    ClearingKeepsNests(tokens, tok);
  }

  lemma EndParse(tokens: seq<Token>, tok: Token)
    requires tok.kind.TokEnd?
    ensures Parse(tokens + [tok]) == CloseBlock(Parse(tokens), tok)
  {
    ParseSnoc(tokens, tok);
    hide Parse, CloseBlock;
  }

  lemma EndOutside(tokens: seq<Token>, tok: Token)
    requires Nests(tokens) && tok.kind.TokEnd? && !InSubflow(tokens) && Parse(tokens + [tok]) == Parse(tokens)
    ensures Nests(tokens + [tok]) && MadeUnder(tokens, tok, EndType, Targets(tokens))
  {
    hide Parse, Open, InSubflow, Pending, OpenedAt, Nests;
    NothingHappens(tokens, tok);
  }

  lemma EndStep(tokens: seq<Token>, tok: Token)
    requires Nests(tokens) && tok.kind.TokEnd?
    ensures Nests(tokens + [tok]) && MadeUnder(tokens, tok, EndType, Targets(tokens))
  {
    var f, types := Parse(tokens), Targets(tokens);
    assert Ready(f) && f.open == InSubflow(tokens) && f.skipNextEnd == Pending(tokens);
    hide *;
    hide Parse, Open, InSubflow, Pending, OpenedAt, AddBlock, PopTo, IsInnermost, Nests, CloseBlock, MadeUnder, Step;
    hide Ready, PopStack, PushNew;
    EndParse(tokens, tok);
    CloseUnfolds(f, tok);
    PopToInnermost(tokens, types);
    var left := PopTo(f.nodes, f.stack, types);
    assert types == if f.skipNextEnd then {ErrorHandlerType} else CLOSABLE by { TargetsAre(tokens); }
    if !f.open {
      EndOutside(tokens, tok);
    } else if left == [] {
      EndStray(tokens, tok);
    } else {
      EndMade(tokens, tok, left);
    }
  }

  lemma TargetsAre(tokens: seq<Token>)
    ensures Targets(tokens) == if Pending(tokens) then {ErrorHandlerType} else CLOSABLE
  {
  }

  /** ON BLOCK ERROR converts the BLOCK that is the innermost open block; elsewhere it opens a handler. */
  ghost predicate HandlerRule(tokens: seq<Token>, tok: Token) {
    if InSubflow(tokens) && exists p :: InnermostOpen(tokens, p) && TypeOf(tokens, p) == BlockBlock then
      && Converts(tokens, tok)
      && var b := NewBlock(tokens, tok);
      && b.line == tok.line && b.endLine == tok.endLine && b.parent.Some? && InnermostOpen(tokens, b.parent.value)
      && TypeOf(tokens, b.parent.value) == BlockBlock && TypeOf(tokens + [tok], b.parent.value) == ErrorHandlerType
    else MadeByIndent(tokens, tok, ErrorHandlerType)
  }

  lemma TopIsInnermost(tokens: seq<Token>)
    requires Nests(tokens)
    ensures forall p: nat :: InnermostOpen(tokens, p) <==> Top(Parse(tokens).stack) == Some(p)
  {
    hide *;
    hide Parse, Open, InSubflow, Pending, OpenedAt, ChainUp, Nests, PopStack;
    var f, any := Parse(tokens), (q: nat) => true;
    assert f.stack <= f.stack && forall q: nat :: any(q);
    LeftIsInnermost(tokens, f.stack, any);
    InnermostOfAny(tokens, Top(f.stack), any);
  }

  lemma InnermostOfAny(tokens: seq<Token>, top: Option<nat>, any: nat -> bool)
    requires IsInnermost(tokens, top, any) && forall q: nat :: any(q)
    ensures forall p: nat :: InnermostOpen(tokens, p) <==> top == Some(p)
  {
    hide Open;
    forall p: nat ensures InnermostOpen(tokens, p) <==> top == Some(p) {
      assert any(p);
    }
  }

  lemma ConvertStep(tokens: seq<Token>, tok: Token, p: nat)
    requires Nests(tokens) && tok.kind.TokErrorHandlerStart? && InSubflow(tokens)
    requires Top(Parse(tokens).stack) == Some(p) && p < |Blocks(tokens)| && Blocks(tokens)[p].btype == BlockBlock
    ensures Nests(tokens + [tok]) && Converts(tokens, tok)
    ensures var b := NewBlock(tokens, tok); b.line == tok.line && b.endLine == tok.endLine && b.parent == Some(p)
    ensures TypeOf(tokens + [tok], p) == ErrorHandlerType
  {
    var f := Parse(tokens);
    ParseSnoc(tokens, tok);
    var base := f.(nodes := f.nodes[p := f.nodes[p].(btype := ErrorHandlerType)], skipNextEnd := true);
    hide Parse, Open, InSubflow, Pending, OpenedAt, AddBlock, ChainUp, Above;
    RetypeKeepsChain(f, p, ErrorHandlerType);
    ConvertingKeepsNests(tokens, tok, base, p);
    AddStep(tokens, tok, base, ActionType, tok.line, tok.endLine);
  }

  lemma HandlerStep(tokens: seq<Token>, tok: Token)
    requires Nests(tokens) && tok.kind.TokErrorHandlerStart?
    ensures Nests(tokens + [tok]) && HandlerRule(tokens, tok)
  {
    var f := Parse(tokens);
    ParseSnoc(tokens, tok);
    TopIsInnermost(tokens);
    if f.open && f.stack != [] && f.nodes[f.stack[|f.stack| - 1].block].btype == BlockBlock {
      hide Parse, Open, InSubflow, Pending, OpenedAt, ChainUp, Converts;
      assert InnermostOpen(tokens, f.stack[|f.stack| - 1].block);
      ConvertStep(tokens, tok, f.stack[|f.stack| - 1].block);
    } else {
      hide Parse, Open, InSubflow, Pending, OpenedAt, ChainUp, GuardedInsert;
      IndentStep(tokens, tok, ErrorHandlerType, tok.endLine);
    }
  }

  /** What a token makes: LOOP, IF, SWITCH, BLOCK, comments and actions go by indentation, branches and ENDs to the
      construct they belong to. */
  ghost predicate TokenRule(tokens: seq<Token>, tok: Token) {
    if OrdinaryType(tok).Some? then MadeByIndent(tokens, tok, OrdinaryType(tok).value)
    else if IsBranch(tok) then MadeUnder(tokens, tok, BranchTypes(tok).0, {BranchTypes(tok).1})
    else if tok.kind.TokEnd? then MadeUnder(tokens, tok, EndType, Targets(tokens))
    else if tok.kind.TokErrorHandlerStart? then HandlerRule(tokens, tok)
    else !Makes(tokens, tok)
  }

  lemma BoundaryStep(tokens: seq<Token>, tok: Token)
    requires Nests(tokens) && (tok.kind.TokSubflowStart? || tok.kind.TokSubflowEnd?)
    ensures Nests(tokens + [tok]) && !Makes(tokens, tok)
  {
    ParseSnoc(tokens, tok);
    hide Parse, Open, InSubflow, Pending, OpenedAt, ChainUp;
    ClearingKeepsNests(tokens, tok);
  }

  lemma StepNests(tokens: seq<Token>, tok: Token)
    requires Nests(tokens)
    ensures Nests(tokens + [tok]) && TokenRule(tokens, tok)
  {
    ParseSnoc(tokens, tok);
    hide Parse, Open, InSubflow, Pending, OpenedAt, Nests, MadeByIndent, MadeUnder, HandlerRule, Makes;
    if OrdinaryType(tok).Some? {
      IndentStep(tokens, tok, OrdinaryType(tok).value, if tok.kind.TokComment? then 0 else tok.endLine);
    } else if IsBranch(tok) {
      BranchStep(tokens, tok);
    } else if tok.kind.TokEnd? {
      EndStep(tokens, tok);
    } else if tok.kind.TokErrorHandlerStart? {
      HandlerStep(tokens, tok);
    } else if tok.kind.TokSubflowStart? || tok.kind.TokSubflowEnd? {
      BoundaryStep(tokens, tok);
    } else {
      NothingHappens(tokens, tok);
    }
  }

  lemma {:induction false} ParseNests(tokens: seq<Token>)
    ensures Nests(tokens)
  {
    hide Nests, TokenRule;
    if tokens != [] {
      var before, tok := tokens[..|tokens| - 1], tokens[|tokens| - 1];
      ParseNests(before);
      StepNests(before, tok);
      assert before + [tok] == tokens;
    } else {
      NothingNests();
    }
  }

  lemma NothingNests()
    ensures Nests([])
  {
    assert forall q: nat :: !OnStack([], q);
  }

  /** After any tokens, the next one makes the block its kind says, under the open block its kind says. */
  lemma Nesting(tokens: seq<Token>, tok: Token)
    ensures TokenRule(tokens, tok)
  {
    ParseNests(tokens);
    hide Nests, TokenRule;
    StepNests(tokens, tok);
  }

  // ----- What a token leaves of the earlier blocks -----

  /** Block `i` before and after `tok`: a child more if the new block is under it, a handler if it was converted, and
      otherwise as it was. */
  ghost predicate OldBlock(was: seq<Node>, now: seq<Node>, tok: Token, i: nat) {
    i < |was| <= |now| <= |was| + 1 &&
    var under := |was| < |now| && now[|was|].parent == Some(i);
    var converted := under && tok.kind.TokErrorHandlerStart? && now[|was|].btype == ActionType;
    && now[i].parent == was[i].parent && now[i].line == was[i].line && now[i].endLine == was[i].endLine
    && now[i].btype == (if converted then ErrorHandlerType else was[i].btype)
    && now[i].children == (if under then was[i].children + [|was|] else was[i].children)
  }

  ghost predicate OldKept(was: seq<Node>, now: seq<Node>, tok: Token) {
    |was| <= |now| <= |was| + 1 && forall i :: 0 <= i < |was| ==> OldBlock(was, now, tok, i)
  }

  lemma AddKeepsOld(f: Forest, base: Forest, t: BlockType, line: nat, endLine: nat, tok: Token)
    requires Ready(base) && ParentsOlder(f.nodes) && base.open && base.nodes == f.nodes
    requires tok.kind.TokErrorHandlerStart? ==> t != ActionType
    ensures OldKept(f.nodes, AddBlock(base, t, line, endLine).nodes, tok)
  {
    AddedBlock(base, t, line, endLine);
    hide AddBlock;
  }

  lemma InsertKeepsOld(f: Forest, t: BlockType, indent: nat, line: nat, endLine: nat, tok: Token)
    requires Ready(f) && ParentsOlder(f.nodes) && (tok.kind.TokErrorHandlerStart? ==> t != ActionType)
    ensures OldKept(f.nodes, GuardedInsert(f, t, indent, line, endLine).nodes, tok)
  {
    if f.open && |f.stack| < MAX_NESTING_DEPTH {
      AddKeepsOld(f, f.(stack := PopStack(f.stack, indent)), t, line, endLine, tok);
    }
  }

  lemma BranchKeepsOld(f: Forest, owner: BlockType, t: BlockType, tok: Token)
    requires Ready(f) && ParentsOlder(f.nodes) && !tok.kind.TokErrorHandlerStart?
    ensures OldKept(f.nodes, Branch(f, owner, t, tok).nodes, tok)
  {
    if f.open && StackHas(f.nodes, f.stack, owner) {
      AddKeepsOld(f, f.(stack := PopTo(f.nodes, f.stack, {owner})), t, tok.line, tok.endLine, tok);
    }
  }

  lemma CloseKeepsOld(f: Forest, tok: Token)
    requires Ready(f) && ParentsOlder(f.nodes) && !tok.kind.TokErrorHandlerStart?
    ensures OldKept(f.nodes, CloseBlock(f, tok).nodes, tok)
  {
    if f.open {
      var back := f.(stack := PopTo(f.nodes, f.stack, if f.skipNextEnd then {ErrorHandlerType} else CLOSABLE),
          skipNextEnd := false);
      if back.stack != [] {
        AddKeepsOld(f, back, EndType, tok.line, 0, tok);
      }
    }
  }

  lemma HandlerKeepsOld(f: Forest, tok: Token)
    requires Ready(f) && ParentsOlder(f.nodes) && tok.kind.TokErrorHandlerStart?
    ensures OldKept(f.nodes, StartErrorHandler(f, tok).nodes, tok)
  {
    if f.open && f.stack != [] && f.nodes[f.stack[|f.stack| - 1].block].btype == BlockBlock {
      var p := f.stack[|f.stack| - 1].block;
      var converted := f.(nodes := f.nodes[p := f.nodes[p].(btype := ErrorHandlerType)], skipNextEnd := true);
      AddedBlock(converted, ActionType, tok.line, tok.endLine);
    } else {
      InsertKeepsOld(f, ErrorHandlerType, tok.indent, tok.line, tok.endLine, tok);
    }
  }

  lemma StepKeepsOld(f: Forest, tok: Token)
    requires Ready(f) && ParentsOlder(f.nodes)
    ensures OldKept(f.nodes, Step(f, tok).nodes, tok)
  {
    hide GuardedInsert, Branch, StartErrorHandler, CloseBlock;
    match tok.kind {
      case TokErrorHandlerStart => HandlerKeepsOld(f, tok);
      case TokBlockStart => InsertKeepsOld(f, BlockBlock, tok.indent, tok.line, tok.endLine, tok);
      case TokSwitchStart => InsertKeepsOld(f, SwitchType, tok.indent, tok.line, tok.endLine, tok);
      case TokLoopStart => InsertKeepsOld(f, LoopType, tok.indent, tok.line, tok.endLine, tok);
      case TokConditionStart => InsertKeepsOld(f, ConditionType, tok.indent, tok.line, tok.endLine, tok);
      case TokCase => BranchKeepsOld(f, SwitchType, CaseType, tok);
      case TokDefault => BranchKeepsOld(f, SwitchType, DefaultType, tok);
      case TokConditionElse => BranchKeepsOld(f, ConditionType, ElseType, tok);
      case TokEnd => CloseKeepsOld(f, tok);
      case TokComment => InsertKeepsOld(f, CommentType, tok.indent, tok.line, 0, tok);
      case TokAction => InsertKeepsOld(f, tok.classified, tok.indent, tok.line, tok.endLine, tok);
      case _ =>
    }
  }

  /** Every earlier block keeps its parent, its lines and, but for a converted BLOCK, its type; only the parent of the
      new block gains a child, its last. */
  lemma OldBlocks(tokens: seq<Token>, tok: Token)
    ensures OldKept(Blocks(tokens), Blocks(tokens + [tok]), tok)
  {
    ParseNests(tokens);
    ParseSnoc(tokens, tok);
    hide Step, OldKept;
    StepKeepsOld(Parse(tokens), tok);
  }
}
