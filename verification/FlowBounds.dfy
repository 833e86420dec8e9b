/**
  The nesting bound of the parser (core/parser/parser.go): how deep the stack and the forest can get, and which
  blocks can be at the last level.
 */
module FlowBounds {
  import opened Options
  import opened FlowParser
  import opened FlowForest

  // ----- Nesting -----

  predicate ParentsOlder(nodes: seq<Node>) {
    forall n :: 0 <= n < |nodes| && nodes[n].parent.Some? ==> nodes[n].parent.value < n
  }

  /** How many blocks lead from a root to `n`, both included. */
  function Depth(nodes: seq<Node>, n: nat): nat
    requires ParentsOlder(nodes) && n < |nodes|
    decreases n
  {
    if nodes[n].parent.None? then 1 else 1 + Depth(nodes, nodes[n].parent.value)
  }

  lemma {:induction false} DepthFrame(nodes: seq<Node>, other: seq<Node>, n: nat)
    requires ParentsOlder(nodes) && ParentsOlder(other) && n < |nodes| <= |other|
    requires forall i :: 0 <= i <= n ==> other[i].parent == nodes[i].parent
    ensures Depth(other, n) == Depth(nodes, n)
    decreases n
  {
    if nodes[n].parent.Some? { DepthFrame(nodes, other, nodes[n].parent.value); }
  }

  const BRANCH_TYPES: set<BlockType> := {CaseType, DefaultType, ElseType}

  /** What can be one level below the limit: a branch of a SWITCH or IF, an END, and the ON BLOCK ERROR line of a
      BLOCK converted into a handler. */
  predicate AtLastLevel(nodes: seq<Node>, n: nat)
    requires n < |nodes|
  {
    var b := nodes[n];
    || b.btype in BRANCH_TYPES || b.btype == EndType
    || (b.btype == ActionType && b.parent.Some? && b.parent.value < |nodes| &&
        nodes[b.parent.value].btype == ErrorHandlerType)
  }

  /** Depths stay within the limit plus one; only a branch can be open at that last level. */
  predicate Shallow(f: Forest) {
    && Ready(f) && ParentsOlder(f.nodes) && |f.stack| <= MAX_NESTING_DEPTH + 1
    && (forall i :: 0 <= i < |f.stack| ==> Depth(f.nodes, f.stack[i].block) == i + 1)
    && (|f.stack| == MAX_NESTING_DEPTH + 1 ==> f.nodes[f.stack[MAX_NESTING_DEPTH].block].btype in BRANCH_TYPES)
    && (forall n :: 0 <= n < |f.nodes| ==> Depth(f.nodes, n) <= MAX_NESTING_DEPTH + 1)
    && (forall n :: 0 <= n < |f.nodes| && Depth(f.nodes, n) == MAX_NESTING_DEPTH + 1 ==> AtLastLevel(f.nodes, n))
  }

  /** Whether a block of type `t` may be added at the last level. */
  predicate MayBeLast(f: Forest, t: BlockType)
    requires Ready(f)
  {
    || t in BRANCH_TYPES || t == EndType
    || (t == ActionType && f.stack != [] && f.nodes[f.stack[|f.stack| - 1].block].btype == ErrorHandlerType)
  }

  lemma PopKeepsShallow(f: Forest, prefix: seq<Entry>, skip: bool)
    requires Shallow(f) && prefix <= f.stack
    ensures Shallow(f.(stack := prefix, skipNextEnd := skip))
  {
    assert |prefix| == MAX_NESTING_DEPTH + 1 ==> prefix == f.stack;
  }

  lemma AddBlockKeepsShallow(f: Forest, t: BlockType, line: nat, endLine: nat)
    requires Shallow(f) && f.open && |f.stack| <= MAX_NESTING_DEPTH
    requires |f.stack| < MAX_NESTING_DEPTH || MayBeLast(f, t)
    ensures var g := AddBlock(f, t, line, endLine);
            Shallow(g) && Depth(g.nodes, |f.nodes|) == |f.stack| + 1 && g.nodes[|f.nodes|].btype == t
  {
    var g := AddBlock(f, t, line, endLine);
    AddBlockDepths(f, t, line, endLine);
    hide AddBlock, AtLastLevel, Depth, ParentsOlder;
  }

  lemma AddBlockDepths(f: Forest, t: BlockType, line: nat, endLine: nat)
    requires Shallow(f) && f.open && |f.stack| <= MAX_NESTING_DEPTH
    ensures var g, n := AddBlock(f, t, line, endLine), |f.nodes|;
            && ParentsOlder(g.nodes) && Depth(g.nodes, n) == |f.stack| + 1 && g.nodes[n].btype == t
            && (forall i :: 0 <= i < n ==>
                  Depth(g.nodes, i) == Depth(f.nodes, i) && g.nodes[i].btype == f.nodes[i].btype &&
                  (AtLastLevel(f.nodes, i) ==> AtLastLevel(g.nodes, i)))
            && (MayBeLast(f, t) ==> AtLastLevel(g.nodes, n))
  {
    var g := AddBlock(f, t, line, endLine);
    assert forall i :: 0 <= i < |f.nodes| ==>
             g.nodes[i].parent == f.nodes[i].parent && g.nodes[i].btype == f.nodes[i].btype;
    assert ParentsOlder(g.nodes);
    forall n | 0 <= n < |f.nodes| ensures Depth(g.nodes, n) == Depth(f.nodes, n) {
      DepthFrame(f.nodes, g.nodes, n);
    }
  }

  lemma PushKeepsShallow(f: Forest, indent: nat)
    requires Shallow(f) && f.nodes != [] && |f.stack| <= MAX_NESTING_DEPTH
    requires Depth(f.nodes, |f.nodes| - 1) == |f.stack| + 1
    requires |f.stack| < MAX_NESTING_DEPTH || f.nodes[|f.nodes| - 1].btype in BRANCH_TYPES
    ensures Shallow(PushNew(f, indent))
  {
  }

  lemma InsertKeepsShallow(f: Forest, t: BlockType, indent: nat, line: nat, endLine: nat)
    requires Shallow(f)
    ensures Shallow(GuardedInsert(f, t, indent, line, endLine))
  {
    hide Shallow;
    if f.open && |f.stack| < MAX_NESTING_DEPTH {
      var back := f.(stack := PopStack(f.stack, indent));
      PopKeepsShallow(f, back.stack, f.skipNextEnd);
      AddBlockKeepsShallow(back, t, line, endLine);
      PushKeepsShallow(AddBlock(back, t, line, endLine), indent);
    }
  }

  /** A stack topped by a block that is no branch is within the limit itself. */
  lemma TopWithinLimit(f: Forest)
    requires Shallow(f) && f.stack != [] && f.nodes[f.stack[|f.stack| - 1].block].btype !in BRANCH_TYPES
    ensures |f.stack| <= MAX_NESTING_DEPTH
  {}

  lemma {:induction false} PopToFinds(nodes: seq<Node>, stack: seq<Entry>, t: BlockType)
    requires StackIn(nodes, stack) && StackHas(nodes, stack, t)
    ensures PopTo(nodes, stack, {t}) != []
  {
    if nodes[stack[|stack| - 1].block].btype != t {
      var i :| 0 <= i < |stack| && nodes[stack[i].block].btype == t;
      var rest := stack[..|stack| - 1];
      assert rest[i] == stack[i];
      PopToFinds(nodes, rest, t);
    }
  }

  lemma AddBranchKeepsShallow(f: Forest, t: BlockType, tok: Token)
    requires Shallow(f) && f.open && |f.stack| <= MAX_NESTING_DEPTH && t in BRANCH_TYPES
    ensures Shallow(PushNew(AddBlock(f, t, tok.line, tok.endLine), tok.indent + 1))
  {
    assert Ready(f);
    hide Shallow, AddBlock;
    AddBlockKeepsShallow(f, t, tok.line, tok.endLine);
    PushKeepsShallow(AddBlock(f, t, tok.line, tok.endLine), tok.indent + 1);
  }

  lemma BranchUnfolds(f: Forest, owner: BlockType, t: BlockType, tok: Token)
    requires Ready(f)
    ensures var back := f.(stack := PopTo(f.nodes, f.stack, {owner}));
            Ready(back) && Branch(f, owner, t, tok) ==
            if f.open && StackHas(f.nodes, f.stack, owner)
            then PushNew(AddBlock(back, t, tok.line, tok.endLine), tok.indent + 1)
            else f
  {
    hide PopTo, AddBlock, PushNew, StackHas;
  }

  lemma BranchBody(f: Forest, owner: BlockType, t: BlockType, tok: Token) returns (back: Forest)
    requires Ready(f)
    ensures Branch(f, owner, t, tok) == f || (f.open && BranchesFrom(f, owner, t, tok, back))
  {
    assert StackIn(f.nodes, f.stack);
    back := f;
    BranchUnfolds(f, owner, t, tok);
    hide PopTo, AddBlock, PushNew, StackHas, StackIn, Ready, Branch;
    if f.open && StackHas(f.nodes, f.stack, owner) {
      back := f.(stack := PopTo(f.nodes, f.stack, {owner}));
      PopToFinds(f.nodes, f.stack, owner);
      assert BranchesFrom(f, owner, t, tok, back);
    }
  }

  /** The branch is added with `owner` on top of the stack. */
  ghost predicate BranchesFrom(f: Forest, owner: BlockType, t: BlockType, tok: Token, back: Forest)
    requires Ready(f)
  {
    && back == f.(stack := back.stack) && back.open && back.stack != [] && back.stack <= f.stack && Ready(back)
    && f.nodes[back.stack[|back.stack| - 1].block].btype == owner
    && Branch(f, owner, t, tok) == PushNew(AddBlock(back, t, tok.line, tok.endLine), tok.indent + 1)
  }

  lemma BranchKeepsShallow(f: Forest, owner: BlockType, t: BlockType, tok: Token)
    requires Shallow(f) && owner !in BRANCH_TYPES && t in BRANCH_TYPES
    ensures Shallow(Branch(f, owner, t, tok))
  {
    assert Ready(f);
    hide Shallow, AddBlock, PushNew, Branch;
    var back := BranchBody(f, owner, t, tok);
    if Branch(f, owner, t, tok) != f {
      PopKeepsShallow(f, back.stack, f.skipNextEnd);
      TopWithinLimit(back);
      AddBranchKeepsShallow(back, t, tok);
    }
  }

  lemma RetypeKeepsShallow(f: Forest, p: nat, t: BlockType)
    requires Shallow(f) && p < |f.nodes| && |f.stack| <= MAX_NESTING_DEPTH && f.nodes[p].btype == BlockBlock
    ensures Shallow(f.(nodes := f.nodes[p := f.nodes[p].(btype := t)], skipNextEnd := true))
  {
    var other := f.nodes[p := f.nodes[p].(btype := t)];
    forall n | 0 <= n < |f.nodes| ensures Depth(other, n) == Depth(f.nodes, n) {
      DepthFrame(f.nodes, other, n);
    }
    forall n | 0 <= n < |f.nodes| && AtLastLevel(f.nodes, n) ensures AtLastLevel(other, n) {}
  }

  lemma HandlerKeepsShallow(f: Forest, tok: Token)
    requires Shallow(f)
    ensures Shallow(StartErrorHandler(f, tok))
  {
    if f.open && f.stack != [] && f.nodes[f.stack[|f.stack| - 1].block].btype == BlockBlock {
      var p := f.stack[|f.stack| - 1].block;
      TopWithinLimit(f);
      RetypeKeepsShallow(f, p, ErrorHandlerType);
      var converted := f.(nodes := f.nodes[p := f.nodes[p].(btype := ErrorHandlerType)], skipNextEnd := true);
      AddBlockKeepsShallow(converted, ActionType, tok.line, tok.endLine);
    } else {
      InsertKeepsShallow(f, ErrorHandlerType, tok.indent, tok.line, tok.endLine);
    }
  }

  lemma CloseKeepsShallow(f: Forest, tok: Token)
    requires Shallow(f)
    ensures Shallow(CloseBlock(f, tok))
  {
    if f.open {
      var back := f.(stack := PopTo(f.nodes, f.stack, if f.skipNextEnd then {ErrorHandlerType} else CLOSABLE),
          skipNextEnd := false);
      hide Shallow;
      PopKeepsShallow(f, back.stack, false);
      if back.stack != [] {
        TopWithinLimit(back);
        AddBlockKeepsShallow(back, EndType, tok.line, 0);
        var ended := AddBlock(back, EndType, tok.line, 0);
        PopKeepsShallow(ended, ended.stack[..|ended.stack| - 1], false);
      }
    }
  }

  lemma StepKeepsShallow(f: Forest, tok: Token)
    requires Shallow(f)
    ensures Shallow(Step(f, tok))
  {
    hide GuardedInsert, Branch, StartErrorHandler, CloseBlock;
    match tok.kind {
      case TokErrorHandlerStart => HandlerKeepsShallow(f, tok);
      case TokBlockStart => InsertKeepsShallow(f, BlockBlock, tok.indent, tok.line, tok.endLine);
      case TokSwitchStart => InsertKeepsShallow(f, SwitchType, tok.indent, tok.line, tok.endLine);
      case TokLoopStart => InsertKeepsShallow(f, LoopType, tok.indent, tok.line, tok.endLine);
      case TokConditionStart => InsertKeepsShallow(f, ConditionType, tok.indent, tok.line, tok.endLine);
      case TokCase => BranchKeepsShallow(f, SwitchType, CaseType, tok);
      case TokDefault => BranchKeepsShallow(f, SwitchType, DefaultType, tok);
      case TokConditionElse => BranchKeepsShallow(f, ConditionType, ElseType, tok);
      case TokEnd => CloseKeepsShallow(f, tok);
      case TokComment => InsertKeepsShallow(f, CommentType, tok.indent, tok.line, 0);
      case TokAction => InsertKeepsShallow(f, tok.classified, tok.indent, tok.line, tok.endLine);
      case _ =>
    }
  }

  /** No token sequence opens more than 201 blocks or nests a block deeper than that, and only the three kinds of
      `AtLastLevel` get to level 201. */
  lemma {:induction false} ParseShallow(tokens: seq<Token>)
    ensures Shallow(Parse(tokens))
  {
    if tokens != [] {
      ParseShallow(tokens[..|tokens| - 1]);
      hide Shallow, Step;
      StepKeepsShallow(Parse(tokens[..|tokens| - 1]), tokens[|tokens| - 1]);
    }
  }

  // ----- The bound is reached -----

  /** A subflow with `k` loops, each inside the one before. */
  function Tower(k: nat): seq<Token> {
    if k == 0 then [Token(TokSubflowStart, 1, 1, 0, ActionType)]
    else Tower(k - 1) + [Token(TokLoopStart, k + 1, k + 1, k - 1, LoopType)]
  }

  ghost predicate TowerOpen(f: Forest, k: nat) {
    && Ready(f) && f.open && !f.skipNextEnd && |f.stack| == k
    && (k > 0 ==> f.stack[k - 1].indent == k - 1 && f.nodes[f.stack[k - 1].block].btype == LoopType)
  }

  lemma {:induction false} TowerParses(k: nat)
    requires k <= MAX_NESTING_DEPTH
    ensures TowerOpen(Parse(Tower(k)), k)
  {
    var tokens := Tower(k);
    if k > 0 {
      TowerParses(k - 1);
      assert tokens[..|tokens| - 1] == Tower(k - 1);
      TowerGrows(Parse(Tower(k - 1)), k - 1, tokens[|tokens| - 1]);
    } else {
      assert tokens[..0] == [];
    }
  }

  lemma TowerGrows(f: Forest, k: nat, tok: Token)
    requires TowerOpen(f, k) && k < MAX_NESTING_DEPTH && tok.kind == TokLoopStart && tok.indent == k
    ensures TowerOpen(Step(f, tok), k + 1)
  {
  }

  /** 200 loops and an END: the END is at level 201. */
  lemma LastLevelReached()
    ensures var tokens := Tower(MAX_NESTING_DEPTH) + [Token(TokEnd, 300, 300, 0, ActionType)];
            var f := Parse(tokens);
            Shallow(f) && exists n :: 0 <= n < |f.nodes| && Depth(f.nodes, n) == MAX_NESTING_DEPTH + 1 &&
                            f.nodes[n].btype == EndType
  {
    var tower, tok := Tower(MAX_NESTING_DEPTH), Token(TokEnd, 300, 300, 0, ActionType);
    TowerParses(MAX_NESTING_DEPTH);
    ParseShallow(tower);
    ParseShallow(tower + [tok]);
    assert (tower + [tok])[..|tower|] == tower;
    TowerCloses(Parse(tower), tok);
  }

  lemma TowerCloses(f: Forest, tok: Token)
    requires Shallow(f) && TowerOpen(f, MAX_NESTING_DEPTH) && tok.kind == TokEnd
    ensures var g := Step(f, tok);
            && |g.nodes| == |f.nodes| + 1 && ParentsOlder(g.nodes)
            && Depth(g.nodes, |f.nodes|) == MAX_NESTING_DEPTH + 1 && g.nodes[|f.nodes|].btype == EndType
  {
    assert PopTo(f.nodes, f.stack, CLOSABLE) == f.stack;
    assert f.(stack := f.stack) == f;
    AddBlockKeepsShallow(f, EndType, tok.line, 0);
  }
}
