/**
  The parser's block-building state machine (core/parser/parser.go).

  Blocks are held in creation order; a block's identity is its position there, standing for the
  fresh identifier the parser mints. `Step` specifies what one token does to the parser's
  variables, `ParseState` is the mutable object the handlers work on.
 */
module FlowParser {
  import opened Options

  datatype BlockType =
    | ActionType | LoopType | ConditionType | ElseType | SwitchType | CaseType | DefaultType
    | BlockBlock | ErrorHandlerType | CommentType | EndType | VariableType | SubflowType | WaitType | UnknownType

  datatype TokenKind =
    | TokEmpty | TokError | TokSubflowStart | TokSubflowEnd | TokErrorHandlerStart | TokBlockStart
    | TokSwitchStart | TokCase | TokDefault | TokLoopStart | TokEnd | TokConditionStart | TokConditionElse
    | TokComment | TokInlineOnError | TokAction

  /** The types `ClassifyBlockType` gives: an action is never made an END or a branch. */
  type ActionClass = t: BlockType
    | t in {ActionType, LoopType, ConditionType, SubflowType, ErrorHandlerType, BlockBlock, SwitchType, CommentType,
            VariableType, WaitType}
    witness ActionType

  /** `classified` is the type `ClassifyBlockType` gives an action; `TokInlineOnError` is a comment
      token carrying an inline ON ERROR, which only annotates the block it follows. */
  datatype Token = Token(kind: TokenKind, line: nat, endLine: nat, indent: nat, classified: ActionClass)

  datatype Node = Node(btype: BlockType, parent: Option<nat>, line: nat, endLine: nat, children: seq<nat>)

  datatype Entry = Entry(indent: nat, block: nat)

  /** The parser's variables: `built` holds the root blocks of each subflow; while `open`, the
      last of them is the current subflow. */
  datatype Forest = Forest(nodes: seq<Node>, built: seq<seq<nat>>, open: bool, stack: seq<Entry>, skipNextEnd: bool)

  const MAX_NESTING_DEPTH: nat := 200

  const EMPTY := Forest([], [], false, [], false)

  const CLOSABLE: set<BlockType> := {LoopType, ConditionType, ErrorHandlerType, BlockBlock, SwitchType}

  // ----- What one token does -----

  function PopStack(stack: seq<Entry>, indent: nat): (r: seq<Entry>)
    ensures r <= stack && (r != [] ==> r[|r| - 1].indent < indent)
  {
    if stack != [] && stack[|stack| - 1].indent >= indent then PopStack(stack[..|stack| - 1], indent) else stack
  }

  predicate StackIn(nodes: seq<Node>, stack: seq<Entry>) {
    forall i :: 0 <= i < |stack| ==> stack[i].block < |nodes|
  }

  /** Pops until a block of one of `types` is on top, or nothing is left. */
  function PopTo(nodes: seq<Node>, stack: seq<Entry>, types: set<BlockType>): (r: seq<Entry>)
    requires StackIn(nodes, stack)
    ensures r <= stack && (r != [] ==> nodes[r[|r| - 1].block].btype in types)
  {
    if stack != [] && nodes[stack[|stack| - 1].block].btype !in types
    then PopTo(nodes, stack[..|stack| - 1], types)
    else stack
  }

  predicate StackHas(nodes: seq<Node>, stack: seq<Entry>, t: BlockType)
    requires StackIn(nodes, stack)
  {
    exists i :: 0 <= i < |stack| && nodes[stack[i].block].btype == t
  }

  predicate Ready(f: Forest) {
    StackIn(f.nodes, f.stack) && (f.open ==> f.built != [])
  }

  /** Creates a block under the top of the stack, or as a root of the current subflow. */
  function AddBlock(f: Forest, t: BlockType, line: nat, endLine: nat): (g: Forest)
    requires Ready(f) && f.open
    ensures Ready(g) && g.open && g.stack == f.stack && |g.nodes| == |f.nodes| + 1
  {
    var n := |f.nodes|;
    if f.stack == [] then
      var k := |f.built| - 1;
      f.(nodes := f.nodes + [Node(t, None, line, endLine, [])], built := f.built[k := f.built[k] + [n]])
    else
      var p := f.stack[|f.stack| - 1].block;
      var parent := f.nodes[p].(children := f.nodes[p].children + [n]);
      f.(nodes := f.nodes[p := parent] + [Node(t, Some(p), line, endLine, [])])
  }

  /** Pushes the block just created. */
  function PushNew(f: Forest, indent: nat): (g: Forest)
    requires Ready(f) && f.nodes != []
    ensures Ready(g) && g.open == f.open
  {
    f.(stack := f.stack + [Entry(indent, |f.nodes| - 1)])
  }

  /** A nested construct: close everything indented at least as far, insert, push. */
  function Insert(f: Forest, t: BlockType, indent: nat, line: nat, endLine: nat): (g: Forest)
    requires Ready(f) && f.open
    ensures Ready(g)
  {
    PushNew(AddBlock(f.(stack := PopStack(f.stack, indent)), t, line, endLine), indent)
  }

  /** Constructs that open a level are refused once the stack is full. */
  function GuardedInsert(f: Forest, t: BlockType, indent: nat, line: nat, endLine: nat): (g: Forest)
    requires Ready(f)
    ensures Ready(g)
  {
    if f.open && |f.stack| < MAX_NESTING_DEPTH then Insert(f, t, indent, line, endLine) else f
  }

  /** CASE, DEFAULT and ELSE: back to the enclosing construct, then one level in, unguarded. */
  function Branch(f: Forest, owner: BlockType, t: BlockType, tok: Token): (g: Forest)
    requires Ready(f)
    ensures Ready(g)
  {
    if f.open && StackHas(f.nodes, f.stack, owner) then
      PushNew(AddBlock(f.(stack := PopTo(f.nodes, f.stack, {owner})), t, tok.line, tok.endLine), tok.indent + 1)
    else f
  }

  function StartErrorHandler(f: Forest, tok: Token): (g: Forest)
    requires Ready(f)
    ensures Ready(g)
  {
    if f.open && f.stack != [] && f.nodes[f.stack[|f.stack| - 1].block].btype == BlockBlock then
      var p := f.stack[|f.stack| - 1].block;
      var converted := f.(nodes := f.nodes[p := f.nodes[p].(btype := ErrorHandlerType)], skipNextEnd := true);
      AddBlock(converted, ActionType, tok.line, tok.endLine)
    else GuardedInsert(f, ErrorHandlerType, tok.indent, tok.line, tok.endLine)
  }

  function CloseBlock(f: Forest, tok: Token): (g: Forest)
    requires Ready(f)
    ensures Ready(g)
  {
    if !f.open then f
    else if f.skipNextEnd then
      var back := f.(stack := PopTo(f.nodes, f.stack, {ErrorHandlerType}), skipNextEnd := false);
      if back.stack == [] then back else AddBlock(back, EndType, tok.line, 0)
    else
      var back := f.(stack := PopTo(f.nodes, f.stack, CLOSABLE));
      if back.stack == [] then back
      else
        var ended := AddBlock(back, EndType, tok.line, 0);
        ended.(stack := ended.stack[..|ended.stack| - 1])
  }

  function Step(f: Forest, tok: Token): (g: Forest)
    requires Ready(f)
    ensures Ready(g)
  {
    match tok.kind
    case TokSubflowStart => f.(built := f.built + [[]], open := true, stack := [])
    case TokSubflowEnd => f.(open := false, stack := [])
    case TokErrorHandlerStart => StartErrorHandler(f, tok)
    case TokBlockStart => GuardedInsert(f, BlockBlock, tok.indent, tok.line, tok.endLine)
    case TokSwitchStart => GuardedInsert(f, SwitchType, tok.indent, tok.line, tok.endLine)
    case TokLoopStart => GuardedInsert(f, LoopType, tok.indent, tok.line, tok.endLine)
    case TokConditionStart => GuardedInsert(f, ConditionType, tok.indent, tok.line, tok.endLine)
    case TokCase => Branch(f, SwitchType, CaseType, tok)
    case TokDefault => Branch(f, SwitchType, DefaultType, tok)
    case TokConditionElse => Branch(f, ConditionType, ElseType, tok)
    case TokEnd => CloseBlock(f, tok)
    case TokComment => GuardedInsert(f, CommentType, tok.indent, tok.line, 0)
    case TokAction => GuardedInsert(f, tok.classified, tok.indent, tok.line, tok.endLine)
    case _ => f
  }

  function Parse(tokens: seq<Token>): (f: Forest)
    ensures Ready(f)
  {
    if tokens == [] then EMPTY else Step(Parse(tokens[..|tokens| - 1]), tokens[|tokens| - 1])
  }

  // ----- The handlers on the mutable parser state -----

  class ParseState {
    var nodes: seq<Node>
    var built: seq<seq<nat>>
    var open: bool
    var stack: seq<Entry>
    var skipNextEnd: bool

    ghost function Value(): Forest
      reads this
    {
      Forest(nodes, built, open, stack, skipNextEnd)
    }

    constructor ()
      ensures Value() == EMPTY
    {
      nodes, built, open, stack, skipNextEnd := [], [], false, [], false;
    }

    method PopDeeper(indent: nat)
      modifies this`stack
      ensures stack == PopStack(old(stack), indent)
    {
      while stack != [] && stack[|stack| - 1].indent >= indent
        invariant PopStack(stack, indent) == PopStack(old(stack), indent)
        decreases |stack|
      {
        stack := stack[..|stack| - 1];
      }
    }

    method PopToType(types: set<BlockType>)
      requires StackIn(nodes, stack)
      modifies this`stack
      ensures stack == PopTo(nodes, old(stack), types)
    {
      while stack != [] && nodes[stack[|stack| - 1].block].btype !in types
        invariant StackIn(nodes, stack) && PopTo(nodes, stack, types) == PopTo(nodes, old(stack), types)
        decreases |stack|
      {
        stack := stack[..|stack| - 1];
      }
    }

    method HasType(t: BlockType) returns (found: bool)
      requires StackIn(nodes, stack)
      ensures found == StackHas(nodes, stack, t)
    {
      for i := 0 to |stack|
        invariant forall j :: 0 <= j < i ==> nodes[stack[j].block].btype != t
      {
        if nodes[stack[i].block].btype == t { return true; }
      }
      return false;
    }

    method Attach(t: BlockType, line: nat, endLine: nat)
      requires Ready(Value()) && open
      modifies this`nodes, this`built
      ensures Value() == AddBlock(old(Value()), t, line, endLine)
    {
      var n := |nodes|;
      if stack == [] {
        built := built[|built| - 1 := built[|built| - 1] + [n]];
        nodes := nodes + [Node(t, None, line, endLine, [])];
      } else {
        var p := stack[|stack| - 1].block;
        nodes := nodes[p := nodes[p].(children := nodes[p].children + [n])];
        nodes := nodes + [Node(t, Some(p), line, endLine, [])];
      }
    }

    /** A block that is opened. */
    method AttachOpen(t: BlockType, indent: nat, line: nat, endLine: nat)
      requires Ready(Value()) && open
      modifies this`nodes, this`built, this`stack
      ensures Value() == PushNew(AddBlock(old(Value()), t, line, endLine), indent)
    {
      Attach(t, line, endLine);
      stack := stack + [Entry(indent, |nodes| - 1)];
    }

    method InsertGuarded(t: BlockType, indent: nat, line: nat, endLine: nat)
      requires Ready(Value())
      modifies this`nodes, this`built, this`stack
      ensures Value() == GuardedInsert(old(Value()), t, indent, line, endLine)
    {
      if !open || |stack| >= MAX_NESTING_DEPTH { return; }
      PopDeeper(indent);
      AttachOpen(t, indent, line, endLine);
    }

    method HandleBranch(owner: BlockType, t: BlockType, tok: Token)
      requires Ready(Value())
      modifies this`nodes, this`built, this`stack
      ensures Value() == Branch(old(Value()), owner, t, tok)
    {
      if !open { return; }
      var found := HasType(owner);
      if !found { return; }
      PopToType({owner});
      AttachOpen(t, tok.indent + 1, tok.line, tok.endLine);
    }

    method HandleErrorHandlerStart(tok: Token)
      requires Ready(Value())
      modifies this
      ensures Value() == StartErrorHandler(old(Value()), tok)
    {
      if open && stack != [] && nodes[stack[|stack| - 1].block].btype == BlockBlock {
        var p := stack[|stack| - 1].block;
        nodes := nodes[p := nodes[p].(btype := ErrorHandlerType)];
        skipNextEnd := true;
        Attach(ActionType, tok.line, tok.endLine);
        return;
      }
      InsertGuarded(ErrorHandlerType, tok.indent, tok.line, tok.endLine);
    }

    method HandleEnd(tok: Token)
      requires Ready(Value())
      modifies this
      ensures Value() == CloseBlock(old(Value()), tok)
    {
      if !open { return; }
      if skipNextEnd {
        skipNextEnd := false;
        PopToType({ErrorHandlerType});
        if stack != [] { Attach(EndType, tok.line, 0); }
        return;
      }
      PopToType(CLOSABLE);
      if stack != [] {
        Attach(EndType, tok.line, 0);
        stack := stack[..|stack| - 1];
      }
    }

    method ProcessToken(tok: Token)
      requires Ready(Value())
      modifies this
      ensures Value() == Step(old(Value()), tok)
    {
      match tok.kind {
        case TokSubflowStart => built, open, stack := built + [[]], true, [];
        case TokSubflowEnd => open, stack := false, [];
        case TokErrorHandlerStart => HandleErrorHandlerStart(tok);
        case TokBlockStart => InsertGuarded(BlockBlock, tok.indent, tok.line, tok.endLine);
        case TokSwitchStart => InsertGuarded(SwitchType, tok.indent, tok.line, tok.endLine);
        case TokLoopStart => InsertGuarded(LoopType, tok.indent, tok.line, tok.endLine);
        case TokConditionStart => InsertGuarded(ConditionType, tok.indent, tok.line, tok.endLine);
        case TokCase => HandleBranch(SwitchType, CaseType, tok);
        case TokDefault => HandleBranch(SwitchType, DefaultType, tok);
        case TokConditionElse => HandleBranch(ConditionType, ElseType, tok);
        case TokEnd => HandleEnd(tok);
        case TokComment => InsertGuarded(CommentType, tok.indent, tok.line, 0);
        case TokAction => InsertGuarded(tok.classified, tok.indent, tok.line, tok.endLine);
        case _ =>
      }
    }
  }

  method ParseTokens(tokens: seq<Token>) returns (f: Forest)
    ensures f == Parse(tokens)
  {
    var s := new ParseState();
    for i := 0 to |tokens|
      invariant fresh(s) && s.Value() == Parse(tokens[..i])
    {
      assert tokens[..i + 1][..i] == tokens[..i];
      s.ProcessToken(tokens[i]);
    }
    assert tokens[..|tokens|] == tokens;
    f := Forest(s.nodes, s.built, s.open, s.stack, s.skipNextEnd);
  }
}
