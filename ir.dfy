/** The IR generator of the token-based assembler (assembler/ir.ts): a
    recursive-descent parser with one token of lookahead that turns the
    lexer's tokens into instruction, label, const and import nodes.

    The grammar is first given as pure functions of a token list and a
    position, each returning what it parsed and the position after it;
    the `IRGenerator` class then runs the same steps on its `index` field,
    and each of its methods is proved to agree with its function. */
module IR {
  import opened Wrappers
  import opened Tokens
  import opened Errors
  import C = CoreOpcode
  import N = Numbers

  datatype OffsetKind = LiteralOffset | RegisterOffset
  datatype Sign = Plus | Minus

  /** `IROffset`; a register offset holds the register's number. */
  datatype IROffset = IROffset(kind: OffsetKind, value: int, sign: Sign)

  /** The four operand kinds, with their values. */
  datatype OperandValue =
    | IntegerValue(n: int)
    | RegisterValue(register: C.Register)
    | LabelRef(name: string)
    | ConstRef(name: string)

  /** `IROperand`: a value, an optional offset and the token it came from. */
  datatype IROperand = IROperand(value: OperandValue, offset: Option<IROffset>, token: Token)

  /** `IRToken`. An instruction records its mnemonic as the opcode it
      names; the parser accepts only mnemonics of the instruction table. */
  datatype IRNode =
    | InstructionNode(opcode: C.Opcode, operands: seq<IROperand>, token: Token)
    | LabelDefinitionNode(name: string, token: Token)
    | ConstDefinitionNode(name: string, value: IROperand, token: Token)
    | ImportNode(filename: string, token: Token)

  /** Something parsed, and the position just after it. */
  type Parsed<T> = Result<(T, nat), ParseError>

  // ---------------------------------------------------------------------
  // The grammar as functions of (tokens, position)

  /** `peekNextToken()`: the token at `i`, or the final `eof` past the end. */
  function PeekAt(ts: seq<Token>, i: nat): Token
    requires ts != []
  {
    if i < |ts| then ts[i] else ts[|ts| - 1]
  }

  /** `nextTokenIsType(kind)` */
  predicate NextIs(ts: seq<Token>, i: nat, kind: TokenType) {
    i < |ts| && ts[i].kind == kind
  }

  /** `expect(kind)`: the token at `i` if it has that type, else a syntax
      error on it (on `eof` past the end). */
  function ExpectAt(ts: seq<Token>, i: nat, kind: TokenType): (r: Parsed<Token>)
    requires ts != []
    ensures r.Ok? <==> NextIs(ts, i, kind)
    ensures r.Ok? ==> r.value == (ts[i], i + 1)
    ensures r.Err? ==> r.error == SyntaxError(PeekAt(ts, i))
  {
    if i >= |ts| then Err(SyntaxError(ts[|ts| - 1]))
    else if ts[i].kind != kind then Err(SyntaxError(ts[i]))
    else Ok((ts[i], i + 1))
  }

  /** `skipWhiteSpace()`: steps over one whitespace token, if there is one. */
  function SkipWs(ts: seq<Token>, i: nat): (j: nat)
    requires LexerOutput(ts)
    ensures j == (if NextIs(ts, i, Whitespace) then i + 1 else i)
    ensures i < |ts| ==> j < |ts|
  {
    if PeekAt(ts, i).kind == Whitespace then i + 1 else i
  }

  /** The value of an integer-literal token. */
  function IntegerOf(ts: seq<Token>, i: nat): nat
    requires LexerOutput(ts) && NextIs(ts, i, IntegerLiteral)
  {
    N.ParseNumber(ts[i].value).value
  }

  /** The register a register-literal token names. */
  function RegisterOf(ts: seq<Token>, i: nat): C.Register
    requires LexerOutput(ts) && NextIs(ts, i, RegisterLiteral)
  {
    C.RegisterByName(ts[i].value).value
  }

  /** `parseOffset()`: `[`, an optional `+` or `-`, an integer or register
      literal, `]`. */
  function OffsetAt(ts: seq<Token>, i: nat): (r: Parsed<IROffset>)
    requires LexerOutput(ts)
    ensures r.Ok? ==> i < r.value.1 < |ts|
    ensures r.Err? ==> r.error.SyntaxError?
  {
    var open :- ExpectAt(ts, i, LeftBracket);
    var j := open.1;
    var signed := NextIs(ts, j, PlusSign) || NextIs(ts, j, MinusSign);
    var sign := if NextIs(ts, j, MinusSign) then Minus else Plus;
    var k := if signed then j + 1 else j;
    if NextIs(ts, k, IntegerLiteral) then
      var close :- ExpectAt(ts, k + 1, RightBracket);
      Ok((IROffset(LiteralOffset, IntegerOf(ts, k), sign), close.1))
    else if NextIs(ts, k, RegisterLiteral) then
      var close :- ExpectAt(ts, k + 1, RightBracket);
      Ok((IROffset(RegisterOffset, C.RegisterCode(RegisterOf(ts, k)), sign), close.1))
    else
      Err(SyntaxError(PeekAt(ts, k)))
  }

  /** The operand value a single token stands for. */
  function OperandValueAt(ts: seq<Token>, i: nat): Option<OperandValue>
    requires LexerOutput(ts)
  {
    if NextIs(ts, i, IntegerLiteral) then Some(IntegerValue(IntegerOf(ts, i)))
    else if NextIs(ts, i, RegisterLiteral) then Some(RegisterValue(RegisterOf(ts, i)))
    else if NextIs(ts, i, Label) then Some(LabelRef(ts[i].value))
    else if NextIs(ts, i, ConstName) then Some(ConstRef(ts[i].value))
    else None
  }

  /** How an operand's value was read off its token. */
  predicate ValueOfToken(v: OperandValue, t: Token) {
    match v
    case IntegerValue(n) => t.kind == IntegerLiteral && N.ParseNumber(t.value) == Some(n)
    case RegisterValue(r) => t.kind == RegisterLiteral && C.RegisterByName(t.value) == Some(r)
    case LabelRef(name) => t.kind == Label && name == t.value
    case ConstRef(name) => t.kind == ConstName && name == t.value
  }

  /** `parseOperand()`: one integer, register, label or const token,
      followed by an offset exactly when the next token is `[`. */
  function OperandAt(ts: seq<Token>, i: nat): (r: Parsed<IROperand>)
    requires LexerOutput(ts)
    ensures r.Ok? ==> i < r.value.1 < |ts| && r.value.0.token == ts[i]
    ensures r.Ok? ==> ValueOfToken(r.value.0.value, r.value.0.token)
  {
    match OperandValueAt(ts, i)
    case None => Err(SyntaxError(PeekAt(ts, i)))
    case Some(v) =>
      var j := i + 1;
      if NextIs(ts, j, LeftBracket) then
        var off :- OffsetAt(ts, j);
        Ok((IROperand(v, Some(off.0), ts[i]), off.1))
      else
        Ok((IROperand(v, None, ts[i]), j))
  }

  /** The operand loop of `parseInstruction()`: operands, each followed by
      at most one whitespace token, up to a newline or `eof`. */
  function OperandsFrom(ts: seq<Token>, i: nat): (r: Parsed<seq<IROperand>>)
    requires LexerOutput(ts) && i < |ts|
    ensures r.Ok? ==> i <= r.value.1 < |ts| && ts[r.value.1].kind in {Newline, Eof}
    ensures r.Ok? ==> forall o :: o in r.value.0 ==> ValueOfToken(o.value, o.token)
    decreases |ts| - i
  {
    if NextIs(ts, i, Newline) || NextIs(ts, i, Eof) then Ok(([], i))
    else
      var o :- OperandAt(ts, i);
      var rest :- OperandsFrom(ts, SkipWs(ts, o.1));
      Ok(([o.0] + rest.0, rest.1))
  }

  /** An instruction node as the parser builds it: a known mnemonic, and
      operands read off their tokens. */
  predicate InstructionWellFormed(n: IRNode) {
    n.InstructionNode? && n.token.kind == Instruction && C.Mnemonic(n.opcode) == n.token.value
    && forall o :: o in n.operands ==> ValueOfToken(o.value, o.token)
  }

  /** `parseInstruction()` */
  function InstructionAt(ts: seq<Token>, i: nat): (r: Parsed<IRNode>)
    requires LexerOutput(ts)
    ensures r.Ok? ==> i < r.value.1 < |ts| && ts[r.value.1].kind in {Newline, Eof}
    ensures r.Ok? ==> InstructionWellFormed(r.value.0) && r.value.0.token == ts[i]
  {
    var mnemonic :- ExpectAt(ts, i, Instruction);
    var name := mnemonic.0.value;
    if C.InstructionByName(name).None? then Err(SyntaxError(mnemonic.0))
    else
      C.InstructionTableAgrees(name);
      var op := C.OpcodeByName(name).value;
      C.MnemonicsOneToOne(op, name);
      var ops :- OperandsFrom(ts, SkipWs(ts, mnemonic.1));
      Ok((InstructionNode(op, ops.0, mnemonic.0), ops.1))
  }

  const ConstInConstMessage: string := "can't use const value in const definition"

  /** The `const` branch of `run()`: `const`, a name, `=` and a non-const
      operand, with at most one whitespace token between them. */
  function ConstDefinitionAt(ts: seq<Token>, i: nat): (r: Parsed<IRNode>)
    requires LexerOutput(ts)
    ensures r.Ok? ==> i < r.value.1 < |ts| && r.value.0.ConstDefinitionNode? && r.value.0.token == ts[i]
    ensures r.Ok? ==> !r.value.0.value.value.ConstRef? && ValueOfToken(r.value.0.value.value, r.value.0.value.token)
  {
    var keyword :- ExpectAt(ts, i, Keyword);
    var name :- ExpectAt(ts, SkipWs(ts, keyword.1), Identifier);
    var equals :- ExpectAt(ts, SkipWs(ts, name.1), Equals);
    var v :- OperandAt(ts, SkipWs(ts, equals.1));
    if v.0.value.ConstRef? then Err(TypeError(v.0.token, ConstInConstMessage))
    else Ok((ConstDefinitionNode(name.0.value, v.0, keyword.0), v.1))
  }

  /** The `import` branch of `run()`: `import` and a string token. */
  function ImportAt(ts: seq<Token>, i: nat): (r: Parsed<IRNode>)
    requires LexerOutput(ts)
    ensures r.Ok? ==> i < r.value.1 < |ts| && r.value.0.ImportNode? && r.value.0.token == ts[i]
  {
    var keyword :- ExpectAt(ts, i, Keyword);
    var file :- ExpectAt(ts, SkipWs(ts, keyword.1), StringLiteral);
    Ok((ImportNode(file.0.value, keyword.0), file.1))
  }

  /** What every node of a parsed program is made of: an instruction
      token, a `const` or `import` keyword, or a label definition token
      whose value is the label's name. */
  predicate NodeWellFormed(n: IRNode) {
    match n
    case InstructionNode(_, _, _) => InstructionWellFormed(n)
    case ConstDefinitionNode(_, v, t) =>
      t.kind == Keyword && t.value == "const" && !v.value.ConstRef? && ValueOfToken(v.value, v.token)
    case ImportNode(_, t) => t.kind == Keyword && t.value == "import"
    case LabelDefinitionNode(name, t) => t.kind == LabelDefinition && name == t.value
  }

  /** Prepends nodes to a parse result. */
  function Prepend(nodes: seq<IRNode>, r: Result<seq<IRNode>, ParseError>): Result<seq<IRNode>, ParseError> {
    match r
    case Ok(rest) => Ok(nodes + rest)
    case Err(e) => Err(e)
  }

  /** The main loop of `run()` from position `i`. */
  function ProgramFrom(ts: seq<Token>, i: nat): (r: Result<seq<IRNode>, ParseError>)
    requires LexerOutput(ts)
    decreases |ts| - i
  {
    var t := PeekAt(ts, i);
    if t.kind == Eof then Ok([])
    else if t.kind == Instruction then
      var node :- InstructionAt(ts, i);
      Prepend([node.0], ProgramFrom(ts, node.1))
    else if t.kind == Keyword && t.value == "const" then
      var node :- ConstDefinitionAt(ts, i);
      Prepend([node.0], ProgramFrom(ts, node.1))
    else if t.kind == Keyword && t.value == "import" then
      var node :- ImportAt(ts, i);
      Prepend([node.0], ProgramFrom(ts, node.1))
    else if t.kind == LabelDefinition then
      Prepend([LabelDefinitionNode(t.value, t)], ProgramFrom(ts, i + 1))
    else if t.kind in {Comment, Newline, Whitespace} then
      ProgramFrom(ts, i + 1)
    else
      Err(SyntaxError(t))
  }

  /** The branches of `ProgramFrom`, one per kind of the next token. */
  lemma ProgramFromCases(ts: seq<Token>, i: nat)
    requires LexerOutput(ts)
    ensures PeekAt(ts, i).kind == Eof ==> ProgramFrom(ts, i) == Ok([])
    ensures PeekAt(ts, i).kind == Instruction ==>
      ProgramFrom(ts, i) == match InstructionAt(ts, i)
        case Err(e) => Err(e)
        case Ok((node, j)) => Prepend([node], ProgramFrom(ts, j))
    ensures PeekAt(ts, i).kind == Keyword && PeekAt(ts, i).value == "const" ==>
      ProgramFrom(ts, i) == match ConstDefinitionAt(ts, i)
        case Err(e) => Err(e)
        case Ok((node, j)) => Prepend([node], ProgramFrom(ts, j))
    ensures PeekAt(ts, i).kind == Keyword && PeekAt(ts, i).value == "import" ==>
      ProgramFrom(ts, i) == match ImportAt(ts, i)
        case Err(e) => Err(e)
        case Ok((node, j)) => Prepend([node], ProgramFrom(ts, j))
    ensures PeekAt(ts, i).kind == LabelDefinition ==>
      ProgramFrom(ts, i) == Prepend([LabelDefinitionNode(PeekAt(ts, i).value, PeekAt(ts, i))], ProgramFrom(ts, i + 1))
    ensures PeekAt(ts, i).kind in {Comment, Newline, Whitespace} ==> ProgramFrom(ts, i) == ProgramFrom(ts, i + 1)
    ensures (PeekAt(ts, i).kind !in {Eof, Instruction, LabelDefinition, Comment, Newline, Whitespace}
      && !(PeekAt(ts, i).kind == Keyword && PeekAt(ts, i).value in {"const", "import"})) ==>
      ProgramFrom(ts, i) == Err(SyntaxError(PeekAt(ts, i)))
  {
    hide InstructionAt, ConstDefinitionAt, ImportAt;
  }

  /** Every node of a parsed program is made as `NodeWellFormed` says. */
  lemma {:induction false} ProgramWellFormed(ts: seq<Token>, i: nat)
    requires LexerOutput(ts)
    ensures ProgramFrom(ts, i).Ok? ==> forall n :: n in ProgramFrom(ts, i).value ==> NodeWellFormed(n)
    decreases |ts| - i
  {
    hide InstructionAt, ConstDefinitionAt, ImportAt, OperandsFrom, OperandAt, OffsetAt, ValueOfToken;
    var t := PeekAt(ts, i);
    if t.kind == Eof {
    } else if t.kind == Instruction {
      var node := InstructionAt(ts, i);
      if node.Ok? {
        ProgramWellFormed(ts, node.value.1);
        assert NodeWellFormed(node.value.0);
        assert ProgramFrom(ts, i) == Prepend([node.value.0], ProgramFrom(ts, node.value.1));
      }
    } else if t.kind == Keyword && t.value == "const" {
      var node := ConstDefinitionAt(ts, i);
      if node.Ok? {
        ProgramWellFormed(ts, node.value.1);
        assert NodeWellFormed(node.value.0);
        assert ProgramFrom(ts, i) == Prepend([node.value.0], ProgramFrom(ts, node.value.1));
      }
    } else if t.kind == Keyword && t.value == "import" {
      var node := ImportAt(ts, i);
      if node.Ok? {
        ProgramWellFormed(ts, node.value.1);
        assert NodeWellFormed(node.value.0);
        assert ProgramFrom(ts, i) == Prepend([node.value.0], ProgramFrom(ts, node.value.1));
      }
    } else if t.kind == LabelDefinition || t.kind in {Comment, Newline, Whitespace} {
      ProgramWellFormed(ts, i + 1);
    }
  }

  // ---------------------------------------------------------------------
  // Properties of the grammar

  /** `[`, an optional sign, a literal and `]` is exactly what an offset is:
      the sign is `-` exactly when a minus was written, and anything else
      is a syntax error. */
  lemma OffsetGrammar(ts: seq<Token>, i: nat)
    requires LexerOutput(ts)
    ensures var s := if NextIs(ts, i + 1, PlusSign) || NextIs(ts, i + 1, MinusSign) then 1 else 0;
      OffsetAt(ts, i).Ok? <==>
        NextIs(ts, i, LeftBracket)
        && (NextIs(ts, i + 1 + s, IntegerLiteral) || NextIs(ts, i + 1 + s, RegisterLiteral))
        && NextIs(ts, i + 2 + s, RightBracket)
    ensures var s := if NextIs(ts, i + 1, PlusSign) || NextIs(ts, i + 1, MinusSign) then 1 else 0;
      OffsetAt(ts, i).Ok? ==>
        OffsetAt(ts, i).value.1 == i + 3 + s
        && (OffsetAt(ts, i).value.0.sign == Minus <==> NextIs(ts, i + 1, MinusSign))
        && (OffsetAt(ts, i).value.0.kind == RegisterOffset <==> NextIs(ts, i + 1 + s, RegisterLiteral))
    ensures OffsetAt(ts, i).Err? ==> OffsetAt(ts, i).error.SyntaxError?
  {
  }

  /** An operand carries an offset exactly when the token after it is `[`;
      without one it is a single token. A token of any other kind than
      the four operand kinds is a syntax error on that token. */
  lemma OperandOffsetOnlyAfterBracket(ts: seq<Token>, i: nat)
    requires LexerOutput(ts)
    ensures OperandAt(ts, i).Ok? ==> (OperandAt(ts, i).value.0.offset.Some? <==> NextIs(ts, i + 1, LeftBracket))
    ensures OperandAt(ts, i).Ok? && OperandAt(ts, i).value.0.offset.None? ==> OperandAt(ts, i).value.1 == i + 1
    ensures PeekAt(ts, i).kind !in {IntegerLiteral, RegisterLiteral, Label, ConstName} ==>
      OperandAt(ts, i) == Err(SyntaxError(PeekAt(ts, i)))
  {
  }

  /** After the mnemonic, and after each operand, only one whitespace token
      is stepped over: a second one is a syntax error. */
  lemma InstructionSkipsOneWhitespace(ts: seq<Token>, i: nat)
    requires LexerOutput(ts)
    requires NextIs(ts, i, Instruction) && C.InstructionByName(ts[i].value).Some?
    requires NextIs(ts, i + 1, Whitespace) && NextIs(ts, i + 2, Whitespace)
    ensures InstructionAt(ts, i) == Err(SyntaxError(ts[i + 2]))
  {
    assert OperandsFrom(ts, i + 2) == Err(SyntaxError(ts[i + 2]));
  }

  /** A mnemonic that the instruction table does not list is a syntax error
      on the mnemonic's token. */
  lemma UnknownInstructionRejected(ts: seq<Token>, i: nat)
    requires LexerOutput(ts)
    requires NextIs(ts, i, Instruction) && C.InstructionByName(ts[i].value).None?
    ensures InstructionAt(ts, i) == Err(SyntaxError(ts[i]))
  {
  }

  /** A const defined as another const is a type error on the value's
      token. */
  lemma ConstOfConstRejected(ts: seq<Token>, i: nat, v: nat)
    requires LexerOutput(ts)
    requires var n := SkipWs(ts, i + 1);
      NextIs(ts, i, Keyword) && NextIs(ts, n, Identifier) && NextIs(ts, SkipWs(ts, n + 1), Equals)
      && v == SkipWs(ts, SkipWs(ts, n + 1) + 1)
    requires NextIs(ts, v, ConstName) && !NextIs(ts, v + 1, LeftBracket)
    ensures ConstDefinitionAt(ts, i) == Err(TypeError(ts[v], ConstInConstMessage))
  {
    var n := SkipWs(ts, i + 1);
    var e := SkipWs(ts, n + 1);
    ConstOperand(ts, v);
    ExpectOk(ts, i, Keyword);
    ExpectOk(ts, n, Identifier);
    ExpectOk(ts, e, Equals);
    ConstDefinitionSteps(ts, i, n, e, v);
  }

  /** `ConstDefinitionAt` once its three expected tokens are there. */
  lemma ConstDefinitionSteps(ts: seq<Token>, i: nat, n: nat, e: nat, v: nat)
    requires LexerOutput(ts)
    requires ExpectAt(ts, i, Keyword).Ok? && ExpectAt(ts, i, Keyword).value == (ts[i], i + 1) && n == SkipWs(ts, i + 1)
    requires ExpectAt(ts, n, Identifier).Ok? && ExpectAt(ts, n, Identifier).value == (ts[n], n + 1) && e == SkipWs(ts, n + 1)
    requires ExpectAt(ts, e, Equals).Ok? && ExpectAt(ts, e, Equals).value == (ts[e], e + 1) && v == SkipWs(ts, e + 1)
    ensures ConstDefinitionAt(ts, i) ==
      match OperandAt(ts, v)
      case Err(err) => Err(err)
      case Ok(o) => if o.0.value.ConstRef? then Err(TypeError(o.0.token, ConstInConstMessage))
        else Ok((ConstDefinitionNode(ts[n].value, o.0, ts[i]), o.1))
  {
    hide LexerOutput, OffsetAt, InstructionAt, ProgramFrom, ValueOfToken, N.ParseNumber, C.RegisterByName, OperandValueAt,
      SkipWs, OperandsFrom, ImportAt, IntegerOf, RegisterOf, NextIs;
  }

  lemma ExpectOk(ts: seq<Token>, i: nat, kind: TokenType)
    requires NextIs(ts, i, kind)
    ensures ExpectAt(ts, i, kind).Ok? && ExpectAt(ts, i, kind).value == (ts[i], i + 1)
  {
  }

  /** A const name without an offset is an operand of one token. */
  lemma ConstOperand(ts: seq<Token>, v: nat)
    requires LexerOutput(ts) && NextIs(ts, v, ConstName) && !NextIs(ts, v + 1, LeftBracket)
    ensures OperandAt(ts, v) == Ok((IROperand(ConstRef(ts[v].value), None, ts[v]), v + 1))
  {
    hide LexerOutput, OffsetAt, IntegerOf, RegisterOf;
    assert OperandValueAt(ts, v) == Some(ConstRef(ts[v].value));
  }

  /** Comments, newlines and whitespace at top level produce nothing; a
      token that starts no construct is a syntax error on that token. */
  lemma TopLevelTokens(ts: seq<Token>, i: nat)
    requires LexerOutput(ts) && i < |ts|
    ensures ts[i].kind in {Comment, Newline, Whitespace} ==> ProgramFrom(ts, i) == ProgramFrom(ts, i + 1)
    ensures ts[i].kind !in {Comment, Newline, Whitespace, Instruction, Keyword, LabelDefinition, Eof} ==>
      ProgramFrom(ts, i) == Err(SyntaxError(ts[i]))
    ensures ts[i].kind == Keyword && ts[i].value != "const" && ts[i].value != "import" ==>
      ProgramFrom(ts, i) == Err(SyntaxError(ts[i]))
  {
  }

  /** A label definition becomes one node and the rest parses on. */
  lemma LabelDefinitionNodeOnly(ts: seq<Token>, i: nat)
    requires LexerOutput(ts) && NextIs(ts, i, LabelDefinition)
    ensures ProgramFrom(ts, i) == Prepend([LabelDefinitionNode(ts[i].value, ts[i])], ProgramFrom(ts, i + 1))
  {
  }

  function Tok(kind: TokenType, value: string): Token {
    Token(kind, value, "", 1, 0)
  }

  /** The tokens of "push 123". */
  const PushTokens: seq<Token> :=
    [Tok(Instruction, "push"), Tok(Whitespace, " "), Tok(IntegerLiteral, "123"), Tok(Eof, "")]

  lemma PushTokensLexed()
    ensures LexerOutput(PushTokens)
  {
    N.ParseNumberExamples();
    hide N.ParseNumber, C.RegisterByName;
    var ts := PushTokens;
    assert forall k :: 0 <= k < |ts| && ts[k].kind == IntegerLiteral ==> k == 2;
    assert forall k :: 0 <= k < |ts| ==> ts[k].kind != RegisterLiteral;
  }

  /** An integer literal not followed by `[` is an operand without offset. */
  lemma IntegerOperand(ts: seq<Token>, i: nat)
    requires LexerOutput(ts) && NextIs(ts, i, IntegerLiteral) && !NextIs(ts, i + 1, LeftBracket)
    ensures OperandAt(ts, i) == Ok((IROperand(IntegerValue(IntegerOf(ts, i)), None, ts[i]), i + 1))
  {
  }

  /** One operand, then the end of the line. */
  lemma LastOperand(ts: seq<Token>, i: nat, o: IROperand, j: nat)
    requires LexerOutput(ts) && i < |ts| && !NextIs(ts, i, Newline) && !NextIs(ts, i, Eof)
    requires OperandAt(ts, i) == Ok((o, j)) && j < |ts| && ts[SkipWs(ts, j)].kind in {Newline, Eof}
    ensures OperandsFrom(ts, i) == Ok(([o], SkipWs(ts, j)))
  {
    var k := SkipWs(ts, j);
    assert OperandsFrom(ts, k) == Ok(([], k));
    assert [o] + [] == [o];
  }

  lemma PushOperands()
    ensures LexerOutput(PushTokens)
    ensures OperandsFrom(PushTokens, 2) == Ok(([IROperand(IntegerValue(123), None, PushTokens[2])], 3))
  {
    var ts := PushTokens;
    PushTokensLexed();
    N.ParseNumberExamples();
    assert ts[2].value == "123";
    assert IntegerOf(ts, 2) == 123;
    hide LexerOutput, OperandsFrom, OperandAt, N.ParseNumber, IntegerOf;
    IntegerOperand(ts, 2);
    assert SkipWs(ts, 3) == 3;
    LastOperand(ts, 2, IROperand(IntegerValue(123), None, ts[2]), 3);
  }

  /** "push 123" gives exactly one instruction node with one operand, the
      integer 123, and no offset. */
  lemma PushExample()
    ensures LexerOutput(PushTokens)
    ensures ProgramFrom(PushTokens, 0) == Ok([InstructionNode(C.Push, [IROperand(IntegerValue(123), None, PushTokens[2])], PushTokens[0])])
  {
    hide LexerOutput, OperandsFrom, N.ParseNumber;
    var ts := PushTokens;
    PushOperands();
    var node := InstructionNode(C.Push, [IROperand(IntegerValue(123), None, ts[2])], ts[0]);
    assert SkipWs(ts, 1) == 2;
    assert InstructionAt(ts, 0) == Ok((node, 3));
    assert ProgramFrom(ts, 3) == Ok([]);
    assert [node] + [] == [node];
  }

  /** `[-r]` is a register offset with sign `-`. */
  lemma NegativeRegisterOffset(ts: seq<Token>, i: nat)
    requires LexerOutput(ts) && NextIs(ts, i, LeftBracket) && NextIs(ts, i + 1, MinusSign)
    requires NextIs(ts, i + 2, RegisterLiteral) && NextIs(ts, i + 3, RightBracket)
    ensures OffsetAt(ts, i) == Ok((IROffset(RegisterOffset, C.RegisterCode(RegisterOf(ts, i + 2)), Minus), i + 4))
  {
  }

  /** The tokens of "[-x]". */
  const NegativeRegisterTokens: seq<Token> :=
    [Tok(LeftBracket, "["), Tok(MinusSign, "-"), Tok(RegisterLiteral, "x"), Tok(RightBracket, "]"), Tok(Eof, "")]

  lemma NegativeRegisterTokensLexed()
    ensures LexerOutput(NegativeRegisterTokens)
    ensures NextIs(NegativeRegisterTokens, 2, RegisterLiteral) && RegisterOf(NegativeRegisterTokens, 2) == C.X
  {
    var ts := NegativeRegisterTokens;
    assert C.RegisterByName("x") == Some(C.X);
    hide N.ParseNumber, C.RegisterByName;
    assert forall k :: 0 <= k < |ts| ==> ts[k].kind != IntegerLiteral;
    assert forall k :: 0 <= k < |ts| && ts[k].kind == RegisterLiteral ==> k == 2;
  }

  /** "[-x]" is a register offset on X with sign `-`. */
  lemma NegativeRegisterOffsetExample()
    ensures LexerOutput(NegativeRegisterTokens)
    ensures OffsetAt(NegativeRegisterTokens, 0) == Ok((IROffset(RegisterOffset, C.RegisterCode(C.X), Minus), 4))
  {
    var ts := NegativeRegisterTokens;
    NegativeRegisterTokensLexed();
    hide LexerOutput, OffsetAt, RegisterOf;
    NegativeRegisterOffset(ts, 0);
  }

  /** `OffsetAt` past its `[` and optional sign, at position `k`. */
  lemma OffsetSteps(ts: seq<Token>, i: nat, k: nat, sign: Sign)
    requires LexerOutput(ts) && NextIs(ts, i, LeftBracket)
    requires k == (if NextIs(ts, i + 1, PlusSign) || NextIs(ts, i + 1, MinusSign) then i + 2 else i + 1)
    requires sign == (if NextIs(ts, i + 1, MinusSign) then Minus else Plus)
    ensures NextIs(ts, k, IntegerLiteral) ==>
      OffsetAt(ts, i) == (if NextIs(ts, k + 1, RightBracket) then Ok((IROffset(LiteralOffset, IntegerOf(ts, k), sign), k + 2))
                          else Err(SyntaxError(PeekAt(ts, k + 1))))
    ensures NextIs(ts, k, RegisterLiteral) ==>
      OffsetAt(ts, i) == (if NextIs(ts, k + 1, RightBracket) then Ok((IROffset(RegisterOffset, C.RegisterCode(RegisterOf(ts, k)), sign), k + 2))
                          else Err(SyntaxError(PeekAt(ts, k + 1))))
    ensures !NextIs(ts, k, IntegerLiteral) && !NextIs(ts, k, RegisterLiteral) ==> OffsetAt(ts, i) == Err(SyntaxError(PeekAt(ts, k)))
  {
  }

  // ---------------------------------------------------------------------
  // The generator object

  /** A method result against its grammar function: the same value and
      the position after it in `index`. After an error the position is
      left unspecified: the caller abandons the generator. */
  predicate Tracks<T(==)>(r: Result<T, ParseError>, spec: Parsed<T>, index: nat) {
    match spec
    case Ok((v, j)) => r == Ok(v) && index == j
    case Err(e) => r == Err(e)
  }

  class IRGenerator {
    var index: nat
    var tokens: seq<Token>

    constructor()
      ensures index == 0 && tokens == []
    {
      index := 0;
      tokens := [];
    }

    predicate Valid()
      reads this
    {
      LexerOutput(tokens)
    }

    method Expect(kind: TokenType) returns (r: Result<Token, ParseError>)
      requires Valid()
      modifies this
      ensures tokens == old(tokens)
      ensures Tracks(r, ExpectAt(tokens, old(index), kind), index)
    {
      if index >= |tokens| {
        return Err(SyntaxError(tokens[|tokens| - 1]));
      }
      var token := tokens[index];
      if token.kind != kind {
        return Err(SyntaxError(token));
      }
      index := index + 1;
      return Ok(token);
    }

    method SkipWhiteSpace()
      requires Valid()
      modifies this
      ensures tokens == old(tokens)
      ensures index == SkipWs(tokens, old(index))
    {
      if PeekAt(tokens, index).kind == Whitespace {
        var _ := Expect(Whitespace);
      }
    }

    method ParseOffset() returns (r: Result<IROffset, ParseError>)
      requires Valid()
      modifies this
      ensures tokens == old(tokens)
      ensures Tracks(r, OffsetAt(tokens, old(index)), index)
    {
      hide LexerOutput, IntegerOf, RegisterOf, N.ParseNumber, C.RegisterByName, OperandAt, OperandsFrom, InstructionAt, ConstDefinitionAt, ProgramFrom;
      var open := Expect(LeftBracket);
      if open.Err? {
        return Err(open.error);
      }
      var sign := Plus;
      if PeekAt(tokens, index).kind == PlusSign {
        var _ := Expect(PlusSign);
      } else if PeekAt(tokens, index).kind == MinusSign {
        var _ := Expect(MinusSign);
        sign := Minus;
      }
      OffsetSteps(tokens, old(index), index, sign);
      hide OffsetAt;
      var peek := PeekAt(tokens, index);
      if peek.kind != IntegerLiteral && peek.kind != RegisterLiteral {
        return Err(SyntaxError(peek));
      }
      var at := index;
      if peek.kind == IntegerLiteral {
        var _ := Expect(IntegerLiteral);
        var close := Expect(RightBracket);
        if close.Err? {
          return Err(close.error);
        }
        return Ok(IROffset(LiteralOffset, IntegerOf(tokens, at), sign));
      }
      var _ := Expect(RegisterLiteral);
      var close := Expect(RightBracket);
      if close.Err? {
        return Err(close.error);
      }
      return Ok(IROffset(RegisterOffset, C.RegisterCode(RegisterOf(tokens, at)), sign));
    }

    method ParseOperand() returns (r: Result<IROperand, ParseError>)
      requires Valid()
      modifies this
      ensures tokens == old(tokens)
      ensures Tracks(r, OperandAt(tokens, old(index)), index)
    {
      hide OffsetAt, IntegerOf, RegisterOf, OperandsFrom, InstructionAt, ConstDefinitionAt, ProgramFrom;
      var at := index;
      var value := OperandValueAt(tokens, index);
      if value.None? {
        return Err(SyntaxError(PeekAt(tokens, index)));
      }
      var token := Expect(PeekAt(tokens, index).kind);
      var operand := IROperand(value.value, None, tokens[at]);
      if NextIs(tokens, index, LeftBracket) {
        var offset := ParseOffset();
        if offset.Err? {
          return Err(offset.error);
        }
        operand := operand.(offset := Some(offset.value));
      }
      return Ok(operand);
    }

    method ParseInstruction() returns (r: Result<IRNode, ParseError>)
      requires Valid()
      modifies this
      ensures tokens == old(tokens)
      ensures Tracks(r, InstructionAt(tokens, old(index)), index)
    {
      hide OperandAt, OffsetAt, ProgramFrom, ConstDefinitionAt;
      var mnemonic := Expect(Instruction);
      if mnemonic.Err? {
        return Err(mnemonic.error);
      }
      var name := mnemonic.value.value;
      if C.InstructionByName(name).None? {
        return Err(SyntaxError(mnemonic.value));
      }
      C.InstructionTableAgrees(name);
      SkipWhiteSpace();
      var start := index;
      var operands: seq<IROperand> := [];
      PrependOperandsNothing(OperandsFrom(tokens, start));
      while !NextIs(tokens, index, Newline) && !NextIs(tokens, index, Eof)
        invariant Valid() && tokens == old(tokens) && index < |tokens|
        invariant OperandsFrom(tokens, start) == PrependOperands(operands, OperandsFrom(tokens, index))
        decreases |tokens| - index
      {
        ghost var at := index;
        var operand := ParseOperand();
        if operand.Err? {
          return Err(operand.error);
        }
        SkipWhiteSpace();
        PrependOperandsTwice(operands, [operand.value], OperandsFrom(tokens, index));
        operands := operands + [operand.value];
      }
      assert OperandsFrom(tokens, index) == Ok(([], index));
      assert operands + [] == operands;
      return Ok(InstructionNode(C.OpcodeByName(name).value, operands, mnemonic.value));
    }

    method Run(newTokens: seq<Token>) returns (r: Result<seq<IRNode>, ParseError>)
      requires LexerOutput(newTokens)
      modifies this
      ensures tokens == newTokens
      ensures r == ProgramFrom(newTokens, old(index))
    {
      tokens := newTokens;
      ghost var start := index;
      var ir: seq<IRNode> := [];
      PrependNothing(ProgramFrom(tokens, start));
      var token := PeekAt(tokens, index);
      while token.kind != Eof
        invariant Valid() && tokens == newTokens && token == PeekAt(tokens, index)
        invariant ProgramFrom(tokens, start) == Prepend(ir, ProgramFrom(tokens, index))
        decreases |tokens| - index
      {
        var nodes := ParseNext(token);
        if nodes.Err? {
          return Err(nodes.error);
        }
        PrependTwice(ir, nodes.value, ProgramFrom(tokens, index));
        ir := ir + nodes.value;
        token := PeekAt(tokens, index);
      }
      ProgramFromCases(tokens, index);
      assert ir + [] == ir;
      return Ok(ir);
    }

    /** One turn of `run()`'s loop on the token `token` at the current
        index: the node it parses, if any, or the error that ends the run. */
    method ParseNext(token: Token) returns (r: Result<seq<IRNode>, ParseError>)
      requires Valid() && token == PeekAt(tokens, index) && token.kind != Eof
      modifies this
      ensures tokens == old(tokens) && Valid()
      ensures r.Ok? ==> old(index) < index && ProgramFrom(tokens, old(index)) == Prepend(r.value, ProgramFrom(tokens, index))
      ensures r.Err? ==> ProgramFrom(tokens, old(index)) == Err(r.error)
    {
      hide InstructionAt, ConstDefinitionAt, OperandsFrom, OperandAt, OffsetAt, NodeWellFormed, InstructionWellFormed, ValueOfToken;
      ProgramFromCases(tokens, index);
      hide ProgramFrom;
      if token.kind == Instruction {
        var node := ParseInstruction();
        if node.Err? {
          return Err(node.error);
        }
        return Ok([node.value]);
      } else if token.kind == Keyword && token.value == "const" {
        var node := ParseConstDefinition();
        if node.Err? {
          return Err(node.error);
        }
        return Ok([node.value]);
      } else if token.kind == Keyword && token.value == "import" {
        var keyword := Expect(Keyword);
        SkipWhiteSpace();
        var file := Expect(StringLiteral);
        if file.Err? {
          return Err(file.error);
        }
        return Ok([ImportNode(file.value.value, token)]);
      } else if token.kind == LabelDefinition {
        var _ := Expect(LabelDefinition);
        return Ok([LabelDefinitionNode(token.value, token)]);
      } else if token.kind == Comment || token.kind == Newline || token.kind == Whitespace {
        index := index + 1;
        PrependNothing(ProgramFrom(tokens, index));
        return Ok([]);
      } else {
        return Err(SyntaxError(token));
      }
    }

    /** The `const` branch of `run()`. */
    method ParseConstDefinition() returns (r: Result<IRNode, ParseError>)
      requires Valid()
      modifies this
      ensures tokens == old(tokens)
      ensures Tracks(r, ConstDefinitionAt(tokens, old(index)), index)
    {
      var keyword := Expect(Keyword);
      if keyword.Err? {
        return Err(keyword.error);
      }
      SkipWhiteSpace();
      var name := Expect(Identifier);
      if name.Err? {
        return Err(name.error);
      }
      SkipWhiteSpace();
      var equals := Expect(Equals);
      if equals.Err? {
        return Err(equals.error);
      }
      SkipWhiteSpace();
      var value := ParseOperand();
      if value.Err? {
        return Err(value.error);
      }
      if value.value.value.ConstRef? {
        return Err(TypeError(value.value.token, ConstInConstMessage));
      }
      return Ok(ConstDefinitionNode(name.value.value, value.value, keyword.value));
    }
  }

  /** Prepends operands to an operand-loop result. */
  function PrependOperands(ops: seq<IROperand>, r: Parsed<seq<IROperand>>): Parsed<seq<IROperand>> {
    match r
    case Ok((rest, j)) => Ok((ops + rest, j))
    case Err(e) => Err(e)
  }

  lemma PrependOperandsNothing(r: Parsed<seq<IROperand>>)
    ensures PrependOperands([], r) == r
  {
    if r.Ok? {
      assert [] + r.value.0 == r.value.0;
    }
  }

  lemma PrependNothing(r: Result<seq<IRNode>, ParseError>)
    ensures Prepend([], r) == r
  {
    if r.Ok? {
      assert [] + r.value == r.value;
    }
  }

  lemma PrependOperandsTwice(a: seq<IROperand>, b: seq<IROperand>, r: Parsed<seq<IROperand>>)
    ensures PrependOperands(a, PrependOperands(b, r)) == PrependOperands(a + b, r)
  {
    if r.Ok? {
      assert a + (b + r.value.0) == (a + b) + r.value.0;
    }
  }

  lemma PrependTwice(a: seq<IRNode>, b: seq<IRNode>, r: Result<seq<IRNode>, ParseError>)
    ensures Prepend(a, Prepend(b, r)) == Prepend(a + b, r)
  {
    if r.Ok? {
      assert a + (b + r.value) == (a + b) + r.value;
    }
  }
}
