/** The lexer's output as the IR generator consumes it: a sequence of
    typed tokens that ends in an `eof` token. The lexer itself is not part
    of this model; a token list stands for its result. */
module Tokens {
  import opened Wrappers
  import C = CoreOpcode
  import N = Numbers

  /** The token types the lexer rules declare, plus the `const`, `string`
      and `eof` types the IR generator also expects. */
  datatype TokenType =
    | Whitespace | Comment
    | LeftBracket | RightBracket | PlusSign | MinusSign | Equals
    | Keyword | Instruction
    | LabelDefinition | Label | ConstName
    | RegisterLiteral | IntegerLiteral
    | Identifier | StringLiteral
    | Newline | Eof

  datatype Token = Token(kind: TokenType, value: string, filename: string, line: nat, col: nat)

  /** What the lexer guarantees: the list ends in `eof`, every integer
      literal is a well-formed `0x`/`0b`/decimal literal and every register
      literal is a register name. */
  predicate LexerOutput(tokens: seq<Token>) {
    tokens != [] && tokens[|tokens| - 1].kind == Eof
    && (forall k :: 0 <= k < |tokens| && tokens[k].kind == IntegerLiteral ==> N.ParseNumber(tokens[k].value).Some?)
    && (forall k :: 0 <= k < |tokens| && tokens[k].kind == RegisterLiteral ==> C.RegisterByName(tokens[k].value).Some?)
  }
}
