/** Tokens as the lexer produces them and the parser reads them. */
module Tokens {

  datatype Option<T> = None | Some(value: T)

  /**
    The kinds of a token: those of the lexer's `TokenType` enum, in its
    declaration order (so `Comment` is the enum's default), followed by the
    three kinds the parser tests for that the lexer's enum does not declare.
   */
  datatype TokenType =
    | Comment
    | VariableDeclaration
    | StringVariable
    | BoolVariable
    | IntVariable
    | FloatVariable
    | FunctionDeclaration
    | ExclusiveKeyword
    | IfKeyword
    | ForKeyword
    | ReturnKeyword
    | Identifier
    | Equals
    | MathematicalOperator
    | ComparisonOperator
    | Parenthesis
    | CurlyBrace
    | SquareBracket
    | LineEnding
    | UseKeyword
    | ExternalKeyword
    | Period

  /**
    A token: its kind, its text, and the line the parser reports in its
    diagnostics. The lexer's own token has no line field, so every token the
    lexer builds carries the default line 0.
   */
  datatype Token = Token(tokenType: TokenType, value: string, isOnLine: int)

  /** A token as the lexer builds it. */
  function LexerToken(tokenType: TokenType, value: string): Token {
    Token(tokenType, value, 0)
  }
}
