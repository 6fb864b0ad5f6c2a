/** The tokens the parser consumes. The lexer is not part of this model: a token
    stream is an input, and only the parts of a token the parser reads (its kind
    and its text) are kept. */
module Tokens {

  /** Token kinds. The parser names the kinds below; every other kind
      (operators among them) is an `Other` kind. */
  datatype TokenType =
    | KeywordFunc | KeywordIf | KeywordElse | KeywordReturn
    | Identifier
    | IntegerLiteral | FloatLiteral | StringLiteral | CharLiteral
    | OpenParenthesis | CloseParenthesis | OpenScope | CloseScope
    | Assignment
    | Other(name: string)

  datatype Token = Token(kind: TokenType, value: string)

  /** `TokenHelper.IsBinaryToken`: which kinds are binary operators. Its
      definition is not part of this model, so every rule takes it as a
      parameter and nothing is assumed about it. */
  type BinaryTest = TokenType -> bool

  /** The kinds `ParseUnaryExpression` turns into an identifier, a call or a literal. */
  predicate StartsTerm(k: TokenType) {
    k == Identifier || k == IntegerLiteral || k == FloatLiteral || k == StringLiteral
  }

  /** The kinds `ParseStatement` accepts. */
  predicate StartsStatement(k: TokenType) {
    k == Identifier || k == KeywordIf || k == KeywordReturn
  }
}
