/** The inverse direction of the parser: the token stream a syntax tree is
    read from. It exists to state what the parser recovers (the round trip in
    `RoundTrip`), and spells punctuation and keywords with placeholder text,
    since the parser reads only their kinds. */
module Printer {
  import opened Tokens
  import opened Ast

  /** The kind the lexer gives to each operator's text. */
  type OperatorKinds = string -> TokenType

  function LiteralKind(t: ValueType): TokenType {
    match t
    case Int => IntegerLiteral
    case Float => FloatLiteral
    case String => StringLiteral
    case Char => CharLiteral
  }

  function NodeTokens(n: Node, opKind: OperatorKinds): (ts: seq<Token>)
    ensures |ts| >= 1
    decreases n, 1
  {
    match n
    case IdentifierExpr(name) => [Token(Identifier, name)]
    case Literal(t, text) => [Token(LiteralKind(t), text)]
    case Garbage(token) => [token]
    case Call(callee, args) => [Token(Identifier, callee)] + CallTokens(args, opKind)
    case Binary(left, op, right) => NodeTokens(left, opKind) + [Token(opKind(op), op)] + NodeTokens(right, opKind)
    case Assign(target, rhs) => [Token(Identifier, target), Token(Assignment, "=")] + NodeTokens(rhs, opKind)
    case If(condition, body, elseBody) =>
      [Token(KeywordIf, "if")] + NodeTokens(condition, opKind) + BlockTokens(body, opKind) + ElseTokens(elseBody, opKind)
    case Return(value) => [Token(KeywordReturn, "return")] + NodeTokens(value, opKind)
  }

  /** The argument list of a call, parenthesised. */
  function CallTokens(args: seq<Node>, opKind: OperatorKinds): seq<Token>
    decreases args, 1
  {
    [Token(OpenParenthesis, "(")] + NodesTokens(args, opKind) + [Token(CloseParenthesis, ")")]
  }

  /** Nodes back to back, with no separator. */
  function NodesTokens(ns: seq<Node>, opKind: OperatorKinds): seq<Token>
    decreases ns, 0
  {
    if |ns| == 0 then [] else NodeTokens(ns[0], opKind) + NodesTokens(ns[1..], opKind)
  }

  function BlockTokens(b: Block, opKind: OperatorKinds): seq<Token>
    decreases b, 1
  {
    [Token(OpenScope, "{")] + NodesTokens(b.statements, opKind) + [Token(CloseScope, "}")]
  }

  function ElseTokens(elseBody: Option<Block>, opKind: OperatorKinds): seq<Token>
    decreases elseBody, 2
  {
    match elseBody
    case None => []
    case Some(b) => [Token(KeywordElse, "else")] + BlockTokens(b, opKind)
  }

  function ParameterTokens(ps: seq<Parameter>): (ts: seq<Token>)
    ensures |ts| == 2 * |ps|
  {
    if |ps| == 0 then []
    else [Token(Identifier, ps[0].first), Token(Identifier, ps[0].second)] + ParameterTokens(ps[1..])
  }

  /** `func NAME ( ... )`: the part `ParseFuncHeader` reads. */
  function HeaderTokens(name: string, ps: seq<Parameter>): seq<Token> {
    [Token(KeywordFunc, "func")] + [Token(Identifier, name)] + [Token(OpenParenthesis, "(")]
      + ParameterTokens(ps) + [Token(CloseParenthesis, ")")]
  }

  function FunctionTokens(f: FunctionDecl, opKind: OperatorKinds): seq<Token> {
    HeaderTokens(f.name, f.parameters) + BlockTokens(f.body, opKind)
  }

  function FunctionsTokens(fs: seq<FunctionDecl>, opKind: OperatorKinds): seq<Token> {
    if |fs| == 0 then [] else FunctionTokens(fs[0], opKind) + FunctionsTokens(fs[1..], opKind)
  }

  /** The kinds that end an expression in a printed program (what follows it:
      an argument, `)`, `{`, a statement, `}`) are not binary operators, and
      neither is `(`, so an operator is never read as the start of a call. */
  predicate Delimiting(isBinary: BinaryTest) {
    && !isBinary(Identifier) && !isBinary(IntegerLiteral) && !isBinary(FloatLiteral) && !isBinary(StringLiteral)
    && !isBinary(OpenParenthesis) && !isBinary(CloseParenthesis)
    && !isBinary(OpenScope) && !isBinary(CloseScope)
    && !isBinary(KeywordIf) && !isBinary(KeywordReturn)
  }

  /** An operator test under which printed programs read back unambiguously. */
  type DelimitingTest = isBinary: BinaryTest | Delimiting(isBinary) witness (k: TokenType) => false

  /** Terms whose tokens read back as themselves: no char literal (the parser
      never builds one), and a garbage token that starts no other form, is not
      a bracket and is not an operator. */
  predicate PrintableTerm(n: Node, isBinary: BinaryTest, opKind: OperatorKinds)
    decreases n, 0
  {
    match n
    case IdentifierExpr(_) => true
    case Literal(t, _) => t != Char
    case Garbage(tok) =>
      !StartsTerm(tok.kind) && tok.kind != OpenParenthesis && tok.kind != CloseParenthesis && !isBinary(tok.kind)
    case Call(_, args) => PrintableArgs(args, isBinary, opKind)
    case _ => false
  }

  predicate PrintableExpr(n: Node, isBinary: BinaryTest, opKind: OperatorKinds)
    decreases n, 1
  {
    || PrintableTerm(n, isBinary, opKind)
    || (n.Binary? && PrintableTerm(n.left, isBinary, opKind) && PrintableTerm(n.right, isBinary, opKind)
        && isBinary(opKind(n.op)))
  }

  /** Every argument of a call is printable. */
  predicate PrintableArgs(args: seq<Node>, isBinary: BinaryTest, opKind: OperatorKinds)
    decreases args, 2
  {
    |args| == 0 || (PrintableExpr(args[0], isBinary, opKind) && PrintableArgs(args[1..], isBinary, opKind))
  }

  predicate PrintableStmt(n: Node, isBinary: BinaryTest, opKind: OperatorKinds)
    decreases n
  {
    match n
    case Call(_, args) => PrintableArgs(args, isBinary, opKind)
    case Assign(_, rhs) => PrintableStmt(rhs, isBinary, opKind)
    case If(c, body, elseBody) =>
      && PrintableExpr(c, isBinary, opKind)
      && PrintableBlock(body, isBinary, opKind)
      && (elseBody.Some? ==> PrintableBlock(elseBody.value, isBinary, opKind))
    case Return(v) => PrintableExpr(v, isBinary, opKind)
    case _ => false
  }

  predicate PrintableBlock(b: Block, isBinary: BinaryTest, opKind: OperatorKinds)
    decreases b, 1
  {
    PrintableStmts(b.statements, isBinary, opKind)
  }

  predicate PrintableStmts(ss: seq<Node>, isBinary: BinaryTest, opKind: OperatorKinds)
    decreases ss, 0
  {
    |ss| == 0 || (PrintableStmt(ss[0], isBinary, opKind) && PrintableStmts(ss[1..], isBinary, opKind))
  }

  predicate PrintableFunctions(fs: seq<FunctionDecl>, isBinary: BinaryTest, opKind: OperatorKinds) {
    |fs| == 0 || (PrintableBlock(fs[0].body, isBinary, opKind) && PrintableFunctions(fs[1..], isBinary, opKind))
  }

  /** A program every one of whose statements prints to tokens that read back
      as itself. */
  predicate Printable(p: Program, isBinary: BinaryTest, opKind: OperatorKinds) {
    PrintableFunctions(p.functions, isBinary, opKind)
  }
}
