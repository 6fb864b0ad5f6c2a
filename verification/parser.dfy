/** The recursive-descent parser of `IBlang/Stage2Parser/Parser.cs`.

    Every rule is a function of the token array, the cursor `i` and the log so
    far. The source's only state is the cursor, which it moves forward one token
    at a time, and an error log it only appends to; here both are threaded
    explicitly. The source keeps the invariant that the cursor indexes a token
    (it reads `tokens[currentTokenIndex]` each time the cursor moves), so every
    rule requires `i < |toks|`. Moving past the last token is the source's
    `IndexOutOfRangeException` and is `Fatal(OutOfRange(_))` here. */
module Parser {
  import opened Tokens
  import opened Ast
  import opened Diagnostics

  /** A rule that succeeds consumes at least one token and leaves the cursor on
      a token; whatever it does, it only appends to the log. */
  predicate Advances<T>(toks: seq<Token>, i: nat, log: Log, r: Outcome<T>) {
    log <= r.log && (r.Success? ==> i < r.next < |toks|)
  }

  /** A list rule may consume nothing, but never moves the cursor back. */
  predicate Proceeds<T>(toks: seq<Token>, i: nat, log: Log, r: Outcome<T>) {
    log <= r.log && (r.Success? ==> i <= r.next < |toks|)
  }

  /** Parses function declarations for as long as the lookahead is `func`. */
  function Parse(toks: seq<Token>, isBinary: BinaryTest): (r: Outcome<Program>)
    ensures |toks| == 0 ==> r == Fatal(OutOfRange(0), [])
    ensures r.Success? ==> WellFormed(r.value)
    ensures r.Success? ==> r.next < |toks| && toks[r.next].kind != KeywordFunc
    ensures 0 < |toks| && toks[0].kind != KeywordFunc ==> r == Success(Program([]), 0, [])
  {
    if |toks| == 0 then Fatal(OutOfRange(0), [])
    else ParseFunctions(toks, 0, [], [], isBinary)
  }

  /** The loop of `Parse`: `acc` holds the declarations parsed so far, in order. */
  function ParseFunctions(toks: seq<Token>, i: nat, log: Log, acc: seq<FunctionDecl>, isBinary: BinaryTest)
    : (r: Outcome<Program>)
    requires i < |toks|
    requires forall f | f in acc :: IsBlock(f.body)
    ensures Proceeds(toks, i, log, r)
    ensures r.Success? ==> toks[r.next].kind != KeywordFunc
    ensures r.Success? ==> acc <= r.value.functions && WellFormed(r.value)
    ensures toks[i].kind != KeywordFunc ==> r == Success(Program(acc), i, log)
    decreases |toks| - i
  {
    if toks[i].kind == KeywordFunc then
      var (f, j, l) :- ParseFuncDecleration(toks, i, log, isBinary);
      ParseFunctions(toks, j, l, acc + [f], isBinary)
    else
      Success(Program(acc), i, log)
  }

  /** `func NAME ( {IDENT IDENT} ) BLOCK` */
  function ParseFuncDecleration(toks: seq<Token>, i: nat, log: Log, isBinary: BinaryTest)
    : (r: Outcome<FunctionDecl>)
    requires i < |toks|
    ensures Advances(toks, i, log, r)
    ensures r.Success? ==> r.value.name == toks[i + 1].value
    ensures r.Success? ==> IsBlock(r.value.body) && toks[r.next - 1].kind == CloseScope
  {
    var (header, p, l) :- ParseFuncHeader(toks, i, log);
    var (body, q, l2) :- ParseBlock(toks, p, l, isBinary);
    Success(FunctionDecl(header.0, header.1, body), q, l2)
  }

  /** The part of a declaration before its body: `func NAME ( {IDENT IDENT} )`,
      giving the name and the parameters. */
  function ParseFuncHeader(toks: seq<Token>, i: nat, log: Log): (r: Outcome<(string, seq<Parameter>)>)
    requires i < |toks|
    ensures Advances(toks, i, log, r)
    ensures r.Success? ==> r.value.0 == toks[i + 1].value
    ensures r.Success? ==> toks[r.next - 1].kind == CloseParenthesis
  {
    var (_, j, l) :- EatToken(toks, i, log, KeywordFunc, InFuncDecl);
    var (name, k, l2) :- EatIdentifier(toks, j, l, InFuncDecl);
    var (_, m, l3) :- EatToken(toks, k, l2, OpenParenthesis, InFuncDecl);
    var (parameters, n, l4) :- ParseParameters(toks, m, l3, []);
    var (_, p, l5) :- EatToken(toks, n, l4, CloseParenthesis, InFuncDecl);
    Success((name, parameters), p, l5)
  }

  /** The parameter loop: pairs of identifiers until the lookahead is `)`. */
  function ParseParameters(toks: seq<Token>, i: nat, log: Log, acc: seq<Parameter>)
    : (r: Outcome<seq<Parameter>>)
    requires i < |toks|
    ensures Proceeds(toks, i, log, r)
    ensures r.Fatal? ==> r.error.OutOfRange?
    ensures r.Success? ==> acc <= r.value
    ensures r.Success? ==> toks[r.next].kind == CloseParenthesis
    decreases |toks| - i
  {
    if toks[i].kind == CloseParenthesis then
      Success(acc, i, log)
    else
      var (first, j, l) :- EatIdentifier(toks, i, log, InFuncDecl);
      var (second, k, l2) :- EatIdentifier(toks, j, l, InFuncDecl);
      ParseParameters(toks, k, l2, acc + [Parameter(first, second)])
  }

  /** `{ {STATEMENT} }` */
  function ParseBlock(toks: seq<Token>, i: nat, log: Log, isBinary: BinaryTest): (r: Outcome<Block>)
    requires i < |toks|
    ensures Advances(toks, i, log, r)
    ensures r.Success? ==> IsBlock(r.value) && toks[r.next - 1].kind == CloseScope
    decreases |toks| - i, 0
  {
    var (_, j, l) :- EatToken(toks, i, log, OpenScope, InBlock);
    var (statements, k, l2) :- ParseStatements(toks, j, l, [], isBinary);
    var (_, m, l3) :- EatToken(toks, k, l2, CloseScope, InBlock);
    Success(Block(statements), m, l3)
  }

  /** The statement loop of a block: statements until the lookahead is `}`. */
  function ParseStatements(toks: seq<Token>, i: nat, log: Log, acc: seq<Node>, isBinary: BinaryTest)
    : (r: Outcome<seq<Node>>)
    requires i < |toks|
    requires forall s | s in acc :: IsStmt(s)
    ensures Proceeds(toks, i, log, r)
    ensures r.Success? ==> toks[r.next].kind == CloseScope
    ensures r.Success? ==> acc <= r.value && forall s | s in r.value :: IsStmt(s)
    decreases |toks| - i, 6
  {
    if toks[i].kind == CloseScope then
      Success(acc, i, log)
    else
      var (statement, j, l) :- ParseStatement(toks, i, log, isBinary);
      ParseStatements(toks, j, l, acc + [statement], isBinary)
  }

  /** A statement starts with an identifier, `if` or `return`; anything else aborts. */
  function ParseStatement(toks: seq<Token>, i: nat, log: Log, isBinary: BinaryTest): (r: Outcome<Node>)
    requires i < |toks|
    ensures Advances(toks, i, log, r)
    ensures r.Success? ==> IsStmt(r.value)
    ensures !StartsStatement(toks[i].kind) ==> r == Fatal(UnhandledStatement(toks[i].kind), log)
    ensures r.Success? && toks[i].kind == Identifier ==>
      (r.value.Call? && r.value.callee == toks[i].value) || (r.value.Assign? && r.value.target == toks[i].value)
    ensures r.Success? && toks[i].kind == KeywordIf ==> r.value.If?
    ensures r.Success? && toks[i].kind == KeywordReturn ==> r.value.Return?
    decreases |toks| - i, 5
  {
    match toks[i].kind
    case Identifier =>
      var (name, j, l) :- EatIdentifier(toks, i, log, InStatement);
      ParseIdentifier(toks, j, l, name, isBinary)
    case KeywordIf => ParseIf(toks, i, log, isBinary)
    case KeywordReturn => ParseReturn(toks, i, log, isBinary)
    case _ => Fatal(UnhandledStatement(toks[i].kind), log)
  }

  /** After a statement's leading identifier: a call or an assignment; anything else aborts. */
  function ParseIdentifier(toks: seq<Token>, i: nat, log: Log, name: string, isBinary: BinaryTest)
    : (r: Outcome<Node>)
    requires i < |toks|
    ensures Advances(toks, i, log, r)
    ensures r.Success? ==> IsStmt(r.value)
    ensures r.Success? ==> (r.value.Call? && r.value.callee == name) || (r.value.Assign? && r.value.target == name)
    ensures toks[i].kind != OpenParenthesis && toks[i].kind != Assignment ==>
      r == Fatal(UnhandledIdentifierTail(toks[i].kind), log)
    decreases |toks| - i, 4
  {
    match toks[i].kind
    case OpenParenthesis => ParseFuncCall(toks, i, log, name, isBinary)
    case Assignment => ParseVariableDecleration(toks, i, log, name, isBinary)
    case _ => Fatal(UnhandledIdentifierTail(toks[i].kind), log)
  }

  /** `if EXPRESSION BLOCK [else BLOCK]` */
  function ParseIf(toks: seq<Token>, i: nat, log: Log, isBinary: BinaryTest): (r: Outcome<Node>)
    requires i < |toks|
    ensures Advances(toks, i, log, r)
    ensures r.Success? ==> r.value.If? && IsStmt(r.value)
    ensures r.Success? && r.value.elseBody.None? ==> toks[r.next].kind != KeywordElse
    decreases |toks| - i, 4
  {
    var (head, m, l) :- ParseIfHead(toks, i, log, isBinary);
    ParseElse(toks, m, l, head.0, head.1, isBinary)
  }

  /** The optional `else BLOCK` of an `if` whose then-block ends before `m`. */
  function ParseElse(toks: seq<Token>, m: nat, log: Log, condition: Node, body: Block, isBinary: BinaryTest)
    : (r: Outcome<Node>)
    requires m < |toks| && IsExpr(condition) && IsBlock(body)
    ensures Proceeds(toks, m, log, r)
    ensures r.Success? ==> r.value.If? && IsStmt(r.value)
    ensures r.Success? ==> r.value.condition == condition && r.value.body == body
    ensures r.Success? && r.value.elseBody.None? ==> r.next == m && toks[m].kind != KeywordElse
    ensures r.Success? && r.value.elseBody.Some? ==> toks[m].kind == KeywordElse
    decreases |toks| - m, 0
  {
    if toks[m].kind == KeywordElse then
      var (_, n, l) :- EatToken(toks, m, log, KeywordElse, InIf);
      var (elseBody, p, l2) :- ParseBlock(toks, n, l, isBinary);
      Success(If(condition, body, Some(elseBody)), p, l2)
    else
      Success(If(condition, body, None), m, log)
  }

  /** The part of an `if` before the optional `else`: `if EXPRESSION BLOCK`,
      giving the condition and the then-block. */
  function ParseIfHead(toks: seq<Token>, i: nat, log: Log, isBinary: BinaryTest): (r: Outcome<(Node, Block)>)
    requires i < |toks|
    ensures Advances(toks, i, log, r)
    ensures r.Success? ==> IsExpr(r.value.0) && IsBlock(r.value.1)
    decreases |toks| - i, 3
  {
    var (_, j, l) :- EatToken(toks, i, log, KeywordIf, InIf);
    var (condition, k, l2) :- ParseExpression(toks, j, l, isBinary);
    var (body, m, l3) :- ParseBlock(toks, k, l2, isBinary);
    Success((condition, body), m, l3)
  }

  /** `return EXPRESSION` */
  function ParseReturn(toks: seq<Token>, i: nat, log: Log, isBinary: BinaryTest): (r: Outcome<Node>)
    requires i < |toks|
    ensures Advances(toks, i, log, r)
    ensures r.Success? ==> r.value.Return? && IsExpr(r.value.value)
    ensures r.Fatal? ==> r.error.OutOfRange?
  {
    var (_, j, l) :- EatToken(toks, i, log, KeywordReturn, InReturn);
    var (value, k, l2) :- ParseExpression(toks, j, l, isBinary);
    Success(Return(value), k, l2)
  }

  /** `= STATEMENT`: the right-hand side is a whole statement. */
  function ParseVariableDecleration(toks: seq<Token>, i: nat, log: Log, name: string, isBinary: BinaryTest)
    : (r: Outcome<Node>)
    requires i < |toks|
    ensures Advances(toks, i, log, r)
    ensures r.Success? ==> r.value.Assign? && r.value.target == name && IsStmt(r.value.rhs)
    decreases |toks| - i, 3
  {
    var (_, j, l) :- EatToken(toks, i, log, Assignment, InVariableDecl);
    var (rhs, k, l2) :- ParseStatement(toks, j, l, isBinary);
    Success(Assign(name, rhs), k, l2)
  }

  /** `UNARY [BINARY-OPERATOR UNARY]`: at most one operator, no precedence. */
  function ParseExpression(toks: seq<Token>, i: nat, log: Log, isBinary: BinaryTest): (r: Outcome<Node>)
    requires i < |toks|
    ensures Advances(toks, i, log, r)
    ensures r.Fatal? ==> r.error.OutOfRange?
    ensures r.Success? ==> IsExpr(r.value)
    decreases |toks| - i, 1
  {
    var (left, j, l) :- ParseUnaryExpression(toks, i, log, isBinary);
    if isBinary(toks[j].kind) then
      var (op, k, l2) :- NextToken(toks, j, l);
      var (right, m, l3) :- ParseUnaryExpression(toks, k, l2, isBinary);
      Success(Binary(left, op.value, right), m, l3)
    else
      Success(left, j, l)
  }

  /** One token, always consumed: an identifier (a call when `(` follows), a
      literal, or else a `Garbage` node holding the token. */
  function ParseUnaryExpression(toks: seq<Token>, i: nat, log: Log, isBinary: BinaryTest): (r: Outcome<Node>)
    requires i < |toks|
    ensures Advances(toks, i, log, r)
    ensures r.Fatal? ==> r.error.OutOfRange?
    ensures r.Success? ==> IsTerm(r.value)
    decreases |toks| - i, 0
  {
    var (token, j, l) :- NextToken(toks, i, log);
    match token.kind
    case Identifier =>
      if toks[j].kind == OpenParenthesis then ParseFuncCall(toks, j, l, token.value, isBinary)
      else Success(IdentifierExpr(token.value), j, l)
    case IntegerLiteral => Success(Literal(Int, token.value), j, l)
    case FloatLiteral => Success(Literal(Float, token.value), j, l)
    case StringLiteral => Success(Literal(String, token.value), j, l)
    case _ => Success(Garbage(token), j, l)
  }

  /** `( {EXPRESSION} )` after the callee's name. */
  function ParseFuncCall(toks: seq<Token>, i: nat, log: Log, name: string, isBinary: BinaryTest)
    : (r: Outcome<Node>)
    requires i < |toks|
    ensures Advances(toks, i, log, r)
    ensures r.Fatal? ==> r.error.OutOfRange?
    ensures r.Success? ==> r.value.Call? && r.value.callee == name && IsTerm(r.value)
    ensures r.Success? ==> toks[r.next - 1].kind == CloseParenthesis
    decreases |toks| - i, 3
  {
    var (_, j, l) :- EatToken(toks, i, log, OpenParenthesis, InFuncCall);
    var (args, k, l2) :- ParseArguments(toks, j, l, [], isBinary);
    var (_, m, l3) :- EatToken(toks, k, l2, CloseParenthesis, InFuncCall);
    Success(Call(name, args), m, l3)
  }

  /** The argument loop of a call: expressions, with no separator, until the lookahead is `)`. */
  function ParseArguments(toks: seq<Token>, i: nat, log: Log, acc: seq<Node>, isBinary: BinaryTest)
    : (r: Outcome<seq<Node>>)
    requires i < |toks|
    requires forall a | a in acc :: IsExpr(a)
    ensures Proceeds(toks, i, log, r)
    ensures r.Fatal? ==> r.error.OutOfRange?
    ensures r.Success? ==> toks[r.next].kind == CloseParenthesis
    ensures r.Success? ==> acc <= r.value && forall a | a in r.value :: IsExpr(a)
    decreases |toks| - i, 2
  {
    if toks[i].kind == CloseParenthesis then
      Success(acc, i, log)
    else
      var (argument, j, l) :- ParseExpression(toks, i, log, isBinary);
      ParseArguments(toks, j, l, acc + [argument], isBinary)
  }

  /** Consumes one token, logging a mismatch when it is not of the expected kind. */
  function EatToken(toks: seq<Token>, i: nat, log: Log, expected: TokenType, rule: Rule): (r: Outcome<()>)
    requires i < |toks|
    ensures r.Success? <==> i + 1 < |toks|
    ensures r.Success? ==> r.next == i + 1 && r.log == log + Expect(toks[i], expected, rule)
    ensures r.Fatal? ==> r == Fatal(OutOfRange(i + 1), log)
  {
    var (got, j, l) :- NextToken(toks, i, log);
    Success((), j, l + Expect(got, expected, rule))
  }

  /** Consumes one token, logging a mismatch when it is not an identifier, and
      returns its text either way. */
  function EatIdentifier(toks: seq<Token>, i: nat, log: Log, rule: Rule): (r: Outcome<string>)
    requires i < |toks|
    ensures r.Success? <==> i + 1 < |toks|
    ensures r.Success? ==> r.value == toks[i].value && r.next == i + 1
    ensures r.Success? ==> r.log == log + Expect(toks[i], Identifier, rule)
    ensures r.Fatal? ==> r == Fatal(OutOfRange(i + 1), log)
  {
    var (got, j, l) :- NextToken(toks, i, log);
    Success(got.value, j, l + Expect(got, Identifier, rule))
  }

  /** Returns the token under the cursor and moves the cursor to the next one,
      which it then reads: past the last token that read fails. */
  function NextToken(toks: seq<Token>, i: nat, log: Log): (r: Outcome<Token>)
    requires i < |toks|
    ensures r.Success? <==> i + 1 < |toks|
    ensures r.Success? ==> r.value == toks[i] && r.next == i + 1 && r.log == log
    ensures r.Fatal? ==> r == Fatal(OutOfRange(i + 1), log)
  {
    if i + 1 < |toks| then Success(toks[i], i + 1, log) else Fatal(OutOfRange(i + 1), log)
  }
}
