/** Whole parses of small programs. The lexer is not part of this model, so
    each program is given as its token stream. A successful parse needs one
    more token after the last one it consumes, since `NextToken` reads one
    token ahead; that token may be of any kind the lemma allows. */
module Scenarios {
  import opened Tokens
  import opened Ast
  import opened Diagnostics
  import opened Parser
  import opened ParserProperties

  /** `func NAME X )` at the start of a stream with more to come is a header
      with no parameters. Whatever token `X` stands where `(` belongs, it is
      consumed; it is logged only when it is not `(`. */
  lemma EmptyHeader(toks: seq<Token>, name: string)
    requires |toks| > 4
    requires toks[0].kind == KeywordFunc && toks[1] == Token(Identifier, name)
    requires toks[3].kind == CloseParenthesis
    ensures ParseFuncHeader(toks, 0, []) == Success((name, []), 4, Expect(toks[2], OpenParenthesis, InFuncDecl))
  {
    var none: Log := [];
    var l := Expect(toks[2], OpenParenthesis, InFuncDecl);
    assert EatToken(toks, 0, none, KeywordFunc, InFuncDecl) == Success((), 1, none);
    assert EatIdentifier(toks, 1, none, InFuncDecl) == Success(name, 2, none);
    assert EatToken(toks, 2, none, OpenParenthesis, InFuncDecl) == Success((), 3, l);
    assert ParseParameters(toks, 3, l, []) == Success([], 3, l);
    assert EatToken(toks, 3, l, CloseParenthesis, InFuncDecl) == Success((), 4, l);
  }

  /** A block `{ return LITERAL }` holding an integer literal is read without
      adding to the log, provided `}` is not a binary operator. */
  lemma ReturnLiteralBlock(toks: seq<Token>, k: nat, log: Log, text: string, isBinary: BinaryTest)
    requires k + 4 < |toks| && !isBinary(CloseScope)
    requires toks[k].kind == OpenScope && toks[k + 1].kind == KeywordReturn
    requires toks[k + 2] == Token(IntegerLiteral, text) && toks[k + 3].kind == CloseScope
    ensures ParseBlock(toks, k, log, isBinary) == Success(Block([Return(Literal(Int, text))]), k + 4, log)
  {
    var value := Literal(Int, text);
    assert EatToken(toks, k + 1, log, KeywordReturn, InReturn) == Success((), k + 2, log + []);
    assert log + [] == log;
    assert ParseUnaryExpression(toks, k + 2, log, isBinary) == Success(value, k + 3, log);
    assert ParseExpression(toks, k + 2, log, isBinary) == Success(value, k + 3, log);
    assert ParseReturn(toks, k + 1, log, isBinary) == Success(Return(value), k + 3, log);
    assert ParseStatement(toks, k + 1, log, isBinary) == Success(Return(value), k + 3, log);
    var none: seq<Node> := [];
    assert none + [Return(value)] == [Return(value)];
    assert ParseStatements(toks, k + 3, log, [Return(value)], isBinary) == Success([Return(value)], k + 3, log);
    assert ParseStatements(toks, k + 1, log, none, isBinary) == Success([Return(value)], k + 3, log);
  }

  /** A stream that opens with one declaration and then holds no further
      `func` is a program of that declaration alone, with the declaration's log. */
  lemma SingleDeclaration(toks: seq<Token>, f: FunctionDecl, e: nat, log: Log, isBinary: BinaryTest)
    requires 0 < |toks| && toks[0].kind == KeywordFunc
    requires ParseFuncDecleration(toks, 0, [], isBinary) == Success(f, e, log)
    requires e < |toks| && toks[e].kind != KeywordFunc
    ensures Parse(toks, isBinary) == Success(Program([f]), e, log)
  {
    var none: seq<FunctionDecl> := [];
    assert none + [f] == [f];
    assert ParseFunctions(toks, e, log, [f], isBinary) == Success(Program([f]), e, log);
  }

  /** `func main() { return 1 }` is one declaration, named `main`, with no
      parameters and a body returning the integer literal `1`; nothing is
      logged. This needs only that `}` is not a binary operator. */
  lemma MainReturnsOne(toks: seq<Token>, isBinary: BinaryTest)
    requires |toks| == 9 && !isBinary(CloseScope)
    requires toks[0].kind == KeywordFunc && toks[1] == Token(Identifier, "main")
    requires toks[2].kind == OpenParenthesis && toks[3].kind == CloseParenthesis
    requires toks[4].kind == OpenScope && toks[5].kind == KeywordReturn
    requires toks[6] == Token(IntegerLiteral, "1") && toks[7].kind == CloseScope
    requires toks[8].kind != KeywordFunc
    ensures Parse(toks, isBinary)
      == Success(Program([FunctionDecl("main", [], Block([Return(Literal(Int, "1"))]))]), 8, [])
  {
    var f := FunctionDecl("main", [], Block([Return(Literal(Int, "1"))]));
    EmptyHeader(toks, "main");
    ReturnLiteralBlock(toks, 4, [], "1", isBinary);
    assert ParseFuncDecleration(toks, 0, [], isBinary) == Success(f, 8, []);
    SingleDeclaration(toks, f, 8, [], isBinary);
  }

  /** `func main X ) { return 1 }` with `X` not `(`: the wrong token is
      logged once, in place of `(`, and the rest reads exactly as
      `func main() { return 1 }` does. */
  lemma MissingOpenIsLogged(toks: seq<Token>, isBinary: BinaryTest)
    requires |toks| == 9 && !isBinary(CloseScope)
    requires toks[0].kind == KeywordFunc && toks[1] == Token(Identifier, "main")
    requires toks[2].kind != OpenParenthesis && toks[3].kind == CloseParenthesis
    requires toks[4].kind == OpenScope && toks[5].kind == KeywordReturn
    requires toks[6] == Token(IntegerLiteral, "1") && toks[7].kind == CloseScope
    requires toks[8].kind != KeywordFunc
    ensures Parse(toks, isBinary)
      == Success(Program([FunctionDecl("main", [], Block([Return(Literal(Int, "1"))]))]), 8,
                 [Mismatch(OpenParenthesis, toks[2], InFuncDecl)])
  {
    var f := FunctionDecl("main", [], Block([Return(Literal(Int, "1"))]));
    var l := [Mismatch(OpenParenthesis, toks[2], InFuncDecl)];
    EmptyHeader(toks, "main");
    ReturnLiteralBlock(toks, 4, l, "1", isBinary);
    assert ParseFuncDecleration(toks, 0, [], isBinary) == Success(f, 8, l);
    SingleDeclaration(toks, f, 8, l, isBinary);
  }

  /** `func f() { 123 }`: a literal cannot start a statement, so the parse
      aborts at it, before anything is logged. */
  lemma LiteralStatementIsFatal(toks: seq<Token>, isBinary: BinaryTest)
    requires |toks| == 8
    requires toks[0].kind == KeywordFunc && toks[1] == Token(Identifier, "f")
    requires toks[2].kind == OpenParenthesis && toks[3].kind == CloseParenthesis
    requires toks[4].kind == OpenScope && toks[5].kind == IntegerLiteral && toks[6].kind == CloseScope
    ensures Parse(toks, isBinary) == Fatal(UnhandledStatement(IntegerLiteral), [])
  {
    EmptyHeader(toks, "f");
    assert ParseStatements(toks, 5, [], [], isBinary) == Fatal(UnhandledStatement(IntegerLiteral), []);
    assert ParseBlock(toks, 4, [], isBinary) == Fatal(UnhandledStatement(IntegerLiteral), []);
    assert ParseFuncDecleration(toks, 0, [], isBinary) == Fatal(UnhandledStatement(IntegerLiteral), []);
  }

  /** `func f() { y = 5 }`: the right-hand side of `=` is read as a
      statement, and a literal cannot start one, so the parse aborts at it. */
  lemma AssignLiteralIsFatal(toks: seq<Token>, isBinary: BinaryTest)
    requires |toks| == 10
    requires toks[0].kind == KeywordFunc && toks[1] == Token(Identifier, "f")
    requires toks[2].kind == OpenParenthesis && toks[3].kind == CloseParenthesis
    requires toks[4].kind == OpenScope && toks[5] == Token(Identifier, "y") && toks[6].kind == Assignment
    requires toks[7].kind == IntegerLiteral && toks[8].kind == CloseScope
    ensures Parse(toks, isBinary) == Fatal(UnhandledStatement(IntegerLiteral), [])
  {
    AssignmentFatalBlock(toks, isBinary, UnhandledStatement(IntegerLiteral));
  }

  /** `func f() { y = x }`: the identifier after `=` starts a statement, which
      then needs `(` or `=` and finds `}`, so the parse aborts there. */
  lemma AssignIdentifierIsFatal(toks: seq<Token>, isBinary: BinaryTest)
    requires |toks| == 10
    requires toks[0].kind == KeywordFunc && toks[1] == Token(Identifier, "f")
    requires toks[2].kind == OpenParenthesis && toks[3].kind == CloseParenthesis
    requires toks[4].kind == OpenScope && toks[5] == Token(Identifier, "y") && toks[6].kind == Assignment
    requires toks[7] == Token(Identifier, "x") && toks[8].kind == CloseScope
    ensures Parse(toks, isBinary) == Fatal(UnhandledIdentifierTail(CloseScope), [])
  {
    assert EatIdentifier(toks, 7, [], InStatement) == Success("x", 8, []);
    AssignmentFatalBlock(toks, isBinary, UnhandledIdentifierTail(CloseScope));
  }

  /** `func f() { y = ... }` aborts as its right-hand side statement does. */
  lemma AssignmentFatalBlock(toks: seq<Token>, isBinary: BinaryTest, error: Abort)
    requires |toks| == 10
    requires toks[0].kind == KeywordFunc && toks[1] == Token(Identifier, "f")
    requires toks[2].kind == OpenParenthesis && toks[3].kind == CloseParenthesis
    requires toks[4].kind == OpenScope && toks[5] == Token(Identifier, "y") && toks[6].kind == Assignment
    requires ParseStatement(toks, 7, [], isBinary) == Fatal(error, [])
    ensures Parse(toks, isBinary) == Fatal(error, [])
  {
    EmptyHeader(toks, "f");
    AssignmentTakesStatement(toks, 5, [], isBinary);
    assert ParseStatements(toks, 5, [], [], isBinary) == Fatal(error, []);
    assert ParseBlock(toks, 4, [], isBinary) == Fatal(error, []);
    assert ParseFuncDecleration(toks, 0, [], isBinary) == Fatal(error, []);
  }

  /** The parameter loop of `func f( { }` reads `{ }` as a pair, logging
      both, then runs off the end of the stream reading the next pair. */
  lemma MissingCloseParameters(toks: seq<Token>, log: Log)
    requires |toks| == 6 && toks[3].kind == OpenScope && toks[4].kind == CloseScope
    requires toks[5].kind != CloseParenthesis
    ensures ParseParameters(toks, 3, log, [])
      == Fatal(OutOfRange(6), log + [Mismatch(Identifier, toks[3], InFuncDecl), Mismatch(Identifier, toks[4], InFuncDecl)])
  {
    var l1 := log + [Mismatch(Identifier, toks[3], InFuncDecl)];
    var l2 := l1 + [Mismatch(Identifier, toks[4], InFuncDecl)];
    assert EatIdentifier(toks, 3, log, InFuncDecl) == Success(toks[3].value, 4, l1);
    assert EatIdentifier(toks, 4, l1, InFuncDecl) == Success(toks[4].value, 5, l2);
    assert ParseParameters(toks, 5, l2, [Parameter(toks[3].value, toks[4].value)]) == Fatal(OutOfRange(6), l2);
    assert l2 == log + [Mismatch(Identifier, toks[3], InFuncDecl), Mismatch(Identifier, toks[4], InFuncDecl)];
  }

  /** `func f( { }`: both brackets are logged as mismatches, and then the
      parse aborts instead of producing a declaration. */
  lemma MissingCloseRunsOff(toks: seq<Token>, isBinary: BinaryTest)
    requires |toks| == 6
    requires toks[0].kind == KeywordFunc && toks[1] == Token(Identifier, "f") && toks[2].kind == OpenParenthesis
    requires toks[3].kind == OpenScope && toks[4].kind == CloseScope && toks[5].kind != CloseParenthesis
    ensures Parse(toks, isBinary)
      == Fatal(OutOfRange(6), [Mismatch(Identifier, toks[3], InFuncDecl), Mismatch(Identifier, toks[4], InFuncDecl)])
  {
    var none: Log := [];
    var l2 := [Mismatch(Identifier, toks[3], InFuncDecl), Mismatch(Identifier, toks[4], InFuncDecl)];
    assert EatToken(toks, 0, none, KeywordFunc, InFuncDecl) == Success((), 1, none);
    assert EatIdentifier(toks, 1, none, InFuncDecl) == Success("f", 2, none);
    assert EatToken(toks, 2, none, OpenParenthesis, InFuncDecl) == Success((), 3, none);
    MissingCloseParameters(toks, none);
    assert none + l2 == l2;
    assert ParseFuncHeader(toks, 0, none) == Fatal(OutOfRange(6), l2);
    assert ParseFuncDecleration(toks, 0, none, isBinary) == Fatal(OutOfRange(6), l2);
  }
}
