/** Parsing a printed program gives the program back, with an empty log: the
    parser recovers every tree it can build from the tokens it was built from. */
module RoundTrip {
  import opened Tokens
  import opened Ast
  import opened Diagnostics
  import opened Parser
  import opened Printer

  /** `ts` occurs in `toks` from index `i` on. */
  predicate At(toks: seq<Token>, i: nat, ts: seq<Token>) {
    i + |ts| <= |toks| && toks[i..i + |ts|] == ts
  }

  lemma AtSplit(toks: seq<Token>, i: nat, a: seq<Token>, b: seq<Token>)
    requires At(toks, i, a + b)
    ensures At(toks, i, a) && At(toks, i + |a|, b)
  {
    assert toks[i..i + |a|] == toks[i..i + |a + b|][..|a|];
    assert toks[i + |a|..i + |a| + |b|] == toks[i..i + |a + b|][|a|..];
  }

  /** `AtSplit` with the index where the second part starts given explicitly. */
  lemma AtSplitAt(toks: seq<Token>, i: nat, a: seq<Token>, b: seq<Token>, k: nat)
    requires At(toks, i, a + b) && k == i + |a|
    ensures At(toks, i, a) && At(toks, k, b)
  {
    AtSplit(toks, i, a, b);
  }

  lemma AtFirst(toks: seq<Token>, i: nat, ts: seq<Token>)
    requires At(toks, i, ts) && |ts| > 0
    ensures toks[i] == ts[0]
  {
    assert toks[i] == toks[i..i + |ts|][0];
  }

  lemma AtHead(toks: seq<Token>, i: nat, t: Token, rest: seq<Token>)
    requires At(toks, i, [t] + rest)
    ensures toks[i] == t && At(toks, i + 1, rest)
  {
    AtSplit(toks, i, [t], rest);
    AtFirst(toks, i, [t]);
  }

  /** Three single tokens, a run, and one more token, back to back. */
  lemma AtFrame(toks: seq<Token>, i: nat, a: Token, b: Token, c: Token, mid: seq<Token>, d: Token)
    requires At(toks, i, [a] + [b] + [c] + mid + [d])
    ensures toks[i] == a && toks[i + 1] == b && toks[i + 2] == c
    ensures At(toks, i + 3, mid) && toks[i + 3 + |mid|] == d
  {
    var ts := [a] + [b] + [c] + mid + [d];
    assert ts[0] == a && ts[1] == b && ts[2] == c && ts[3 + |mid|] == d;
    assert forall k | 0 <= k < |mid| :: ts[3 + k] == mid[k];
    assert ts[3..3 + |mid|] == mid;
    assert toks[i..i + |ts|] == ts;
    assert toks[i + 3..i + 3 + |mid|] == toks[i..i + |ts|][3..3 + |mid|];
  }

  lemma AppendFirst<T>(acc: seq<T>, s: seq<T>)
    requires |s| > 0
    ensures acc + [s[0]] + s[1..] == acc + s
  {
  }

  /** What may follow a printed expression: nothing that would extend it into
      a call or a binary expression. */
  predicate EndsExpr(k: TokenType, isBinary: BinaryTest) {
    k != OpenParenthesis && !isBinary(k)
  }

  /** What may follow a printed statement: also not `else`, which would extend
      an `if`. */
  predicate EndsStmt(k: TokenType, isBinary: BinaryTest) {
    EndsExpr(k, isBinary) && k != KeywordElse
  }

  /** A printed expression starts with a token that ends any expression before
      it and does not close an argument list. */
  lemma ExprStart(n: Node, isBinary: DelimitingTest, opKind: OperatorKinds)
    requires PrintableExpr(n, isBinary, opKind)
    ensures EndsExpr(NodeTokens(n, opKind)[0].kind, isBinary)
    ensures NodeTokens(n, opKind)[0].kind != CloseParenthesis
  {
    if n.Binary? {
      assert NodeTokens(n, opKind)[0] == NodeTokens(n.left, opKind)[0];
      assert PrintableTerm(n.left, isBinary, opKind);
      match n.left
      case Call(_, _) =>
      case _ =>
    } else {
      match n
      case Call(_, _) =>
      case _ =>
    }
  }

  /** A printed statement starts with a token that starts a statement. */
  lemma StmtStart(n: Node, isBinary: BinaryTest, opKind: OperatorKinds)
    requires PrintableStmt(n, isBinary, opKind)
    ensures StartsStatement(NodeTokens(n, opKind)[0].kind)
  {
  }

  /* Single unfoldings of the parser rules, each in a context of its own. */

  lemma TermExpressionStep(toks: seq<Token>, i: nat, log: Log, isBinary: BinaryTest, term: Node, j: nat)
    requires i < |toks|
    requires ParseUnaryExpression(toks, i, log, isBinary) == Success(term, j, log)
    requires !isBinary(toks[j].kind)
    ensures ParseExpression(toks, i, log, isBinary) == Success(term, j, log)
  {
  }

  lemma BinaryExpressionStep(toks: seq<Token>, i: nat, log: Log, isBinary: BinaryTest,
                             left: Node, j: nat, right: Node, e: nat)
    requires i < |toks|
    requires ParseUnaryExpression(toks, i, log, isBinary) == Success(left, j, log)
    requires isBinary(toks[j].kind) && j + 1 < |toks|
    requires ParseUnaryExpression(toks, j + 1, log, isBinary) == Success(right, e, log)
    ensures ParseExpression(toks, i, log, isBinary) == Success(Binary(left, toks[j].value, right), e, log)
  {
    assert NextToken(toks, j, log) == Success(toks[j], j + 1, log);
  }

  lemma FuncCallStep(toks: seq<Token>, i: nat, log: Log, name: string, isBinary: BinaryTest, args: seq<Node>, k: nat)
    requires i + 1 < |toks| && toks[i].kind == OpenParenthesis
    requires ParseArguments(toks, i + 1, log, [], isBinary) == Success(args, k, log)
    requires toks[k].kind == CloseParenthesis && k + 1 < |toks|
    ensures ParseFuncCall(toks, i, log, name, isBinary) == Success(Call(name, args), k + 1, log)
  {
    assert EatToken(toks, i, log, OpenParenthesis, InFuncCall) == Success((), i + 1, log);
    assert EatToken(toks, k, log, CloseParenthesis, InFuncCall) == Success((), k + 1, log);
  }

  lemma ArgumentStep(toks: seq<Token>, i: nat, log: Log, acc: seq<Node>, isBinary: BinaryTest, arg: Node, j: nat)
    requires i < |toks| && toks[i].kind != CloseParenthesis
    requires forall a | a in acc :: IsExpr(a)
    requires ParseExpression(toks, i, log, isBinary) == Success(arg, j, log)
    ensures j < |toks| && forall a | a in acc + [arg] :: IsExpr(a)
    ensures ParseArguments(toks, i, log, acc, isBinary) == ParseArguments(toks, j, log, acc + [arg], isBinary)
  {
  }

  lemma {:induction false} TermRoundTrip(n: Node, toks: seq<Token>, i: nat, log: Log, isBinary: DelimitingTest,
                                         opKind: OperatorKinds, e: nat)
    requires PrintableTerm(n, isBinary, opKind)
    requires At(toks, i, NodeTokens(n, opKind)) && e == i + |NodeTokens(n, opKind)|
    requires e < |toks| && toks[e].kind != OpenParenthesis
    ensures ParseUnaryExpression(toks, i, log, isBinary) == Success(n, e, log)
    decreases |NodeTokens(n, opKind)|, 0
  {
    AtFirst(toks, i, NodeTokens(n, opKind));
    match n
    case Call(callee, args) =>
      AtHead(toks, i, Token(Identifier, callee), CallTokens(args, opKind));
      CallRoundTrip(callee, args, toks, i + 1, log, isBinary, opKind, e);
    case _ =>
  }

  lemma {:induction false} CallRoundTrip(callee: string, args: seq<Node>, toks: seq<Token>, i: nat, log: Log,
                                         isBinary: DelimitingTest, opKind: OperatorKinds, e: nat)
    requires PrintableArgs(args, isBinary, opKind)
    requires At(toks, i, CallTokens(args, opKind)) && e == i + |CallTokens(args, opKind)| && e < |toks|
    ensures ParseFuncCall(toks, i, log, callee, isBinary) == Success(Call(callee, args), e, log)
    decreases |CallTokens(args, opKind)|, 3
  {
    var close := i + 1 + |NodesTokens(args, opKind)|;
    CallLayout(args, toks, i, opKind, close, e);
    var none: seq<Node> := [];
    ArgsRoundTrip(args, toks, i + 1, log, none, isBinary, opKind, close);
    assert none + args == args;
    FuncCallStep(toks, i, log, callee, isBinary, args, close);
  }

  /** How the tokens of a printed argument list lie: `(`, the arguments, `)`
      at `close`. */
  lemma CallLayout(args: seq<Node>, toks: seq<Token>, i: nat, opKind: OperatorKinds, close: nat, e: nat)
    requires At(toks, i, CallTokens(args, opKind)) && e == i + |CallTokens(args, opKind)|
    requires close == i + 1 + |NodesTokens(args, opKind)|
    ensures toks[i].kind == OpenParenthesis
    ensures At(toks, i + 1, NodesTokens(args, opKind))
    ensures toks[close].kind == CloseParenthesis && e == close + 1
  {
    var open := [Token(OpenParenthesis, "(")];
    var body := NodesTokens(args, opKind);
    var closing := [Token(CloseParenthesis, ")")];
    AtSplitAt(toks, i, open + body, closing, close);
    AtSplitAt(toks, i, open, body, i + 1);
    AtFirst(toks, i, open);
    AtFirst(toks, close, closing);
  }

  /** A printed non-empty argument list starts as its first argument does. */
  lemma ArgsStart(args: seq<Node>, isBinary: DelimitingTest, opKind: OperatorKinds)
    requires |args| > 0 && PrintableArgs(args, isBinary, opKind)
    ensures |NodesTokens(args, opKind)| > 0
    ensures EndsExpr(NodesTokens(args, opKind)[0].kind, isBinary)
    ensures NodesTokens(args, opKind)[0].kind != CloseParenthesis
  {
    ExprStart(args[0], isBinary, opKind);
    assert NodesTokens(args, opKind)[0] == NodeTokens(args[0], opKind)[0];
  }

  /** How the tokens of a non-empty argument list lie: the first argument, then
      the rest from `j` on, and whatever follows the first argument ends it. */
  lemma ArgsLayout(args: seq<Node>, toks: seq<Token>, i: nat, isBinary: DelimitingTest, opKind: OperatorKinds, j: nat, e: nat)
    requires PrintableArgs(args, isBinary, opKind)
    requires |args| > 0 && At(toks, i, NodesTokens(args, opKind)) && e == i + |NodesTokens(args, opKind)|
    requires e < |toks| && toks[e].kind == CloseParenthesis
    requires j == i + |NodeTokens(args[0], opKind)|
    ensures At(toks, i, NodeTokens(args[0], opKind))
    ensures At(toks, j, NodesTokens(args[1..], opKind))
    ensures e == j + |NodesTokens(args[1..], opKind)|
    ensures toks[i].kind != CloseParenthesis
    ensures EndsExpr(toks[j].kind, isBinary)
    ensures PrintableExpr(args[0], isBinary, opKind) && PrintableArgs(args[1..], isBinary, opKind)
    ensures |NodesTokens(args[1..], opKind)| < |NodesTokens(args, opKind)|
  {
    var first := NodeTokens(args[0], opKind);
    var rest := NodesTokens(args[1..], opKind);
    AtSplitAt(toks, i, first, rest, j);
    ArgsStart(args, isBinary, opKind);
    AtFirst(toks, i, NodesTokens(args, opKind));
    if |args| > 1 {
      ArgsStart(args[1..], isBinary, opKind);
      AtFirst(toks, j, rest);
    } else {
      assert |rest| == 0;
    }
  }

  /** The arguments printed from `i` on, up to the `)` at `e`, read back in
      order. */
  lemma {:induction false} ArgsRoundTrip(args: seq<Node>, toks: seq<Token>, i: nat, log: Log, acc: seq<Node>,
                                         isBinary: DelimitingTest, opKind: OperatorKinds, e: nat)
    requires PrintableArgs(args, isBinary, opKind)
    requires forall a | a in acc :: IsExpr(a)
    requires At(toks, i, NodesTokens(args, opKind)) && e == i + |NodesTokens(args, opKind)|
    requires e < |toks| && toks[e].kind == CloseParenthesis
    ensures ParseArguments(toks, i, log, acc, isBinary) == Success(acc + args, e, log)
    decreases |NodesTokens(args, opKind)|, 3
  {
    if |args| == 0 {
      assert acc + args == acc;
    } else {
      var j := i + |NodeTokens(args[0], opKind)|;
      ArgsHead(args, toks, i, log, acc, isBinary, opKind, j, e);
      ArgsRoundTrip(args[1..], toks, j, log, acc + [args[0]], isBinary, opKind, e);
      AppendFirst(acc, args);
    }
  }

  /** One turn of the argument loop over a printed argument list. */
  lemma {:induction false} ArgsHead(args: seq<Node>, toks: seq<Token>, i: nat, log: Log, acc: seq<Node>,
                                    isBinary: DelimitingTest, opKind: OperatorKinds, j: nat, e: nat)
    requires PrintableArgs(args, isBinary, opKind)
    requires forall a | a in acc :: IsExpr(a)
    requires |args| > 0 && At(toks, i, NodesTokens(args, opKind)) && e == i + |NodesTokens(args, opKind)|
    requires e < |toks| && toks[e].kind == CloseParenthesis
    requires j == i + |NodeTokens(args[0], opKind)|
    ensures j < |toks| && (forall a | a in acc + [args[0]] :: IsExpr(a))
    ensures ParseArguments(toks, i, log, acc, isBinary) == ParseArguments(toks, j, log, acc + [args[0]], isBinary)
    ensures PrintableArgs(args[1..], isBinary, opKind) && At(toks, j, NodesTokens(args[1..], opKind))
    ensures e == j + |NodesTokens(args[1..], opKind)|
    ensures |NodesTokens(args[1..], opKind)| < |NodesTokens(args, opKind)|
    decreases |NodesTokens(args, opKind)|, 2
  {
    ArgsLayout(args, toks, i, isBinary, opKind, j, e);
    ExprRoundTrip(args[0], toks, i, log, isBinary, opKind, j);
    ArgumentStep(toks, i, log, acc, isBinary, args[0], j);
  }

  lemma {:induction false} ExprRoundTrip(n: Node, toks: seq<Token>, i: nat, log: Log, isBinary: DelimitingTest,
                                         opKind: OperatorKinds, e: nat)
    requires PrintableExpr(n, isBinary, opKind)
    requires At(toks, i, NodeTokens(n, opKind)) && e == i + |NodeTokens(n, opKind)|
    requires e < |toks| && EndsExpr(toks[e].kind, isBinary)
    ensures ParseExpression(toks, i, log, isBinary) == Success(n, e, log)
    decreases |NodeTokens(n, opKind)|, 1
  {
    if PrintableTerm(n, isBinary, opKind) {
      TermRoundTrip(n, toks, i, log, isBinary, opKind, e);
      TermExpressionStep(toks, i, log, isBinary, n, e);
    } else {
      BinaryRoundTrip(n, toks, i, log, isBinary, opKind, e);
    }
  }

  /** How the tokens of a printed binary expression lie: left operand, operator
      at `j`, right operand. */
  lemma BinaryLayout(n: Node, toks: seq<Token>, i: nat, opKind: OperatorKinds, j: nat, e: nat)
    requires n.Binary?
    requires At(toks, i, NodeTokens(n, opKind)) && e == i + |NodeTokens(n, opKind)| && e < |toks|
    requires j == i + |NodeTokens(n.left, opKind)|
    ensures At(toks, i, NodeTokens(n.left, opKind))
    ensures j + 1 < |toks| && toks[j] == Token(opKind(n.op), n.op)
    ensures At(toks, j + 1, NodeTokens(n.right, opKind))
    ensures e == j + 1 + |NodeTokens(n.right, opKind)|
  {
    var left := NodeTokens(n.left, opKind);
    var opToken := Token(opKind(n.op), n.op);
    var right := NodeTokens(n.right, opKind);
    AtSplitAt(toks, i, left + [opToken], right, j + 1);
    AtSplitAt(toks, i, left, [opToken], j);
    AtFirst(toks, j, [opToken]);
  }

  lemma {:induction false} BinaryRoundTrip(n: Node, toks: seq<Token>, i: nat, log: Log, isBinary: DelimitingTest,
                                           opKind: OperatorKinds, e: nat)
    requires n.Binary? && isBinary(opKind(n.op))
    requires PrintableTerm(n.left, isBinary, opKind) && PrintableTerm(n.right, isBinary, opKind)
    requires At(toks, i, NodeTokens(n, opKind)) && e == i + |NodeTokens(n, opKind)|
    requires e < |toks| && EndsExpr(toks[e].kind, isBinary)
    ensures ParseExpression(toks, i, log, isBinary) == Success(n, e, log)
    decreases |NodeTokens(n, opKind)|, 0
  {
    var j := i + |NodeTokens(n.left, opKind)|;
    BinaryLayout(n, toks, i, opKind, j, e);
    TermRoundTrip(n.left, toks, i, log, isBinary, opKind, j);
    TermRoundTrip(n.right, toks, j + 1, log, isBinary, opKind, e);
    BinaryExpressionStep(toks, i, log, isBinary, n.left, j, n.right, e);
  }

  /* Statements and blocks. */

  lemma StatementIdentifierStep(toks: seq<Token>, i: nat, log: Log, isBinary: BinaryTest)
    requires i + 1 < |toks| && toks[i].kind == Identifier
    ensures ParseStatement(toks, i, log, isBinary) == ParseIdentifier(toks, i + 1, log, toks[i].value, isBinary)
  {
    assert EatIdentifier(toks, i, log, InStatement) == Success(toks[i].value, i + 1, log);
  }

  lemma AssignStep(toks: seq<Token>, i: nat, log: Log, name: string, isBinary: BinaryTest, rhs: Node, e: nat)
    requires i + 1 < |toks| && toks[i].kind == Assignment
    requires ParseStatement(toks, i + 1, log, isBinary) == Success(rhs, e, log)
    ensures ParseIdentifier(toks, i, log, name, isBinary) == Success(Assign(name, rhs), e, log)
  {
    assert EatToken(toks, i, log, Assignment, InVariableDecl) == Success((), i + 1, log);
  }

  lemma ReturnStep(toks: seq<Token>, i: nat, log: Log, isBinary: BinaryTest, value: Node, e: nat)
    requires i + 1 < |toks| && toks[i].kind == KeywordReturn
    requires ParseExpression(toks, i + 1, log, isBinary) == Success(value, e, log)
    ensures ParseStatement(toks, i, log, isBinary) == Success(Return(value), e, log)
  {
    assert EatToken(toks, i, log, KeywordReturn, InReturn) == Success((), i + 1, log);
  }

  lemma IfHeadStep(toks: seq<Token>, i: nat, log: Log, isBinary: BinaryTest, condition: Node, k: nat, body: Block, m: nat)
    requires i + 1 < |toks| && toks[i].kind == KeywordIf
    requires ParseExpression(toks, i + 1, log, isBinary) == Success(condition, k, log)
    requires ParseBlock(toks, k, log, isBinary) == Success(body, m, log)
    ensures ParseIfHead(toks, i, log, isBinary) == Success((condition, body), m, log)
  {
    assert EatToken(toks, i, log, KeywordIf, InIf) == Success((), i + 1, log);
  }

  lemma IfStep(toks: seq<Token>, i: nat, log: Log, isBinary: BinaryTest, condition: Node, body: Block, m: nat)
    requires i < |toks| && toks[i].kind == KeywordIf
    requires ParseIfHead(toks, i, log, isBinary) == Success((condition, body), m, log)
    requires toks[m].kind != KeywordElse
    ensures ParseStatement(toks, i, log, isBinary) == Success(If(condition, body, None), m, log)
  {
    IfHeadElseStep(toks, i, log, isBinary, condition, body, m);
    StatementIfStep(toks, i, log, isBinary);
  }

  lemma StatementIfStep(toks: seq<Token>, i: nat, log: Log, isBinary: BinaryTest)
    requires i < |toks| && toks[i].kind == KeywordIf
    ensures ParseStatement(toks, i, log, isBinary) == ParseIf(toks, i, log, isBinary)
  {
  }

  lemma IfHeadElseStep(toks: seq<Token>, i: nat, log: Log, isBinary: BinaryTest, condition: Node, body: Block, m: nat)
    requires i < |toks| && ParseIfHead(toks, i, log, isBinary) == Success((condition, body), m, log)
    ensures m < |toks| && IsExpr(condition) && IsBlock(body)
    ensures ParseIf(toks, i, log, isBinary) == ParseElse(toks, m, log, condition, body, isBinary)
  {
  }

  lemma ElseStep(toks: seq<Token>, m: nat, log: Log, isBinary: BinaryTest, condition: Node, body: Block,
                 elseBody: Block, p: nat)
    requires m + 1 < |toks| && toks[m].kind == KeywordElse && IsExpr(condition) && IsBlock(body)
    requires ParseBlock(toks, m + 1, log, isBinary) == Success(elseBody, p, log)
    ensures ParseElse(toks, m, log, condition, body, isBinary) == Success(If(condition, body, Some(elseBody)), p, log)
  {
    assert EatToken(toks, m, log, KeywordElse, InIf) == Success((), m + 1, log);
  }

  lemma IfElseStep(toks: seq<Token>, i: nat, log: Log, isBinary: BinaryTest, condition: Node, body: Block, m: nat,
                   elseBody: Block, p: nat)
    requires i < |toks| && toks[i].kind == KeywordIf
    requires ParseIfHead(toks, i, log, isBinary) == Success((condition, body), m, log)
    requires toks[m].kind == KeywordElse && m + 1 < |toks|
    requires ParseBlock(toks, m + 1, log, isBinary) == Success(elseBody, p, log)
    ensures ParseStatement(toks, i, log, isBinary) == Success(If(condition, body, Some(elseBody)), p, log)
  {
    IfHeadElseStep(toks, i, log, isBinary, condition, body, m);
    ElseStep(toks, m, log, isBinary, condition, body, elseBody, p);
    StatementIfStep(toks, i, log, isBinary);
  }

  lemma BlockStep(toks: seq<Token>, i: nat, log: Log, isBinary: BinaryTest, statements: seq<Node>, k: nat)
    requires i + 1 < |toks| && toks[i].kind == OpenScope
    requires ParseStatements(toks, i + 1, log, [], isBinary) == Success(statements, k, log)
    requires toks[k].kind == CloseScope && k + 1 < |toks|
    ensures ParseBlock(toks, i, log, isBinary) == Success(Block(statements), k + 1, log)
  {
    assert EatToken(toks, i, log, OpenScope, InBlock) == Success((), i + 1, log);
    assert EatToken(toks, k, log, CloseScope, InBlock) == Success((), k + 1, log);
  }

  lemma StatementStep(toks: seq<Token>, i: nat, log: Log, acc: seq<Node>, isBinary: BinaryTest, statement: Node, j: nat)
    requires i < |toks| && toks[i].kind != CloseScope
    requires forall s | s in acc :: IsStmt(s)
    requires ParseStatement(toks, i, log, isBinary) == Success(statement, j, log)
    ensures j < |toks| && forall s | s in acc + [statement] :: IsStmt(s)
    ensures ParseStatements(toks, i, log, acc, isBinary) == ParseStatements(toks, j, log, acc + [statement], isBinary)
  {
  }

  /** A printed statement ends any statement or expression before it. */
  lemma StmtFollows(n: Node, isBinary: DelimitingTest, opKind: OperatorKinds)
    requires PrintableStmt(n, isBinary, opKind)
    ensures EndsStmt(NodeTokens(n, opKind)[0].kind, isBinary)
    ensures NodeTokens(n, opKind)[0].kind != CloseScope
  {
    StmtStart(n, isBinary, opKind);
  }

  /** How the tokens of a printed block lie: `{`, the statements, `}` at `k`,
      and the block ends before `e`. */
  lemma BlockLayout(b: Block, toks: seq<Token>, i: nat, opKind: OperatorKinds, k: nat, e: nat)
    requires At(toks, i, BlockTokens(b, opKind)) && e == i + |BlockTokens(b, opKind)|
    requires k == i + 1 + |NodesTokens(b.statements, opKind)|
    ensures toks[i].kind == OpenScope
    ensures At(toks, i + 1, NodesTokens(b.statements, opKind))
    ensures toks[k].kind == CloseScope && e == k + 1
  {
    var open := [Token(OpenScope, "{")];
    var body := NodesTokens(b.statements, opKind);
    var close := [Token(CloseScope, "}")];
    AtSplitAt(toks, i, open + body, close, k);
    AtSplitAt(toks, i, open, body, i + 1);
    AtFirst(toks, i, open);
    AtFirst(toks, k, close);
  }

  /** A printed non-empty statement list starts as its first statement does. */
  lemma StmtsStart(ss: seq<Node>, isBinary: DelimitingTest, opKind: OperatorKinds)
    requires |ss| > 0 && PrintableStmts(ss, isBinary, opKind)
    ensures |NodesTokens(ss, opKind)| > 0
    ensures EndsStmt(NodesTokens(ss, opKind)[0].kind, isBinary)
    ensures NodesTokens(ss, opKind)[0].kind != CloseScope
  {
    StmtFollows(ss[0], isBinary, opKind);
    assert NodesTokens(ss, opKind)[0] == NodeTokens(ss[0], opKind)[0];
  }

  /** How the tokens of a non-empty statement list lie: the first statement,
      then the rest from `j` on, and whatever follows the first statement ends
      it. */
  lemma StmtsLayout(ss: seq<Node>, toks: seq<Token>, i: nat, isBinary: DelimitingTest, opKind: OperatorKinds, j: nat, e: nat)
    requires PrintableStmts(ss, isBinary, opKind)
    requires |ss| > 0 && At(toks, i, NodesTokens(ss, opKind)) && e == i + |NodesTokens(ss, opKind)|
    requires e < |toks| && toks[e].kind == CloseScope
    requires j == i + |NodeTokens(ss[0], opKind)|
    ensures At(toks, i, NodeTokens(ss[0], opKind))
    ensures At(toks, j, NodesTokens(ss[1..], opKind))
    ensures e == j + |NodesTokens(ss[1..], opKind)|
    ensures toks[i].kind != CloseScope
    ensures EndsStmt(toks[j].kind, isBinary)
    ensures PrintableStmt(ss[0], isBinary, opKind) && PrintableStmts(ss[1..], isBinary, opKind)
    ensures |NodesTokens(ss[1..], opKind)| < |NodesTokens(ss, opKind)|
  {
    var first := NodeTokens(ss[0], opKind);
    var rest := NodesTokens(ss[1..], opKind);
    AtSplitAt(toks, i, first, rest, j);
    StmtsStart(ss, isBinary, opKind);
    AtFirst(toks, i, NodesTokens(ss, opKind));
    if |ss| > 1 {
      StmtsStart(ss[1..], isBinary, opKind);
      AtFirst(toks, j, rest);
    } else {
      assert |rest| == 0;
    }
  }

  /** How the tokens of a printed `if` lie: `if`, the condition, the block
      from `k` on and the optional `else` part from `m` on. */
  lemma IfLayout(n: Node, toks: seq<Token>, i: nat, opKind: OperatorKinds, k: nat, m: nat, e: nat)
    requires n.If? && At(toks, i, NodeTokens(n, opKind)) && e == i + |NodeTokens(n, opKind)|
    requires k == i + 1 + |NodeTokens(n.condition, opKind)| && m == k + |BlockTokens(n.body, opKind)|
    ensures toks[i].kind == KeywordIf
    ensures At(toks, i + 1, NodeTokens(n.condition, opKind))
    ensures At(toks, k, BlockTokens(n.body, opKind))
    ensures At(toks, m, ElseTokens(n.elseBody, opKind))
    ensures e == m + |ElseTokens(n.elseBody, opKind)|
  {
    var t := [Token(KeywordIf, "if")];
    var cond := NodeTokens(n.condition, opKind);
    var block := BlockTokens(n.body, opKind);
    var rest := ElseTokens(n.elseBody, opKind);
    assert NodeTokens(n, opKind) == t + cond + block + rest;
    AtSplitAt(toks, i, t + cond + block, rest, m);
    AtSplitAt(toks, i, t + cond, block, k);
    AtSplitAt(toks, i, t, cond, i + 1);
    AtFirst(toks, i, t);
  }

  /** How the tokens of an optional `else` part lie. */
  lemma ElseLayout(elseBody: Option<Block>, toks: seq<Token>, m: nat, opKind: OperatorKinds)
    requires At(toks, m, ElseTokens(elseBody, opKind))
    ensures match elseBody
      case None => |ElseTokens(elseBody, opKind)| == 0
      case Some(b) =>
        && toks[m].kind == KeywordElse && At(toks, m + 1, BlockTokens(b, opKind))
        && |ElseTokens(elseBody, opKind)| == 1 + |BlockTokens(b, opKind)|
  {
    if elseBody.Some? {
      AtHead(toks, m, Token(KeywordElse, "else"), BlockTokens(elseBody.value, opKind));
    }
  }

  /** How the tokens of a printed assignment lie: target, `=`, right-hand side. */
  lemma AssignLayout(n: Node, toks: seq<Token>, i: nat, opKind: OperatorKinds, e: nat)
    requires n.Assign? && At(toks, i, NodeTokens(n, opKind)) && e == i + |NodeTokens(n, opKind)|
    ensures toks[i] == Token(Identifier, n.target) && toks[i + 1].kind == Assignment
    ensures At(toks, i + 2, NodeTokens(n.rhs, opKind))
    ensures e == i + 2 + |NodeTokens(n.rhs, opKind)|
  {
    var rhs := NodeTokens(n.rhs, opKind);
    assert NodeTokens(n, opKind) == [Token(Identifier, n.target)] + ([Token(Assignment, "=")] + rhs);
    AtHead(toks, i, Token(Identifier, n.target), [Token(Assignment, "=")] + rhs);
    AtHead(toks, i + 1, Token(Assignment, "="), rhs);
  }

  lemma {:induction false} BlockRoundTrip(b: Block, toks: seq<Token>, i: nat, log: Log, isBinary: DelimitingTest,
                                          opKind: OperatorKinds, e: nat)
    requires PrintableBlock(b, isBinary, opKind)
    requires At(toks, i, BlockTokens(b, opKind)) && e == i + |BlockTokens(b, opKind)| && e < |toks|
    ensures ParseBlock(toks, i, log, isBinary) == Success(b, e, log)
    decreases |BlockTokens(b, opKind)|, 0
  {
    var k := i + 1 + |NodesTokens(b.statements, opKind)|;
    BlockLayout(b, toks, i, opKind, k, e);
    var none: seq<Node> := [];
    StmtsRoundTrip(b.statements, toks, i + 1, log, none, isBinary, opKind, k);
    assert none + b.statements == b.statements;
    BlockStep(toks, i, log, isBinary, b.statements, k);
  }

  /** The statements printed from `i` on, up to the `}` at `e`, read back in
      order. */
  lemma {:induction false} StmtsRoundTrip(ss: seq<Node>, toks: seq<Token>, i: nat, log: Log, acc: seq<Node>,
                                          isBinary: DelimitingTest, opKind: OperatorKinds, e: nat)
    requires PrintableStmts(ss, isBinary, opKind)
    requires forall s | s in acc :: IsStmt(s)
    requires At(toks, i, NodesTokens(ss, opKind)) && e == i + |NodesTokens(ss, opKind)|
    requires e < |toks| && toks[e].kind == CloseScope
    ensures ParseStatements(toks, i, log, acc, isBinary) == Success(acc + ss, e, log)
    decreases |NodesTokens(ss, opKind)|, 5
  {
    if |ss| == 0 {
      assert acc + ss == acc;
    } else {
      var j := i + |NodeTokens(ss[0], opKind)|;
      StmtsHead(ss, toks, i, log, acc, isBinary, opKind, j, e);
      StmtsRoundTrip(ss[1..], toks, j, log, acc + [ss[0]], isBinary, opKind, e);
      AppendFirst(acc, ss);
    }
  }

  /** One turn of the statement loop over a printed statement list. */
  lemma {:induction false} StmtsHead(ss: seq<Node>, toks: seq<Token>, i: nat, log: Log, acc: seq<Node>,
                                     isBinary: DelimitingTest, opKind: OperatorKinds, j: nat, e: nat)
    requires PrintableStmts(ss, isBinary, opKind)
    requires forall s | s in acc :: IsStmt(s)
    requires |ss| > 0 && At(toks, i, NodesTokens(ss, opKind)) && e == i + |NodesTokens(ss, opKind)|
    requires e < |toks| && toks[e].kind == CloseScope
    requires j == i + |NodeTokens(ss[0], opKind)|
    ensures j < |toks| && (forall s | s in acc + [ss[0]] :: IsStmt(s))
    ensures ParseStatements(toks, i, log, acc, isBinary) == ParseStatements(toks, j, log, acc + [ss[0]], isBinary)
    ensures PrintableStmts(ss[1..], isBinary, opKind) && At(toks, j, NodesTokens(ss[1..], opKind))
    ensures e == j + |NodesTokens(ss[1..], opKind)|
    ensures |NodesTokens(ss[1..], opKind)| < |NodesTokens(ss, opKind)|
    decreases |NodesTokens(ss, opKind)|, 4
  {
    StmtsLayout(ss, toks, i, isBinary, opKind, j, e);
    StmtRoundTrip(ss[0], toks, i, log, isBinary, opKind, j);
    StatementStep(toks, i, log, acc, isBinary, ss[0], j);
  }

  lemma {:induction false} StmtRoundTrip(n: Node, toks: seq<Token>, i: nat, log: Log, isBinary: DelimitingTest,
                                         opKind: OperatorKinds, e: nat)
    requires PrintableStmt(n, isBinary, opKind)
    requires At(toks, i, NodeTokens(n, opKind)) && e == i + |NodeTokens(n, opKind)|
    requires e < |toks| && EndsStmt(toks[e].kind, isBinary)
    ensures ParseStatement(toks, i, log, isBinary) == Success(n, e, log)
    decreases |NodeTokens(n, opKind)|, 3
  {
    match n
    case Call(callee, args) =>
      CallStmtRoundTrip(n, toks, i, log, isBinary, opKind, e);
    case Assign(target, rhs) =>
      AssignRoundTrip(n, toks, i, log, isBinary, opKind, e);
    case Return(value) =>
      ReturnRoundTrip(n, toks, i, log, isBinary, opKind, e);
    case If(condition, body, elseBody) =>
      IfRoundTrip(n, toks, i, log, isBinary, opKind, e);
  }

  lemma {:induction false} CallStmtRoundTrip(n: Node, toks: seq<Token>, i: nat, log: Log, isBinary: DelimitingTest,
                                             opKind: OperatorKinds, e: nat)
    requires n.Call? && PrintableArgs(n.args, isBinary, opKind)
    requires At(toks, i, NodeTokens(n, opKind)) && e == i + |NodeTokens(n, opKind)| && e < |toks|
    ensures ParseStatement(toks, i, log, isBinary) == Success(n, e, log)
    decreases |NodeTokens(n, opKind)|, 0
  {
    var call := CallTokens(n.args, opKind);
    AtHead(toks, i, Token(Identifier, n.callee), call);
    CallLayout(n.args, toks, i + 1, opKind, i + 2 + |NodesTokens(n.args, opKind)|, e);
    CallRoundTrip(n.callee, n.args, toks, i + 1, log, isBinary, opKind, e);
    StatementIdentifierStep(toks, i, log, isBinary);
  }

  lemma {:induction false} AssignRoundTrip(n: Node, toks: seq<Token>, i: nat, log: Log, isBinary: DelimitingTest,
                                           opKind: OperatorKinds, e: nat)
    requires n.Assign? && PrintableStmt(n.rhs, isBinary, opKind)
    requires At(toks, i, NodeTokens(n, opKind)) && e == i + |NodeTokens(n, opKind)|
    requires e < |toks| && EndsStmt(toks[e].kind, isBinary)
    ensures ParseStatement(toks, i, log, isBinary) == Success(n, e, log)
    decreases |NodeTokens(n, opKind)|, 0
  {
    AssignLayout(n, toks, i, opKind, e);
    StmtRoundTrip(n.rhs, toks, i + 2, log, isBinary, opKind, e);
    AssignStep(toks, i + 1, log, n.target, isBinary, n.rhs, e);
    StatementIdentifierStep(toks, i, log, isBinary);
  }

  lemma {:induction false} ReturnRoundTrip(n: Node, toks: seq<Token>, i: nat, log: Log, isBinary: DelimitingTest,
                                           opKind: OperatorKinds, e: nat)
    requires n.Return? && PrintableExpr(n.value, isBinary, opKind)
    requires At(toks, i, NodeTokens(n, opKind)) && e == i + |NodeTokens(n, opKind)|
    requires e < |toks| && EndsExpr(toks[e].kind, isBinary)
    ensures ParseStatement(toks, i, log, isBinary) == Success(n, e, log)
    decreases |NodeTokens(n, opKind)|, 0
  {
    AtHead(toks, i, Token(KeywordReturn, "return"), NodeTokens(n.value, opKind));
    ExprRoundTrip(n.value, toks, i + 1, log, isBinary, opKind, e);
    ReturnStep(toks, i, log, isBinary, n.value, e);
  }

  lemma {:induction false} IfRoundTrip(n: Node, toks: seq<Token>, i: nat, log: Log, isBinary: DelimitingTest,
                                       opKind: OperatorKinds, e: nat)
    requires n.If? && PrintableExpr(n.condition, isBinary, opKind)
    requires PrintableBlock(n.body, isBinary, opKind)
    requires n.elseBody.Some? ==> PrintableBlock(n.elseBody.value, isBinary, opKind)
    requires At(toks, i, NodeTokens(n, opKind)) && e == i + |NodeTokens(n, opKind)|
    requires e < |toks| && EndsStmt(toks[e].kind, isBinary)
    ensures ParseStatement(toks, i, log, isBinary) == Success(n, e, log)
    decreases |NodeTokens(n, opKind)|, 2
  {
    var k := i + 1 + |NodeTokens(n.condition, opKind)|;
    var m := k + |BlockTokens(n.body, opKind)|;
    IfHeadRoundTrip(n, toks, i, log, isBinary, opKind, k, m, e);
    ElseLayout(n.elseBody, toks, m, opKind);
    if n.elseBody.None? {
      IfStep(toks, i, log, isBinary, n.condition, n.body, m);
    } else {
      IfElseRoundTrip(n, toks, i, log, isBinary, opKind, m, e);
    }
  }

  /** An `if` with an `else` part, once its head has been read back up to `m`. */
  lemma {:induction false} IfElseRoundTrip(n: Node, toks: seq<Token>, i: nat, log: Log, isBinary: DelimitingTest,
                                           opKind: OperatorKinds, m: nat, e: nat)
    requires n.If? && n.elseBody.Some? && PrintableBlock(n.elseBody.value, isBinary, opKind)
    requires i < |toks| && toks[i].kind == KeywordIf && e == i + |NodeTokens(n, opKind)| && e < |toks|
    requires ParseIfHead(toks, i, log, isBinary) == Success((n.condition, n.body), m, log)
    requires toks[m].kind == KeywordElse && At(toks, m + 1, BlockTokens(n.elseBody.value, opKind))
    requires e == m + 1 + |BlockTokens(n.elseBody.value, opKind)|
    ensures ParseStatement(toks, i, log, isBinary) == Success(n, e, log)
    decreases |NodeTokens(n, opKind)|, 1
  {
    var b := n.elseBody.value;
    BlockRoundTrip(b, toks, m + 1, log, isBinary, opKind, e);
    IfElseStep(toks, i, log, isBinary, n.condition, n.body, m, b, e);
  }

  /** The part of a printed `if` before its `else` reads back as its condition
      and then-block, ending at `m`. */
  lemma {:induction false} IfHeadRoundTrip(n: Node, toks: seq<Token>, i: nat, log: Log, isBinary: DelimitingTest,
                                           opKind: OperatorKinds, k: nat, m: nat, e: nat)
    requires n.If? && PrintableExpr(n.condition, isBinary, opKind)
    requires PrintableBlock(n.body, isBinary, opKind)
    requires At(toks, i, NodeTokens(n, opKind)) && e == i + |NodeTokens(n, opKind)| && e < |toks|
    requires k == i + 1 + |NodeTokens(n.condition, opKind)| && m == k + |BlockTokens(n.body, opKind)|
    ensures toks[i].kind == KeywordIf
    ensures ParseIfHead(toks, i, log, isBinary) == Success((n.condition, n.body), m, log)
    ensures At(toks, m, ElseTokens(n.elseBody, opKind))
    ensures e == m + |ElseTokens(n.elseBody, opKind)|
    decreases |NodeTokens(n, opKind)|, 0
  {
    IfLayout(n, toks, i, opKind, k, m, e);
    BlockLayout(n.body, toks, k, opKind, m - 1, m);
    ExprRoundTrip(n.condition, toks, i + 1, log, isBinary, opKind, k);
    BlockRoundTrip(n.body, toks, k, log, isBinary, opKind, m);
    IfHeadStep(toks, i, log, isBinary, n.condition, k, n.body, m);
  }

  /* Declarations and programs. */

  lemma ParameterStep(toks: seq<Token>, i: nat, log: Log, acc: seq<Parameter>)
    requires i + 2 < |toks| && toks[i].kind == Identifier && toks[i + 1].kind == Identifier
    ensures ParseParameters(toks, i, log, acc)
         == ParseParameters(toks, i + 2, log, acc + [Parameter(toks[i].value, toks[i + 1].value)])
  {
    assert EatIdentifier(toks, i, log, InFuncDecl) == Success(toks[i].value, i + 1, log);
    assert EatIdentifier(toks, i + 1, log, InFuncDecl) == Success(toks[i + 1].value, i + 2, log);
  }

  lemma FuncHeaderStep(toks: seq<Token>, i: nat, log: Log, ps: seq<Parameter>, n: nat)
    requires i + 3 < |toks| && toks[i].kind == KeywordFunc && toks[i + 1].kind == Identifier
    requires toks[i + 2].kind == OpenParenthesis
    requires ParseParameters(toks, i + 3, log, []) == Success(ps, n, log)
    requires n + 1 < |toks| && toks[n].kind == CloseParenthesis
    ensures ParseFuncHeader(toks, i, log) == Success((toks[i + 1].value, ps), n + 1, log)
  {
    assert EatToken(toks, i, log, KeywordFunc, InFuncDecl) == Success((), i + 1, log);
    assert EatIdentifier(toks, i + 1, log, InFuncDecl) == Success(toks[i + 1].value, i + 2, log);
    assert EatToken(toks, i + 2, log, OpenParenthesis, InFuncDecl) == Success((), i + 3, log);
    assert EatToken(toks, n, log, CloseParenthesis, InFuncDecl) == Success((), n + 1, log);
  }

  lemma FuncDeclStep(toks: seq<Token>, i: nat, log: Log, isBinary: BinaryTest,
                     name: string, ps: seq<Parameter>, p: nat, body: Block, q: nat)
    requires i < |toks| && ParseFuncHeader(toks, i, log) == Success((name, ps), p, log)
    requires ParseBlock(toks, p, log, isBinary) == Success(body, q, log)
    ensures ParseFuncDecleration(toks, i, log, isBinary) == Success(FunctionDecl(name, ps, body), q, log)
  {
  }

  lemma FunctionStep(toks: seq<Token>, i: nat, log: Log, acc: seq<FunctionDecl>, isBinary: BinaryTest,
                     f: FunctionDecl, j: nat)
    requires i < |toks| && toks[i].kind == KeywordFunc
    requires forall g | g in acc :: IsBlock(g.body)
    requires ParseFuncDecleration(toks, i, log, isBinary) == Success(f, j, log)
    ensures j < |toks| && forall g | g in acc + [f] :: IsBlock(g.body)
    ensures ParseFunctions(toks, i, log, acc, isBinary) == ParseFunctions(toks, j, log, acc + [f], isBinary)
  {
  }

  /** The parameters printed from `i` on, up to the `)` at `e`, read back in
      order. */
  lemma {:induction false} ParamsRoundTrip(ps: seq<Parameter>, toks: seq<Token>, i: nat, log: Log, acc: seq<Parameter>, e: nat)
    requires At(toks, i, ParameterTokens(ps)) && e == i + |ParameterTokens(ps)|
    requires e < |toks| && toks[e].kind == CloseParenthesis
    ensures ParseParameters(toks, i, log, acc) == Success(acc + ps, e, log)
    decreases |ps|
  {
    if |ps| == 0 {
      assert acc + ps == acc;
    } else {
      var rest := ParameterTokens(ps[1..]);
      assert ParameterTokens(ps) == [Token(Identifier, ps[0].first)] + ([Token(Identifier, ps[0].second)] + rest);
      AtHead(toks, i, Token(Identifier, ps[0].first), [Token(Identifier, ps[0].second)] + rest);
      AtHead(toks, i + 1, Token(Identifier, ps[0].second), rest);
      ParameterStep(toks, i, log, acc);
      ParamsRoundTrip(ps[1..], toks, i + 2, log, acc + [ps[0]], e);
      AppendFirst(acc, ps);
    }
  }

  /** How the tokens of a printed header lie: `func`, the name, `(`, the
      parameters, `)`. */
  lemma HeaderLayout(name: string, ps: seq<Parameter>, toks: seq<Token>, i: nat)
    requires At(toks, i, HeaderTokens(name, ps))
    ensures |HeaderTokens(name, ps)| == 4 + |ParameterTokens(ps)|
    ensures toks[i] == Token(KeywordFunc, "func") && toks[i + 1] == Token(Identifier, name)
    ensures toks[i + 2].kind == OpenParenthesis
    ensures At(toks, i + 3, ParameterTokens(ps))
    ensures toks[i + 3 + |ParameterTokens(ps)|].kind == CloseParenthesis
  {
    AtFrame(toks, i, Token(KeywordFunc, "func"), Token(Identifier, name), Token(OpenParenthesis, "("),
            ParameterTokens(ps), Token(CloseParenthesis, ")"));
  }

  lemma HeaderRoundTrip(name: string, ps: seq<Parameter>, toks: seq<Token>, i: nat, log: Log, e: nat)
    requires At(toks, i, HeaderTokens(name, ps)) && e == i + |HeaderTokens(name, ps)| && e < |toks|
    ensures ParseFuncHeader(toks, i, log) == Success((name, ps), e, log)
  {
    var n := i + 3 + |ParameterTokens(ps)|;
    HeaderLayout(name, ps, toks, i);
    var none: seq<Parameter> := [];
    ParamsRoundTrip(ps, toks, i + 3, log, none, n);
    assert none + ps == ps;
    FuncHeaderStep(toks, i, log, ps, n);
  }

  lemma FuncRoundTrip(f: FunctionDecl, toks: seq<Token>, i: nat, log: Log, isBinary: DelimitingTest,
                      opKind: OperatorKinds, e: nat)
    requires PrintableBlock(f.body, isBinary, opKind)
    requires At(toks, i, FunctionTokens(f, opKind)) && e == i + |FunctionTokens(f, opKind)| && e < |toks|
    ensures toks[i].kind == KeywordFunc
    ensures ParseFuncDecleration(toks, i, log, isBinary) == Success(f, e, log)
  {
    var p := i + |HeaderTokens(f.name, f.parameters)|;
    FuncLayout(f, toks, i, opKind, p, e);
    HeaderLayout(f.name, f.parameters, toks, i);
    HeaderRoundTrip(f.name, f.parameters, toks, i, log, p);
    BlockRoundTrip(f.body, toks, p, log, isBinary, opKind, e);
    FuncDeclStep(toks, i, log, isBinary, f.name, f.parameters, p, f.body, e);
  }

  /** How the tokens of a printed declaration lie: the header, then the body
      from `p` on. */
  lemma FuncLayout(f: FunctionDecl, toks: seq<Token>, i: nat, opKind: OperatorKinds, p: nat, e: nat)
    requires At(toks, i, FunctionTokens(f, opKind)) && e == i + |FunctionTokens(f, opKind)|
    requires p == i + |HeaderTokens(f.name, f.parameters)|
    ensures At(toks, i, HeaderTokens(f.name, f.parameters))
    ensures At(toks, p, BlockTokens(f.body, opKind))
    ensures e == p + |BlockTokens(f.body, opKind)|
  {
    AtSplitAt(toks, i, HeaderTokens(f.name, f.parameters), BlockTokens(f.body, opKind), p);
  }

  /** The declarations printed from `i` on, up to `e`, read back in order. */
  lemma {:induction false} FunctionsRoundTrip(fs: seq<FunctionDecl>, toks: seq<Token>, i: nat, log: Log,
                                              acc: seq<FunctionDecl>, isBinary: DelimitingTest, opKind: OperatorKinds, e: nat)
    requires PrintableFunctions(fs, isBinary, opKind)
    requires forall g | g in acc :: IsBlock(g.body)
    requires At(toks, i, FunctionsTokens(fs, opKind)) && e == i + |FunctionsTokens(fs, opKind)|
    requires e < |toks| && toks[e].kind != KeywordFunc
    ensures ParseFunctions(toks, i, log, acc, isBinary) == Success(Program(acc + fs), e, log)
    decreases |fs|
  {
    if |fs| == 0 {
      assert acc + fs == acc;
    } else {
      var j := i + |FunctionTokens(fs[0], opKind)|;
      FunctionsHead(fs, toks, i, log, acc, isBinary, opKind, j, e);
      FunctionsRoundTrip(fs[1..], toks, j, log, acc + [fs[0]], isBinary, opKind, e);
      AppendFirst(acc, fs);
    }
  }

  /** One turn of the declaration loop over printed declarations. */
  lemma FunctionsHead(fs: seq<FunctionDecl>, toks: seq<Token>, i: nat, log: Log,
                      acc: seq<FunctionDecl>, isBinary: DelimitingTest, opKind: OperatorKinds, j: nat, e: nat)
    requires PrintableFunctions(fs, isBinary, opKind)
    requires forall g | g in acc :: IsBlock(g.body)
    requires |fs| > 0 && At(toks, i, FunctionsTokens(fs, opKind)) && e == i + |FunctionsTokens(fs, opKind)|
    requires e < |toks| && j == i + |FunctionTokens(fs[0], opKind)|
    ensures j < |toks| && forall g | g in acc + [fs[0]] :: IsBlock(g.body)
    ensures ParseFunctions(toks, i, log, acc, isBinary) == ParseFunctions(toks, j, log, acc + [fs[0]], isBinary)
    ensures PrintableFunctions(fs[1..], isBinary, opKind) && At(toks, j, FunctionsTokens(fs[1..], opKind))
    ensures e == j + |FunctionsTokens(fs[1..], opKind)|
  {
    FunctionsLayout(fs, toks, i, opKind, j);
    FuncRoundTrip(fs[0], toks, i, log, isBinary, opKind, j);
    FunctionStep(toks, i, log, acc, isBinary, fs[0], j);
  }

  /** How the tokens of printed declarations lie: the first, then the rest. */
  lemma FunctionsLayout(fs: seq<FunctionDecl>, toks: seq<Token>, i: nat, opKind: OperatorKinds, j: nat)
    requires |fs| > 0 && At(toks, i, FunctionsTokens(fs, opKind))
    requires j == i + |FunctionTokens(fs[0], opKind)|
    ensures At(toks, i, FunctionTokens(fs[0], opKind)) && At(toks, j, FunctionsTokens(fs[1..], opKind))
    ensures j + |FunctionsTokens(fs[1..], opKind)| == i + |FunctionsTokens(fs, opKind)|
  {
    AtSplitAt(toks, i, FunctionTokens(fs[0], opKind), FunctionsTokens(fs[1..], opKind), j);
  }

  /** Printing a printable program and appending any token that is not `func`
      gives back the program, read to the end of its last function and with
      nothing logged. The extra token is needed because `NextToken` reads one
      token ahead, so a parse succeeds only on a stream whose last token it
      never consumes. */
  lemma ParsePrintRoundTrip(p: Program, isBinary: BinaryTest, opKind: OperatorKinds, eof: Token)
    requires Delimiting(isBinary) && Printable(p, isBinary, opKind) && eof.kind != KeywordFunc
    ensures var ts := FunctionsTokens(p.functions, opKind);
      Parse(ts + [eof], isBinary) == Success(p, |ts|, [])
  {
    var ts := FunctionsTokens(p.functions, opKind);
    var toks := ts + [eof];
    assert toks[0..|ts|] == ts;
    assert toks[|ts|] == eof;
    var none: seq<FunctionDecl> := [];
    FunctionsRoundTrip(p.functions, toks, 0, [], none, isBinary, opKind, |ts|);
    assert none + p.functions == p.functions;
  }
}
