/** Properties of the parser that relate several rules or several calls. */
module ParserProperties {
  import opened Tokens
  import opened Ast
  import opened Diagnostics
  import opened Parser

  /** Splitting the mismatches of a parameter pair off the front of the rest. */
  lemma {:induction false} MismatchesPair(toks: seq<Token>, i: nat, n: nat)
    requires i + 2 <= n <= |toks|
    ensures Mismatches(toks[i..n], Identifier, InFuncDecl)
         == Expect(toks[i], Identifier, InFuncDecl) + Expect(toks[i + 1], Identifier, InFuncDecl)
            + Mismatches(toks[i + 2..n], Identifier, InFuncDecl)
    decreases n
  {
    if n == i + 2 {
      var s := toks[i..n];
      assert s[..|s| - 1] == [toks[i]];
      assert [toks[i]][..0] == [];
      assert toks[i + 2..n] == [];
    } else {
      MismatchesPair(toks, i, n - 1);
      assert toks[i..n][..n - i - 1] == toks[i..n - 1];
      assert toks[i + 2..n][..n - i - 3] == toks[i + 2..n - 1];
    }
  }

  /** One turn of the parameter loop: two identifiers are eaten and the loop
      goes on from two tokens further. */
  lemma ParametersStep(toks: seq<Token>, i: nat, log: Log, acc: seq<Parameter>)
    requires i < |toks| && toks[i].kind != CloseParenthesis
    requires ParseParameters(toks, i, log, acc).Success?
    ensures i + 2 < |toks|
    ensures ParseParameters(toks, i, log, acc)
         == ParseParameters(toks, i + 2,
              log + Expect(toks[i], Identifier, InFuncDecl) + Expect(toks[i + 1], Identifier, InFuncDecl),
              acc + [Parameter(toks[i].value, toks[i + 1].value)])
  {
    var l := log + Expect(toks[i], Identifier, InFuncDecl);
    assert EatIdentifier(toks, i, log, InFuncDecl) == Success(toks[i].value, i + 1, l);
  }

  /** The parameter loop consumes two tokens per parameter it adds. */
  lemma {:induction false} ParametersCount(toks: seq<Token>, i: nat, log: Log, acc: seq<Parameter>)
    requires i < |toks|
    ensures var r := ParseParameters(toks, i, log, acc);
      r.Success? ==> r.next == i + 2 * (|r.value| - |acc|)
    decreases |toks| - i
  {
    var r := ParseParameters(toks, i, log, acc);
    if r.Success? && toks[i].kind != CloseParenthesis {
      ParametersStep(toks, i, log, acc);
      var l2 := log + Expect(toks[i], Identifier, InFuncDecl) + Expect(toks[i + 1], Identifier, InFuncDecl);
      ParametersCount(toks, i + 2, l2, acc + [Parameter(toks[i].value, toks[i + 1].value)]);
    }
  }

  /** `param` is the p-th pair of tokens from `start`: (first, second) in
      order, the first not being `)`. */
  predicate PairAt(toks: seq<Token>, start: nat, p: nat, param: Parameter) {
    && start + 2 * p + 1 < |toks|
    && param == Parameter(toks[start + 2 * p].value, toks[start + 2 * p + 1].value)
    && toks[start + 2 * p].kind != CloseParenthesis
  }

  /** The parameter loop reads the tokens before `)` two at a time: the p-th
      parameter is (token 2p, token 2p+1), and no pair starts with `)`. */
  lemma {:induction false} ParametersArePairs(toks: seq<Token>, i: nat, log: Log, acc: seq<Parameter>)
    requires i < |toks|
    ensures var r := ParseParameters(toks, i, log, acc);
      r.Success? ==> forall k | |acc| <= k < |r.value| :: PairAt(toks, i, k - |acc|, r.value[k])
    decreases |toks| - i
  {
    var r := ParseParameters(toks, i, log, acc);
    if r.Success? && toks[i].kind != CloseParenthesis {
      ParametersStep(toks, i, log, acc);
      var l2 := log + Expect(toks[i], Identifier, InFuncDecl) + Expect(toks[i + 1], Identifier, InFuncDecl);
      var acc' := acc + [Parameter(toks[i].value, toks[i + 1].value)];
      ParametersArePairs(toks, i + 2, l2, acc');
      forall k | |acc| <= k < |r.value|
        ensures PairAt(toks, i, k - |acc|, r.value[k])
      {
        if k > |acc| {
          assert PairAt(toks, i + 2, k - |acc'|, r.value[k]);
          assert i + 2 + 2 * (k - |acc'|) == i + 2 * (k - |acc|);
        } else {
          assert r.value[k] == acc'[k];
        }
      }
    }
  }

  /** The parameter loop logs one mismatch for every non-identifier it eats,
      in order. */
  lemma {:induction false} ParametersLog(toks: seq<Token>, i: nat, log: Log, acc: seq<Parameter>)
    requires i < |toks|
    ensures var r := ParseParameters(toks, i, log, acc);
      r.Success? ==> r.log == log + Mismatches(toks[i..r.next], Identifier, InFuncDecl)
    decreases |toks| - i
  {
    var r := ParseParameters(toks, i, log, acc);
    if r.Success? && toks[i].kind != CloseParenthesis {
      var a := Expect(toks[i], Identifier, InFuncDecl);
      var b := Expect(toks[i + 1], Identifier, InFuncDecl);
      var n := r.next;
      assert i + 2 <= n <= |toks| && r.log == (log + a + b) + Mismatches(toks[i + 2..n], Identifier, InFuncDecl) by {
        ParametersStep(toks, i, log, acc);
        ParametersLog(toks, i + 2, log + a + b, acc + [Parameter(toks[i].value, toks[i + 1].value)]);
      }
      assert Mismatches(toks[i..n], Identifier, InFuncDecl) == a + b + Mismatches(toks[i + 2..n], Identifier, InFuncDecl) by {
        MismatchesPair(toks, i, n);
      }
    } else if r.Success? {
      assert toks[i..r.next] == [];
    }
  }

  /** The log a header has gathered when its parameter loop starts. */
  function HeaderLog(toks: seq<Token>, i: nat, log: Log): Log
    requires i + 2 < |toks|
  {
    log + Expect(toks[i], KeywordFunc, InFuncDecl) + Expect(toks[i + 1], Identifier, InFuncDecl)
      + Expect(toks[i + 2], OpenParenthesis, InFuncDecl)
  }

  /** A header is `func`, a name and `(` eaten one token each, then the
      parameter loop, then `)`. */
  lemma FuncHeaderParameters(toks: seq<Token>, i: nat, log: Log)
    requires i < |toks| && ParseFuncHeader(toks, i, log).Success?
    ensures i + 3 < |toks|
    ensures ParseFuncHeader(toks, i, log).value.0 == toks[i + 1].value
    ensures ParseParameters(toks, i + 3, HeaderLog(toks, i, log), []).Success?
    ensures ParseParameters(toks, i + 3, HeaderLog(toks, i, log), []).value == ParseFuncHeader(toks, i, log).value.1
    ensures ParseParameters(toks, i + 3, HeaderLog(toks, i, log), []).next + 1 == ParseFuncHeader(toks, i, log).next
  {
    var l := log + Expect(toks[i], KeywordFunc, InFuncDecl);
    var l2 := l + Expect(toks[i + 1], Identifier, InFuncDecl);
    assert EatToken(toks, i, log, KeywordFunc, InFuncDecl) == Success((), i + 1, l);
    assert EatIdentifier(toks, i + 1, l, InFuncDecl) == Success(toks[i + 1].value, i + 2, l2);
    assert EatToken(toks, i + 2, l2, OpenParenthesis, InFuncDecl) == Success((), i + 3, HeaderLog(toks, i, log));
  }

  /** A declaration's header: the name is the token after `func`, and the
      parameters are the pairs of tokens between `(` and the first `)` met at a
      pair boundary. */
  lemma FuncHeaderShape(toks: seq<Token>, i: nat, log: Log)
    requires i < |toks| && ParseFuncHeader(toks, i, log).Success?
    ensures ParseFuncHeader(toks, i, log).value.0 == toks[i + 1].value
    ensures ParseFuncHeader(toks, i, log).next == i + 4 + 2 * |ParseFuncHeader(toks, i, log).value.1|
    ensures forall p | 0 <= p < |ParseFuncHeader(toks, i, log).value.1| ::
      PairAt(toks, i + 3, p, ParseFuncHeader(toks, i, log).value.1[p])
  {
    FuncHeaderParameters(toks, i, log);
    var none: seq<Parameter> := [];
    ParametersCount(toks, i + 3, HeaderLog(toks, i, log), none);
    ParametersArePairs(toks, i + 3, HeaderLog(toks, i, log), none);
  }

  /** A declaration's name is the token after `func`, it has one parameter per
      pair of tokens before the `)` that closes its header (the first of each
      pair not being `)`), and its body is the block read from the token after
      that `)`, with the log the header left. */
  lemma FuncDeclShape(toks: seq<Token>, i: nat, log: Log, isBinary: BinaryTest)
    requires i < |toks| && ParseFuncDecleration(toks, i, log, isBinary).Success?
    ensures ParseFuncDecleration(toks, i, log, isBinary).value.name == toks[i + 1].value
    ensures i + 3 + 2 * |ParseFuncDecleration(toks, i, log, isBinary).value.parameters|
      < ParseFuncDecleration(toks, i, log, isBinary).next
    ensures toks[i + 3 + 2 * |ParseFuncDecleration(toks, i, log, isBinary).value.parameters|].kind == CloseParenthesis
    ensures forall p | 0 <= p < |ParseFuncDecleration(toks, i, log, isBinary).value.parameters| ::
      PairAt(toks, i + 3, p, ParseFuncDecleration(toks, i, log, isBinary).value.parameters[p])
    ensures ParseBlock(toks, i + 4 + 2 * |ParseFuncDecleration(toks, i, log, isBinary).value.parameters|,
                       ParseFuncHeader(toks, i, log).log, isBinary)
      == Success(ParseFuncDecleration(toks, i, log, isBinary).value.body,
                 ParseFuncDecleration(toks, i, log, isBinary).next, ParseFuncDecleration(toks, i, log, isBinary).log)
  {
    FuncDeclParts(toks, i, log, isBinary);
    FuncHeaderShape(toks, i, log);
  }

  /** A declaration is its header followed by the block read where the header
      stopped, with the header's log. */
  lemma FuncDeclParts(toks: seq<Token>, i: nat, log: Log, isBinary: BinaryTest)
    requires i < |toks| && ParseFuncDecleration(toks, i, log, isBinary).Success?
    ensures ParseFuncHeader(toks, i, log).Success?
    ensures ParseFuncHeader(toks, i, log).value.1 == ParseFuncDecleration(toks, i, log, isBinary).value.parameters
    ensures ParseFuncHeader(toks, i, log).value.0 == ParseFuncDecleration(toks, i, log, isBinary).value.name
    ensures ParseBlock(toks, ParseFuncHeader(toks, i, log).next, ParseFuncHeader(toks, i, log).log, isBinary)
      == Success(ParseFuncDecleration(toks, i, log, isBinary).value.body,
                 ParseFuncDecleration(toks, i, log, isBinary).next, ParseFuncDecleration(toks, i, log, isBinary).log)
  {
    var h := ParseFuncHeader(toks, i, log);
    assert h.Success?;
    var b := ParseBlock(toks, h.next, h.log, isBinary);
    assert b.Success?;
    assert ParseFuncDecleration(toks, i, log, isBinary) == Success(FunctionDecl(h.value.0, h.value.1, b.value), b.next, b.log);
  }

  /** `ParseUnaryExpression` consumes exactly one token (two or more only for a
      call) and maps it by kind: an identifier before `(` is a call, any other
      identifier an `IdentifierExpr`, an int, float or string literal a literal
      of that type, and every other token a `Garbage` node holding it. */
  lemma UnaryMapping(toks: seq<Token>, i: nat, log: Log, isBinary: BinaryTest)
    requires i + 1 < |toks|
    ensures var r := ParseUnaryExpression(toks, i, log, isBinary);
      var t := toks[i];
      && (t.kind == Identifier && toks[i + 1].kind == OpenParenthesis ==>
            r == ParseFuncCall(toks, i + 1, log, t.value, isBinary))
      && (t.kind == Identifier && toks[i + 1].kind != OpenParenthesis ==>
            r == Success(IdentifierExpr(t.value), i + 1, log))
      && (t.kind == IntegerLiteral ==> r == Success(Literal(Int, t.value), i + 1, log))
      && (t.kind == FloatLiteral ==> r == Success(Literal(Float, t.value), i + 1, log))
      && (t.kind == StringLiteral ==> r == Success(Literal(String, t.value), i + 1, log))
      && (!StartsTerm(t.kind) ==> r == Success(Garbage(t), i + 1, log))
  {
  }

  /** An expression is a binary expression exactly when the token after its
      first term is a binary operator; otherwise it is that term, and nothing
      more is consumed. */
  lemma BinaryExactlyWhen(toks: seq<Token>, i: nat, log: Log, isBinary: BinaryTest)
    requires i < |toks|
    ensures var u := ParseUnaryExpression(toks, i, log, isBinary);
      var r := ParseExpression(toks, i, log, isBinary);
      && (u.Fatal? ==> r == u)
      && (u.Success? && !isBinary(toks[u.next].kind) ==> r == u)
      && (u.Success? && r.Success? ==>
            (r.value.Binary? <==> isBinary(toks[u.next].kind)))
      && (u.Success? && isBinary(toks[u.next].kind) && r.Success? ==>
            r.value.left == u.value && r.value.op == toks[u.next].value && r.next > u.next + 1)
  {
  }

  /** An `if` has an else-block exactly when the token after its then-block is
      `else`; without one, the `if` ends with its then-block. */
  lemma ElseExactlyWhen(toks: seq<Token>, i: nat, log: Log, isBinary: BinaryTest)
    requires i < |toks|
    ensures var h := ParseIfHead(toks, i, log, isBinary);
      var r := ParseIf(toks, i, log, isBinary);
      && (h.Fatal? ==> r.Fatal? && r.error == h.error)
      && (h.Success? && toks[h.next].kind != KeywordElse ==>
            r == Success(If(h.value.0, h.value.1, None), h.next, h.log))
      && (h.Success? && r.Success? ==>
            (r.value.elseBody.Some? <==> toks[h.next].kind == KeywordElse))
  {
  }

  /** An identifier statement aborts when what follows the identifier is
      neither `(` nor `=`. */
  lemma IdentifierTailIsFatal(toks: seq<Token>, i: nat, log: Log, isBinary: BinaryTest)
    requires i + 1 < |toks|
    requires toks[i].kind == Identifier
    requires toks[i + 1].kind != OpenParenthesis && toks[i + 1].kind != Assignment
    ensures ParseStatement(toks, i, log, isBinary) == Fatal(UnhandledIdentifierTail(toks[i + 1].kind), log)
  {
    assert EatIdentifier(toks, i, log, InStatement) == Success(toks[i].value, i + 1, log);
  }

  /** An `if` head is `if` (logged when the token is something else), the
      condition read from the next token, and the block read where the
      condition stopped, each part continuing the log of the one before. */
  lemma IfHeadParts(toks: seq<Token>, i: nat, log: Log, isBinary: BinaryTest)
    requires i < |toks| && ParseIfHead(toks, i, log, isBinary).Success?
    ensures i + 1 < |toks|
    ensures ParseExpression(toks, i + 1, log + Expect(toks[i], KeywordIf, InIf), isBinary).Success?
    ensures ParseExpression(toks, i + 1, log + Expect(toks[i], KeywordIf, InIf), isBinary).value
      == ParseIfHead(toks, i, log, isBinary).value.0
    ensures ParseBlock(toks, ParseExpression(toks, i + 1, log + Expect(toks[i], KeywordIf, InIf), isBinary).next,
                       ParseExpression(toks, i + 1, log + Expect(toks[i], KeywordIf, InIf), isBinary).log, isBinary)
      == Success(ParseIfHead(toks, i, log, isBinary).value.1,
                 ParseIfHead(toks, i, log, isBinary).next, ParseIfHead(toks, i, log, isBinary).log)
  {
    var l := log + Expect(toks[i], KeywordIf, InIf);
    assert EatToken(toks, i, log, KeywordIf, InIf) == Success((), i + 1, l);
    var e := ParseExpression(toks, i + 1, l, isBinary);
    assert e.Success?;
    var b := ParseBlock(toks, e.next, e.log, isBinary);
    assert b.Success?;
    assert ParseIfHead(toks, i, log, isBinary) == Success((e.value, b.value), b.next, b.log);
  }

  /** The right-hand side of `NAME =` is read as a statement, not as an
      expression: the assignment is that statement's outcome under the name,
      and it aborts exactly where that statement does. */
  lemma AssignmentTakesStatement(toks: seq<Token>, i: nat, log: Log, isBinary: BinaryTest)
    requires i + 2 < |toks|
    requires toks[i].kind == Identifier && toks[i + 1].kind == Assignment
    ensures ParseStatement(toks, i + 2, log, isBinary).Fatal? ==>
      ParseStatement(toks, i, log, isBinary) == ParseStatement(toks, i + 2, log, isBinary)
    ensures ParseStatement(toks, i + 2, log, isBinary).Success? ==>
      ParseStatement(toks, i, log, isBinary)
        == Success(Assign(toks[i].value, ParseStatement(toks, i + 2, log, isBinary).value),
                   ParseStatement(toks, i + 2, log, isBinary).next, ParseStatement(toks, i + 2, log, isBinary).log)
  {
    assert EatIdentifier(toks, i, log, InStatement) == Success(toks[i].value, i + 1, log);
    assert EatToken(toks, i + 1, log, Assignment, InVariableDecl) == Success((), i + 2, log);
    assert ParseStatement(toks, i, log, isBinary) == ParseVariableDecleration(toks, i + 1, log, toks[i].value, isBinary);
  }

  /** The statement position is fatal on a token no statement rule starts with,
      while the expression position never aborts for such a token: it becomes
      a `Garbage` node. */
  lemma StatementAndExpressionDiffer(toks: seq<Token>, i: nat, log: Log, isBinary: BinaryTest)
    requires i + 1 < |toks|
    requires !StartsTerm(toks[i].kind) && !StartsStatement(toks[i].kind)
    requires !isBinary(toks[i + 1].kind)
    ensures ParseStatement(toks, i, log, isBinary) == Fatal(UnhandledStatement(toks[i].kind), log)
    ensures ParseExpression(toks, i, log, isBinary) == Success(Garbage(toks[i]), i + 1, log)
  {
  }
}
