/** What a parse leaves behind besides the tree: the append-only log of
    recoverable mismatches, and the fatal aborts. */
module Diagnostics {
  import opened Tokens

  /** The parser rule that consumed the mismatching token (the caller member
      name the source attaches to each logged error). */
  datatype Rule = InFuncDecl | InBlock | InStatement | InIf | InReturn | InFuncCall | InVariableDecl

  /** A recoverable mismatch: `expected` was wanted, `got` was consumed anyway. */
  datatype Diagnostic = Mismatch(expected: TokenType, got: Token, rule: Rule)

  type Log = seq<Diagnostic>

  /** The exceptions that end a parse: no statement rule applies, an identifier
      statement is neither a call nor an assignment, or the cursor is moved
      past the last token. */
  datatype Abort =
    | UnhandledStatement(kind: TokenType)
    | UnhandledIdentifierTail(kind: TokenType)
    | OutOfRange(index: nat)

  /** The result of one rule: the value, the cursor after it and the log so far;
      or the abort, with the log as it stood when the exception was thrown. */
  datatype Outcome<+T> =
    | Success(value: T, next: nat, log: Log)
    | Fatal(error: Abort, log: Log)
  {
    predicate IsFailure() {
      Fatal?
    }

    function PropagateFailure<U>(): Outcome<U>
      requires Fatal?
    {
      Fatal(error, log)
    }

    function Extract(): (T, nat, Log)
      requires Success?
    {
      (value, next, log)
    }
  }

  /** The diagnostic that consuming `got` where `expected` was wanted appends. */
  function Expect(got: Token, expected: TokenType, rule: Rule): Log {
    if got.kind == expected then [] else [Mismatch(expected, got, rule)]
  }

  /** The diagnostics that consuming each of `ts` in turn, wanting `expected`
      every time, appends. */
  function Mismatches(ts: seq<Token>, expected: TokenType, rule: Rule): Log {
    if |ts| == 0 then []
    else Mismatches(ts[..|ts| - 1], expected, rule) + Expect(ts[|ts| - 1], expected, rule)
  }
}
