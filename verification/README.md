# IBlang parser, modelled in Dafny

This project models the recursive-descent parser of the IBlang compiler
(`IBlang/Stage2Parser/Parser.cs`). It also models the pure part of the
compiler's test entry point, `Compiler.Test` (`IBlang/Compiler.cs`).

## The parser

The parser reads a token array with a cursor that only moves forward. It
builds an AST: a list of function declarations whose bodies are blocks of
statements.

- A statement is a call, an assignment, an `if` with an optional `else`, or
  a `return`.
- An expression is one term, or two terms joined by a single binary
  operator. There is no precedence.
- A term is an identifier, a call, an int, float or string literal, or a
  `Garbage` node holding any other token.

The parser has two kinds of error:

- **Mismatch.** `EatToken` or `EatIdentifier` meets a token of the wrong
  kind. The mismatch is logged and parsing continues with that token.
- **Abort.** No statement rule applies, an identifier statement is followed
  by something other than `(` or `=`, or the cursor is moved past the last
  token (an `IndexOutOfRangeException` in the source). The parse stops.

Modules:

- `Tokens`, `Ast`, `Diagnostics`: the data model. A rule returns
  `Outcome<T>`, which is either `Success(value, next, log)` or
  `Fatal(error, log)`. The cursor and the append-only log are threaded
  explicitly.
- `Parser`: one function per rule of `Parser.cs`. Each loop of the source
  is a recursive function with an accumulator. `ParseFuncDecleration` and
  `ParseIf` are each split at the end of their header, so that the two parts
  can be reasoned about one at a time. The lexer's `TokenHelper.IsBinaryToken`
  is a parameter, `isBinary`.
- `ParserProperties`: lemmas that relate rules or calls. They cover:
  - how parameters are read in pairs;
  - which token decides between a binary expression and a term, and
    between an `if` with and without `else`;
  - when a mismatch is only logged and when the parse aborts.
- `Printer` and `RoundTrip`: the inverse direction. `Printer` turns a tree
  into the token stream it would be read from. `RoundTrip` proves that
  parsing that stream gives the tree back with an empty log. This holds for
  any operator test under which the tokens that end an expression are not
  binary operators.
- `Scenarios`: whole parses of small programs.
- `Compiler`: `Test` with the file's text as a parameter. It covers line
  splitting, expectation gathering from `//` lines, and the final
  comparison.

## Model

| member | source | states |
|---|---|---|
| Parser.Parse | IBlang/Stage2Parser/Parser.cs:27-43 | an empty token array aborts out of range at index 0; a result is well formed and stops on the first token that is not `func`; a stream not starting with `func` is the empty program with nothing logged |
| Parser.ParseFunctions | IBlang/Stage2Parser/Parser.cs:33-40 | the declarations read so far stay a prefix of the result, the cursor never moves back, and the loop ends exactly on a lookahead other than `func` |
| Parser.ParseFuncDecleration | IBlang/Stage2Parser/Parser.cs:45-65 | a declaration consumes at least one token, is named by the token after `func`, and has a well-formed body ending at a `}` |
| Parser.ParseFuncHeader | IBlang/Stage2Parser/Parser.cs:49-60 | a header is named by its second token and ends right after a `)` |
| Parser.ParseParameters | IBlang/Stage2Parser/Parser.cs:53-58 | the parameter loop stops only on a `)`, keeps the parameters already read, and can fail only by running off the end of the stream |
| Parser.ParseBlock | IBlang/Stage2Parser/Parser.cs:68-83 | a block consumes at least one token, holds only statement shapes, and ends right after a `}` |
| Parser.ParseStatements | IBlang/Stage2Parser/Parser.cs:74-78 | the statement loop keeps the statements already read and stops only on a `}` |
| Parser.ParseStatement | IBlang/Stage2Parser/Parser.cs:85-96 | a token other than an identifier, `if` or `return` aborts with that token's kind and the log unchanged; an identifier gives a call or an assignment to that name, `if` an if, `return` a return |
| Parser.ParseIdentifier | IBlang/Stage2Parser/Parser.cs:98-108 | after the leading identifier, only `(` or `=` continue the statement; anything else aborts with its kind |
| Parser.ParseIf | IBlang/Stage2Parser/Parser.cs:114-132 | an `if` statement without an else-block is not followed by `else` |
| Parser.ParseIfHead | IBlang/Stage2Parser/Parser.cs:114-122 | a successful head consumes at least one token, only appends to the log, and gives an expression and a block (their order is stated by `ParserProperties.IfHeadParts`) |
| Parser.ParseElse | IBlang/Stage2Parser/Parser.cs:123-131 | the else-block is read exactly when the lookahead is `else`; otherwise nothing is consumed, and the condition and then-block are kept |
| Parser.ParseReturn | IBlang/Stage2Parser/Parser.cs:134-141 | `return` is followed by one expression; it can fail only by running off the end |
| Parser.ParseVariableDecleration | IBlang/Stage2Parser/Parser.cs:193-202 | `=` is followed by a statement shape (not just an expression), and the assignment names the identifier read before it |
| Parser.ParseExpression | IBlang/Stage2Parser/Parser.cs:143-158 | an expression holds at most one binary operator between two terms; it never aborts except by running off the end |
| Parser.ParseUnaryExpression | IBlang/Stage2Parser/Parser.cs:160-175 | every token gives a term, and the rule can fail only by running off the end of the stream |
| Parser.ParseFuncCall | IBlang/Stage2Parser/Parser.cs:177-191 | a call is named by the identifier before it, holds expressions only, and ends right after a `)` |
| Parser.ParseArguments | IBlang/Stage2Parser/Parser.cs:183-187 | the argument loop holds expressions only, keeps the arguments already read, stops only on a `)` lookahead, and can fail only by running off the end |
| Parser.EatToken | IBlang/Stage2Parser/Parser.cs:204-212 | one token is consumed whatever its kind, a mismatch is logged exactly when the kind differs, and it fails only on the last token |
| Parser.EatIdentifier | IBlang/Stage2Parser/Parser.cs:214-223 | like `EatToken` for identifiers, returning the consumed token's text even on a mismatch |
| Parser.NextToken | IBlang/Stage2Parser/Parser.cs:242-249 | returns the token under the cursor and advances; it fails exactly when that token is the last one, because the next read is out of range |
| ParserProperties.ParametersStep | IBlang/Stage2Parser/Parser.cs:55-58 | one turn of the parameter loop eats two identifiers, logs their mismatches, and continues two tokens on |
| ParserProperties.ParametersCount | IBlang/Stage2Parser/Parser.cs:55-58 | the parameter loop consumes exactly two tokens per parameter it adds |
| ParserProperties.ParametersArePairs | IBlang/Stage2Parser/Parser.cs:55-58 | the p-th parameter is made of tokens 2p and 2p+1 after the loop's start, and no pair starts with `)` |
| ParserProperties.ParametersLog | IBlang/Stage2Parser/Parser.cs:53-58 | the parameter loop logs one mismatch per non-identifier token it eats, in order |
| ParserProperties.FuncHeaderParameters | IBlang/Stage2Parser/Parser.cs:49-60 | a header is `func`, a name and `(` (one token each), then the parameter loop, then the `)` |
| ParserProperties.FuncHeaderShape | IBlang/Stage2Parser/Parser.cs:49-60 | a header is named by the token after `func`, takes 4 + 2n tokens for n parameters, and its parameters are the token pairs after `(` |
| ParserProperties.FuncDeclShape | IBlang/Stage2Parser/Parser.cs:45-65 | a declaration's name is the token after `func`; it has one parameter per pair of tokens before the `)` that closes its header, the first token of each pair not being `)`; its body is the block read from the token after that `)` |
| ParserProperties.FuncDeclParts | IBlang/Stage2Parser/Parser.cs:45-65 | a declaration is its header followed by the block read where the header stopped, continuing the header's log |
| ParserProperties.IfHeadParts | IBlang/Stage2Parser/Parser.cs:114-122 | an `if` head eats `if` (logging it if wrong), reads the condition expression from the next token and then the block from where the condition stopped, each continuing the previous log |
| ParserProperties.UnaryMapping | IBlang/Stage2Parser/Parser.cs:160-175 | the token kind alone decides the term: a call before `(`, an identifier otherwise, literals by type, and `Garbage` for every other kind |
| ParserProperties.BinaryExactlyWhen | IBlang/Stage2Parser/Parser.cs:143-158 | an expression is binary exactly when the token after its first term is a binary operator; otherwise it is that term and nothing more is consumed |
| ParserProperties.ElseExactlyWhen | IBlang/Stage2Parser/Parser.cs:123-131 | an `if` has an else-block exactly when `else` follows its then-block |
| ParserProperties.IdentifierTailIsFatal | IBlang/Stage2Parser/Parser.cs:98-108 | an identifier statement followed by neither `(` nor `=` aborts, with the log unchanged |
| ParserProperties.AssignmentTakesStatement | IBlang/Stage2Parser/Parser.cs:193-202 | after `NAME =` a whole statement is read, not an expression: the assignment aborts exactly when that statement does, and otherwise wraps it under the name |
| ParserProperties.StatementAndExpressionDiffer | IBlang/Stage2Parser/Parser.cs:85-96 | the same unrecognised token aborts the parse in statement position but becomes a `Garbage` node in expression position |
| RoundTrip.TermRoundTrip | IBlang/Stage2Parser/Parser.cs:160-175 | a printed term reads back as itself, up to the end of its tokens, with nothing logged |
| RoundTrip.CallRoundTrip | IBlang/Stage2Parser/Parser.cs:177-191 | a printed argument list in parentheses reads back as the call |
| RoundTrip.ArgsRoundTrip | IBlang/Stage2Parser/Parser.cs:183-187 | printed arguments read back in order, up to the closing `)` |
| RoundTrip.ExprRoundTrip | IBlang/Stage2Parser/Parser.cs:143-158 | a printed expression followed by a token that ends expressions reads back as itself |
| RoundTrip.BinaryRoundTrip | IBlang/Stage2Parser/Parser.cs:147-153 | a printed binary expression reads back with the same operands and operator |
| RoundTrip.BlockRoundTrip | IBlang/Stage2Parser/Parser.cs:68-83 | a printed block reads back as itself |
| RoundTrip.StmtsRoundTrip | IBlang/Stage2Parser/Parser.cs:74-78 | printed statements read back in order, up to the closing `}` |
| RoundTrip.StmtRoundTrip | IBlang/Stage2Parser/Parser.cs:85-96 | every printable statement reads back as itself |
| RoundTrip.CallStmtRoundTrip | IBlang/Stage2Parser/Parser.cs:98-108 | a printed call statement reads back as itself |
| RoundTrip.AssignRoundTrip | IBlang/Stage2Parser/Parser.cs:193-202 | a printed assignment reads back as itself, whatever statement its right-hand side is |
| RoundTrip.ReturnRoundTrip | IBlang/Stage2Parser/Parser.cs:134-141 | a printed return reads back as itself |
| RoundTrip.IfRoundTrip | IBlang/Stage2Parser/Parser.cs:114-132 | a printed `if`, with or without `else`, reads back as itself |
| RoundTrip.IfHeadRoundTrip | IBlang/Stage2Parser/Parser.cs:114-122 | the part of a printed `if` before `else` reads back as its condition and then-block |
| RoundTrip.IfElseRoundTrip | IBlang/Stage2Parser/Parser.cs:123-131 | a printed `else` part reads back as the else-block |
| RoundTrip.ParamsRoundTrip | IBlang/Stage2Parser/Parser.cs:53-58 | printed parameter pairs read back in order, up to the `)` |
| RoundTrip.HeaderRoundTrip | IBlang/Stage2Parser/Parser.cs:49-60 | a printed header reads back as its name and parameters |
| RoundTrip.FuncRoundTrip | IBlang/Stage2Parser/Parser.cs:45-65 | a printed declaration reads back as itself |
| RoundTrip.FunctionsRoundTrip | IBlang/Stage2Parser/Parser.cs:33-40 | printed declarations read back in order, up to a token other than `func` |
| RoundTrip.ParsePrintRoundTrip | IBlang/Stage2Parser/Parser.cs:27-43 | parsing a printed program followed by an end token gives the program back with an empty log |
| Scenarios.EmptyHeader | IBlang/Stage2Parser/Parser.cs:49-60 | `func NAME X )` is a header with no parameters that ends four tokens on; the token `X` where `(` belongs is consumed and logged only when it is not `(` |
| Scenarios.MainReturnsOne | IBlang/Stage2Parser/Parser.cs:27-43 | `func main() { return 1 }` is one declaration `main` with no parameters, returning the integer literal `1` |
| Scenarios.MissingOpenIsLogged | IBlang/Stage2Parser/Parser.cs:204-212 | in `func main X ) { return 1 }` the wrong token `X` is logged once as a missing `(`, and the program read is the same as for `func main() { return 1 }` |
| Scenarios.LiteralStatementIsFatal | IBlang/Stage2Parser/Parser.cs:89-95 | `func f() { 123 }` aborts at the literal, and no program is produced |
| Scenarios.AssignLiteralIsFatal | IBlang/Stage2Parser/Parser.cs:193-202 | `func f() { y = 5 }` aborts at the literal `5`, since the right-hand side of `=` must be a statement |
| Scenarios.AssignIdentifierIsFatal | IBlang/Stage2Parser/Parser.cs:98-108 | `func f() { y = x }` aborts at the `}` after `x`, since the statement `x` needs `(` or `=` next |
| Scenarios.MissingCloseParameters | IBlang/Stage2Parser/Parser.cs:55-58 | with no `)`, the parameter loop logs `{` and `}` as mismatches and then runs off the end of the stream |
| Scenarios.MissingCloseRunsOff | IBlang/Stage2Parser/Parser.cs:49-60 | `func f( { }` logs two mismatches and then aborts out of range, producing no declaration |
| Compiler.SplitLines | IBlang/Compiler.cs:34 | the pieces contain no `\n` and join back to the text with `\n` between them |
| Compiler.SplitJoin | IBlang/Compiler.cs:34 | splitting undoes joining any lines that contain no `\n` |
| Compiler.Contribution | IBlang/Compiler.cs:42-45 | a comment line adds its text after `//` plus `\n`, one character shorter than the line; any other line adds nothing |
| Compiler.ExpectationConcat | IBlang/Compiler.cs:38-46 | the expectation of consecutive lines is the concatenation of their expectations, in line order |
| Compiler.ExpectationShorter | IBlang/Compiler.cs:38-50 | the expected text is shorter than the joined lines by at least one character per line break, and by one more when it is not empty |
| Compiler.Test | IBlang/Compiler.cs:30-50 | the result is true exactly when the text gathered from the `//` lines equals the source |
| Compiler.TestOnlyEmpty | IBlang/Compiler.cs:50 | since the comparison is against the source itself, `Test` passes exactly for an empty file |
| Compiler.CarriageReturnKept | IBlang/Compiler.cs:34-44 | lines are split on `\n` only, so a comment line with a CRLF ending keeps its `\r` in the expected text |

## Left out

- The lexer (`IBlang/Stage1Lexer`) is not part of this model. Token streams are inputs, and a token keeps only its kind and text.
- `TokenHelper.IsBinaryToken` is not part of this model. It is the parameter `isBinary`, and nothing is assumed about it except where a lemma says so.
- Tracing (`ctx.TraceParser`, `ctx.LogToken`) has no effect on the result and is left out.
- `Log.Error` message text and its caller-file and line metadata are left out. A logged mismatch keeps the expected kind, the token consumed and the rule that consumed it.
- `EatConstant` (Parser.cs:225-240) is left out because no rule calls it.
- The unreachable `throw` after the loop of `Parse` (Parser.cs:42) is left out.
- The source's recursion can overflow the call stack on deeply nested input. The model has unbounded recursion.
- `Compiler.Run`, file reading and console output are left out. The value `Test` returns depends only on the file's text, which is the model's parameter. The paths on which reading the file or `Run` throws, where `Test` returns no value, are not modelled.
- Compiler.Test: `line.StartsWith("//")` is modelled as an ordinal prefix test. The .NET overload with one string argument compares culturally, and culture rules are not modelled.
- RoundTrip.ParsePrintRoundTrip: the round trip covers printable trees only. These have no char literals, which the parser never builds. They also have no `Garbage` token that could be read as another form. And `isBinary` must not classify as an operator any token that ends an expression.

## Notes on behaviour

- A missing `)` in a declaration header is not repaired. The parameter loop
  stops only on `)`: it reads `{` and `}` as a parameter, logging both, and
  then moves past the last token. The parse therefore ends with an
  out-of-range abort and produces no declaration (`Scenarios.MissingCloseRunsOff`).
- `Compiler.Test` compares the gathered expectation with the source text, not
  with the compiler's output. So it passes only for an empty file
  (`Compiler.TestOnlyEmpty`).
- The right-hand side of `=` is read as a statement (a call, an assignment,
  an `if` or a `return`), not as an expression
  (`ParserProperties.AssignmentTakesStatement`). So `y = 5` aborts at the
  literal (`Scenarios.AssignLiteralIsFatal`), and `y = x` aborts at the token
  after `x` (`Scenarios.AssignIdentifierIsFatal`).
- `Compiler.cs` constructs the parser as `new Parser(tokens, true)` and calls
  `Parse()` without arguments. `Parser.cs` declares `Parser(Context)` and
  `Parse(Token[])`. The model follows `Parser.cs`.
