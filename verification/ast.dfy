/** The syntax tree the parser builds: an ordered list of function declarations
    whose bodies are blocks of statements over one-level expressions. */
module Ast {
  import opened Tokens

  datatype ValueType = Int | Float | String | Char

  datatype Option<+T> = None | Some(value: T)

  datatype Node =
    | IdentifierExpr(name: string)
    | Literal(valueType: ValueType, text: string)
      /** A token that matched no expression form, kept as it was read. */
    | Garbage(token: Token)
    | Call(callee: string, args: seq<Node>)
    | Binary(left: Node, op: string, right: Node)
      /** The source stores the target as an identifier node; its name is all it holds. */
    | Assign(target: string, rhs: Node)
    | If(condition: Node, body: Block, elseBody: Option<Block>)
    | Return(value: Node)

  datatype Block = Block(statements: seq<Node>)

  /** A parameter is the pair of identifiers read back to back, first then second. */
  datatype Parameter = Parameter(first: string, second: string)

  datatype FunctionDecl = FunctionDecl(name: string, parameters: seq<Parameter>, body: Block)

  datatype Program = Program(functions: seq<FunctionDecl>)

  /** The shapes `ParseUnaryExpression` produces. */
  predicate IsTerm(n: Node)
    decreases n, 0
  {
    match n
    case IdentifierExpr(_) => true
    case Literal(t, _) => t != Char
    case Garbage(tok) => !StartsTerm(tok.kind)
    case Call(_, args) => forall a | a in args :: IsExpr(a)
    case _ => false
  }

  /** An expression holds at most one binary operator, between two terms. */
  predicate IsExpr(n: Node)
    decreases n, 1
  {
    IsTerm(n) || (n.Binary? && IsTerm(n.left) && IsTerm(n.right))
  }

  /** The shapes `ParseStatement` produces. */
  predicate IsStmt(n: Node)
    decreases n
  {
    match n
    case Call(_, args) => forall a | a in args :: IsExpr(a)
    case Assign(_, rhs) => IsStmt(rhs)
    case If(c, body, elseBody) =>
      IsExpr(c) && IsBlock(body) && (elseBody.Some? ==> IsBlock(elseBody.value))
    case Return(v) => IsExpr(v)
    case _ => false
  }

  predicate IsBlock(b: Block)
    decreases b
  {
    forall s | s in b.statements :: IsStmt(s)
  }

  predicate WellFormed(p: Program) {
    forall f | f in p.functions :: IsBlock(f.body)
  }
}
