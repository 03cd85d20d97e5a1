// The abstract syntax tree (AST.h).
//
// AST.h builds the tree from heap nodes linked by raw pointers and walks it
// with a visitor whose `accept` methods dispatch on the node's class. Every
// node is immutable after construction and owned by its parent, so here each
// node class is a datatype constructor, each getter a destructor, and the
// visitor dispatch an exhaustive `match` in the code generator.

module AST {
  import opened Wrappers

  /** `Final::ValueKind` (AST.h:85-89). */
  datatype ValueKind = Id | Num

  /** `BinaryOp::Operator` (AST.h:112-120): exactly six operators. */
  datatype BinOp = Plus | Minus | Mul | Div | Mod | Pow

  /** Expressions: a `Final` leaf (AST.h:82-106), which keeps its source text
      unchanged, or a `BinaryOp` node (AST.h:109-140). The source calls the
      leaf both `Final` and `Factor`; this model uses `Final`. */
  datatype Expr =
    | Final(kind: ValueKind, val: string)
    | BinaryOp(op: BinOp, left: Expr, right: Expr)

  /** `Equation::Operator` (AST.h:165-173): `=`, `+=`, `-=`, `*=`, `/=`, `%=`. */
  datatype AssignOp = Equal | PlusEqual | MinusEqual | StarEqual | SlashEqual | PercentEqual

  /** An assignment statement (AST.h:162-189). The source's target is a
      `Final` of kind `Id`; the model keeps the identifier's text. */
  datatype Equation = Equation(target: string, rhs: Expr, op: AssignOp)

  /** `C::LogicOp` (AST.h:194-198). */
  datatype LogicOp = And | Or

  /** `Condition::OperatorCondition` (AST.h:219-227). */
  datatype RelOp = Greater | Less | GreaterEqual | LessEqual | EqualEqual | NotEqual

  /** Conditions: `Condition` compares two expressions (AST.h:216-243) and
      `C` joins two condition subtrees with `and`/`or` (AST.h:191-214);
      `Condition` is a subclass of `C` in the source, a second constructor
      here. */
  datatype Cond =
    | Condition(left: Expr, rel: RelOp, right: Expr)
    | C(lop: LogicOp, lhs: Cond, rhs: Cond)

  /** An `elif` clause: a condition and its block (AST.h:282-296). */
  datatype Elif = Elif(cond: Cond, body: seq<Equation>)

  /** An `else` clause: a block without a condition (AST.h:267-280). */
  datatype Else = Else(body: seq<Equation>)

  /** The statements a program is made of. `Declaration` (AST.h:143-160)
      holds its names in source order and at most one initializer, shared by
      all of them (the source's vector of initializers is only ever given
      one, and the code generator reads one). `If` (AST.h:245-265) holds the
      condition, the then-block, the elifs in source order and an optional
      else; `Loop` (AST.h:298-314) a condition and its block. */
  datatype Stmt =
    | Declaration(vars: seq<string>, init: Option<Expr>)
    | Assignment(eq: Equation)
    | If(cond: Cond, body: seq<Equation>, elifs: seq<Elif>, els: Option<Else>)
    | Loop(cond: Cond, body: seq<Equation>)

  /** The root: the top-level statements in source order (AST.h:58-79). */
  datatype Goal = Goal(stmts: seq<Stmt>)
}
