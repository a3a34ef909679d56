/** Syntax trees (compiler/include/ast.h). */
module Ast {

  datatype BinOp =
    | Add | Sub | Mul | Div | Mod | Shl | Shr | And | Or | Xor
    | Eq | Neq | Lt | Le | Gt | Ge | Land | Lor

  datatype UnOp = Neg | Not | Inv

  /** Expressions. `Null` is the null pointer: what the parser returns after an error. */
  datatype Expr =
    | Null
    | IntLit(v: int)
    | BoolLit(b: bool)
    | StrLit(text: string)
    | Ident(name: string)
    | Path(parts: seq<string>)
    | Read(path: Expr)
    | Un(uop: UnOp, operand: Expr)
    | Bin(op: BinOp, lhs: Expr, rhs: Expr)

  /** No null pointer inside, and paths of two to four components. */
  predicate Complete(e: Expr) {
    match e
    case Null => false
    case Path(parts) => 2 <= |parts| <= 4
    case Read(x) => Complete(x)
    case Un(_, x) => Complete(x)
    case Bin(_, l, r) => Complete(l) && Complete(r)
    case _ => true
  }

  datatype Kind =
    | LetStmt | AssignStmt | RegWriteStmt | EmitStmt | WaitStmt | ArmStmt | CancelStmt
    | ReturnStmt | LogStmt | IfStmt | ForStmt | Invalid

  /** A node of a sibling list: an expression, or a statement with its child list. The
      parser appends a whole body to the child list, so the siblings of a body's
      first statement are siblings of the conditions and bounds as well. */
  datatype Node = E(e: Expr) | S(kind: Kind, kids: seq<Node>)
}
