/**
 * The syntax tree the parser builds and the code generators walk.  A node
 * has a kind and two children; a kind may carry further subtrees of its
 * own (call arguments, block statements, the parts of `if` and `for`).
 * One variable node `Var(name, offset)` serves both the parser's and the
 * code generators' view of a local variable, and `If` carries its
 * condition, its then-branch and an else-branch that is `Nil` when the
 * source has no `else`.
 */
module Ast {

  datatype TypeKind = TyInt | TyPtr

  datatype NodeKind =
    // expressions
    | Num(value: int)
    | Assign
    | Plus | Minus | Mul | Div
    | Eq | Ne | Le | Lt
    | Deref | Addr
    | Var(name: string, offset: nat)
    | FuncCall(name: string, argv: seq<AST>)
    | DefineVar(name: string, ty: TypeKind)
    // statements
    | ExprStmt(expr: AST)
    | Block(stmts: seq<AST>)
    | Return
    | If(cond: AST, thn: AST, els: AST)
    | While(cond: AST, proc: AST)
    | For(init: AST, test: AST, step: AST, proc: AST)
    | Int

  datatype AST = Nil | Node(kind: NodeKind, lhs: AST, rhs: AST)

  /** A node without children, as the parser builds for leaves and statements. */
  function Leaf(k: NodeKind): AST {
    Node(k, Nil, Nil)
  }

  /** The kinds the code generators treat as binary arithmetic or comparison. */
  predicate IsBinaryOp(k: NodeKind) {
    k.Plus? || k.Minus? || k.Mul? || k.Div? || k.Eq? || k.Ne? || k.Lt? || k.Le?
  }

  /**
   * Expressions built only from numbers, variables, assignments to a
   * variable and binary operators: the subset both code generators handle
   * as a value on the stack.
   */
  predicate StackExpr(a: AST) {
    match a
    case Nil => false
    case Node(k, l, r) =>
      if k.Num? || k.Var? then true
      else if k.Assign? then l.Node? && l.kind.Var? && StackExpr(r)
      else IsBinaryOp(k) && StackExpr(l) && StackExpr(r)
  }
}
