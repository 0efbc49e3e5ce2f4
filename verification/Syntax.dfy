/** The part of the language that is compiled here, as trees. The compiler itself never builds them. */
module Syntax {
  import opened Bytes
  import opened Values
  import Machine

  type Name = string

  datatype BinOp =
    | Arith(op: Machine.ArithOp)
    | Equal(same: bool)
    | Compare(cmp: Machine.CmpOp)

  datatype Expr =
    | IntLit(n: I16)
    | BoolLit(b: bool)
    | NilLit
    | Var(x: Name)
    | Neg(e: Expr)
    | Not(e: Expr)
    | Unwrap(e: Expr)
    | Bin(bin: BinOp, l: Expr, r: Expr)
    | And(l: Expr, r: Expr)
    | Or(l: Expr, r: Expr)
    | Coalesce(l: Expr, r: Expr)
    | Call(f: Name, args: Exprs)

  /** A comma-separated list of expressions. */
  datatype Exprs = NoExprs | Exprs(first: Expr, rest: Exprs)

  function Count(es: Exprs): nat {
    match es
    case NoExprs => 0
    case Exprs(_, rest) => 1 + Count(rest)
  }

  /** Statements; the body of a block is a chain of `Seq`. */
  datatype Stmt =
    | Skip
    | Seq(s1: Stmt, s2: Stmt)
    | Declare(isLet: bool, x: Name, e: Expr)
    | Assign(x: Name, e: Expr)
    | Compound(op: Machine.ArithOp, x: Name, e: Expr)
    | Do(e: Expr)
    | Print(args: Exprs)
    | If(c: Expr, thn: Stmt, els: Option<Stmt>)
    | IfLet(x: Name, e: Expr, thn: Stmt, els: Option<Stmt>)
    | While(c: Expr, body: Stmt)
    | ForIn(x: Name, lo: Expr, hi: Expr, closed: bool, body: Stmt)
    | Switch(e: Expr, cases: Cases)
    | Break
    | Return(result: Option<Expr>)

  /** The clauses of a `switch`, ended by the optional `default`. */
  datatype Cases =
    | NoCase
    | Default(body: Stmt)
    | Case(values: Exprs, body: Stmt, rest: Cases)

  datatype FuncDecl = FuncDecl(name: Name, params: seq<Name>, hasReturn: bool, body: Stmt)

  datatype Item = Func(f: FuncDecl) | Top(s: Stmt)
}
