/**
 * The expression tree the evaluator walks. It follows what the evaluator reads:
 * a `Ternary` variant, an lvalue that is a non-empty path of names, and a struct
 * initialisation that carries the shape's `name` and its fields in source order.
 */
module Ast {
  import Values

  /** A non-empty path: a top-level name, then struct field names. */
  type Path = p: seq<string> | |p| > 0 witness [""]

  /** The literal value of a primitive. */
  datatype Atom =
    | Void
    | Bool(b: bool)
    | Int(i: Values.I64)
    | Float(x: Values.F32)
    | Char(c: char)
    | String(s: string)

  /** The built-in functions a call can name. */
  datatype BuiltIn = Clone | Spawn | Delete | Print

  datatype BinOp =
    | Add | Sub | Mul | Div | Mod
    | And | Or | Xor | BitAnd | BitOr
    | Shl | Shr | Leq | Geq | Lt
    | Gt | Eq | Neq

  datatype UnOp = Pos | Neg | Not | BitNot

  datatype Expr =
    | Atom(atom: Atom)
    | LValue(path: Path)
    | StructInit(name: string, fields: seq<(string, Expr)>)
    | Call(builtin: BuiltIn, args: seq<Expr>)
    | BinExpr(left: Expr, binOp: BinOp, right: Expr)
    | UnExpr(operand: Expr, unOp: UnOp)
    | Assign(target: Path, rhs: Expr)
    | Ternary(cond: Expr, branch1: Expr, branch2: Expr)
}
