/** The slice of Python's abstract syntax tree that the locals counter walks: the
    constructs of the compiled subset, each with its children in the order Python's
    generic visitor walks them. */
module PyAst {

  /** Whether a name is read or assigned. */
  datatype Ctx = Load | Store

  datatype Expr =
    | Name(id: string, ctx: Ctx)
    | Constant(value: int)
    | BinOp(left: Expr, right: Expr)
    | Compare(left: Expr, comparators: seq<Expr>)
    | Call(func: string, args: seq<Expr>)
    | Tuple(elts: seq<Expr>)

  datatype Stmt =
    | Assign(targets: seq<Expr>, value: Expr)
    | ExprStmt(value: Expr)
    | Return(value: Expr)
    | If(test: Expr, body: seq<Stmt>, orelse: seq<Stmt>)
    | While(test: Expr, body: seq<Stmt>)

  /** A function definition: its positional parameter names and its body. */
  datatype FunctionDef = FunctionDef(name: string, params: seq<string>, body: seq<Stmt>)
}
