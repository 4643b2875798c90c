/** The part of the abstract syntax the compiler model covers. */
module Syntax {
  import opened Values

  datatype Expr =
    | Literal(lit: Value)                        // number, string, bytes and symbol literals
    | BoolLit(b: bool)
    | NilLit
    | Name(name: string)
    | Bind(pattern: Pattern, asConst: bool, value: Expr)   // val (asConst) and var
    | Assign(target: Expr, value: Expr)
    | PrefixExpr(prefix: PrefixOp, operand: Expr)
    | Infix(op: BinOp, left: Expr, right: Expr)
    | And(left: Expr, right: Expr)
    | Or(left: Expr, right: Expr)
    | If(cond: Expr, thn: Expr, els: Option<Expr>)
    | Block(stmts: seq<Stmt>)
    | Match(subject: Expr, cases: seq<Case>)
    | ListLit(elems: seq<Expr>)
    | Index(left: Expr, index: Expr)

  datatype Stmt =
    | ExprStmt(e: Expr)
    | Return(e: Expr)
    | Throw(e: Expr)

  datatype Case = Case(pattern: Pattern, guard: Option<Expr>, body: Expr)

  datatype Pattern =
    | Wildcard
    | Ident(name: string)
    | As(name: string, inner: Pattern)           // name @ pattern
    | Pinned(name: string)                       // ^name
    | LiteralPat(e: Expr)
    | ListPat(elems: seq<Pattern>)
    | Spread(rest: Option<string>)               // ... and ...name
    | Multi(alts: seq<Pattern>)                  // p1, p2, p3

  /** The element of a list literal with exactly one element. */
  function SingleElement(e: Expr): (r: Option<Expr>)
    ensures r.Some? <==> e.ListLit? && |e.elems| == 1
    ensures r.Some? ==> r.value < e
  {
    if e.ListLit? && |e.elems| == 1 then Some(e.elems[0]) else None
  }

  datatype Operation = Operation(op: BinOp, left: Expr, right: Expr)

  /** The operation an infix expression is compiled to: `x + [e]` becomes `x :+ e`, and `[e] + x` becomes `e +: x` when
      `x` is not itself a one-element list. */
  function Lowered(e: Expr): (o: Operation)
    requires e.Infix?
    ensures o.left < e && o.right < e
  {
    if e.op == Add && SingleElement(e.right).Some? then Operation(Append, e.left, SingleElement(e.right).value)
    else if e.op == Add && SingleElement(e.left).Some? then Operation(Prepend, SingleElement(e.left).value, e.right)
    else Operation(e.op, e.left, e.right)
  }

  /** In a list pattern only the final element may be a spread. */
  predicate SpreadsLast(ps: seq<Pattern>) {
    forall i | 0 <= i < |ps| - 1 :: !ps[i].Spread?
  }

  /** Does the list pattern end in a spread? */
  predicate EndsInSpread(ps: seq<Pattern>) {
    |ps| > 0 && ps[|ps| - 1].Spread?
  }
}
