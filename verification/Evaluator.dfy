/** The meaning of expressions, statements and patterns, by direct recursion on the syntax. */
module Evaluator {
  import opened Values
  import opened Syntax
  import opened Environments

  /** How an evaluation ends: with a value, or by leaving the program early. */
  datatype Outcome =
    | Val(v: Value, env: Env)
    | Returned(v: Value, env: Env)
    | Thrown(v: Value, env: Env)
    | Failed(failure: Failure, env: Env)

  /** The result of matching: the environment with the pattern's names, no match, or an early end. */
  datatype Matched =
    | Hit(env: Env)
    | Miss(env: Env)
    | Stop(outcome: Outcome)

  /** The result of trying a case: its body was run, or the next case is to be tried. */
  datatype Tried =
    | Taken(outcome: Outcome)
    | Skipped(env: Env)

  function FromResult(r: Result<Value>, env: Env): Outcome {
    match r
    case Ok(v) => Val(v, env)
    case Err(f) => Failed(f, env)
  }

  function FromBinding(r: EnvResult, v: Value, env: Env): Outcome {
    match r
    case Updated(e) => Val(v, e)
    case Rejected(f) => Failed(f, env)
  }

  /** Close the scope a construct opened, if it ended normally. */
  function Close(o: Outcome): Outcome {
    match o
    case Val(v, env) => Val(v, Leave(env))
    case _ => o
  }

  function Eval(pr: Prims, e: Expr, env: Env): (o: Outcome)
    ensures o.Val? ==> Depth(o.env) == Depth(env)
    decreases e, 1
  {
    match e
    case Literal(v) => Val(v, env)
    case BoolLit(b) => Val(Bool(b), env)
    case NilLit => Val(Nil, env)
    case Name(x) => FromResult(Get(env, x), env)
    case Bind(_, _, _) => EvalBind(pr, e, env)
    case Assign(_, _) => EvalAssign(pr, e, env)
    case PrefixExpr(_, _) => EvalPrefix(pr, e, env)
    case Infix(_, _, _) => EvalInfix(pr, e, env)
    case And(_, _) => EvalAnd(pr, e, env)
    case Or(_, _) => EvalOr(pr, e, env)
    case If(_, _, _) => EvalIf(pr, e, env)
    case Block(_) => EvalBlock(pr, e, env)
    case Match(_, _) => EvalMatch(pr, e, env)
    case ListLit(es) => EvalList(pr, es, [], env)
    case Index(_, _) => EvalIndex(pr, e, env)
  }

  function EvalBind(pr: Prims, e: Expr, env: Env): (o: Outcome)
    requires e.Bind?
    ensures o.Val? ==> Depth(o.env) == Depth(env)
    decreases e, 0
  {
    match Eval(pr, e.value, env)
    case Val(v, env1) => BindAll(pr, e.pattern, v, e.asConst, env1)
    case o => o
  }

  function EvalAssign(pr: Prims, e: Expr, env: Env): (o: Outcome)
    requires e.Assign?
    ensures o.Val? ==> Depth(o.env) == Depth(env)
    decreases e, 0
  {
    match Eval(pr, e.value, env)
    case Val(v, env1) =>
      if e.target.Name? then FromBinding(AssignTo(env1, e.target.name, v), v, env1) else Val(v, env1)
    case o => o
  }

  function EvalPrefix(pr: Prims, e: Expr, env: Env): (o: Outcome)
    requires e.PrefixExpr?
    ensures o.Val? ==> Depth(o.env) == Depth(env)
    decreases e, 0
  {
    match Eval(pr, e.operand, env)
    case Val(v, env1) => FromResult(Prefix(pr, e.prefix, v), env1)
    case o => o
  }

  /** Both operands left to right, then the operator. */
  function EvalInfix(pr: Prims, e: Expr, env: Env): (o: Outcome)
    requires e.Infix?
    ensures o.Val? ==> Depth(o.env) == Depth(env)
    decreases e, 0
  {
    var op := Lowered(e);
    match Eval(pr, op.left, env)
    case Val(l, env1) =>
      (match Eval(pr, op.right, env1)
       case Val(r, env2) => FromResult(Binary(pr, op.op, l, r), env2)
       case o => o)
    case o => o
  }

  function EvalAnd(pr: Prims, e: Expr, env: Env): (o: Outcome)
    requires e.And?
    ensures o.Val? ==> Depth(o.env) == Depth(env)
    decreases e, 0
  {
    match Eval(pr, e.left, env)
    case Val(v, env1) => if Truthy(v) then Eval(pr, e.right, env1) else Val(Bool(false), env1)
    case o => o
  }

  function EvalOr(pr: Prims, e: Expr, env: Env): (o: Outcome)
    requires e.Or?
    ensures o.Val? ==> Depth(o.env) == Depth(env)
    decreases e, 0
  {
    match Eval(pr, e.left, env)
    case Val(v, env1) => if Truthy(v) then Val(Bool(true), env1) else Eval(pr, e.right, env1)
    case o => o
  }

  function EvalIf(pr: Prims, e: Expr, env: Env): (o: Outcome)
    requires e.If?
    ensures o.Val? ==> Depth(o.env) == Depth(env)
    decreases e, 0
  {
    match Eval(pr, e.cond, env)
    case Val(v, env1) =>
      if Truthy(v) then Eval(pr, e.thn, env1)
      else if e.els.Some? then Eval(pr, e.els.value, env1)
      else Val(Nil, env1)
    case o => o
  }

  function EvalBlock(pr: Prims, e: Expr, env: Env): (o: Outcome)
    requires e.Block?
    ensures o.Val? ==> Depth(o.env) == Depth(env)
    decreases e, 0
  {
    if e.stmts == [] then Val(Nil, env) else Close(EvalStmts(pr, e.stmts, Enclosed(env)))
  }

  function EvalMatch(pr: Prims, e: Expr, env: Env): (o: Outcome)
    requires e.Match?
    ensures o.Val? ==> Depth(o.env) == Depth(env)
    decreases e, 0
  {
    match Eval(pr, e.subject, env)
    case Val(v, env1) => EvalCases(pr, e.cases, v, env1)
    case o => o
  }

  function EvalIndex(pr: Prims, e: Expr, env: Env): (o: Outcome)
    requires e.Index?
    ensures o.Val? ==> Depth(o.env) == Depth(env)
    decreases e, 0
  {
    match Eval(pr, e.left, env)
    case Val(l, env1) =>
      (match Eval(pr, e.index, env1)
       case Val(i, env2) => FromResult(IndexValue(pr, l, i), env2)
       case o => o)
    case o => o
  }

  function EvalStmt(pr: Prims, s: Stmt, env: Env): (o: Outcome)
    ensures o.Val? ==> Depth(o.env) == Depth(env)
    decreases s, 0
  {
    match s
    case ExprStmt(e) => Eval(pr, e, env)
    case Return(e) =>
      (match Eval(pr, e, env)
       case Val(v, env1) => Returned(v, env1)
       case o => o)
    case Throw(e) =>
      (match Eval(pr, e, env)
       case Val(v, env1) => Thrown(v, env1)
       case o => o)
  }

  /** Statements in order; the value is that of the last one. */
  function EvalStmts(pr: Prims, stmts: seq<Stmt>, env: Env): (o: Outcome)
    requires stmts != []
    ensures o.Val? ==> Depth(o.env) == Depth(env)
    decreases stmts, 0
  {
    match EvalStmt(pr, stmts[0], env)
    case Val(v, env1) => if |stmts| == 1 then Val(v, env1) else EvalStmts(pr, stmts[1..], env1)
    case o => o
  }

  /** List elements left to right, after those already evaluated. */
  function EvalList(pr: Prims, es: seq<Expr>, done: seq<Value>, env: Env): (o: Outcome)
    ensures o.Val? ==> Depth(o.env) == Depth(env) && o.v.List?
    decreases es, 0
  {
    if es == [] then Val(List(done), env)
    else match Eval(pr, es[0], env)
      case Val(v, env1) => EvalList(pr, es[1..], done + [v], env1)
      case o => o
  }

  /** `val` and `var`: bind every name of the pattern; the value of the expression is the value bound. Elements missing
      from the value are nil; a named spread takes the remaining elements. */
  function BindAll(pr: Prims, p: Pattern, v: Value, asConst: bool, env: Env): (o: Outcome)
    ensures o.Val? ==> Depth(o.env) == Depth(env) && o.v == v
    decreases p, 1
  {
    match p
    case Ident(x) => FromBinding(Define(env, x, v, asConst), v, env)
    case As(_, _) => BindAs(pr, p, v, asConst, env)
    case ListPat(ps) => BindElems(pr, ps, 0, v, asConst, env)
    case _ => Val(v, env)
  }

  function BindAs(pr: Prims, p: Pattern, v: Value, asConst: bool, env: Env): (o: Outcome)
    requires p.As?
    ensures o.Val? ==> Depth(o.env) == Depth(env) && o.v == v
    decreases p, 0
  {
    match Define(env, p.name, v, asConst)
    case Updated(env1) => BindAll(pr, p.inner, v, asConst, env1)
    case Rejected(f) => Failed(f, env)
  }

  function BindElems(pr: Prims, ps: seq<Pattern>, i: nat, v: Value, asConst: bool, env: Env): (o: Outcome)
    ensures o.Val? ==> Depth(o.env) == Depth(env) && o.v == v
    decreases ps, 0
  {
    if ps == [] then Val(v, env)
    else match BindElem(pr, ps[0], i, v, asConst, env)
      case Val(_, env1) => BindElems(pr, ps[1..], i + 1, v, asConst, env1)
      case o => o
  }

  function BindElem(pr: Prims, p: Pattern, i: nat, v: Value, asConst: bool, env: Env): (o: Outcome)
    ensures o.Val? ==> Depth(o.env) == Depth(env) && o.v == v
    decreases p, 3
  {
    match p
    case Wildcard => Val(v, env)
    case Spread(None) => Val(v, env)
    case Spread(Some(x)) =>
      (match IndexValue(pr, v, Slice(Num(FromInt(i)), Nil, Nil))
       case Ok(rest) => FromBinding(Define(env, x, rest, asConst), v, env)
       case Err(f) => Failed(f, env))
    case _ => BindPart(pr, p, i, v, asConst, env)
  }

  /** A pattern against element `i` of the value. */
  function BindPart(pr: Prims, p: Pattern, i: nat, v: Value, asConst: bool, env: Env): (o: Outcome)
    ensures o.Val? ==> Depth(o.env) == Depth(env) && o.v == v
    decreases p, 2
  {
    match IndexValue(pr, v, Num(FromInt(i)))
    case Ok(el) =>
      (match BindAll(pr, p, el, asConst, env)
       case Val(_, env1) => Val(v, env1)
       case o => o)
    case Err(f) => Failed(f, env)
  }

  /** The first case whose pattern and guard hold; nil when there is none. */
  function EvalCases(pr: Prims, cases: seq<Case>, v: Value, env: Env): (o: Outcome)
    ensures o.Val? ==> Depth(o.env) == Depth(env)
    decreases cases, 0
  {
    if cases == [] then Val(Nil, env)
    else match EvalCase(pr, cases[0], v, env)
      case Taken(o) => o
      case Skipped(env1) => EvalCases(pr, cases[1..], v, env1)
  }

  /** The pattern under an outermost `name @`. */
  function Stripped(p: Pattern): (r: Pattern)
    ensures r == p || r < p
  {
    if p.As? then p.inner else p
  }

  /** Patterns that bind names get a scope of their own, closed again when the case is left. */
  predicate Scoped(p: Pattern) { p.Ident? || p.ListPat? }

  function EvalCase(pr: Prims, c: Case, v: Value, env: Env): (t: Tried)
    ensures t.Taken? && t.outcome.Val? ==> Depth(t.outcome.env) == Depth(env)
    ensures t.Skipped? ==> Depth(t.env) == Depth(env)
    decreases c, 2
  {
    if Scoped(Stripped(c.pattern)) then EvalScopedCase(pr, c, v, env) else EvalFlatCase(pr, c, v, env)
  }

  function EvalScopedCase(pr: Prims, c: Case, v: Value, env: Env): (t: Tried)
    requires Scoped(Stripped(c.pattern))
    ensures t.Taken? && t.outcome.Val? ==> Depth(t.outcome.env) == Depth(env)
    ensures t.Skipped? ==> Depth(t.env) == Depth(env)
    decreases c, 1
  {
    match MatchScoped(pr, c, v, Enclosed(env))
    case Hit(env1) => Taken(Close(Eval(pr, c.body, env1)))
    case Miss(env1) => Skipped(Leave(env1))
    case Stop(o) => Taken(o)
  }

  function EvalFlatCase(pr: Prims, c: Case, v: Value, env: Env): (t: Tried)
    ensures t.Taken? && t.outcome.Val? ==> Depth(t.outcome.env) == Depth(env)
    ensures t.Skipped? ==> Depth(t.env) == Depth(env)
    decreases c, 1
  {
    match MatchFlat(pr, c, v, env)
    case Hit(env1) => Taken(Eval(pr, c.body, env1))
    case Miss(env1) => Skipped(env1)
    case Stop(o) => Taken(o)
  }

  /** A binding pattern and its guard, inside the case's scope. */
  function MatchScoped(pr: Prims, c: Case, v: Value, env: Env): (m: Matched)
    requires Scoped(Stripped(c.pattern))
    ensures m.Hit? || m.Miss? ==> Depth(m.env) == Depth(env)
    ensures m.Stop? ==> !m.outcome.Val?
    decreases c, 0
  {
    match (if c.pattern.As? then BindOne(env, c.pattern.name, v) else Hit(env))
    case Hit(env0) =>
      (match MatchBinding(pr, Stripped(c.pattern), v, env0)
       case Hit(env1) => EvalGuard(pr, c.guard, env1)
       case m => m)
    case m => m
  }

  function MatchBinding(pr: Prims, p: Pattern, v: Value, env: Env): (m: Matched)
    requires Scoped(p)
    ensures m.Hit? || m.Miss? ==> Depth(m.env) == Depth(env)
    ensures m.Stop? ==> !m.outcome.Val?
    decreases p, 3
  {
    match p
    case Ident(x) => BindOne(env, x, v)
    case ListPat(ps) => MatchList(pr, ps, v, env)
  }

  function BindOne(env: Env, x: string, v: Value): (m: Matched)
    ensures m.Hit? || m.Miss? ==> Depth(m.env) == Depth(env)
    ensures m.Stop? ==> !m.outcome.Val?
  {
    match Define(env, x, v, true)
    case Updated(env1) => Hit(env1)
    case Rejected(f) => Stop(Failed(f, env))
  }

  /** Wildcards, literals, pinned names and alternatives; a name in front of them is not bound. */
  function MatchFlat(pr: Prims, c: Case, v: Value, env: Env): (m: Matched)
    ensures m.Hit? || m.Miss? ==> Depth(m.env) == Depth(env)
    ensures m.Stop? ==> !m.outcome.Val?
    decreases c, 0
  {
    match MatchNonBinding(pr, Stripped(c.pattern), v, env)
    case Hit(env1) => EvalGuard(pr, c.guard, env1)
    case m => m
  }

  function MatchNonBinding(pr: Prims, p: Pattern, v: Value, env: Env): (m: Matched)
    ensures m.Hit? || m.Miss? ==> Depth(m.env) == Depth(env)
    ensures m.Stop? ==> !m.outcome.Val?
    decreases p, 3
  {
    match p
    case Wildcard => Hit(env)
    case Multi(alts) => MatchAny(pr, alts, v, env)
    case _ => MatchEqual(pr, p, v, env)
  }

  function EvalGuard(pr: Prims, guard: Option<Expr>, env: Env): (m: Matched)
    ensures m.Hit? || m.Miss? ==> Depth(m.env) == Depth(env)
    ensures m.Stop? ==> !m.outcome.Val?
    decreases guard, 0
  {
    match guard
    case None => Hit(env)
    case Some(g) =>
      match Eval(pr, g, env)
      case Val(b, env1) => if Truthy(b) then Hit(env1) else Miss(env1)
      case o => Stop(o)
  }

  /** The value a literal or pinned pattern stands for. */
  function EvalOperand(pr: Prims, p: Pattern, env: Env): (o: Outcome)
    ensures o.Val? ==> Depth(o.env) == Depth(env)
    decreases p, 0
  {
    match p
    case LiteralPat(e) => Eval(pr, e, env)
    case Pinned(x) => FromResult(Get(env, x), env)
    case _ => Val(Nil, env)
  }

  /** A literal or pinned pattern matches what equals its value. */
  function MatchEqual(pr: Prims, p: Pattern, v: Value, env: Env): (m: Matched)
    ensures m.Hit? || m.Miss? ==> Depth(m.env) == Depth(env)
    ensures m.Stop? ==> !m.outcome.Val?
    decreases p, 1
  {
    match EvalOperand(pr, p, env)
    case Val(w, env1) => if ObjectsEqual(pr, v, w) then Hit(env1) else Miss(env1)
    case o => Stop(o)
  }

  function MatchAny(pr: Prims, alts: seq<Pattern>, v: Value, env: Env): (m: Matched)
    ensures m.Hit? || m.Miss? ==> Depth(m.env) == Depth(env)
    ensures m.Stop? ==> !m.outcome.Val?
    decreases alts, 0
  {
    if alts == [] then Miss(env)
    else match MatchEqual(pr, alts[0], v, env)
      case Miss(env1) => MatchAny(pr, alts[1..], v, env1)
      case m => m
  }

  /** A list pattern: the length first, then the elements from left to right. */
  function MatchList(pr: Prims, ps: seq<Pattern>, v: Value, env: Env): (m: Matched)
    ensures m.Hit? || m.Miss? ==> Depth(m.env) == Depth(env)
    ensures m.Stop? ==> !m.outcome.Val?
    decreases ps, 1
  {
    if LengthFits(ps, v) then MatchElems(pr, ps, 0, v, env) else Miss(env)
  }

  predicate LengthFits(ps: seq<Pattern>, v: Value) {
    var n := SeqLen(v);
    n.Some? && if EndsInSpread(ps) then n.value >= |ps| - 1 else n.value == |ps|
  }

  /** The patterns `ps` against the elements of `v` from position `i` on. */
  function MatchElems(pr: Prims, ps: seq<Pattern>, i: nat, v: Value, env: Env): (m: Matched)
    requires SeqLen(v).Some?
    requires ps != [] ==> i + |ps| <= SeqLen(v).value + (if EndsInSpread(ps) then 1 else 0)
    ensures m.Hit? || m.Miss? ==> Depth(m.env) == Depth(env)
    ensures m.Stop? ==> !m.outcome.Val?
    decreases ps, 0
  {
    if ps == [] then Hit(env)
    else match MatchElem(pr, ps[0], i, v, env)
      case Hit(env1) => MatchElems(pr, ps[1..], i + 1, v, env1)
      case m => m
  }

  function MatchElem(pr: Prims, p: Pattern, i: nat, v: Value, env: Env): (m: Matched)
    requires SeqLen(v).Some? && (p.Spread? || i < SeqLen(v).value)
    ensures m.Hit? || m.Miss? ==> Depth(m.env) == Depth(env)
    ensures m.Stop? ==> !m.outcome.Val?
    decreases p, 2
  {
    match p
    case Wildcard => Hit(env)
    case Ident(x) => BindOne(env, x, SeqAt(v, i))
    case Spread(Some(x)) => BindOne(env, x, SeqTail(v, i))
    case Spread(None) => Hit(env)
    case ListPat(ps) => MatchList(pr, ps, SeqAt(v, i), env)
    case _ => MatchEqual(pr, p, SeqAt(v, i), env)
  }

  /** A program: the statements in order. Its result is the value of the last statement. */
  function EvalProgram(pr: Prims, stmts: seq<Stmt>, last: Value, env: Env): Outcome
    decreases stmts
  {
    if stmts == [] then Returned(last, env)
    else match EvalStmt(pr, stmts[0], env)
      case Val(v, env1) => EvalProgram(pr, stmts[1..], v, env1)
      case o => o
  }
}
