/** Evaluating an expression changes no `val` of a scope that is still open afterwards. */
module Steadiness {
  import opened Values
  import opened Syntax
  import opened Environments
  import opened Evaluator
  import opened Immutability

  /** The same scopes are open, and in each the `val`s keep their values and the names stay what they are. */
  predicate Steady(e: Env, e1: Env) { Depth(e) == Depth(e1) && Keeps(e, e1) }

  predicate Goes(env: Env, o: Outcome) { o.Val? ==> Steady(env, o.env) }

  predicate Finds(env: Env, m: Matched) { m.Hit? || m.Miss? ==> Steady(env, m.env) }

  predicate TriesOn(env: Env, t: Tried) {
    match t
    case Taken(o) => Goes(env, o)
    case Skipped(env1) => Steady(env, env1)
  }

  lemma SteadyItself(env: Env)
    ensures Steady(env, env)
  {
    KeepsItself(env);
  }

  lemma SteadyThrough(e: Env, e1: Env, e2: Env)
    requires Steady(e, e1) && Steady(e1, e2)
    ensures Steady(e, e2)
  {
    hide AtHeight;
    forall h: nat | h <= Depth(e) && h <= Depth(e2) ensures Fixed(AtHeight(e, h), AtHeight(e2, h)) {
      assert Fixed(AtHeight(e, h), AtHeight(e1, h)) && Fixed(AtHeight(e1, h), AtHeight(e2, h));
    }
  }

  lemma SteadyInside(env: Env, e1: Env)
    requires Steady(Enclosed(env), e1)
    ensures Steady(env, Leave(e1))
  {
    forall h: nat | h <= Depth(env) ensures Fixed(AtHeight(env, h), AtHeight(Leave(e1), h)) {
      assert Fixed(AtHeight(Enclosed(env), h), AtHeight(e1, h));
    }
  }

  lemma DefineSteady(env: Env, x: string, v: Value, asConst: bool)
    ensures var r := Define(env, x, v, asConst); r.Updated? ==> Steady(env, r.env)
  {
    if Define(env, x, v, asConst).Updated? { DefineKeeps(env, x, v, asConst); }
  }

  lemma AssignSteady(env: Env, x: string, v: Value)
    ensures var r := AssignTo(env, x, v); r.Updated? ==> Steady(env, r.env)
  {
    if AssignTo(env, x, v).Updated? { AssignKeeps(env, x, v); }
  }

  lemma Onwards(env: Env, env1: Env, o: Outcome)
    requires Steady(env, env1) && Goes(env1, o)
    ensures Goes(env, o)
  {
    hide Steady;
    if o.Val? { SteadyThrough(env, env1, o.env); }
  }

  lemma FindsOnwards(env: Env, env1: Env, m: Matched)
    requires Steady(env, env1) && Finds(env1, m)
    ensures Finds(env, m)
  {
    hide Steady;
    if m.Hit? || m.Miss? { SteadyThrough(env, env1, m.env); }
  }

  lemma ClosedGoes(env: Env, o: Outcome)
    requires Goes(Enclosed(env), o)
    ensures Goes(env, Close(o))
  {
    hide Steady;
    if o.Val? { SteadyInside(env, o.env); }
  }

  /** No expression changes a `val`, or a name from `val` to `var` or back, in any scope that is open around it. */
  lemma {:induction false} EvalKeepsVals(pr: Prims, e: Expr, env: Env)
    ensures Goes(env, Eval(pr, e, env))
    decreases e, 1
  {
    hide Steady; hide EvalBind; hide EvalAssign; hide EvalBlock; hide EvalMatch; hide EvalList; hide EvalIf;
    SteadyItself(env);
    match e
    case Bind(_, _, _) => BindKeepsVals(pr, e, env);
    case Assign(_, _) => AssignKeepsVals(pr, e, env);
    case PrefixExpr(_, x) => EvalKeepsVals(pr, x, env);
    case Infix(_, _, _) => TwoKeepVals(pr, e, Lowered(e).left, Lowered(e).right, env);
    case And(l, r) => TwoKeepVals(pr, e, l, r, env);
    case Or(l, r) => TwoKeepVals(pr, e, l, r, env);
    case If(_, _, _) => IfKeepsVals(pr, e, env);
    case Block(_) => BlockKeepsVals(pr, e, env);
    case Match(_, _) => MatchKeepsVals(pr, e, env);
    case ListLit(es) => ListKeepsVals(pr, es, [], env);
    case Index(l, i) => TwoKeepVals(pr, e, l, i, env);
    case _ =>
  }

  /** One part of an expression, then another. */
  lemma {:induction false} TwoKeepVals(pr: Prims, e: Expr, l: Expr, r: Expr, env: Env)
    requires l < e && r < e
    ensures Goes(env, Eval(pr, l, env))
    ensures var o := Eval(pr, l, env); o.Val? ==> Goes(env, Eval(pr, r, o.env))
    decreases e, 0
  {
    hide Steady; hide Eval;
    EvalKeepsVals(pr, l, env);
    var o := Eval(pr, l, env);
    if o.Val? {
      EvalKeepsVals(pr, r, o.env);
      Onwards(env, o.env, Eval(pr, r, o.env));
    }
  }

  lemma {:induction false} BindKeepsVals(pr: Prims, e: Expr, env: Env)
    requires e.Bind?
    ensures Goes(env, EvalBind(pr, e, env))
    decreases e, 0
  {
    hide Steady; hide Eval; hide BindAll;
    EvalKeepsVals(pr, e.value, env);
    var o := Eval(pr, e.value, env);
    if o.Val? {
      BindAllKeepsVals(pr, e.pattern, o.v, e.asConst, o.env);
      Onwards(env, o.env, BindAll(pr, e.pattern, o.v, e.asConst, o.env));
    }
  }

  lemma {:induction false} AssignKeepsVals(pr: Prims, e: Expr, env: Env)
    requires e.Assign?
    ensures Goes(env, EvalAssign(pr, e, env))
    decreases e, 0
  {
    hide Steady; hide Eval; hide AssignTo;
    EvalKeepsVals(pr, e.value, env);
    var o := Eval(pr, e.value, env);
    if o.Val? && e.target.Name? {
      AssignSteady(o.env, e.target.name, o.v);
      Onwards(env, o.env, FromBinding(AssignTo(o.env, e.target.name, o.v), o.v, o.env));
    }
  }

  lemma {:induction false} IfKeepsVals(pr: Prims, e: Expr, env: Env)
    requires e.If?
    ensures Goes(env, EvalIf(pr, e, env))
    decreases e, 0
  {
    hide Steady; hide Eval;
    EvalKeepsVals(pr, e.cond, env);
    var o := Eval(pr, e.cond, env);
    if o.Val? {
      if Truthy(o.v) {
        EvalKeepsVals(pr, e.thn, o.env);
        Onwards(env, o.env, Eval(pr, e.thn, o.env));
      } else if e.els.Some? {
        EvalKeepsVals(pr, e.els.value, o.env);
        Onwards(env, o.env, Eval(pr, e.els.value, o.env));
      }
    }
  }

  lemma {:induction false} BlockKeepsVals(pr: Prims, e: Expr, env: Env)
    requires e.Block?
    ensures Goes(env, EvalBlock(pr, e, env))
    decreases e, 0
  {
    hide Steady; hide EvalStmts;
    if e.stmts == [] {
      SteadyItself(env);
    } else {
      StmtsKeepVals(pr, e.stmts, Enclosed(env));
      ClosedGoes(env, EvalStmts(pr, e.stmts, Enclosed(env)));
    }
  }

  lemma {:induction false} MatchKeepsVals(pr: Prims, e: Expr, env: Env)
    requires e.Match?
    ensures Goes(env, EvalMatch(pr, e, env))
    decreases e, 0
  {
    hide Steady; hide Eval; hide EvalCases;
    EvalKeepsVals(pr, e.subject, env);
    var o := Eval(pr, e.subject, env);
    if o.Val? {
      CasesKeepVals(pr, e.cases, o.v, o.env);
      Onwards(env, o.env, EvalCases(pr, e.cases, o.v, o.env));
    }
  }

  lemma {:induction false} StmtKeepsVals(pr: Prims, s: Stmt, env: Env)
    ensures Goes(env, EvalStmt(pr, s, env))
    decreases s, 0
  {
    hide Steady; hide Eval;
    EvalKeepsVals(pr, s.e, env);
  }

  lemma {:induction false} StmtsKeepVals(pr: Prims, stmts: seq<Stmt>, env: Env)
    requires stmts != []
    ensures Goes(env, EvalStmts(pr, stmts, env))
    decreases stmts, 0
  {
    hide Steady; hide EvalStmt;
    StmtKeepsVals(pr, stmts[0], env);
    var o := EvalStmt(pr, stmts[0], env);
    if o.Val? && |stmts| > 1 {
      StmtsKeepVals(pr, stmts[1..], o.env);
      Onwards(env, o.env, EvalStmts(pr, stmts[1..], o.env));
    }
  }

  lemma {:induction false} ListKeepsVals(pr: Prims, es: seq<Expr>, done: seq<Value>, env: Env)
    ensures Goes(env, EvalList(pr, es, done, env))
    decreases es, 0
  {
    hide Steady; hide Eval;
    if es == [] {
      SteadyItself(env);
    } else {
      EvalKeepsVals(pr, es[0], env);
      var o := Eval(pr, es[0], env);
      if o.Val? {
        ListKeepsVals(pr, es[1..], done + [o.v], o.env);
        Onwards(env, o.env, EvalList(pr, es[1..], done + [o.v], o.env));
      }
    }
  }

  // ----- `val` and `var` patterns -----

  lemma {:induction false} BindAllKeepsVals(pr: Prims, p: Pattern, v: Value, asConst: bool, env: Env)
    ensures Goes(env, BindAll(pr, p, v, asConst, env))
    decreases p, 1
  {
    hide Steady; hide Define; hide BindElems;
    SteadyItself(env);
    match p
    case Ident(x) => DefineSteady(env, x, v, asConst);
    case As(x, inner) =>
      DefineSteady(env, x, v, asConst);
      var r := Define(env, x, v, asConst);
      if r.Updated? {
        BindAllKeepsVals(pr, inner, v, asConst, r.env);
        Onwards(env, r.env, BindAll(pr, inner, v, asConst, r.env));
      }
    case ListPat(ps) => BindElemsKeepVals(pr, ps, 0, v, asConst, env);
    case _ =>
  }

  lemma {:induction false} BindElemsKeepVals(pr: Prims, ps: seq<Pattern>, i: nat, v: Value, asConst: bool, env: Env)
    ensures Goes(env, BindElems(pr, ps, i, v, asConst, env))
    decreases ps, 0
  {
    hide Steady; hide BindElem;
    if ps == [] {
      SteadyItself(env);
    } else {
      BindElemKeepsVals(pr, ps[0], i, v, asConst, env);
      var o := BindElem(pr, ps[0], i, v, asConst, env);
      if o.Val? {
        BindElemsKeepVals(pr, ps[1..], i + 1, v, asConst, o.env);
        Onwards(env, o.env, BindElems(pr, ps[1..], i + 1, v, asConst, o.env));
      }
    }
  }

  lemma {:induction false} BindElemKeepsVals(pr: Prims, p: Pattern, i: nat, v: Value, asConst: bool, env: Env)
    ensures Goes(env, BindElem(pr, p, i, v, asConst, env))
    decreases p, 2
  {
    hide Steady; hide Define; hide BindAll; hide IndexValue;
    SteadyItself(env);
    if p.Spread? && p.rest.Some? {
      var rest := IndexValue(pr, v, Slice(Num(FromInt(i)), Nil, Nil));
      if rest.Ok? { DefineSteady(env, p.rest.value, rest.value, asConst); }
    } else if !p.Wildcard? && !p.Spread? {
      var el := IndexValue(pr, v, Num(FromInt(i)));
      if el.Ok? { BindAllKeepsVals(pr, p, el.value, asConst, env); }
    }
  }

  // ----- matching -----

  lemma {:induction false} CasesKeepVals(pr: Prims, cases: seq<Case>, v: Value, env: Env)
    ensures Goes(env, EvalCases(pr, cases, v, env))
    decreases cases, 0
  {
    hide Steady; hide EvalCase;
    if cases == [] {
      SteadyItself(env);
    } else {
      CaseKeepsVals(pr, cases[0], v, env);
      var t := EvalCase(pr, cases[0], v, env);
      if t.Skipped? {
        CasesKeepVals(pr, cases[1..], v, t.env);
        Onwards(env, t.env, EvalCases(pr, cases[1..], v, t.env));
      }
    }
  }

  lemma {:induction false} CaseKeepsVals(pr: Prims, c: Case, v: Value, env: Env)
    ensures TriesOn(env, EvalCase(pr, c, v, env))
    decreases c, 1
  {
    hide Steady; hide Eval; hide MatchScoped; hide MatchFlat;
    if Scoped(Stripped(c.pattern)) {
      ScopedKeepsVals(pr, c, v, Enclosed(env));
      var m := MatchScoped(pr, c, v, Enclosed(env));
      if m.Hit? {
        EvalKeepsVals(pr, c.body, m.env);
        Onwards(Enclosed(env), m.env, Eval(pr, c.body, m.env));
        ClosedGoes(env, Eval(pr, c.body, m.env));
      } else if m.Miss? {
        SteadyInside(env, m.env);
      }
    } else {
      FlatKeepsVals(pr, c, v, env);
      var m := MatchFlat(pr, c, v, env);
      if m.Hit? {
        EvalKeepsVals(pr, c.body, m.env);
        Onwards(env, m.env, Eval(pr, c.body, m.env));
      }
    }
  }

  lemma {:induction false} ScopedKeepsVals(pr: Prims, c: Case, v: Value, env: Env)
    requires Scoped(Stripped(c.pattern))
    ensures Finds(env, MatchScoped(pr, c, v, env))
    decreases c, 0
  {
    hide Steady; hide BindOne; hide MatchBinding; hide EvalGuard;
    SteadyItself(env);
    if c.pattern.As? { BindOneKeepsVals(env, c.pattern.name, v); }
    var m0 := if c.pattern.As? then BindOne(env, c.pattern.name, v) else Hit(env);
    if m0.Hit? {
      InsideKeepsVals(pr, c, v, m0.env);
      FindsOnwards(env, m0.env, MatchInside(pr, c, v, m0.env));
    }
  }

  /** The pattern and the guard of a case, once a name in front of it is bound. */
  function MatchInside(pr: Prims, c: Case, v: Value, env: Env): Matched
    requires Scoped(Stripped(c.pattern))
  {
    match MatchBinding(pr, Stripped(c.pattern), v, env)
    case Hit(env1) => EvalGuard(pr, c.guard, env1)
    case m => m
  }

  lemma {:induction false} InsideKeepsVals(pr: Prims, c: Case, v: Value, env: Env)
    requires Scoped(Stripped(c.pattern))
    ensures Finds(env, MatchInside(pr, c, v, env))
    decreases c, 0, 0
  {
    hide Steady; hide BindOne; hide MatchList; hide EvalGuard;
    var p := Stripped(c.pattern);
    if p.Ident? { BindOneKeepsVals(env, p.name, v); } else { ListPatKeepsVals(pr, p.elems, v, env); }
    var m := MatchBinding(pr, p, v, env);
    if m.Hit? {
      GuardKeepsVals(pr, c.guard, m.env);
      FindsOnwards(env, m.env, EvalGuard(pr, c.guard, m.env));
    }
  }

  lemma BindOneKeepsVals(env: Env, x: string, v: Value)
    ensures Finds(env, BindOne(env, x, v))
  {
    hide Steady; hide Define;
    DefineSteady(env, x, v, true);
  }

  lemma {:induction false} FlatKeepsVals(pr: Prims, c: Case, v: Value, env: Env)
    ensures Finds(env, MatchFlat(pr, c, v, env))
    decreases c, 0
  {
    hide Steady; hide MatchAny; hide MatchEqual; hide EvalGuard;
    var p := Stripped(c.pattern);
    SteadyItself(env);
    if p.Multi? { AnyKeepsVals(pr, p.alts, v, env); } else if !p.Wildcard? { EqualKeepsVals(pr, p, v, env); }
    var m := MatchNonBinding(pr, p, v, env);
    if m.Hit? {
      GuardKeepsVals(pr, c.guard, m.env);
      FindsOnwards(env, m.env, EvalGuard(pr, c.guard, m.env));
    }
  }

  lemma {:induction false} GuardKeepsVals(pr: Prims, guard: Option<Expr>, env: Env)
    ensures Finds(env, EvalGuard(pr, guard, env))
    decreases guard, 0
  {
    hide Steady; hide Eval;
    SteadyItself(env);
    if guard.Some? { EvalKeepsVals(pr, guard.value, env); }
  }

  lemma {:induction false} EqualKeepsVals(pr: Prims, p: Pattern, v: Value, env: Env)
    ensures Finds(env, MatchEqual(pr, p, v, env))
    decreases p, 0
  {
    hide Steady; hide Eval; hide Get;
    SteadyItself(env);
    if p.LiteralPat? { EvalKeepsVals(pr, p.e, env); }
  }

  lemma {:induction false} AnyKeepsVals(pr: Prims, alts: seq<Pattern>, v: Value, env: Env)
    ensures Finds(env, MatchAny(pr, alts, v, env))
    decreases alts, 0
  {
    hide Steady; hide MatchEqual;
    if alts == [] {
      SteadyItself(env);
    } else {
      EqualKeepsVals(pr, alts[0], v, env);
      var m := MatchEqual(pr, alts[0], v, env);
      if m.Miss? {
        AnyKeepsVals(pr, alts[1..], v, m.env);
        FindsOnwards(env, m.env, MatchAny(pr, alts[1..], v, m.env));
      }
    }
  }

  lemma {:induction false} ListPatKeepsVals(pr: Prims, ps: seq<Pattern>, v: Value, env: Env)
    ensures Finds(env, MatchList(pr, ps, v, env))
    decreases ps, 1
  {
    hide Steady; hide MatchElems;
    SteadyItself(env);
    if LengthFits(ps, v) { ElemsKeepVals(pr, ps, 0, v, env); }
  }

  lemma {:induction false} ElemsKeepVals(pr: Prims, ps: seq<Pattern>, i: nat, v: Value, env: Env)
    requires SeqLen(v).Some?
    requires ps != [] ==> i + |ps| <= SeqLen(v).value + (if EndsInSpread(ps) then 1 else 0)
    ensures Finds(env, MatchElems(pr, ps, i, v, env))
    decreases ps, 0
  {
    hide Steady; hide MatchElem;
    if ps == [] {
      SteadyItself(env);
    } else {
      ElemKeepsVals(pr, ps[0], i, v, env);
      var m := MatchElem(pr, ps[0], i, v, env);
      if m.Hit? {
        ElemsKeepVals(pr, ps[1..], i + 1, v, m.env);
        FindsOnwards(env, m.env, MatchElems(pr, ps[1..], i + 1, v, m.env));
      }
    }
  }

  lemma {:induction false} ElemKeepsVals(pr: Prims, p: Pattern, i: nat, v: Value, env: Env)
    requires SeqLen(v).Some? && (p.Spread? || i < SeqLen(v).value)
    ensures Finds(env, MatchElem(pr, p, i, v, env))
    decreases p, 1
  {
    hide Steady; hide BindOne; hide MatchList; hide MatchEqual;
    SteadyItself(env);
    match p
    case Ident(x) => BindOneKeepsVals(env, x, SeqAt(v, i));
    case Spread(Some(x)) => BindOneKeepsVals(env, x, SeqTail(v, i));
    case ListPat(ps) => ListPatKeepsVals(pr, ps, SeqAt(v, i), env);
    case Wildcard =>
    case Spread(None) =>
    case _ => EqualKeepsVals(pr, p, SeqAt(v, i), env);
  }

  // ----- the name in front of a pattern -----

  /** The scopes in which the guard has passed and the body is run, if the case is taken. */
  function BodyEnv(pr: Prims, c: Case, v: Value, env: Env): Option<Env> {
    match if Scoped(Stripped(c.pattern)) then MatchScoped(pr, c, v, Enclosed(env)) else MatchFlat(pr, c, v, env)
    case Hit(env1) => Some(env1)
    case _ => None
  }

  /** In front of a name or a list pattern, a name stands for the scrutinee in the body. */
  lemma AliasIsBound(pr: Prims, x: string, p: Pattern, guard: Option<Expr>, body: Expr, v: Value, env: Env)
    requires Scoped(p) && BodyEnv(pr, Case(As(x, p), guard, body), v, env).Some?
    ensures Get(BodyEnv(pr, Case(As(x, p), guard, body), v, env).value, x) == Ok(v)
  {
    hide MatchBinding; hide EvalGuard; hide Steady;
    var c, inner := Case(As(x, p), guard, body), Enclosed(env);
    var bound := BindOne(inner, x, v).env;
    assert x in bound.vars && bound.vars[x] == Binding(v, false);
    InsideKeepsVals(pr, c, v, bound);
    var env1 := BodyEnv(pr, c, v, env).value;
    assert MatchInside(pr, c, v, bound) == Hit(env1);
    InnermostFixed(bound, env1);
  }

  lemma InnermostFixed(env: Env, env1: Env)
    requires Steady(env, env1)
    ensures Fixed(env.vars, env1.vars)
  {
    assert AtHeight(env, Depth(env)) == env.vars && AtHeight(env1, Depth(env1)) == env1.vars;
  }

  /** In front of anything else it is never bound: the case is what it is without the name. */
  lemma AliasIsIgnored(pr: Prims, x: string, p: Pattern, guard: Option<Expr>, body: Expr, v: Value, env: Env)
    requires !Scoped(p) && !p.As?
    ensures EvalCase(pr, Case(As(x, p), guard, body), v, env) == EvalCase(pr, Case(p, guard, body), v, env)
    ensures BodyEnv(pr, Case(As(x, p), guard, body), v, env) == BodyEnv(pr, Case(p, guard, body), v, env)
  {
    hide Eval; hide MatchNonBinding; hide EvalGuard;
    var named, plain := Case(As(x, p), guard, body), Case(p, guard, body);
    assert Stripped(named.pattern) == p && Stripped(plain.pattern) == p;
    assert MatchFlat(pr, named, v, env) == MatchFlat(pr, plain, v, env);
    assert EvalFlatCase(pr, named, v, env) == EvalFlatCase(pr, plain, v, env);
  }

  /** When nothing else gives the name a value, it stands for the scrutinee exactly when the pattern is a name or a
      list. */
  lemma AliasIsBoundIff(pr: Prims, x: string, p: Pattern, guard: Option<Expr>, body: Expr, v: Value, env: Env)
    requires !p.As? && BodyEnv(pr, Case(As(x, p), guard, body), v, env).Some?
    requires var plain := BodyEnv(pr, Case(p, guard, body), v, env); plain.Some? ==> Get(plain.value, x).Err?
    ensures Get(BodyEnv(pr, Case(As(x, p), guard, body), v, env).value, x) == Ok(v) <==> Scoped(p)
  {
    hide BodyEnv; hide Get;
    if Scoped(p) {
      AliasIsBound(pr, x, p, guard, body, v, env);
    } else {
      AliasIsIgnored(pr, x, p, guard, body, v, env);
    }
  }
}
