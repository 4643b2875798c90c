/** What programs mean, construct by construct, in terms of values and names alone. */
module Meaning {
  import opened Values
  import opened Syntax
  import opened Environments
  import opened Evaluator

  // ----- names -----

  /** A name stands for what the innermost scope that has it binds it to. */
  lemma NameMeans(pr: Prims, x: string, vars: Table, outer: Env)
    ensures Eval(pr, Name(x), Root(vars))
            == if x in vars then Val(vars[x].value, Root(vars)) else Failed(IdentifierNotFound(x), Root(vars))
    ensures Get(Scope(vars, outer), x) == if x in vars then Ok(vars[x].value) else Get(outer, x)
    ensures var env := Scope(vars, outer); Get(env, x).Ok? ==> Eval(pr, Name(x), env) == Val(Get(env, x).value, env)
    ensures var env := Scope(vars, outer); Get(env, x).Err?
                                           ==> Eval(pr, Name(x), env) == Failed(Get(env, x).failure, env)
  {}

  lemma {:induction false} OtherNames(env: Env, x: string, v: Value, y: string)
    requires x != y && AssignTo(env, x, v).Updated?
    ensures Get(AssignTo(env, x, v).env, y) == Get(env, y)
    decreases env
  {
    if x !in env.vars { OtherNames(env.outer, x, v, y); }
  }

  lemma {:induction false} AssignedName(env: Env, x: string, v: Value)
    ensures var r, b := AssignTo(env, x, v), Lookup(env, x);
            && (r.Updated? <==> b.Some? && b.value.mutable)
            && (r.Updated? ==> Get(r.env, x) == Ok(v))
            && (r.Rejected? ==> r.failure == if b.Some? then AssignToVal(x) else AssignUndefined(x))
    decreases env
  {
    if x !in env.vars && env.Scope? { AssignedName(env.outer, x, v); }
  }

  /** An assignment gives its value to the nearest variable of that name, and to nothing else; it fails on a `val` and
      on a name that is not there. */
  lemma AssignMeans(pr: Prims, x: string, e: Expr, env: Env, v: Value, env1: Env, y: string)
    requires Eval(pr, e, env) == Val(v, env1)
    ensures var o, b := Eval(pr, Assign(Name(x), e), env), Lookup(env1, x);
            if b.None? then o == Failed(AssignUndefined(x), env1)
            else if !b.value.mutable then o == Failed(AssignToVal(x), env1)
            else o.Val? && o.v == v && Get(o.env, x) == Ok(v) && (y != x ==> Get(o.env, y) == Get(env1, y))
  {
    AssignedName(env1, x, v);
    if AssignTo(env1, x, v).Updated? && y != x { OtherNames(env1, x, v, y); }
  }

  /** `val` and `var` give the name the value in the innermost scope and leave every other name; they fail exactly when
      that scope has a `val` of the name. */
  lemma BindMeans(pr: Prims, x: string, asConst: bool, e: Expr, env: Env, v: Value, env1: Env, y: string)
    requires Eval(pr, e, env) == Val(v, env1)
    ensures var o := Eval(pr, Bind(Ident(x), asConst, e), env);
            if x in env1.vars && !env1.vars[x].mutable then o == Failed(AlreadyDefined(x, asConst), env1)
            else && o.Val? && o.v == v && x in o.env.vars && Get(o.env, x) == Ok(v)
                 && o.env.vars[x] == Binding(v, x in env1.vars || !asConst)
                 && (y != x ==> Get(o.env, y) == Get(env1, y))
  {}

  // ----- choices -----

  /** `if` takes the second branch on nil and false, and the first on every other value. */
  lemma IfMeans(pr: Prims, c: Expr, t: Expr, e: Option<Expr>, env: Env, v: Value, env1: Env)
    requires Eval(pr, c, env) == Val(v, env1)
    ensures Eval(pr, If(c, t, e), env)
            == if v != Nil && v != Bool(false) then Eval(pr, t, env1)
               else if e.Some? then Eval(pr, e.value, env1) else Val(Nil, env1)
  {}

  /** `&&` is false on nil and false, and otherwise what comes after it. */
  lemma AndMeans(pr: Prims, l: Expr, r: Expr, env: Env, v: Value, env1: Env)
    requires Eval(pr, l, env) == Val(v, env1)
    ensures Eval(pr, And(l, r), env)
            == if v != Nil && v != Bool(false) then Eval(pr, r, env1) else Val(Bool(false), env1)
  {}

  /** Or is what comes after it on nil and false, and otherwise true. */
  lemma OrMeans(pr: Prims, l: Expr, r: Expr, env: Env, v: Value, env1: Env)
    requires Eval(pr, l, env) == Val(v, env1)
    ensures Eval(pr, Or(l, r), env)
            == if v != Nil && v != Bool(false) then Val(Bool(true), env1) else Eval(pr, r, env1)
  {}

  /** `!` is true of nil and false, and false of every other value; `-` negates numbers. */
  lemma PrefixMeans(pr: Prims, e: Expr, env: Env, v: Value, env1: Env)
    requires Eval(pr, e, env) == Val(v, env1)
    ensures Eval(pr, PrefixExpr(Bang, e), env) == Val(Bool(v == Nil || v == Bool(false)), env1)
    ensures Eval(pr, PrefixExpr(Negate, e), env)
            == if v.Num? then Val(Num(pr.negate(v.n)), env1) else Failed(BadPrefix(Negate, TypeName(v)), env1)
  {}

  // ----- operands -----

  /** The left operand is evaluated first, the right one in what it leaves, and then the operator is applied to both;
      for an addition with a list literal of one element see what that comes to elsewhere. */
  lemma InfixMeans(pr: Prims, op: BinOp, l: Expr, r: Expr, env: Env, x: Value, env1: Env)
    requires Eval(pr, l, env) == Val(x, env1)
    requires op == Add ==> SingleElement(l).None? && SingleElement(r).None?
    ensures var o := Eval(pr, r, env1);
            Eval(pr, Infix(op, l, r), env)
            == if !o.Val? then o
               else if Binary(pr, op, x, o.v).Ok? then Val(Binary(pr, op, x, o.v).value, o.env)
               else Failed(Binary(pr, op, x, o.v).failure, o.env)
  {}

  /** Subtraction: the order of the operands. */
  lemma MinusMeans(pr: Prims, m: Dec, n: Dec, env: Env)
    ensures Eval(pr, Infix(Sub, Literal(Num(m)), Literal(Num(n))), env) == Val(Num(pr.arith(Sub, m, n)), env)
  {
    InfixMeans(pr, Sub, Literal(Num(m)), Literal(Num(n)), env, Num(m), env);
  }

  /** Sequence, then index, then the element. */
  lemma IndexMeans(pr: Prims, l: Expr, i: Expr, env: Env, x: Value, env1: Env)
    requires Eval(pr, l, env) == Val(x, env1)
    ensures var o := Eval(pr, i, env1);
            Eval(pr, Index(l, i), env)
            == if !o.Val? then o
               else if IndexValue(pr, x, o.v).Ok? then Val(IndexValue(pr, x, o.v).value, o.env)
               else Failed(IndexValue(pr, x, o.v).failure, o.env)
  {}

  /** The part of an expression that is evaluated first. */
  function FirstPart(e: Expr): Option<Expr> {
    match e
    case Bind(_, _, x) => Some(x)
    case Assign(_, x) => Some(x)
    case PrefixExpr(_, x) => Some(x)
    case Infix(_, x, _) => Some(x)
    case And(x, _) => Some(x)
    case Or(x, _) => Some(x)
    case If(x, _, _) => Some(x)
    case Match(x, _) => Some(x)
    case Index(x, _) => Some(x)
    case ListLit(es) => if es == [] then None else Some(es[0])
    case _ => None
  }

  /** An expression whose first part returns, throws or fails does so itself. */
  lemma EndsEarly(pr: Prims, e: Expr, env: Env)
    requires FirstPart(e).Some? && !Eval(pr, FirstPart(e).value, env).Val?
    ensures Eval(pr, e, env) == Eval(pr, FirstPart(e).value, env)
  {
    if e.Infix? && Lowered(e).left != e.left {
      ElementEndsEarly(pr, e.left.elems, env);
    }
  }

  lemma ElementEndsEarly(pr: Prims, es: seq<Expr>, env: Env)
    requires es != [] && !Eval(pr, ListLit(es), env).Val?
    ensures |es| == 1 ==> Eval(pr, ListLit(es), env) == Eval(pr, es[0], env)
  {
    hide Eval;
    ListIs(pr, es, env);
    if |es| == 1 {
      assert es[1..] == [];
      var o := EvalList(pr, es, [], env);
      assert o.Val? <==> Eval(pr, es[0], env).Val?;
    }
  }

  lemma ListIs(pr: Prims, es: seq<Expr>, env: Env)
    ensures Eval(pr, ListLit(es), env) == EvalList(pr, es, [], env)
  {}

  /** A list literal has the values of its elements, evaluated one after the other. */
  lemma {:induction false} ListMeans(pr: Prims, es: seq<Expr>, done: seq<Value>, e: Expr, env: Env)
    ensures EvalList(pr, [], done, env) == Val(List(done), env)
    ensures var o := EvalList(pr, es, done, env);
            EvalList(pr, es + [e], done, env)
            == if !o.Val? then o
               else var p := Eval(pr, e, o.env);
                 if p.Val? then Val(List(o.v.elems + [p.v]), p.env) else p
    decreases |es|
  {
    if es == [] {
      assert ([] + [e])[0] == e && ([] + [e])[1..] == [];
    } else {
      assert (es + [e])[0] == es[0] && (es + [e])[1..] == es[1..] + [e];
      var o := Eval(pr, es[0], env);
      if o.Val? { ListMeans(pr, es[1..], done + [o.v], e, o.env); }
    }
  }

  /** So for a literal: what one more element does. */
  lemma OneMoreElement(pr: Prims, es: seq<Expr>, e: Expr, env: Env, vs: seq<Value>, env1: Env, v: Value, env2: Env)
    requires Eval(pr, ListLit(es), env) == Val(List(vs), env1) && Eval(pr, e, env1) == Val(v, env2)
    ensures Eval(pr, ListLit(es + [e]), env) == Val(List(vs + [v]), env2)
    ensures Eval(pr, ListLit([]), env) == Val(List([]), env)
  {
    ListMeans(pr, es, [], e, env);
  }

  // ----- statements -----

  /** A block runs in a new scope inside the old one and leaves it again; an empty one is nil. */
  lemma BlockMeans(pr: Prims, stmts: seq<Stmt>, env: Env)
    ensures Eval(pr, Block([]), env) == Val(Nil, env)
    ensures stmts != [] ==>
      var o, r := EvalStmts(pr, stmts, Scope(map[], env)), Eval(pr, Block(stmts), env);
      if o.Val? then o.env.Scope? && r == Val(o.v, o.env.outer) else r == o
  {}

  /** Statements run one after the other, each in what the one before leaves; the last one gives the value, `return` and
      `throw` end it. */
  lemma StmtsMean(pr: Prims, e: Expr, rest: seq<Stmt>, env: Env)
    ensures EvalStmts(pr, [ExprStmt(e)], env) == Eval(pr, e, env)
    ensures rest != [] ==>
      var o := Eval(pr, e, env);
      EvalStmts(pr, [ExprStmt(e)] + rest, env) == if o.Val? then EvalStmts(pr, rest, o.env) else o
    ensures var o := Eval(pr, e, env);
            && EvalStmts(pr, [Return(e)] + rest, env) == (if o.Val? then Returned(o.v, o.env) else o)
            && EvalStmts(pr, [Throw(e)] + rest, env) == (if o.Val? then Thrown(o.v, o.env) else o)
  {
    assert ([ExprStmt(e)] + rest)[1..] == rest;
  }

  /** A program is run the same way, in the scope it is given; its result is the value of its last expression. */
  lemma ProgramMeans(pr: Prims, e: Expr, rest: seq<Stmt>, last: Value, env: Env)
    ensures EvalProgram(pr, [], last, env) == Returned(last, env)
    ensures var o := Eval(pr, e, env);
            && EvalProgram(pr, [ExprStmt(e)] + rest, last, env)
               == (if o.Val? then EvalProgram(pr, rest, o.v, o.env) else o)
            && EvalProgram(pr, [Return(e)] + rest, last, env) == (if o.Val? then Returned(o.v, o.env) else o)
            && EvalProgram(pr, [Throw(e)] + rest, last, env) == (if o.Val? then Thrown(o.v, o.env) else o)
  {
    assert ([ExprStmt(e)] + rest)[1..] == rest;
  }

  // ----- match -----

  /** `match` tries its cases on the value of its subject; when none is left it is nil. */
  lemma MatchMeans(pr: Prims, subject: Expr, cases: seq<Case>, env: Env, v: Value, env1: Env)
    requires Eval(pr, subject, env) == Val(v, env1)
    ensures Eval(pr, Match(subject, cases), env) == EvalCases(pr, cases, v, env1)
    ensures EvalCases(pr, [], v, env1) == Val(Nil, env1)
  {}

  lemma FirstCase(pr: Prims, c: Case, rest: seq<Case>, v: Value, env: Env)
    ensures var t, r := EvalCase(pr, c, v, env), EvalCases(pr, [c] + rest, v, env);
            r == if t.Taken? then t.outcome else EvalCases(pr, rest, v, t.env)
  {
    hide EvalCase;
    assert ([c] + rest)[1..] == rest;
  }

  /** A case without names of its own: pattern, guard, body. */
  lemma FlatTakes(pr: Prims, p: Pattern, g: Option<Expr>, body: Expr, rest: seq<Case>, v: Value, env: Env)
    requires !p.As? && !p.Ident? && !p.ListPat?
    ensures var m, r := MatchNonBinding(pr, p, v, env), EvalCases(pr, [Case(p, g, body)] + rest, v, env);
            if m.Stop? then r == m.outcome
            else if m.Miss? then r == EvalCases(pr, rest, v, m.env)
            else
              var k := EvalGuard(pr, g, m.env);
              r == if k.Stop? then k.outcome
                   else if k.Hit? then Eval(pr, body, k.env) else EvalCases(pr, rest, v, k.env)
  {
    hide MatchNonBinding; hide EvalGuard; hide Eval; hide EvalCases;
    var c := Case(p, g, body);
    FirstCase(pr, c, rest, v, env);
    assert EvalCase(pr, c, v, env) == EvalFlatCase(pr, c, v, env);
    var m := MatchFlat(pr, c, v, env);
    assert m == if MatchNonBinding(pr, p, v, env).Hit? then EvalGuard(pr, g, MatchNonBinding(pr, p, v, env).env)
                else MatchNonBinding(pr, p, v, env);
  }

  /** A case with names: they live in a scope that is left with the case. */
  lemma ScopedTakes(pr: Prims, p: Pattern, g: Option<Expr>, body: Expr, rest: seq<Case>, v: Value, env: Env)
    requires p.Ident? || p.ListPat?
    ensures var m, r := MatchBinding(pr, p, v, Scope(map[], env)), EvalCases(pr, [Case(p, g, body)] + rest, v, env);
            if m.Stop? then r == m.outcome
            else if m.Miss? then m.env.Scope? && r == EvalCases(pr, rest, v, m.env.outer)
            else
              var k := EvalGuard(pr, g, m.env);
              if k.Stop? then r == k.outcome
              else if k.Miss? then k.env.Scope? && r == EvalCases(pr, rest, v, k.env.outer)
              else
                var o := Eval(pr, body, k.env);
                if o.Val? then o.env.Scope? && r == Val(o.v, o.env.outer) else r == o
  {
    hide MatchBinding; hide EvalGuard; hide Eval; hide EvalCases;
    var c, scope := Case(p, g, body), Scope(map[], env);
    FirstCase(pr, c, rest, v, env);
    assert EvalCase(pr, c, v, env) == EvalScopedCase(pr, c, v, env);
    var m := MatchScoped(pr, c, v, scope);
    assert m == if MatchBinding(pr, p, v, scope).Hit? then EvalGuard(pr, g, MatchBinding(pr, p, v, scope).env)
                else MatchBinding(pr, p, v, scope);
    assert Depth(scope) == 1 + Depth(env);
  }

  lemma GuardIs(pr: Prims, g: Option<Expr>, env: Env)
    ensures var k := EvalGuard(pr, g, env);
            if g.None? then k == Hit(env)
            else
              var o := Eval(pr, g.value, env);
              k == if !o.Val? then Stop(o) else if o.v != Nil && o.v != Bool(false) then Hit(o.env) else Miss(o.env)
  {
    hide Eval;
  }

  /** A wildcard takes every value; its guard sends nil and false on to the next case. */
  lemma GuardMeans(pr: Prims, g: Expr, body: Expr, rest: seq<Case>, v: Value, env: Env)
    ensures EvalCases(pr, [Case(Wildcard, None, body)] + rest, v, env) == Eval(pr, body, env)
    ensures var o := Eval(pr, g, env);
            EvalCases(pr, [Case(Wildcard, Some(g), body)] + rest, v, env)
            == if !o.Val? then o
               else if o.v != Nil && o.v != Bool(false) then Eval(pr, body, o.env)
               else EvalCases(pr, rest, v, o.env)
  {
    hide EvalGuard; hide Eval; hide EvalCases;
    FlatTakes(pr, Wildcard, None, body, rest, v, env);
    FlatTakes(pr, Wildcard, Some(g), body, rest, v, env);
    GuardIs(pr, None, env);
    GuardIs(pr, Some(g), env);
  }

  /** A literal takes what equals it, a pinned name what equals its value, and the next case is tried otherwise. */
  lemma LiteralTakes(pr: Prims, w: Value, x: string, body: Expr, rest: seq<Case>, v: Value, env: Env)
    ensures EvalCases(pr, [Case(LiteralPat(Literal(w)), None, body)] + rest, v, env)
            == if ObjectsEqual(pr, v, w) then Eval(pr, body, env) else EvalCases(pr, rest, v, env)
    ensures EvalCases(pr, [Case(Pinned(x), None, body)] + rest, v, env)
            == if Get(env, x).Err? then Failed(Get(env, x).failure, env)
               else if ObjectsEqual(pr, v, Get(env, x).value) then Eval(pr, body, env) else EvalCases(pr, rest, v, env)
  {
    hide EvalGuard; hide Eval; hide EvalCases; hide MatchNonBinding; hide ObjectsEqual; hide Get;
    FlatTakes(pr, LiteralPat(Literal(w)), None, body, rest, v, env);
    FlatTakes(pr, Pinned(x), None, body, rest, v, env);
    EqualTakes(pr, w, x, v, env);
    GuardIs(pr, None, env);
  }

  lemma EqualTakes(pr: Prims, w: Value, x: string, v: Value, env: Env)
    ensures var p := LiteralPat(Literal(w));
            && MatchNonBinding(pr, p, v, env) == MatchEqual(pr, p, v, env)
            && MatchEqual(pr, p, v, env) == if ObjectsEqual(pr, v, w) then Hit(env) else Miss(env)
    ensures MatchNonBinding(pr, Pinned(x), v, env)
            == if Get(env, x).Err? then Stop(Failed(Get(env, x).failure, env))
               else if ObjectsEqual(pr, v, Get(env, x).value) then Hit(env) else Miss(env)
  {
    hide ObjectsEqual; hide Get;
    assert Eval(pr, Literal(w), env) == Val(w, env);
    assert EvalOperand(pr, LiteralPat(Literal(w)), env) == Val(w, env);
    assert EvalOperand(pr, Pinned(x), env) == FromResult(Get(env, x), env);
    var m := MatchEqual(pr, Pinned(x), v, env);
    assert MatchNonBinding(pr, Pinned(x), v, env) == m;
    assert Get(env, x).Ok? ==> m == if ObjectsEqual(pr, v, Get(env, x).value) then Hit(env) else Miss(env);
  }

  function Literals(ws: seq<Value>): (ps: seq<Pattern>)
    ensures |ps| == |ws| && forall i | 0 <= i < |ws| :: ps[i] == LiteralPat(Literal(ws[i]))
  {
    seq(|ws|, i requires 0 <= i < |ws| => LiteralPat(Literal(ws[i])))
  }

  predicate EqualsOne(pr: Prims, v: Value, ws: seq<Value>) {
    exists i :: 0 <= i < |ws| && ObjectsEqual(pr, v, ws[i])
  }

  /** Alternatives take what equals one of them. */
  lemma AlternativesTake(pr: Prims, ws: seq<Value>, body: Expr, rest: seq<Case>, v: Value, env: Env)
    ensures EvalCases(pr, [Case(Multi(Literals(ws)), None, body)] + rest, v, env)
            == if exists i :: 0 <= i < |ws| && ObjectsEqual(pr, v, ws[i]) then Eval(pr, body, env)
               else EvalCases(pr, rest, v, env)
  {
    hide EvalGuard; hide Eval; hide EvalCases; hide ObjectsEqual; hide MatchAny;
    FlatTakes(pr, Multi(Literals(ws)), None, body, rest, v, env);
    GuardIs(pr, None, env);
    AnyOf(pr, ws, v, env);
  }

  lemma {:induction false} AnyOf(pr: Prims, ws: seq<Value>, v: Value, env: Env)
    ensures MatchAny(pr, Literals(ws), v, env) == if EqualsOne(pr, v, ws) then Hit(env) else Miss(env)
    decreases |ws|
  {
    hide ObjectsEqual; hide MatchEqual;
    if ws != [] {
      assert Literals(ws)[1..] == Literals(ws[1..]);
      AnyOf(pr, ws[1..], v, env);
      EqualTakes(pr, ws[0], "", v, env);
      assert EqualsOne(pr, v, ws) <==> ObjectsEqual(pr, v, ws[0]) || EqualsOne(pr, v, ws[1..]) by {
        assert forall i | 0 < i < |ws| :: ws[i] == ws[1..][i - 1];
        assert forall i | 0 <= i < |ws[1..]| :: ws[1..][i] == ws[i + 1];
      }
    }
  }
}
