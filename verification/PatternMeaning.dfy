/** What patterns take and what they bind, said of values alone: the evaluator, which goes through a pattern with scopes
    in hand, agrees. */
module PatternMeaning {
  import opened Values
  import opened Syntax
  import opened Environments
  import opened Evaluator
  import ValueLaws
  import Meaning

  // ----- names -----

  /** The names a pattern binds, from left to right. */
  function Names(p: Pattern): seq<string>
    decreases p, 0
  {
    match p
    case Ident(x) => [x]
    case As(x, inner) => [x] + Names(inner)
    case Spread(rest) => if rest.Some? then [rest.value] else []
    case ListPat(ps) => NamesOf(ps)
    case _ => []
  }

  function NamesOf(ps: seq<Pattern>): seq<string>
    decreases ps, 0
  {
    if ps == [] then [] else Names(ps[0]) + NamesOf(ps[1..])
  }

  /** No name twice, and none that the scope has. */
  predicate New(names: seq<string>, vars: Table) {
    (forall i, j | 0 <= i < j < |names| :: names[i] != names[j]) && forall i | 0 <= i < |names| :: names[i] !in vars
  }

  lemma NewParts(a: seq<string>, b: seq<string>, vars: Table, more: Table)
    requires New(a + b, vars) && forall x | x in more :: x in a
    ensures New(a, vars) && New(b, vars + more)
  {
    var names := a + b;
    assert forall i | 0 <= i < |a| :: names[i] == a[i];
    assert forall i | 0 <= i < |b| :: names[|a| + i] == b[i];
  }

  // ----- match -----

  /** The elements a list pattern sees: those of a list, or the numbers in bytes. */
  function Items(v: Value): Option<seq<Value>> {
    match v
    case List(xs) => Some(xs)
    case Bytes(bs) => Some(seq(|bs|, i requires 0 <= i < |bs| => Num(Dec(bs[i], 0))))
    case _ => None
  }

  /** What is left of it after some. */
  function Rest(v: Value, n: nat): Value {
    match v
    case List(xs) => List(if n <= |xs| then xs[n..] else [])
    case Bytes(bs) => Bytes(if n <= |bs| then bs[n..] else [])
    case _ => Nil
  }

  /** Wildcards, names, literals, and lists of these, with a spread at the end at most. */
  predicate Plain(p: Pattern)
    decreases p
  {
    match p
    case Wildcard => true
    case Ident(_) => true
    case Spread(_) => true
    case LiteralPat(e) => e.Literal?
    case ListPat(ps) => SpreadsLast(ps) && forall i | 0 <= i < |ps| :: Plain(ps[i])
    case _ => false
  }

  /** The values a pattern takes: a literal what equals it; a list pattern what has as many elements as it has parts,
      or, with a spread, no fewer than its other parts, each taken by its part; anything else every value. */
  predicate Takes(pr: Prims, p: Pattern, v: Value)
    decreases p
  {
    match p
    case LiteralPat(e) => e.Literal? && ObjectsEqual(pr, v, e.lit)
    case ListPat(ps) =>
      var xs := Items(v);
      && xs.Some? && (if EndsInSpread(ps) then |xs.value| >= |ps| - 1 else |xs.value| == |ps|)
      && forall i | 0 <= i < |ps| && !ps[i].Spread? :: Takes(pr, ps[i], xs.value[i])
    case _ => true
  }

  /** The names with their values: a name has the value it takes, that of a spread what is left. */
  function Given(p: Pattern, v: Value): Table
    decreases p, 0
  {
    match p
    case Ident(x) => map[x := Binding(v, false)]
    case ListPat(ps) => GivenFrom(ps, v, 0)
    case _ => map[]
  }

  function GivenAt(p: Pattern, v: Value, i: nat): Table
    decreases p, 1
  {
    if p.Spread? then if p.rest.Some? then map[p.rest.value := Binding(Rest(v, i), false)] else map[]
    else if Items(v).Some? && i < |Items(v).value| then Given(p, Items(v).value[i]) else map[]
  }

  function GivenFrom(ps: seq<Pattern>, v: Value, i: nat): Table
    decreases ps, 0
  {
    if ps == [] then map[] else GivenAt(ps[0], v, i) + GivenFrom(ps[1..], v, i + 1)
  }

  lemma {:induction false} GivenNames(p: Pattern, v: Value, i: nat)
    ensures forall x | x in Given(p, v) :: x in Names(p)
    ensures forall x | x in GivenAt(p, v, i) :: x in Names(p)
    decreases p, 1
  {
    if p.ListPat? {
      GivenNamesOf(p.elems, v, 0);
      if Items(v).Some? && i < |Items(v).value| { GivenNamesOf(p.elems, Items(v).value[i], 0); }
    }
  }

  lemma {:induction false} GivenNamesOf(ps: seq<Pattern>, v: Value, i: nat)
    ensures forall x | x in GivenFrom(ps, v, i) :: x in NamesOf(ps)
    decreases ps, 0
  {
    if ps != [] {
      hide GivenAt; hide Names;
      GivenNames(ps[0], v, i);
      GivenNamesOf(ps[1..], v, i + 1);
    }
  }

  function With(env: Env, more: Table): Env { env.(vars := env.vars + more) }

  predicate SameAround(a: Env, b: Env) { a.Scope? == b.Scope? && (a.Scope? && b.Scope? ==> a.outer == b.outer) }

  /** The part at position `i` takes the element there. */
  predicate TakesAt(pr: Prims, p: Pattern, v: Value, i: nat) {
    p.Spread? || (Items(v).Some? && i < |Items(v).value| && Takes(pr, p, Items(v).value[i]))
  }

  lemma ItemIs(v: Value, i: nat)
    requires SeqLen(v).Some?
    ensures Items(v).Some? && |Items(v).value| == SeqLen(v).value
    ensures i < SeqLen(v).value ==> SeqAt(v, i) == Items(v).value[i]
    ensures SeqTail(v, i) == Rest(v, i)
  {}

  lemma LiteralIs(pr: Prims, e: Expr, v: Value, env: Env)
    requires e.Literal?
    ensures MatchEqual(pr, LiteralPat(e), v, env) == if ObjectsEqual(pr, v, e.lit) then Hit(env) else Miss(env)
  {
    hide ObjectsEqual;
    Meaning.EqualTakes(pr, e.lit, "", v, env);
  }

  lemma {:induction false} ElemTakes(pr: Prims, p: Pattern, i: nat, v: Value, env: Env)
    requires SeqLen(v).Some? && (p.Spread? || i < SeqLen(v).value)
    requires Plain(p) && New(Names(p), env.vars)
    ensures var m := MatchElem(pr, p, i, v, env);
            if TakesAt(pr, p, v, i) then m == Hit(With(env, GivenAt(p, v, i))) else m.Miss? && SameAround(m.env, env)
    decreases p, 2
  {
    ItemIs(v, i);
    hide ObjectsEqual; hide MatchList; hide MatchEqual; hide SeqLen; hide SeqAt; hide SeqTail; hide Rest; hide Items;
    hide BindOne;
    assert With(env, map[]) == env;
    match p
    case LiteralPat(e) => LiteralIs(pr, e, SeqAt(v, i), env);
    case ListPat(ps) => ListTakes(pr, ps, SeqAt(v, i), env);
    case Ident(x) =>
      assert x == Names(p)[0] && x !in env.vars;
      OneIsBound(env, x, SeqAt(v, i));
    case Spread(rest) =>
      if rest.Some? {
        assert rest.value == Names(p)[0] && rest.value !in env.vars;
        OneIsBound(env, rest.value, SeqTail(v, i));
      }
    case _ =>
  }

  lemma OneIsBound(env: Env, x: string, v: Value)
    requires x !in env.vars
    ensures BindOne(env, x, v) == Hit(With(env, map[x := Binding(v, false)]))
  {
    DefinedNew(env, x, v, true);
  }

  /** All parts from position `i` on take their elements. */
  predicate TakeFrom(pr: Prims, ps: seq<Pattern>, v: Value, i: nat) {
    ps == [] || (TakesAt(pr, ps[0], v, i) && TakeFrom(pr, ps[1..], v, i + 1))
  }

  lemma {:induction false} TakeFromIff(pr: Prims, ps: seq<Pattern>, v: Value, i: nat)
    requires i <= |ps|
    ensures TakeFrom(pr, ps[i..], v, i) <==> forall k: nat | i <= k < |ps| :: TakesAt(pr, ps[k], v, k)
    decreases |ps| - i
  {
    hide TakesAt;
    if i < |ps| {
      assert ps[i..][0] == ps[i] && ps[i..][1..] == ps[i + 1..];
      TakeFromIff(pr, ps, v, i + 1);
    }
  }

  lemma {:induction false} ListTakes(pr: Prims, ps: seq<Pattern>, v: Value, env: Env)
    requires Plain(ListPat(ps)) && New(NamesOf(ps), env.vars)
    ensures var m := MatchList(pr, ps, v, env);
            if Takes(pr, ListPat(ps), v) then m == Hit(With(env, Given(ListPat(ps), v)))
            else m.Miss? && SameAround(m.env, env)
    decreases ps, 1
  {
    hide MatchElems;
    ListTakesIff(pr, ps, v);
    if LengthFits(ps, v) {
      hide Takes; hide TakeFrom; hide New; hide Plain;
      assert forall k | 0 <= k < |ps| :: Plain(ps[k]) by { PartsPlain(ps); }
      ElemsTake(pr, ps, 0, v, env);
    }
  }

  lemma PartsPlain(ps: seq<Pattern>)
    requires Plain(ListPat(ps))
    ensures SpreadsLast(ps) && forall k | 0 <= k < |ps| :: Plain(ps[k])
  {}

  lemma ListTakesIff(pr: Prims, ps: seq<Pattern>, v: Value)
    requires SpreadsLast(ps)
    ensures Takes(pr, ListPat(ps), v) <==> LengthFits(ps, v) && TakeFrom(pr, ps, v, 0)
  {
    hide TakeFrom;
    TakeFromIff(pr, ps, v, 0);
    assert ps[0..] == ps;
    if SeqLen(v).Some? { ItemIs(v, 0); }
    hide Items; hide SeqLen;
    if Takes(pr, ListPat(ps), v) {
      forall k: nat | k < |ps| ensures TakesAt(pr, ps[k], v, k) {}
    }
  }

  lemma {:induction false} ElemsTake(pr: Prims, ps: seq<Pattern>, i: nat, v: Value, env: Env)
    requires SpreadsLast(ps) && (forall k | 0 <= k < |ps| :: Plain(ps[k])) && New(NamesOf(ps), env.vars)
    requires SeqLen(v).Some?
    requires ps != [] ==> i + |ps| <= SeqLen(v).value + (if EndsInSpread(ps) then 1 else 0)
    ensures var m := MatchElems(pr, ps, i, v, env);
            if TakeFrom(pr, ps, v, i) then m == Hit(With(env, GivenFrom(ps, v, i)))
            else m.Miss? && SameAround(m.env, env)
    decreases ps, 0
  {
    hide MatchElem; hide TakesAt; hide GivenAt; hide Names; hide New; hide SeqLen; hide Plain;
    assert With(env, map[]) == env;
    if ps != [] {
      var first := GivenAt(ps[0], v, i);
      GivenNames(ps[0], v, i);
      NewParts(Names(ps[0]), NamesOf(ps[1..]), env.vars, first);
      ElemTakes(pr, ps[0], i, v, env);
      if TakesAt(pr, ps[0], v, i) {
        ElemsTake(pr, ps[1..], i + 1, v, With(env, first));
        WithMore(env, first, GivenFrom(ps[1..], v, i + 1));
      }
    }
  }

  lemma WithMore(env: Env, a: Table, b: Table)
    ensures With(With(env, a), b) == With(env, a + b)
  {}

  /** A case with a pattern of names and lists: if the pattern takes the value and the guard holds, the body is
      evaluated in a scope that has exactly the names with their values; otherwise the next case is tried outside that
      scope. */
  lemma CaseMeans(pr: Prims, p: Pattern, g: Option<Expr>, body: Expr, rest: seq<Case>, v: Value, env: Env)
    requires (p.Ident? || p.ListPat?) && Plain(p) && New(Names(p), map[])
    ensures var r := EvalCases(pr, [Case(p, g, body)] + rest, v, env);
            var inner := Scope(Given(p, v), env);
            var t := if g.Some? then Eval(pr, g.value, inner) else Val(Bool(true), inner);
            if !Takes(pr, p, v) then r == EvalCases(pr, rest, v, env)
            else if !t.Val? then r == t
            else if t.v == Nil || t.v == Bool(false) then t.env.Scope? && r == EvalCases(pr, rest, v, t.env.outer)
            else
              var o := Eval(pr, body, t.env);
              if o.Val? then o.env.Scope? && r == Val(o.v, o.env.outer) else r == o
  {
    var scope := Scope(map[], env);
    BindingTakes(pr, p, v, scope);
    assert With(scope, Given(p, v)) == Scope(Given(p, v), env);
    hide EvalGuard; hide Eval; hide EvalCases; hide MatchBinding; hide Takes; hide Given; hide New; hide Plain;
    Meaning.ScopedTakes(pr, p, g, body, rest, v, env);
    Meaning.GuardIs(pr, g, Scope(Given(p, v), env));
  }

  lemma BindingTakes(pr: Prims, p: Pattern, v: Value, env: Env)
    requires (p.Ident? || p.ListPat?) && Plain(p) && New(Names(p), env.vars)
    ensures var m := MatchBinding(pr, p, v, env);
            if Takes(pr, p, v) then m == Hit(With(env, Given(p, v))) else m.Miss? && SameAround(m.env, env)
  {
    hide MatchList; hide BindOne;
    if p.ListPat? {
      ListTakes(pr, p.elems, v, env);
    } else {
      assert p.name == Names(p)[0] && p.name !in env.vars;
      OneIsBound(env, p.name, v);
    }
  }

  // ----- val and var -----

  /** The element at a position, nil past the end, of what can be indexed. */
  function At(v: Value, i: nat): Option<Value> {
    match v
    case List(xs) => Some(if i < |xs| then xs[i] else Nil)
    case Str(s) => Some(if i < |s| then Str([s[i]]) else Nil)
    case Bytes(bs) => Some(if i < |bs| then Num(Dec(bs[i], 0)) else Nil)
    case _ => None
  }

  /** What is left of it from a position on. */
  function Left(v: Value, i: nat): Option<Value> {
    match v
    case List(xs) => Some(List(if i <= |xs| then xs[i..] else []))
    case Str(s) => Some(Str(if i <= |s| then s[i..] else []))
    case Bytes(bs) => Some(Bytes(if i <= |bs| then bs[i..] else []))
    case _ => None
  }

  /** Names, named patterns, lists of these and wildcards, with a spread at the end at most. */
  predicate Simple(p: Pattern)
    decreases p
  {
    match p
    case Wildcard => true
    case Ident(_) => true
    case Spread(_) => true
    case As(_, inner) => !inner.Spread? && Simple(inner)
    case ListPat(ps) => SpreadsLast(ps) && forall i | 0 <= i < |ps| :: Simple(ps[i])
    case _ => false
  }

  /** Everything that has to be indexed for the pattern can be. */
  predicate Reaches(p: Pattern, v: Value)
    decreases p, 0
  {
    match p
    case As(_, inner) => Reaches(inner, v)
    case ListPat(ps) => ReachFrom(ps, v, 0)
    case _ => true
  }

  predicate ReachFrom(ps: seq<Pattern>, v: Value, i: nat)
    decreases ps, 0
  {
    ps == [] || (ReachesAt(ps[0], v, i) && ReachFrom(ps[1..], v, i + 1))
  }

  predicate ReachesAt(p: Pattern, v: Value, i: nat)
    decreases p, 1
  {
    match p
    case Wildcard => true
    case Spread(rest) => rest.Some? ==> Left(v, i).Some?
    case _ => At(v, i).Some? && Reaches(p, At(v, i).value)
  }

  /** The names with their values. */
  function Bound(p: Pattern, v: Value, asConst: bool): Table
    decreases p, 0
  {
    match p
    case Ident(x) => map[x := Binding(v, !asConst)]
    case As(x, inner) => map[x := Binding(v, !asConst)] + Bound(inner, v, asConst)
    case ListPat(ps) => BoundFrom(ps, v, 0, asConst)
    case _ => map[]
  }

  function BoundAt(p: Pattern, v: Value, i: nat, asConst: bool): Table
    decreases p, 1
  {
    if p.Spread? then
      if p.rest.Some? && Left(v, i).Some? then map[p.rest.value := Binding(Left(v, i).value, !asConst)] else map[]
    else if At(v, i).Some? then Bound(p, At(v, i).value, asConst) else map[]
  }

  function BoundFrom(ps: seq<Pattern>, v: Value, i: nat, asConst: bool): Table
    decreases ps, 0
  {
    if ps == [] then map[] else BoundAt(ps[0], v, i, asConst) + BoundFrom(ps[1..], v, i + 1, asConst)
  }

  lemma {:induction false} BoundNames(p: Pattern, v: Value, i: nat, asConst: bool)
    ensures forall x | x in Bound(p, v, asConst) :: x in Names(p)
    ensures forall x | x in BoundAt(p, v, i, asConst) :: x in Names(p)
    decreases p, 1
  {
    if p.ListPat? {
      BoundNamesOf(p.elems, v, 0, asConst);
      if At(v, i).Some? { BoundNamesOf(p.elems, At(v, i).value, 0, asConst); }
    } else if p.As? {
      BoundNames(p.inner, v, 0, asConst);
      if At(v, i).Some? { BoundNames(p.inner, At(v, i).value, 0, asConst); }
    }
  }

  lemma {:induction false} BoundNamesOf(ps: seq<Pattern>, v: Value, i: nat, asConst: bool)
    ensures forall x | x in BoundFrom(ps, v, i, asConst) :: x in NamesOf(ps)
    decreases ps, 0
  {
    if ps != [] {
      hide BoundAt; hide Names;
      BoundNames(ps[0], v, i, asConst);
      BoundNamesOf(ps[1..], v, i + 1, asConst);
    }
  }

  lemma AtIs(pr: Prims, v: Value, i: nat)
    ensures IndexValue(pr, v, Num(FromInt(i)))
            == if At(v, i).Some? then Ok(At(v, i).value) else Err(BadIndex(TypeName(v)))
  {}

  lemma LeftIs(pr: Prims, v: Value, i: nat)
    ensures IndexValue(pr, v, Slice(Num(FromInt(i)), Nil, Nil))
            == if Left(v, i).Some? then Ok(Left(v, i).value) else Err(BadIndex(TypeName(v)))
  {
    match v
    case List(xs) => PickLeft(pr, xs, i);
    case Str(s) => PickLeft(pr, s, i);
    case Bytes(bs) => PickLeft<Byte>(pr, bs, i);
    case _ =>
  }

  lemma PickLeft<T>(pr: Prims, xs: seq<T>, i: nat)
    ensures SliceRange(pr, |xs|, Slice(Num(FromInt(i)), Nil, Nil)) == Some(Range(i, |xs|, 1))
    ensures Pick(xs, i, |xs|, 1) == if i <= |xs| then xs[i..] else []
  {
    if i <= |xs| {
      ValueLaws.PickAll(xs, i, |xs|);
      assert xs[i..|xs|] == xs[i..];
    }
  }

  predicate CannotIndex(o: Outcome) { o.Failed? && o.failure.BadIndex? }

  /** A `val` or `var` pattern with new names: every name is bound to its value in the innermost scope, and it fails
      exactly when something has to be indexed that cannot be. */
  lemma {:induction false} PatternBinds(pr: Prims, p: Pattern, v: Value, asConst: bool, env: Env)
    requires Simple(p) && !p.Spread? && New(Names(p), env.vars)
    ensures var o := BindAll(pr, p, v, asConst, env);
            if Reaches(p, v) then o == Val(v, With(env, Bound(p, v, asConst))) else CannotIndex(o)
    decreases p, 1
  {
    hide BindElems; hide Define; hide ReachFrom; hide BoundFrom;
    assert With(env, map[]) == env;
    match p
    case Ident(x) =>
      assert x == Names(p)[0] && x !in env.vars;
      DefinedNew(env, x, v, asConst);
    case As(x, inner) =>
      assert x == Names(p)[0] && x !in env.vars;
      DefinedNew(env, x, v, asConst);
      var first: Table := map[x := Binding(v, !asConst)];
      NewParts([x], Names(inner), env.vars, first);
      PatternBinds(pr, inner, v, asConst, With(env, first));
      WithMore(env, first, Bound(inner, v, asConst));
    case ListPat(ps) => PartsBind(pr, ps, 0, v, asConst, env);
    case _ =>
  }

  lemma DefinedNew(env: Env, x: string, v: Value, asConst: bool)
    requires x !in env.vars
    ensures Define(env, x, v, asConst) == Updated(With(env, map[x := Binding(v, !asConst)]))
  {
    assert env.vars[x := Binding(v, !asConst)] == env.vars + map[x := Binding(v, !asConst)];
  }

  lemma {:induction false} PartBinds(pr: Prims, p: Pattern, i: nat, v: Value, asConst: bool, env: Env)
    requires Simple(p) && New(Names(p), env.vars)
    ensures var o := BindElem(pr, p, i, v, asConst, env);
            if ReachesAt(p, v, i) then o == Val(v, With(env, BoundAt(p, v, i, asConst))) else CannotIndex(o)
    decreases p, 2
  {
    hide BindAll; hide IndexValue; hide Define; hide At; hide Left;
    assert With(env, map[]) == env;
    if p.Spread? {
      LeftIs(pr, v, i);
      if p.rest.Some? {
        assert p.rest.value == Names(p)[0] && p.rest.value !in env.vars;
        if Left(v, i).Some? { DefinedNew(env, p.rest.value, Left(v, i).value, asConst); }
      }
    } else if !p.Wildcard? {
      AtIs(pr, v, i);
      assert BindElem(pr, p, i, v, asConst, env) == BindPart(pr, p, i, v, asConst, env);
      if At(v, i).Some? { PatternBinds(pr, p, At(v, i).value, asConst, env); }
    }
  }

  lemma {:induction false} PartsBind(pr: Prims, ps: seq<Pattern>, i: nat, v: Value, asConst: bool, env: Env)
    requires (forall k | 0 <= k < |ps| :: Simple(ps[k])) && New(NamesOf(ps), env.vars)
    ensures var o := BindElems(pr, ps, i, v, asConst, env);
            if ReachFrom(ps, v, i) then o == Val(v, With(env, BoundFrom(ps, v, i, asConst))) else CannotIndex(o)
    decreases ps, 0
  {
    hide BindElem; hide ReachesAt; hide BoundAt; hide Names; hide New; hide Simple;
    assert With(env, map[]) == env;
    if ps != [] {
      var first := BoundAt(ps[0], v, i, asConst);
      BoundNames(ps[0], v, i, asConst);
      NewParts(Names(ps[0]), NamesOf(ps[1..]), env.vars, first);
      PartBinds(pr, ps[0], i, v, asConst, env);
      if ReachesAt(ps[0], v, i) {
        PartsBind(pr, ps[1..], i + 1, v, asConst, With(env, first));
        WithMore(env, first, BoundFrom(ps[1..], v, i + 1, asConst));
      }
    }
  }

  /** So for a whole declaration. */
  lemma DeclarationMeans(pr: Prims, p: Pattern, asConst: bool, e: Expr, env: Env, v: Value, env1: Env)
    requires Eval(pr, e, env) == Val(v, env1) && Simple(p) && !p.Spread? && New(Names(p), env1.vars)
    ensures var o := Eval(pr, Bind(p, asConst, e), env);
            if Reaches(p, v) then o == Val(v, env1.(vars := env1.vars + Bound(p, v, asConst)))
            else o.Failed? && o.failure.BadIndex?
  {
    hide BindAll;
    PatternBinds(pr, p, v, asConst, env1);
    assert Eval(pr, Bind(p, asConst, e), env) == EvalBind(pr, Bind(p, asConst, e), env);
  }
}
