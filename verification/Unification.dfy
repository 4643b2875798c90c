/** Matching types is unification in one direction: it succeeds exactly when the actual type is the expected one with
    types put in for its parameters, and finds those. */
module Unification {
  import opened Values
  import opened Types
  import opened TypeMatching

  /** A type that says everything: no `any`, no type parameter, no union, no struct without a name, no bare function. */
  predicate Concrete(t: Type)
    decreases t
  {
    match t
    case Base(_) => true
    case ListOf(e) => Concrete(e)
    case Tuple(es) => forall i | 0 <= i < |es| :: Concrete(es[i])
    case MapOf(k, v) => Concrete(k) && Concrete(v)
    case Fn(ret, params, _) => ret.Some? && Concrete(ret.value) && forall i | 0 <= i < |params| :: Concrete(params[i])
    case Struct(name) => name != ""
    case _ => false
  }

  /** The same, but for type parameters. */
  predicate Generic(t: Type)
    decreases t
  {
    match t
    case Param(_) => true
    case Base(_) => true
    case ListOf(e) => Generic(e)
    case Tuple(es) => forall i | 0 <= i < |es| :: Generic(es[i])
    case MapOf(k, v) => Generic(k) && Generic(v)
    case Fn(ret, params, _) => ret.Some? && Generic(ret.value) && forall i | 0 <= i < |params| :: Generic(params[i])
    case Struct(name) => name != ""
    case _ => false
  }

  /** The type parameters in a type. */
  function Params(t: Type): set<string>
    decreases t, 0
  {
    match t
    case Param(name) => {name}
    case ListOf(e) => Params(e)
    case Tuple(es) => ParamsOf(es)
    case MapOf(k, v) => Params(k) + Params(v)
    case Fn(ret, params, _) => ParamsOf(params) + if ret.Some? then Params(ret.value) else {}
    case Union(options) => ParamsOf(options)
    case _ => {}
  }

  function ParamsOf(ts: seq<Type>): set<string>
    decreases ts, 0
  {
    if ts == [] then {} else Params(ts[0]) + ParamsOf(ts[1..])
  }

  // ----- compatibility -----

  /** Between types that say everything compatibility is equality. */
  lemma {:induction false} ConcreteFitsIff(a: Type, e: Type)
    requires Concrete(a) && Concrete(e)
    ensures Fits(a, e) <==> a == e
    decreases e
  {
    if SameKind(a, e) {
      match e
      case ListOf(x) => ConcreteFitsIff(a.elem, x);
      case Tuple(xs) => EachFitsIff(a.elems, xs);
      case MapOf(k, v) =>
        ConcreteFitsIff(a.key, k);
        ConcreteFitsIff(a.val, v);
      case Fn(ret, params, _) =>
        EachFitsIff(a.params, params);
        ConcreteFitsIff(a.ret.value, ret.value);
      case _ =>
    }
  }

  lemma {:induction false} EachFitsIff(acts: seq<Type>, es: seq<Type>)
    requires (forall i | 0 <= i < |acts| :: Concrete(acts[i])) && forall i | 0 <= i < |es| :: Concrete(es[i])
    ensures |acts| == |es| ==> ((forall i | 0 <= i < |es| :: Fits(acts[i], es[i])) <==> acts == es)
    decreases es
  {
    if |acts| == |es| {
      forall i | 0 <= i < |es| ensures Fits(acts[i], es[i]) <==> acts[i] == es[i] { ConcreteFitsIff(acts[i], es[i]); }
    }
  }

  // ----- matching finds the types that were put in -----

  function Restrict(b: Bindings, names: set<string>): Bindings { map n | n in names && n in b :: b[n] }

  /** The bindings know nothing else of these names. */
  predicate Consistent(b: Bindings, sigma: Bindings, names: set<string>) {
    forall n | n in names && n in b :: n in sigma && b[n] == sigma[n]
  }

  /** Types are put in for all these names that are compatible with themselves. */
  predicate Instantiates(sigma: Bindings, names: set<string>) {
    forall n | n in names :: n in sigma && SelfFitting(sigma[n])
  }

  lemma RestrictTwice(b: Bindings, sigma: Bindings, m: set<string>, n: set<string>)
    requires Consistent(b, sigma, m + n)
    ensures (b + Restrict(sigma, m)) + Restrict(sigma, n) == b + Restrict(sigma, m + n)
    ensures Consistent(b + Restrict(sigma, m), sigma, n) && Consistent(b, sigma, m)
  {}

  /** An expected type without unions matches what comes of putting in types for its parameters, and binds exactly
      those. */
  lemma {:induction false} MatchComplete(e: Type, sigma: Bindings, b: Bindings)
    requires UnionFree(e) && Instantiates(sigma, Params(e)) && Consistent(b, sigma, Params(e))
    ensures Match(e, Substitute(e, sigma), b) == Matched(true, b + Restrict(sigma, Params(e)))
    decreases e, 2
  {
    if e.Param? {
      FitsItselfIff(sigma[e.name]);
    } else {
      PartsComplete(e, sigma, b);
    }
  }

  lemma {:induction false} PartsComplete(e: Type, sigma: Bindings, b: Bindings)
    requires !e.Param? && UnionFree(e) && Instantiates(sigma, Params(e)) && Consistent(b, sigma, Params(e))
    ensures var a := Substitute(e, sigma);
            !a.Param? && !a.Union? && SameKind(e, a)
              && MatchParts(e, a, b) == Matched(true, b + Restrict(sigma, Params(e)))
    decreases e, 1
  {
    hide Match; hide MatchEach;
    assert b + Restrict(sigma, {}) == b;
    hide Restrict; hide Consistent; hide SelfFitting;
    match e
    case ListOf(x) => MatchComplete(x, sigma, b);
    case Tuple(xs) => EachComplete(xs, sigma, b);
    case MapOf(k, v) =>
      NextComplete(Params(k), v, sigma, b);
      MatchComplete(k, sigma, b);
    case Fn(_, _, _) => FnComplete(e, sigma, b);
    case _ =>
  }

  lemma {:induction false} FnComplete(e: Type, sigma: Bindings, b: Bindings)
    requires e.Fn? && UnionFree(e) && Instantiates(sigma, Params(e)) && Consistent(b, sigma, Params(e))
    ensures MatchParts(e, Substitute(e, sigma), b) == Matched(true, b + Restrict(sigma, Params(e)))
    decreases e, 0
  {
    hide Match; hide MatchEach; hide Restrict; hide Consistent; hide SelfFitting;
    if e.ret.Some? {
      NextComplete(ParamsOf(e.params), e.ret.value, sigma, b);
    } else {
      assert Params(e) == ParamsOf(e.params);
    }
    EachComplete(e.params, sigma, b);
  }

  /** A part that comes after others. */
  lemma NextComplete(names: set<string>, t: Type, sigma: Bindings, b: Bindings)
    requires UnionFree(t) && Instantiates(sigma, names + Params(t)) && Consistent(b, sigma, names + Params(t))
    ensures Match(t, Substitute(t, sigma), b + Restrict(sigma, names))
            == Matched(true, b + Restrict(sigma, names + Params(t)))
    ensures Consistent(b, sigma, names)
    decreases t, 3
  {
    hide Match; hide UnionFree; hide Substitute;
    RestrictTwice(b, sigma, names, Params(t));
    MatchComplete(t, sigma, b + Restrict(sigma, names));
  }

  function SubstituteEach(ts: seq<Type>, sigma: Bindings): (r: seq<Type>)
    ensures |r| == |ts| && forall i | 0 <= i < |ts| :: r[i] == Substitute(ts[i], sigma)
  {
    seq(|ts|, i requires 0 <= i < |ts| => Substitute(ts[i], sigma))
  }

  lemma {:induction false} EachComplete(es: seq<Type>, sigma: Bindings, b: Bindings)
    requires forall i | 0 <= i < |es| :: UnionFree(es[i])
    requires Instantiates(sigma, ParamsOf(es)) && Consistent(b, sigma, ParamsOf(es))
    ensures MatchEach(es, SubstituteEach(es, sigma), b) == Matched(true, b + Restrict(sigma, ParamsOf(es)))
    ensures forall acts | |acts| == |es| && (forall i | 0 <= i < |es| :: acts[i] == Substitute(es[i], sigma)) ::
              acts == SubstituteEach(es, sigma)
    decreases es, 0
  {
    hide Match; hide UnionFree; hide Substitute;
    if es == [] {
      assert b + Restrict(sigma, {}) == b;
    } else {
      RestrictTwice(b, sigma, Params(es[0]), ParamsOf(es[1..]));
      MatchComplete(es[0], sigma, b);
      EachComplete(es[1..], sigma, b + Restrict(sigma, Params(es[0])));
      assert SubstituteEach(es, sigma)[1..] == SubstituteEach(es[1..], sigma);
    }
  }

  // ----- a whole call -----

  function Known(ts: seq<Type>): (r: seq<Option<Type>>)
    ensures |r| == |ts| && forall i | 0 <= i < |ts| :: r[i] == Some(ts[i])
  {
    seq(|ts|, i requires 0 <= i < |ts| => Some(ts[i]))
  }

  lemma KnownRest(ts: seq<Type>)
    requires ts != []
    ensures Known(ts)[1..] == Known(ts[1..])
  {}

  /** A call whose arguments have the types of its parameters, with types put in for the type parameters: all match, and
      the type parameters are bound to exactly those. */
  lemma {:induction false} CallComplete(es: seq<Type>, sigma: Bindings, b: Bindings)
    requires forall i | 0 <= i < |es| :: UnionFree(es[i])
    requires Instantiates(sigma, ParamsOf(es)) && Consistent(b, sigma, ParamsOf(es))
    ensures var m := MatchCall(Known(es), Known(SubstituteEach(es, sigma)), b);
            && m.bindings == b + Restrict(sigma, ParamsOf(es))
            && |m.matched| == |es| && forall i | 0 <= i < |es| :: m.matched[i]
    decreases |es|
  {
    hide Match; hide UnionFree; hide Substitute;
    if es == [] {
      assert b + Restrict(sigma, {}) == b;
    } else {
      var acts := SubstituteEach(es, sigma);
      RestrictTwice(b, sigma, Params(es[0]), ParamsOf(es[1..]));
      MatchComplete(es[0], sigma, b);
      CallComplete(es[1..], sigma, b + Restrict(sigma, Params(es[0])));
      assert acts[1..] == SubstituteEach(es[1..], sigma);
      KnownRest(es);
      KnownRest(acts);
    }
  }

  /** A parameter that does not match, or whose type or argument type is not known, is as if it were not there. */
  lemma CallSkips(p: Option<Type>, a: Option<Type>, params: seq<Option<Type>>, args: seq<Option<Type>>, b: Bindings)
    requires p.None? || a.None? || !Match(p.value, a.value, b).ok
    ensures var m, rest := MatchCall([p] + params, [a] + args, b), MatchCall(params, args, b);
            m.bindings == rest.bindings && m.matched == [false] + rest.matched
  {
    hide Match;
    assert ([p] + params)[1..] == params && ([a] + args)[1..] == args;
  }

  // ----- and succeeds only then -----

  predicate AllConcrete(b: Bindings) { forall n | n in b :: Concrete(b[n]) }

  /** A match between types that say everything: the actual type is the expected one with the bindings put in. */
  lemma {:induction false} MatchExact(e: Type, a: Type, b: Bindings, fin: Bindings)
    requires Generic(e) && Concrete(a) && AllConcrete(b) && Match(e, a, b).ok
    requires Extends(Match(e, a, b).bindings, fin)
    ensures AllConcrete(Match(e, a, b).bindings) && Params(e) <= Match(e, a, b).bindings.Keys
    ensures Substitute(e, fin) == a
    decreases e, 1
  {
    if e.Param? {
      if e.name in b { ConcreteFitsIff(a, b[e.name]); }
    } else {
      PartsExact(e, a, b, fin);
    }
  }

  lemma {:induction false} PartsExact(e: Type, a: Type, b: Bindings, fin: Bindings)
    requires Generic(e) && !e.Param? && Concrete(a) && AllConcrete(b) && SameKind(e, a) && MatchParts(e, a, b).ok
    requires Extends(MatchParts(e, a, b).bindings, fin)
    ensures AllConcrete(MatchParts(e, a, b).bindings) && Params(e) <= MatchParts(e, a, b).bindings.Keys
    ensures Substitute(e, fin) == a
    decreases e, 0
  {
    hide Match; hide MatchEach;
    match e
    case ListOf(x) => MatchExact(x, a.elem, b, fin);
    case Tuple(xs) => EachExact(xs, a.elems, b, fin);
    case MapOf(k, v) =>
      var m := Match(k, a.key, b);
      MatchExtends(v, a.val, m.bindings);
      MatchExact(k, a.key, b, fin);
      MatchExact(v, a.val, m.bindings, fin);
    case Fn(ret, params, _) =>
      var m := MatchEach(params, a.params, b);
      MatchExtends(ret.value, a.ret.value, m.bindings);
      EachExact(params, a.params, b, fin);
      MatchExact(ret.value, a.ret.value, m.bindings, fin);
    case _ =>
  }

  lemma {:induction false} EachExact(es: seq<Type>, acts: seq<Type>, b: Bindings, fin: Bindings)
    requires (forall i | 0 <= i < |es| :: Generic(es[i])) && forall i | 0 <= i < |acts| :: Concrete(acts[i])
    requires AllConcrete(b) && MatchEach(es, acts, b).ok && Extends(MatchEach(es, acts, b).bindings, fin)
    ensures AllConcrete(MatchEach(es, acts, b).bindings) && ParamsOf(es) <= MatchEach(es, acts, b).bindings.Keys
    ensures |es| == |acts| && forall i | 0 <= i < |es| :: Substitute(es[i], fin) == acts[i]
    decreases es, 0
  {
    hide Match; hide Generic; hide Concrete; hide Substitute;
    if es != [] {
      var m := Match(es[0], acts[0], b);
      MatchEachExtends(es[1..], acts[1..], m.bindings);
      MatchExact(es[0], acts[0], b, fin);
      EachExact(es[1..], acts[1..], m.bindings, fin);
      assert forall i | 0 < i < |es| :: es[i] == es[1..][i - 1] && acts[i] == acts[1..][i - 1];
    }
  }

  /** The types put in for the parameters are parts of the whole. */
  lemma {:induction false} PartsAreConcrete(e: Type, sigma: Bindings)
    requires Generic(e) && Concrete(Substitute(e, sigma))
    ensures forall n | n in Params(e) :: n in sigma && Concrete(sigma[n])
    decreases e, 0
  {
    match e
    case ListOf(x) => PartsAreConcrete(x, sigma);
    case Tuple(xs) =>
      var whole := Substitute(e, sigma);
      assert forall i | 0 <= i < |xs| :: whole.elems[i] == Substitute(xs[i], sigma) && Concrete(whole.elems[i]);
      EachIsConcrete(xs, sigma);
    case MapOf(k, v) =>
      PartsAreConcrete(k, sigma);
      PartsAreConcrete(v, sigma);
    case Fn(ret, params, _) =>
      var whole := Substitute(e, sigma);
      assert forall i | 0 <= i < |params| ::
          whole.params[i] == Substitute(params[i], sigma) && Concrete(whole.params[i]);
      EachIsConcrete(params, sigma);
      PartsAreConcrete(ret.value, sigma);
    case _ =>
  }

  lemma {:induction false} EachIsConcrete(es: seq<Type>, sigma: Bindings)
    requires forall i | 0 <= i < |es| :: Generic(es[i]) && Concrete(Substitute(es[i], sigma))
    ensures forall n | n in ParamsOf(es) :: n in sigma && Concrete(sigma[n])
    decreases es, 0
  {
    hide Generic; hide Concrete; hide Substitute;
    if es != [] {
      PartsAreConcrete(es[0], sigma);
      EachIsConcrete(es[1..], sigma);
    }
  }

  lemma {:induction false} GenericUnionFree(t: Type)
    requires Generic(t)
    ensures UnionFree(t)
    decreases t
  {
    match t
    case ListOf(e) => GenericUnionFree(e);
    case Tuple(es) => forall i | 0 <= i < |es| ensures UnionFree(es[i]) { GenericUnionFree(es[i]); }
    case MapOf(k, v) =>
      GenericUnionFree(k);
      GenericUnionFree(v);
    case Fn(ret, params, _) =>
      GenericUnionFree(ret.value);
      forall i | 0 <= i < |params| ensures UnionFree(params[i]) { GenericUnionFree(params[i]); }
    case _ =>
  }

  lemma {:induction false} ConcreteGeneric(t: Type)
    requires Concrete(t)
    ensures Generic(t)
    decreases t
  {
    match t
    case ListOf(e) => ConcreteGeneric(e);
    case Tuple(es) => forall i | 0 <= i < |es| ensures Generic(es[i]) { ConcreteGeneric(es[i]); }
    case MapOf(k, v) =>
      ConcreteGeneric(k);
      ConcreteGeneric(v);
    case Fn(ret, params, _) =>
      ConcreteGeneric(ret.value);
      forall i | 0 <= i < |params| ensures Generic(params[i]) { ConcreteGeneric(params[i]); }
    case _ =>
  }

  /** Matching succeeds exactly when some types put in for the parameters give the actual type, and then binds them. */
  lemma MatchIff(e: Type, a: Type)
    requires Generic(e) && Concrete(a)
    ensures Match(e, a, map[]).ok <==> exists sigma :: Substitute(e, sigma) == a
    ensures forall sigma | Substitute(e, sigma) == a :: Match(e, a, map[]).bindings == Restrict(sigma, Params(e))
  {
    hide Match; hide Substitute; hide Generic; hide Concrete; hide Params;
    var m := Match(e, a, map[]);
    if m.ok {
      MatchExact(e, a, map[], m.bindings);
      assert Substitute(e, m.bindings) == a;
    }
    forall sigma | Substitute(e, sigma) == a ensures m == Matched(true, Restrict(sigma, Params(e))) {
      InstanceMatches(e, sigma);
    }
  }

  lemma InstanceMatches(e: Type, sigma: Bindings)
    requires Generic(e) && Concrete(Substitute(e, sigma))
    ensures Match(e, Substitute(e, sigma), map[]) == Matched(true, Restrict(sigma, Params(e)))
  {
    hide Match; hide Substitute; hide Generic; hide Concrete; hide Params; hide SelfFitting; hide UnionFree;
    PartsAreConcrete(e, sigma);
    GenericUnionFree(e);
    forall n | n in Params(e) ensures n in sigma && SelfFitting(sigma[n]) {
      ConcreteGeneric(sigma[n]);
      GenericUnionFree(sigma[n]);
      CompatibleItself(sigma[n]);
    }
    MatchComplete(e, sigma, map[]);
    assert map[] + Restrict(sigma, Params(e)) == Restrict(sigma, Params(e));
  }

  // ----- later occurrences, union options -----

  /** Where a type parameter occurs again, the type must fit the one it is bound to both ways: for types that say
      everything, it must be that type. The binding stays. */
  lemma LaterOccurrence(name: string, a: Type, b: Bindings)
    requires name in b
    ensures Match(Param(name), a, b) == Matched(Fits(a, b[name]) && Fits(b[name], a), b)
    ensures Concrete(a) && Concrete(b[name]) ==> (Match(Param(name), a, b).ok <==> a == b[name])
  {
    if Concrete(a) && Concrete(b[name]) {
      ConcreteFitsIff(a, b[name]);
      ConcreteFitsIff(b[name], a);
    }
  }

  /** A union matches when one of its options does, with the bindings of the first that does. */
  lemma {:induction false} FirstOption(options: seq<Type>, a: Type, b: Bindings)
    requires !a.Param?
    ensures Match(Union(options), a, b).ok <==> exists i :: 0 <= i < |options| && Match(options[i], a, b).ok
    ensures !Match(Union(options), a, b).ok ==> Match(Union(options), a, b).bindings == b
    ensures forall i | 0 <= i < |options| && Match(options[i], a, b).ok
                       && (forall j | 0 <= j < i :: !Match(options[j], a, b).ok) ::
              Match(Union(options), a, b) == Match(options[i], a, b)
    decreases |options|
  {
    assert Match(Union(options), a, b) == MatchOptions(options, a, b);
    if options != [] {
      var rest := options[1..];
      FirstOption(rest, a, b);
      assert Match(Union(rest), a, b) == MatchOptions(rest, a, b);
      hide Match;
      assert forall i | 0 < i < |options| :: options[i] == rest[i - 1];
      assert forall i | 0 <= i < |rest| :: rest[i] == options[i + 1];
    }
  }

  /** A map of strings to numbers given for `map<K, V>`. */
  lemma MapBinds()
    ensures var m := MatchCall([Some(MapOf(Param("K"), Param("V")))], [Some(MapOf(Base(StrKind), Base(NumKind)))],
            map[]);
            m == CallMatch(map["K" := Base(StrKind), "V" := Base(NumKind)], [true])
  {
    var e, a := MapOf(Param("K"), Param("V")), MapOf(Base(StrKind), Base(NumKind));
    assert Match(e, a, map[]) == Matched(true, map["K" := Base(StrKind), "V" := Base(NumKind)]);
    assert [Some(e)][1..] == [] && [Some(a)][1..] == [];
  }

  // ----- types that leave something open -----

  /** What leaves something open suits everything it could be: `any` and type parameters, structs without a name, bare
      functions; and between functions a result that is not given. */
  lemma OpenFits(t: Type, m: string, n: string, ps: seq<Type>, qs: seq<Type>, r: Option<Type>, v: bool, w: bool)
    ensures Fits(t, Any) && Fits(Any, t) && Fits(t, Param(n)) && Fits(Param(n), t)
    ensures Fits(Struct(m), Struct(n)) <==> m == "" || n == "" || m == n
    ensures Fits(Fn(r, ps, v), Fn(None, [], w))
    ensures qs != [] || r.Some? ==>
      var parts := |ps| == |qs| && forall i | 0 <= i < |ps| :: Fits(ps[i], qs[i]);
      Fits(Fn(None, ps, v), Fn(r, qs, w)) <==> v == w && parts
  {}

  /** Matching is as open only where the actual type is, or a struct has no name; the result of a function is looked at
      when both give one. */
  lemma OpenMatches(e: Type, n: string, m: string, ps: seq<Type>, qs: seq<Type>, r: Option<Type>, v: bool, w: bool,
                    b: Bindings)
    ensures !e.Param? ==> Match(e, Param(n), b) == Matched(true, b)
    ensures Match(Any, e, b) == Matched(e.Any? || e.Param?, b)
    ensures !e.Any? && !e.Param? && !e.Union? ==> Match(e, Any, b) == Matched(false, b)
    ensures Match(Struct(m), Struct(n), b) == Matched(m == "" || n == "" || m == n, b)
    ensures Match(Fn(None, ps, v), Fn(r, qs, v), b) == Match(Tuple(ps), Tuple(qs), b)
    ensures Match(Fn(r, ps, v), Fn(None, qs, v), b) == Match(Tuple(ps), Tuple(qs), b)
    ensures v != w ==> !Match(Fn(r, ps, v), Fn(r, qs, w), b).ok
  {
    assert Match(Tuple(ps), Tuple(qs), b) == MatchParts(Tuple(ps), Tuple(qs), b) == MatchEach(ps, qs, b);
    assert Match(Fn(None, ps, v), Fn(r, qs, v), b) == MatchParts(Fn(None, ps, v), Fn(r, qs, v), b);
    assert Match(Fn(r, ps, v), Fn(None, qs, v), b) == MatchParts(Fn(r, ps, v), Fn(None, qs, v), b);
  }
}
