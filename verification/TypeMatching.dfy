/** Finding what the type parameters of a call stand for, and what the result is good for. */
module TypeMatching {
  import opened Values
  import opened Types

  type Bindings = map<string, Type>

  predicate SameKind(t: Type, u: Type) {
    match t
    case Any => u.Any?
    case Base(k) => u == Base(k)
    case ListOf(_) => u.ListOf?
    case Tuple(_) => u.Tuple?
    case MapOf(_, _) => u.MapOf?
    case Fn(_, _, _) => u.Fn?
    case Struct(_) => u.Struct?
    case Param(_) => u.Param?
    case Union(_) => u.Union?
  }

  /** Can a value of the actual type stand where the expected type is asked for? */
  predicate Fits(a: Type, e: Type)
    decreases e, a, 1
  {
    if e.Any? || a.Any? || e.Param? || a.Param? then true
    else SameKind(a, e) && PartsFit(a, e)
  }

  predicate PartsFit(a: Type, e: Type)
    requires SameKind(a, e)
    decreases e, a, 0
  {
    match e
    case ListOf(x) => Fits(a.elem, x)
    case Tuple(xs) => |a.elems| == |xs| && forall i | 0 <= i < |xs| :: Fits(a.elems[i], xs[i])
    case MapOf(k, v) => Fits(a.key, k) && Fits(a.val, v)
    case Fn(ret, params, variadic) =>
      (ret.None? && params == [])
      || (a.variadic == variadic && |a.params| == |params|
          && (forall i | 0 <= i < |params| :: Fits(a.params[i], params[i]))
          && (a.ret.None? || ret.None? || Fits(a.ret.value, ret.value)))
    case Struct(name) => name == "" || a.name == "" || a.name == name
    case Union(options) => exists i :: 0 <= i < |options| && Fits(a, options[i])
    case _ => true
  }

  /** A type that is not given fits, and is fitted by, everything. */
  predicate Compatible(actual: Option<Type>, expected: Option<Type>) {
    actual.None? || expected.None? || Fits(actual.value, expected.value)
  }

  function Substitute(t: Type, b: Bindings): Type
    decreases t
  {
    match t
    case Param(name) => if name in b then b[name] else t
    case ListOf(e) => ListOf(Substitute(e, b))
    case Tuple(es) => Tuple(seq(|es|, i requires 0 <= i < |es| => Substitute(es[i], b)))
    case MapOf(k, v) => MapOf(Substitute(k, b), Substitute(v, b))
    case Fn(ret, params, variadic) =>
      Fn(if ret.Some? then Some(Substitute(ret.value, b)) else None,
         seq(|params|, i requires 0 <= i < |params| => Substitute(params[i], b)), variadic)
    case Union(options) => Union(seq(|options|, i requires 0 <= i < |options| => Substitute(options[i], b)))
    case _ => t
  }

  // ----- matching -----

  datatype Matched = Matched(ok: bool, bindings: Bindings)

  function Match(expected: Type, actual: Type, b: Bindings): Matched
    decreases expected, 1
  {
    if expected.Param? then
      if expected.name in b then
        Matched(Fits(actual, b[expected.name]) && Fits(b[expected.name], actual), b)
      else Matched(true, b[expected.name := actual])
    else if actual.Param? then Matched(true, b)
    else if expected.Union? then MatchOptions(expected.options, actual, b)
    else if actual.Union? || !SameKind(expected, actual) then Matched(false, b)
    else MatchParts(expected, actual, b)
  }

  function MatchParts(e: Type, a: Type, b: Bindings): Matched
    requires SameKind(e, a)
    decreases e, 0
  {
    match e
    case ListOf(x) => Match(x, a.elem, b)
    case Tuple(xs) => MatchEach(xs, a.elems, b)
    case MapOf(k, v) =>
      var m := Match(k, a.key, b);
      if m.ok then Match(v, a.val, m.bindings) else m
    case Fn(ret, params, variadic) =>
      if a.variadic != variadic then Matched(false, b)
      else
        var m := MatchEach(params, a.params, b);
        if !m.ok || ret.None? || a.ret.None? then m else Match(ret.value, a.ret.value, m.bindings)
    case Struct(name) => Matched(name == "" || a.name == "" || name == a.name, b)
    case _ => Matched(true, b)
  }

  /** One after the other, up to the first that does not match. */
  function MatchEach(es: seq<Type>, acts: seq<Type>, b: Bindings): Matched
    decreases es, 0
  {
    if |es| != |acts| then Matched(false, b)
    else if es == [] then Matched(true, b)
    else
      var m := Match(es[0], acts[0], b);
      if m.ok then MatchEach(es[1..], acts[1..], m.bindings) else m
  }

  /** The first option that matches; the others leave no trace. */
  function MatchOptions(options: seq<Type>, actual: Type, b: Bindings): Matched
    decreases options, 0
  {
    if options == [] then Matched(false, b)
    else
      var m := Match(options[0], actual, b);
      if m.ok then m else MatchOptions(options[1..], actual, b)
  }

  /** The bindings under construction, changed in place. */
  class Matcher {
    var bindings: Bindings

    constructor (b: Bindings)
      ensures bindings == b
    {
      bindings := b;
    }

    method Infer(expected: Type, actual: Type) returns (ok: bool)
      modifies this
      ensures Matched(ok, bindings) == Match(expected, actual, old(bindings))
      decreases expected, 1
    {
      if expected.Param? {
        if expected.name in bindings {
          var existing := bindings[expected.name];
          return Fits(actual, existing) && Fits(existing, actual);
        }
        bindings := bindings[expected.name := actual];
        return true;
      }
      if actual.Param? {
        return true;
      }
      if expected.Union? {
        ok := InferOptions(expected.options, actual);
        return;
      }
      if actual.Union? || !SameKind(expected, actual) {
        return false;
      }
      ok := InferParts(expected, actual);
    }

    method InferParts(e: Type, a: Type) returns (ok: bool)
      requires SameKind(e, a)
      modifies this
      ensures Matched(ok, bindings) == MatchParts(e, a, old(bindings))
      decreases e, 0
    {
      hide Match; hide MatchEach;
      if e.ListOf? {
        ok := Infer(e.elem, a.elem);
      } else if e.Tuple? {
        ok := InferEach(e.elems, a.elems);
      } else if e.MapOf? {
        ok := Infer(e.key, a.key);
        if ok {
          ok := Infer(e.val, a.val);
        }
      } else if e.Fn? {
        if a.variadic != e.variadic { return false; }
        ok := InferEach(e.params, a.params);
        if ok && e.ret.Some? && a.ret.Some? {
          ok := Infer(e.ret.value, a.ret.value);
        }
      } else if e.Struct? {
        ok := e.name == "" || a.name == "" || e.name == a.name;
      } else {
        ok := true;
      }
    }

    method InferEach(es: seq<Type>, acts: seq<Type>) returns (ok: bool)
      modifies this
      ensures Matched(ok, bindings) == MatchEach(es, acts, old(bindings))
      decreases es, 0
    {
      hide Match;
      if |es| != |acts| { return false; }
      var i := 0;
      assert es[0..] == es && acts[0..] == acts;
      while i < |es|
        invariant 0 <= i <= |es|
        invariant MatchEach(es[i..], acts[i..], bindings) == MatchEach(es, acts, old(bindings))
      {
        assert es[i..][0] == es[i] && es[i..][1..] == es[i + 1..] && acts[i..][0] == acts[i]
               && acts[i..][1..] == acts[i + 1..];
        ok := Infer(es[i], acts[i]);
        if !ok { return; }
        i := i + 1;
      }
      ok := true;
    }

    method InferOptions(options: seq<Type>, actual: Type) returns (ok: bool)
      modifies this
      ensures Matched(ok, bindings) == MatchOptions(options, actual, old(bindings))
      decreases options, 0
    {
      hide Match;
      var i := 0;
      assert options[0..] == options;
      while i < |options|
        invariant 0 <= i <= |options| && bindings == old(bindings)
        invariant MatchOptions(options[i..], actual, bindings) == MatchOptions(options, actual, old(bindings))
      {
        assert options[i..][0] == options[i] && options[i..][1..] == options[i + 1..];
        var trial := new Matcher(bindings);
        ok := trial.Infer(options[i], actual);
        if ok {
          bindings := trial.bindings;
          return;
        }
        i := i + 1;
      }
      ok := false;
    }
  }

  // ----- soundness -----

  predicate UnionFree(t: Type)
    decreases t
  {
    match t
    case ListOf(e) => UnionFree(e)
    case Tuple(es) => forall i | 0 <= i < |es| :: UnionFree(es[i])
    case MapOf(k, v) => UnionFree(k) && UnionFree(v)
    case Fn(ret, params, _) => (ret.Some? ==> UnionFree(ret.value)) && forall i | 0 <= i < |params| ::
      UnionFree(params[i])
    case Union(_) => false
    case _ => true
  }

  /** `any` or a type parameter, or a union with such an option, at any depth. */
  predicate Open(t: Type)
    decreases t
  {
    t.Any? || t.Param? || (t.Union? && exists i :: 0 <= i < |t.options| && Open(t.options[i]))
  }

  /** Every outermost union of the type is open. */
  predicate SelfFitting(t: Type)
    decreases t
  {
    match t
    case ListOf(e) => SelfFitting(e)
    case Tuple(es) => forall i | 0 <= i < |es| :: SelfFitting(es[i])
    case MapOf(k, v) => SelfFitting(k) && SelfFitting(v)
    case Fn(ret, params, _) => (ret.Some? ==> SelfFitting(ret.value)) && forall i | 0 <= i < |params| ::
      SelfFitting(params[i])
    case Union(_) => Open(t)
    case _ => true
  }

  /** A union fits open types only, whatever its own options are. */
  lemma {:induction false} UnionFitsIff(u: Type, t: Type)
    requires u.Union?
    ensures Fits(u, t) <==> Open(t)
    decreases t
  {
    if t.Union? {
      forall i | 0 <= i < |t.options| ensures Fits(u, t.options[i]) <==> Open(t.options[i]) {
        UnionFitsIff(u, t.options[i]);
      }
    }
  }

  /** A type is compatible with itself exactly when every outermost union in it is open. */
  lemma {:induction false} FitsItselfIff(t: Type)
    ensures Fits(t, t) <==> SelfFitting(t)
    decreases t
  {
    match t
    case ListOf(e) => FitsItselfIff(e);
    case Tuple(es) =>
      forall i | 0 <= i < |es| ensures Fits(es[i], es[i]) <==> SelfFitting(es[i]) { FitsItselfIff(es[i]); }
    case MapOf(k, v) =>
      FitsItselfIff(k);
      FitsItselfIff(v);
    case Fn(ret, params, _) =>
      forall i | 0 <= i < |params|
        ensures Fits(params[i], params[i]) <==> SelfFitting(params[i]) { FitsItselfIff(params[i]); }
      if ret.Some? { FitsItselfIff(ret.value); }
    case Union(_) => UnionFitsIff(t, t);
    case _ =>
  }

  /** Without unions compatibility is reflexive. */
  lemma {:induction false} CompatibleItself(t: Type)
    requires UnionFree(t)
    ensures SelfFitting(t) && Fits(t, t)
    decreases t
  {
    FitsItselfIff(t);
    match t
    case ListOf(e) => CompatibleItself(e);
    case Tuple(es) =>
      forall i | 0 <= i < |es| ensures SelfFitting(es[i]) { CompatibleItself(es[i]); }
    case MapOf(k, v) =>
      CompatibleItself(k);
      CompatibleItself(v);
    case Fn(ret, params, _) =>
      forall i | 0 <= i < |params| ensures SelfFitting(params[i]) { CompatibleItself(params[i]); }
      if ret.Some? { CompatibleItself(ret.value); }
    case _ =>
  }

  predicate Extends(b: Bindings, b1: Bindings) { forall k | k in b :: k in b1 && b1[k] == b[k] }

  /** Bindings, once made, are never changed, whether or not matching succeeds. */
  lemma {:induction false} MatchExtends(e: Type, a: Type, b: Bindings)
    ensures Extends(b, Match(e, a, b).bindings)
    decreases e, 1
  {
    if e.Union? && !a.Param? {
      MatchOptionsExtends(e.options, a, b);
    } else if !e.Param? && !a.Param? && !a.Union? && SameKind(e, a) {
      MatchPartsExtends(e, a, b);
    }
  }

  lemma {:induction false} MatchPartsExtends(e: Type, a: Type, b: Bindings)
    requires SameKind(e, a)
    ensures Extends(b, MatchParts(e, a, b).bindings)
    decreases e, 0
  {
    hide Match; hide MatchEach;
    if e.ListOf? {
      MatchExtends(e.elem, a.elem, b);
    } else if e.Tuple? {
      MatchEachExtends(e.elems, a.elems, b);
    } else if e.MapOf? {
      MatchExtends(e.key, a.key, b);
      MatchExtends(e.val, a.val, Match(e.key, a.key, b).bindings);
    } else if e.Fn? {
      MatchEachExtends(e.params, a.params, b);
      if e.ret.Some? && a.ret.Some? {
        MatchExtends(e.ret.value, a.ret.value, MatchEach(e.params, a.params, b).bindings);
      }
    }
  }

  lemma {:induction false} MatchEachExtends(es: seq<Type>, acts: seq<Type>, b: Bindings)
    ensures Extends(b, MatchEach(es, acts, b).bindings)
    decreases es, 0
  {
    hide Match;
    if es != [] && |es| == |acts| {
      MatchExtends(es[0], acts[0], b);
      MatchEachExtends(es[1..], acts[1..], Match(es[0], acts[0], b).bindings);
    }
  }

  lemma {:induction false} MatchOptionsExtends(options: seq<Type>, a: Type, b: Bindings)
    ensures Extends(b, MatchOptions(options, a, b).bindings)
    decreases options, 0
  {
    hide Match;
    if options != [] {
      MatchExtends(options[0], a, b);
      MatchOptionsExtends(options[1..], a, b);
    }
  }

  /** The names that matching binds outside the unions of the expected type. */
  function NewNames(e: Type, a: Type, b: Bindings): set<string>
    decreases e, 1
  {
    if e.Param? then (if e.name in b then {} else {e.name})
    else if a.Param? || e.Union? || a.Union? || !SameKind(e, a) then {}
    else NewInParts(e, a, b)
  }

  function NewInParts(e: Type, a: Type, b: Bindings): set<string>
    requires SameKind(e, a)
    decreases e, 0
  {
    match e
    case ListOf(x) => NewNames(x, a.elem, b)
    case Tuple(xs) => NewInEach(xs, a.elems, b)
    case MapOf(k, v) => NewNames(k, a.key, b) + NewNames(v, a.val, Match(k, a.key, b).bindings)
    case Fn(ret, params, _) =>
      NewInEach(params, a.params, b)
      + if ret.None? || a.ret.None? then {}
        else NewNames(ret.value, a.ret.value, MatchEach(params, a.params, b).bindings)
    case _ => {}
  }

  function NewInEach(es: seq<Type>, acts: seq<Type>, b: Bindings): set<string>
    decreases es, 0
  {
    if es == [] || |es| != |acts| then {}
    else NewNames(es[0], acts[0], b) + NewInEach(es[1..], acts[1..], Match(es[0], acts[0], b).bindings)
  }

  /** Will the type be open when the bindings are put in? */
  predicate OpenUnder(t: Type, b: Bindings)
    decreases t
  {
    match t
    case Any => true
    case Param(name) => name in b ==> Open(b[name])
    case Union(options) => exists i :: 0 <= i < |options| && OpenUnder(options[i], b)
    case _ => false
  }

  /** Where the expected type is a union, the actual one is unknown, or a union too and then the expected one is open.
      */
  predicate UnionsFit(e: Type, a: Type, b: Bindings)
    decreases e
  {
    if e.Param? || a.Param? || a.Any? then true
    else match e
      case ListOf(x) => a.ListOf? ==> UnionsFit(x, a.elem, b)
      case Tuple(xs) => a.Tuple? && |a.elems| == |xs| ==> forall i | 0 <= i < |xs| :: UnionsFit(xs[i], a.elems[i], b)
      case MapOf(k, v) => a.MapOf? ==> UnionsFit(k, a.key, b) && UnionsFit(v, a.val, b)
      case Fn(ret, params, _) =>
        a.Fn? ==> (|a.params| == |params| ==> forall i | 0 <= i < |params| :: UnionsFit(params[i], a.params[i], b))
                  && (ret.Some? && a.ret.Some? ==> UnionsFit(ret.value, a.ret.value, b))
      case Union(_) => a.Union? && OpenUnder(e, b)
      case _ => true
  }

  predicate AllSelfFitting(names: set<string>, b: Bindings) {
    forall k | k in names :: k in b && SelfFitting(b[k])
  }

  lemma {:induction false} OpenSubstitute(t: Type, b: Bindings)
    ensures Open(Substitute(t, b)) <==> OpenUnder(t, b)
    decreases t
  {
    if t.Union? {
      var u := Substitute(t, b);
      forall i | 0 <= i < |t.options| ensures Open(u.options[i]) <==> OpenUnder(t.options[i], b) {
        OpenSubstitute(t.options[i], b);
      }
    }
  }

  /** When an actual type has matched, and whatever is bound after it: it fits the expected type with the bindings put
      in exactly when the unions fit and every type bound outside them is compatible with itself. */
  lemma {:induction false} MatchSound(e: Type, a: Type, b: Bindings, fin: Bindings)
    requires Match(e, a, b).ok && Extends(Match(e, a, b).bindings, fin)
    ensures Fits(a, Substitute(e, fin)) <==> UnionsFit(e, a, fin) && AllSelfFitting(NewNames(e, a, b), fin)
    decreases e, 1
  {
    if e.Param? {
      FitsItselfIff(a);
    } else if e.Union? && !a.Param? {
      UnionSound(e, a, fin);
    } else if !a.Param? {
      MatchPartsSound(e, a, b, fin);
    }
  }

  /** An expected union takes actual unions only, and those only when it is open. */
  lemma UnionSound(e: Type, a: Type, fin: Bindings)
    requires e.Union? && !a.Param?
    ensures Fits(a, Substitute(e, fin)) <==> UnionsFit(e, a, fin)
  {
    hide OpenUnder;
    if a.Union? {
      UnionFitsIff(a, Substitute(e, fin));
      OpenSubstitute(e, fin);
    }
  }

  lemma {:induction false} MatchPartsSound(e: Type, a: Type, b: Bindings, fin: Bindings)
    requires SameKind(e, a) && !e.Param? && !e.Union?
    requires MatchParts(e, a, b).ok && Extends(MatchParts(e, a, b).bindings, fin)
    ensures Fits(a, Substitute(e, fin)) <==> UnionsFit(e, a, fin) && AllSelfFitting(NewInParts(e, a, b), fin)
    decreases e, 0
  {
    hide Match; hide MatchEach; hide NewNames; hide NewInEach; hide SelfFitting;
    if e.ListOf? {
      MatchSound(e.elem, a.elem, b, fin);
    } else if e.Tuple? {
      MatchEachSound(e.elems, a.elems, b, fin);
    } else if e.MapOf? {
      var m := Match(e.key, a.key, b);
      MatchExtends(e.val, a.val, m.bindings);
      MatchSound(e.key, a.key, b, fin);
      MatchSound(e.val, a.val, m.bindings, fin);
    } else if e.Fn? {
      FnSound(e, a, b, fin);
    }
  }

  lemma {:induction false} FnSound(e: Type, a: Type, b: Bindings, fin: Bindings)
    requires e.Fn? && a.Fn? && MatchParts(e, a, b).ok && Extends(MatchParts(e, a, b).bindings, fin)
    ensures Fits(a, Substitute(e, fin)) <==> UnionsFit(e, a, fin) && AllSelfFitting(NewInParts(e, a, b), fin)
    decreases e, 0, 0
  {
    hide Match; hide MatchEach; hide NewNames; hide NewInEach; hide SelfFitting; hide Fits;
    var m := MatchEach(e.params, a.params, b);
    if e.ret.Some? && a.ret.Some? {
      MatchExtends(e.ret.value, a.ret.value, m.bindings);
      MatchSound(e.ret.value, a.ret.value, m.bindings, fin);
    }
    MatchEachSound(e.params, a.params, b, fin);
    FitsByParts(a, Substitute(e, fin));
  }

  lemma FitsByParts(a: Type, e: Type)
    requires SameKind(a, e) && !a.Any? && !a.Param?
    ensures Fits(a, e) <==> PartsFit(a, e)
  {}

  lemma {:induction false} MatchEachSound(es: seq<Type>, acts: seq<Type>, b: Bindings, fin: Bindings)
    requires MatchEach(es, acts, b).ok && Extends(MatchEach(es, acts, b).bindings, fin)
    ensures |es| == |acts|
    ensures (forall i | 0 <= i < |es| :: Fits(acts[i], Substitute(es[i], fin)))
            <==> (forall i | 0 <= i < |es| :: UnionsFit(es[i], acts[i], fin))
                 && AllSelfFitting(NewInEach(es, acts, b), fin)
    decreases es, 0
  {
    hide Match; hide Fits; hide Substitute; hide UnionsFit; hide NewNames; hide SelfFitting;
    if es != [] {
      var m := Match(es[0], acts[0], b);
      MatchEachExtends(es[1..], acts[1..], m.bindings);
      MatchSound(es[0], acts[0], b, fin);
      MatchEachSound(es[1..], acts[1..], m.bindings, fin);
      assert forall i | 0 < i < |es| :: es[i] == es[1..][i - 1] && acts[i] == acts[1..][i - 1];
      assert forall i | 0 <= i < |es| - 1 :: es[i + 1] == es[1..][i] && acts[i + 1] == acts[1..][i];
    }
  }

  // ----- a whole call -----

  predicate AllUnionFree(ts: seq<Option<Type>>) {
    forall i | 0 <= i < |ts| && ts[i].Some? :: UnionFree(ts[i].value)
  }

  datatype CallMatch = CallMatch(bindings: Bindings, matched: seq<bool>)

  /** Parameters and arguments pair by pair: those whose types are both known and match add their bindings. */
  function MatchCall(params: seq<Option<Type>>, args: seq<Option<Type>>, b: Bindings): CallMatch
    decreases |params|
  {
    if params == [] || args == [] then CallMatch(b, [])
    else
      var ok := params[0].Some? && args[0].Some? && Match(params[0].value, args[0].value, b).ok;
      var b1 := if ok then Match(params[0].value, args[0].value, b).bindings else b;
      var rest := MatchCall(params[1..], args[1..], b1);
      CallMatch(rest.bindings, [ok] + rest.matched)
  }

  method BindingsFromCall(params: seq<Option<Type>>, args: seq<Option<Type>>)
    returns (bindings: Bindings, matched: seq<bool>)
    ensures CallMatch(bindings, matched) == MatchCall(params, args, map[])
  {
    hide Match; hide MatchCall;
    bindings, matched := map[], [];
    var i := 0;
    ghost var all := MatchCall(params, args, map[]);
    assert params[0..] == params && args[0..] == args && [] + all.matched == all.matched;
    while i < |params| && i < |args|
      invariant 0 <= i <= |params| && i <= |args|
      invariant var rest := MatchCall(params[i..], args[i..], bindings);
                all.bindings == rest.bindings && all.matched == matched + rest.matched
    {
      MatchCallStep(params, args, i, bindings, matched);
      var ok := false;
      if params[i].Some? && args[i].Some? {
        var trial := new Matcher(bindings);
        ok := trial.Infer(params[i].value, args[i].value);
        if ok {
          bindings := trial.bindings;
        }
      }
      matched := matched + [ok];
      i := i + 1;
    }
    MatchCallEnd(params[i..], args[i..], bindings);
  }

  lemma MatchCallEnd(params: seq<Option<Type>>, args: seq<Option<Type>>, b: Bindings)
    requires params == [] || args == []
    ensures MatchCall(params, args, b) == CallMatch(b, [])
  {}

  lemma MatchCallStep(params: seq<Option<Type>>, args: seq<Option<Type>>, i: nat, b: Bindings, matched: seq<bool>)
    requires i < |params| && i < |args|
    ensures var ok := params[i].Some? && args[i].Some? && Match(params[i].value, args[i].value, b).ok;
            var m := MatchCall(params[i..], args[i..], b);
            var rest := MatchCall(params[i + 1..], args[i + 1..],
                                  if ok then Match(params[i].value, args[i].value, b).bindings else b);
            m.bindings == rest.bindings && matched + m.matched == (matched + [ok]) + rest.matched
  {
    hide Match;
    assert params[i..][0] == params[i] && params[i..][1..] == params[i + 1..];
    assert args[i..][0] == args[i] && args[i..][1..] == args[i + 1..];
  }

  lemma {:induction false} CallExtends(params: seq<Option<Type>>, args: seq<Option<Type>>, b: Bindings)
    ensures Extends(b, MatchCall(params, args, b).bindings)
    ensures |MatchCall(params, args, b).matched| == if |params| < |args| then |params| else |args|
    decreases |params|
  {
    hide Match;
    if params != [] && args != [] {
      var ok := params[0].Some? && args[0].Some? && Match(params[0].value, args[0].value, b).ok;
      if ok { MatchExtends(params[0].value, args[0].value, b); }
      CallExtends(params[1..], args[1..], if ok then Match(params[0].value, args[0].value, b).bindings else b);
    }
  }

  /** What is bound when parameter `i` is looked at. */
  function BindingsBefore(params: seq<Option<Type>>, args: seq<Option<Type>>, b: Bindings, i: nat): Bindings
    requires i <= |params| && i <= |args|
  {
    MatchCall(params[..i], args[..i], b).bindings
  }

  lemma BeforeStep(params: seq<Option<Type>>, args: seq<Option<Type>>, b: Bindings, i: nat)
    requires 0 < i <= |params| && i <= |args|
    ensures var ok := params[0].Some? && args[0].Some? && Match(params[0].value, args[0].value, b).ok;
            var b1 := if ok then Match(params[0].value, args[0].value, b).bindings else b;
            BindingsBefore(params, args, b, i) == BindingsBefore(params[1..], args[1..], b1, i - 1)
  {
    hide Match;
    assert params[..i][1..] == params[1..][..i - 1] && args[..i][1..] == args[1..][..i - 1];
  }

  /** For each parameter that matched, with the final bindings put in: it accepts the type of its argument exactly when
      its unions fit and every type it bound outside them is compatible with itself. */
  lemma {:induction false} CallSound(params: seq<Option<Type>>, args: seq<Option<Type>>, b: Bindings)
    ensures var m := MatchCall(params, args, b);
            |m.matched| <= |params| && |m.matched| <= |args| &&
            forall i | 0 <= i < |m.matched| && m.matched[i] ::
              params[i].Some? && args[i].Some?
              && (Compatible(args[i], Some(Substitute(params[i].value, m.bindings)))
                  <==> UnionsFit(params[i].value, args[i].value, m.bindings)
                       && AllSelfFitting(NewNames(params[i].value, args[i].value, BindingsBefore(params, args, b, i)),
                         m.bindings))
    decreases |params|
  {
    hide Match; hide Fits; hide Substitute; hide UnionsFit; hide NewNames; hide AllSelfFitting; hide BindingsBefore;
    CallExtends(params, args, b);
    if params != [] && args != [] {
      var ok := params[0].Some? && args[0].Some? && Match(params[0].value, args[0].value, b).ok;
      var b1 := if ok then Match(params[0].value, args[0].value, b).bindings else b;
      var m, rest := MatchCall(params, args, b), MatchCall(params[1..], args[1..], b1);
      CallExtends(params[1..], args[1..], b1);
      CallSound(params[1..], args[1..], b1);
      BeforeNone(params, args, b);
      if ok { MatchSound(params[0].value, args[0].value, b, m.bindings); }
      forall i | 0 < i < |m.matched|
        ensures m.matched[i] == rest.matched[i - 1] && params[i] == params[1..][i - 1] && args[i] == args[1..][i - 1]
        ensures BindingsBefore(params, args, b, i) == BindingsBefore(params[1..], args[1..], b1, i - 1)
      {
        BeforeStep(params, args, b, i);
      }
    }
  }

  lemma BeforeNone(params: seq<Option<Type>>, args: seq<Option<Type>>, b: Bindings)
    ensures BindingsBefore(params, args, b, 0) == b
  {}

  /** Without unions in the expected type, the new names are all that is bound. */
  lemma {:induction false} NewIsAllBound(e: Type, a: Type, b: Bindings)
    requires UnionFree(e) && Match(e, a, b).ok
    ensures forall fin: Bindings :: UnionsFit(e, a, fin)
    ensures forall k :: k in NewNames(e, a, b) <==> k in Match(e, a, b).bindings && k !in b
    decreases e, 1
  {
    if !e.Param? && !a.Param? {
      NewIsAllInParts(e, a, b);
    }
  }

  lemma {:induction false} NewIsAllInParts(e: Type, a: Type, b: Bindings)
    requires UnionFree(e) && !e.Param? && SameKind(e, a) && MatchParts(e, a, b).ok
    ensures forall fin: Bindings :: UnionsFit(e, a, fin)
    ensures forall k :: k in NewInParts(e, a, b) <==> k in MatchParts(e, a, b).bindings && k !in b
    decreases e, 0
  {
    hide Match; hide MatchEach; hide NewNames; hide NewInEach;
    if e.ListOf? {
      NewIsAllBound(e.elem, a.elem, b);
    } else if e.Tuple? {
      NewIsAllInEach(e.elems, a.elems, b);
    } else if e.MapOf? {
      MatchExtends(e.key, a.key, b);
      MatchExtends(e.val, a.val, Match(e.key, a.key, b).bindings);
      NewIsAllBound(e.key, a.key, b);
      NewIsAllBound(e.val, a.val, Match(e.key, a.key, b).bindings);
    } else if e.Fn? {
      MatchEachExtends(e.params, a.params, b);
      NewIsAllInEach(e.params, a.params, b);
      if e.ret.Some? && a.ret.Some? {
        MatchExtends(e.ret.value, a.ret.value, MatchEach(e.params, a.params, b).bindings);
        NewIsAllBound(e.ret.value, a.ret.value, MatchEach(e.params, a.params, b).bindings);
      }
    }
  }

  lemma {:induction false} NewIsAllInEach(es: seq<Type>, acts: seq<Type>, b: Bindings)
    requires (forall i | 0 <= i < |es| :: UnionFree(es[i])) && MatchEach(es, acts, b).ok
    ensures |es| == |acts| && forall fin: Bindings, i | 0 <= i < |es| :: UnionsFit(es[i], acts[i], fin)
    ensures forall k :: k in NewInEach(es, acts, b) <==> k in MatchEach(es, acts, b).bindings && k !in b
    decreases es, 0
  {
    hide Match; hide NewNames; hide UnionsFit; hide UnionFree;
    if es != [] {
      MatchExtends(es[0], acts[0], b);
      MatchEachExtends(es[1..], acts[1..], Match(es[0], acts[0], b).bindings);
      NewIsAllBound(es[0], acts[0], b);
      NewIsAllInEach(es[1..], acts[1..], Match(es[0], acts[0], b).bindings);
      assert forall i | 0 < i < |es| :: es[i] == es[1..][i - 1] && acts[i] == acts[1..][i - 1];
    }
  }

  predicate NewSelfFitting(b: Bindings, b1: Bindings) { forall k | k in b1 && k !in b :: SelfFitting(b1[k]) }

  /** Without unions in the expected type, whatever the actual one: it fits exactly when every type it bound is
      compatible with itself. */
  lemma MatchSoundIff(e: Type, a: Type, b: Bindings, fin: Bindings)
    requires UnionFree(e) && Match(e, a, b).ok && Extends(Match(e, a, b).bindings, fin)
    ensures Fits(a, Substitute(e, fin)) <==> NewSelfFitting(b, Match(e, a, b).bindings)
  {
    hide Match; hide Fits; hide Substitute; hide UnionsFit; hide NewNames; hide UnionFree; hide SelfFitting;
    MatchSound(e, a, b, fin);
    NewIsAllBound(e, a, b);
  }

  lemma NewSplits(b: Bindings, b1: Bindings, b2: Bindings)
    requires Extends(b, b1) && Extends(b1, b2)
    ensures NewSelfFitting(b, b2) <==> NewSelfFitting(b, b1) && NewSelfFitting(b1, b2)
  {
    hide SelfFitting;
  }

  /** Every parameter that matched accepts its argument under the bindings. */
  predicate AllAccept(params: seq<Option<Type>>, args: seq<Option<Type>>, matched: seq<bool>, b: Bindings)
    requires |matched| <= |params| && |matched| <= |args|
  {
    forall i | 0 <= i < |matched| && matched[i] ::
      params[i].Some? && Compatible(args[i], Some(Substitute(params[i].value, b)))
  }

  lemma AllAcceptStep(params: seq<Option<Type>>, args: seq<Option<Type>>, ok: bool, rest: seq<bool>, b: Bindings)
    requires params != [] && args != [] && |rest| < |params| && |rest| < |args|
    ensures AllAccept(params, args, [ok] + rest, b)
            <==> (ok ==> params[0].Some? && Compatible(args[0], Some(Substitute(params[0].value, b))))
                 && AllAccept(params[1..], args[1..], rest, b)
  {
    hide Compatible; hide Substitute;
    var all := [ok] + rest;
    assert forall i | 0 < i < |all| ::
           all[i] == rest[i - 1] && params[i] == params[1..][i - 1] && args[i] == args[1..][i - 1];
    assert forall i | 0 <= i < |rest| ::
           all[i + 1] == rest[i] && params[i + 1] == params[1..][i] && args[i + 1] == args[1..][i];
  }

  /** Parameters without unions, whatever the arguments: all that matched accept their arguments exactly when every type
      bound by the call is compatible with itself. */
  lemma CallSoundIff(params: seq<Option<Type>>, args: seq<Option<Type>>, b: Bindings)
    requires AllUnionFree(params)
    ensures var m := MatchCall(params, args, b);
            |m.matched| <= |params| && |m.matched| <= |args| &&
            (AllAccept(params, args, m.matched, m.bindings) <==> NewSelfFitting(b, m.bindings))
  {
    CallSoundOver(params, args, b, MatchCall(params, args, b).bindings);
  }

  lemma {:induction false} CallSoundOver(params: seq<Option<Type>>, args: seq<Option<Type>>, b: Bindings, fin: Bindings)
    requires AllUnionFree(params) && Extends(MatchCall(params, args, b).bindings, fin)
    ensures var m := MatchCall(params, args, b);
            |m.matched| <= |params| && |m.matched| <= |args| &&
            (AllAccept(params, args, m.matched, fin) <==> NewSelfFitting(b, m.bindings))
    decreases |params|
  {
    hide Match; hide Fits; hide Substitute; hide UnionFree; hide NewSelfFitting; hide Extends; hide AllAccept;
    CallExtends(params, args, b);
    NothingNew(b);
    if params == [] || args == [] {
      NothingAccepted(params, args, fin);
    } else {
      var ok := params[0].Some? && args[0].Some? && Match(params[0].value, args[0].value, b).ok;
      var b1 := if ok then Match(params[0].value, args[0].value, b).bindings else b;
      var m, rest := MatchCall(params, args, b), MatchCall(params[1..], args[1..], b1);
      CallExtends(params[1..], args[1..], b1);
      CallSoundOver(params[1..], args[1..], b1, fin);
      AllAcceptStep(params, args, ok, rest.matched, fin);
      if ok {
        MatchExtends(params[0].value, args[0].value, b);
        ExtendsThrough(b1, m.bindings, fin);
        MatchSoundIff(params[0].value, args[0].value, b, fin);
      }
      NewSplits(b, b1, m.bindings);
    }
  }

  lemma NothingAccepted(params: seq<Option<Type>>, args: seq<Option<Type>>, b: Bindings)
    ensures AllAccept(params, args, [], b)
  {}

  lemma NothingNew(b: Bindings)
    ensures Extends(b, b) && NewSelfFitting(b, b)
  {}

  lemma ExtendsThrough(b: Bindings, b1: Bindings, b2: Bindings)
    requires Extends(b, b1) && Extends(b1, b2)
    ensures Extends(b, b2)
  {}

  /** Without unions in the arguments either, every parameter that matched accepts its argument. */
  lemma CallSoundWithoutUnions(params: seq<Option<Type>>, args: seq<Option<Type>>, b: Bindings)
    requires AllUnionFree(params) && AllUnionFree(args)
    ensures var m := MatchCall(params, args, b);
            |m.matched| <= |params| && |m.matched| <= |args| && AllAccept(params, args, m.matched, m.bindings)
  {
    hide MatchCall; hide AllAccept; hide SelfFitting;
    CallSoundIff(params, args, b);
    CallBindsUnionFree(params, args, b);
    var m := MatchCall(params, args, b);
    forall k | k in m.bindings && k !in b ensures SelfFitting(m.bindings[k]) { CompatibleItself(m.bindings[k]); }
  }

  /** Types without unions are bound to types without unions. */
  predicate NewUnionFree(b: Bindings, b1: Bindings) { forall k | k in b1 && k !in b :: UnionFree(b1[k]) }

  lemma {:induction false} CallBindsUnionFree(params: seq<Option<Type>>, args: seq<Option<Type>>, b: Bindings)
    requires AllUnionFree(args)
    ensures NewUnionFree(b, MatchCall(params, args, b).bindings)
    decreases |params|
  {
    hide Match; hide UnionFree;
    if params != [] && args != [] {
      var ok := params[0].Some? && args[0].Some? && Match(params[0].value, args[0].value, b).ok;
      var b1 := if ok then Match(params[0].value, args[0].value, b).bindings else b;
      if ok { BindsUnionFree(params[0].value, args[0].value, b); }
      CallExtends(params[1..], args[1..], b1);
      CallBindsUnionFree(params[1..], args[1..], b1);
    }
  }

  lemma {:induction false} BindsUnionFree(e: Type, a: Type, b: Bindings)
    requires UnionFree(a)
    ensures NewUnionFree(b, Match(e, a, b).bindings)
    decreases e, 1
  {
    if e.Union? && !a.Param? {
      OptionsBindUnionFree(e.options, a, b);
    } else if !e.Param? && !a.Param? && SameKind(e, a) {
      PartsBindUnionFree(e, a, b);
    }
  }

  lemma {:induction false} PartsBindUnionFree(e: Type, a: Type, b: Bindings)
    requires SameKind(e, a) && UnionFree(a)
    ensures NewUnionFree(b, MatchParts(e, a, b).bindings)
    decreases e, 0
  {
    hide Match; hide MatchEach;
    if e.ListOf? {
      BindsUnionFree(e.elem, a.elem, b);
    } else if e.Tuple? {
      EachBindsUnionFree(e.elems, a.elems, b);
    } else if e.MapOf? {
      var b1 := Match(e.key, a.key, b).bindings;
      BindsUnionFree(e.key, a.key, b);
      BindsUnionFree(e.val, a.val, b1);
      MatchExtends(e.val, a.val, b1);
    } else if e.Fn? {
      var b1 := MatchEach(e.params, a.params, b).bindings;
      EachBindsUnionFree(e.params, a.params, b);
      if e.ret.Some? && a.ret.Some? {
        BindsUnionFree(e.ret.value, a.ret.value, b1);
        MatchExtends(e.ret.value, a.ret.value, b1);
      }
    }
  }

  lemma {:induction false} EachBindsUnionFree(es: seq<Type>, acts: seq<Type>, b: Bindings)
    requires forall i | 0 <= i < |acts| :: UnionFree(acts[i])
    ensures NewUnionFree(b, MatchEach(es, acts, b).bindings)
    decreases es, 0
  {
    hide Match; hide UnionFree;
    if es != [] && |es| == |acts| {
      var b1 := Match(es[0], acts[0], b).bindings;
      BindsUnionFree(es[0], acts[0], b);
      EachBindsUnionFree(es[1..], acts[1..], b1);
      MatchEachExtends(es[1..], acts[1..], b1);
    }
  }

  lemma {:induction false} OptionsBindUnionFree(options: seq<Type>, a: Type, b: Bindings)
    requires UnionFree(a)
    ensures NewUnionFree(b, MatchOptions(options, a, b).bindings)
    decreases options, 0
  {
    hide Match; hide UnionFree;
    if options != [] {
      BindsUnionFree(options[0], a, b);
      OptionsBindUnionFree(options[1..], a, b);
    }
  }

  // ----- instances -----

  /** With unions it is otherwise: a list of such elements binds its element type to a union, which does not fit itself.
      */
  lemma UnionIsNotSound()
    ensures var union := Union([Base(NumKind), Base(StrKind)]);
            var m := MatchCall([Some(ListOf(Param("T")))], [Some(ListOf(union))], map[]);
            m.matched == [true] && m.bindings == map["T" := union]
            && !Compatible(Some(ListOf(union)), Some(Substitute(ListOf(Param("T")), m.bindings)))
  {
    var union := Union([Base(NumKind), Base(StrKind)]);
    FitsItselfIff(union);
    var e, a := ListOf(Param("T")), ListOf(union);
    assert Match(e, a, map[]) == Matched(true, map["T" := union]);
    assert MatchCall([], [], map["T" := union]) == CallMatch(map["T" := union], []);
    assert [Some(e)][1..] == [] && [Some(a)][1..] == [];
  }

  /** Nor does a union parameter accept what it was matched with, unless that is unknown or the union is open: a number
      matches `num|str` and `T|str` and fits neither. */
  lemma UnionParameterRefuses()
    ensures var plain, generic := Union([Base(NumKind), Base(StrKind)]), Union([Param("T"), Base(StrKind)]);
            && MatchCall([Some(plain)], [Some(Base(NumKind))], map[]) == CallMatch(map[], [true])
            && !Compatible(Some(Base(NumKind)), Some(plain))
            && MatchCall([Some(generic)], [Some(Base(NumKind))], map[]) == CallMatch(map["T" := Base(NumKind)], [true])
            && !Compatible(Some(Base(NumKind)), Some(Substitute(generic, map["T" := Base(NumKind)])))
  {
    var num, plain, generic := Base(NumKind), Union([Base(NumKind), Base(StrKind)]), Union([Param("T"), Base(StrKind)]);
    assert Match(plain, num, map[]) == Matched(true, map[]);
    assert Match(generic, num, map[]) == Matched(true, map["T" := num]);
    assert [Some(plain)][1..] == [] && [Some(generic)][1..] == [] && [Some(num)][1..] == [];
  }
}
