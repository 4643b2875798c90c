/** Binding the arguments of a call to the parameters of a function. */
module Calls {
  import opened Values
  import opened Signatures

  datatype BindError =
    | UnknownName(name: string)
    | NotAList(name: string)
    | TooMany
    | Missing(name: string)
    | DefaultFailed(failure: Failure)

  type Named = map<string, Value>

  /** The parameter a name stands for: the last one called so. */
  function IndexOf(params: seq<Parameter>, name: string): (r: Option<nat>)
    ensures r.Some? ==> r.value < |params| && params[r.value].name == name
    ensures r.Some? ==> forall i | r.value < i < |params| :: params[i].name != name
    ensures r.None? ==> forall i | 0 <= i < |params| :: params[i].name != name
  {
    if params == [] then None
    else
      var n := |params| - 1;
      if params[n].name == name then Some(n) else IndexOf(params[..n], name)
  }

  /** Parameter `i` is given by name. */
  predicate IsNamed(params: seq<Parameter>, named: Named, i: nat)
    requires i < |params|
  {
    params[i].name in named && IndexOf(params, params[i].name) == Some(i)
  }

  function NamedValue(params: seq<Parameter>, named: Named, i: nat): Value
    requires i < |params| && IsNamed(params, named, i)
  {
    named[params[i].name]
  }

  /** How many of the first `i` parameters are left to positional arguments. */
  function Open(params: seq<Parameter>, named: Named, i: nat): (n: nat)
    requires i <= |params|
    ensures n <= i
  {
    if i == 0 then 0 else Open(params, named, i - 1) + (if IsNamed(params, named, i - 1) then 0 else 1)
  }

  /** A named argument belongs to a parameter, and is a list where the parameter takes any number. */
  predicate NameFits(params: seq<Parameter>, named: Named, name: string)
    requires name in named
  {
    var i := IndexOf(params, name);
    i.Some? && (params[i.value].variadic ==> named[name].List?)
  }

  /** No positional argument is left over. */
  predicate RoomForAll(params: seq<Parameter>, named: Named, count: nat) {
    if HasVariadic(params) && !IsNamed(params, named, |params| - 1) then true
    else count <= Open(params, named, Fixed(params))
  }

  /** A parameter that takes one argument and gets none. */
  predicate Unfilled(params: seq<Parameter>, named: Named, count: nat, i: nat)
    requires i < |params|
  {
    i < Fixed(params) && !IsNamed(params, named, i) && Open(params, named, i) >= count
  }

  /** The first parameter that neither gets an argument nor has a usable default. */
  predicate FirstStuck(params: seq<Parameter>, named: Named, count: nat, i: nat)
    requires i < |params|
  {
    && Unfilled(params, named, count, i) && !HasValue(params[i])
    && forall j | 0 <= j < i && Unfilled(params, named, count, j) :: HasValue(params[j])
  }

  predicate HasValue(p: Parameter) { p.default.Some? && p.default.value.Ok? }

  predicate Binds(params: seq<Parameter>, positional: seq<Value>, named: Named) {
    && (forall name | name in named :: NameFits(params, named, name))
    && RoomForAll(params, named, |positional|)
    && forall i | 0 <= i < |params| && Unfilled(params, named, |positional|, i) :: HasValue(params[i])
  }

  /** What parameter `i` is bound to. */
  function ValueAt(params: seq<Parameter>, positional: seq<Value>, named: Named, i: nat): Value
    requires i < |params|
  {
    if IsNamed(params, named, i) then NamedValue(params, named, i)
    else
      var k := Open(params, named, i);
      if i >= Fixed(params) then List(if k <= |positional| then positional[k..] else [])
      else if k < |positional| then positional[k]
      else if HasValue(params[i]) then params[i].default.value.value
      else Nil
  }

  /** The error of a call that does not bind: one about a name if there is any, else too many arguments, else the first
      parameter left without a value. */
  predicate ErrorFits(params: seq<Parameter>, positional: seq<Value>, named: Named, e: BindError) {
    match e
    case UnknownName(name) => name in named && IndexOf(params, name).None?
    case NotAList(name) =>
      name in named && IndexOf(params, name).Some? && params[IndexOf(params, name).value].variadic && !named[name].List?
    case TooMany =>
      (forall name | name in named :: NameFits(params, named, name)) && !RoomForAll(params, named, |positional|)
    case Missing(name) =>
      && (forall name | name in named :: NameFits(params, named, name)) && RoomForAll(params, named, |positional|)
      && exists i :: 0 <= i < |params| && FirstStuck(params, named, |positional|, i) && params[i].default.None?
                     && params[i].name == name
    case DefaultFailed(f) =>
      && (forall name | name in named :: NameFits(params, named, name)) && RoomForAll(params, named, |positional|)
      && exists i :: 0 <= i < |params| && FirstStuck(params, named, |positional|, i)
                     && params[i].default == Some(Err(f))
  }

  /** A parameter's buffer entries, before the positional arguments are dealt out and after. */
  predicate IsGiven(params: seq<Parameter>, named: Named, v: Value, p: bool, i: nat)
    requires i < |params|
  {
    p == IsNamed(params, named, i) && (p ==> v == NamedValue(params, named, i))
  }

  predicate IsFilled(params: seq<Parameter>, positional: seq<Value>, named: Named, v: Value, p: bool, i: nat)
    requires i < |params|
  {
    p == !Unfilled(params, named, |positional|, i) && (p ==> v == ValueAt(params, positional, named, i))
  }

  lemma FillOne(params: seq<Parameter>, positional: seq<Value>, named: Named, v: Value, p: bool, i: nat)
    requires i < Fixed(params) && Open(params, named, i) < |positional| && IsGiven(params, named, v, p, i)
    ensures IsFilled(params, positional, named, if p then v else positional[Open(params, named, i)], true, i)
    ensures Open(params, named, i + 1) == Open(params, named, i) + if p then 0 else 1
  {
    hide NamedValue;
  }

  lemma FillNone(params: seq<Parameter>, positional: seq<Value>, named: Named, v: Value, p: bool, i: nat)
    requires i < Fixed(params) && Open(params, named, i) >= |positional| && IsGiven(params, named, v, p, i)
    ensures IsFilled(params, positional, named, v, p, i)
  {
    hide NamedValue; hide Open;
  }

  // ----- the binding loops -----

  /** Fill the buffers `values` and `provided` for a call. Named arguments come in any order. */
  method BindArguments(params: seq<Parameter>, positional: seq<Value>, named: Named, values: array<Value>,
                       provided: array<bool>)
    returns (error: Option<BindError>)
    requires VariadicLast(params) && values.Length == |params| == provided.Length
    modifies values, provided
    ensures error.None? <==> Binds(params, positional, named)
    ensures error.None? ==> forall i | 0 <= i < |params| ::
            provided[i] && values[i] == ValueAt(params, positional, named, i)
    ensures error.Some? ==> ErrorFits(params, positional, named, error.value)
  {
    var i := 0;
    while i < |params|
      invariant 0 <= i <= |params| && forall j | 0 <= j < i :: !provided[j]
    {
      values[i], provided[i] := Nil, false;
      i := i + 1;
    }
    error := BindNamed(params, named, values, provided);
    if error.Some? { return; }
    error := BindPositional(params, positional, named, values, provided);
    if error.Some? { return; }
    error := BindDefaults(params, positional, named, values, provided);
  }

  method BindNamed(params: seq<Parameter>, named: Named, values: array<Value>, provided: array<bool>)
    returns (error: Option<BindError>)
    requires values.Length == |params| == provided.Length && forall j | 0 <= j < |params| :: !provided[j]
    modifies values, provided
    ensures error.None? <==> forall name | name in named :: NameFits(params, named, name)
    ensures error.Some? ==> error.value.UnknownName? || error.value.NotAList?
    ensures error.Some? ==> ErrorFits(params, [], named, error.value)
    ensures error.None? ==>
      forall j | 0 <= j < |params| :: IsGiven(params, named, values[j], provided[j], j)
  {
    var todo := named;
    while todo != map[]
      invariant todo.Keys <= named.Keys && forall name | name in todo :: todo[name] == named[name]
      invariant forall name | name in named && name !in todo :: NameFits(params, named, name)
      invariant forall j | 0 <= j < |params| :: provided[j] <==> IsNamed(params, named, j) && params[j].name !in todo
      invariant forall j | 0 <= j < |params| && provided[j] :: values[j] == named[params[j].name]
      decreases |todo|
    {
      var name :| name in todo;
      var idx := IndexOf(params, name);
      if idx.None? {
        return Some(UnknownName(name));
      }
      if params[idx.value].variadic && !todo[name].List? {
        return Some(NotAList(name));
      }
      values[idx.value], provided[idx.value] := todo[name], true;
      assert (todo - {name}).Keys == todo.Keys - {name};
      todo := todo - {name};
    }
    error := None;
  }

  /** Positional arguments go to the parameters not given by name, in order; a variadic one takes the rest. */
  method BindPositional(params: seq<Parameter>, positional: seq<Value>, named: Named, values: array<Value>,
                        provided: array<bool>)
    returns (error: Option<BindError>)
    requires values.Length == |params| == provided.Length
    requires forall name | name in named :: NameFits(params, named, name)
    requires forall j | 0 <= j < |params| :: IsGiven(params, named, values[j], provided[j], j)
    modifies values, provided
    ensures error == if RoomForAll(params, named, |positional|) then None else Some(TooMany)
    ensures error.None? ==> forall j | 0 <= j < |params| ::
      IsFilled(params, positional, named, values[j], provided[j], j)
  {
    var posIndex := FillFixed(params, positional, named, values, provided);
    var last := |params| - 1;
    if HasVariadic(params) {
      if provided[last] {
        if posIndex < |positional| { return Some(TooMany); }
      } else {
        values[last], provided[last] := List(positional[posIndex..]), true;
      }
    } else if posIndex < |positional| {
      return Some(TooMany);
    }
    error := None;
  }

  method FillFixed(params: seq<Parameter>, positional: seq<Value>, named: Named, values: array<Value>,
                   provided: array<bool>)
    returns (posIndex: nat)
    requires values.Length == |params| == provided.Length
    requires forall j | 0 <= j < |params| :: IsGiven(params, named, values[j], provided[j], j)
    modifies values, provided
    ensures var open := Open(params, named, Fixed(params));
            posIndex == if open <= |positional| then open else |positional|
    ensures forall j | 0 <= j < Fixed(params) ::
      IsFilled(params, positional, named, values[j], provided[j], j)
    ensures forall j | Fixed(params) <= j < |params| ::
      IsGiven(params, named, values[j], provided[j], j)
  {
    hide IsGiven; hide IsFilled; hide Open; hide IsNamed;
    posIndex := 0;
    var i := 0;
    assert Open(params, named, 0) == 0 by { OpenNone(params, named); }
    while i < Fixed(params) && posIndex < |positional|
      invariant 0 <= i <= Fixed(params) && posIndex == Open(params, named, i) <= |positional|
      invariant forall j | i <= j < |params| :: IsGiven(params, named, values[j], provided[j], j)
      invariant forall j | 0 <= j < i :: IsFilled(params, positional, named, values[j], provided[j], j)
    {
      FillOne(params, positional, named, values[i], provided[i], i);
      if !provided[i] {
        values[i], provided[i] := positional[posIndex], true;
        posIndex := posIndex + 1;
      }
      i := i + 1;
    }
    OpenGrows(params, named, i);
    forall j | i <= j < Fixed(params) ensures IsFilled(params, positional, named, values[j], provided[j], j) {
      FillNone(params, positional, named, values[j], provided[j], j);
    }
  }

  lemma OpenNone(params: seq<Parameter>, named: Named)
    ensures Open(params, named, 0) == 0
  {}

  lemma OpenGrows(params: seq<Parameter>, named: Named, i: nat)
    requires i <= |params|
    ensures forall j | i <= j <= |params| :: Open(params, named, i) <= Open(params, named, j)
    decreases |params| - i
  {
    if i < |params| {
      OpenGrows(params, named, i + 1);
    }
  }

  /** Parameters still without a value take their defaults, the first that cannot ends the binding. */
  method BindDefaults(params: seq<Parameter>, positional: seq<Value>, named: Named, values: array<Value>,
                      provided: array<bool>)
    returns (error: Option<BindError>)
    requires VariadicLast(params) && values.Length == |params| == provided.Length
    requires (forall name | name in named :: NameFits(params, named, name)) && RoomForAll(params, named, |positional|)
    requires forall j | 0 <= j < |params| ::
      IsFilled(params, positional, named, values[j], provided[j], j)
    modifies values, provided
    ensures error.None? <==> Binds(params, positional, named)
    ensures error.None? ==> forall i | 0 <= i < |params| ::
            provided[i] && values[i] == ValueAt(params, positional, named, i)
    ensures error.Some? ==> ErrorFits(params, positional, named, error.value)
  {
    hide IsNamed; hide Open; hide NameFits; hide RoomForAll;
    var i := 0;
    while i < |params|
      invariant 0 <= i <= |params|
      invariant forall j | 0 <= j < i && Unfilled(params, named, |positional|, j) :: HasValue(params[j])
      invariant forall j | 0 <= j < i :: provided[j]
      invariant forall j | i <= j < |params| :: provided[j] <==> !Unfilled(params, named, |positional|, j)
      invariant forall j | 0 <= j < |params| && provided[j] :: values[j] == ValueAt(params, positional, named, j)
    {
      if !provided[i] {
        if params[i].default.None? {
          assert FirstStuck(params, named, |positional|, i);
          return Some(Missing(params[i].name));
        }
        if params[i].default.value.Err? {
          assert FirstStuck(params, named, |positional|, i);
          return Some(DefaultFailed(params[i].default.value.failure));
        }
        values[i], provided[i] := params[i].default.value.value, true;
      }
      i := i + 1;
    }
    error := None;
  }

  // ----- what a successful call gives -----

  lemma {:induction false} OpenWithoutNames(params: seq<Parameter>, i: nat)
    requires i <= |params|
    ensures Open(params, map[], i) == i
    decreases i
  {
    if i > 0 { OpenWithoutNames(params, i - 1); }
  }

  /** The defaults that stand in for arguments after the first `n` give values. */
  predicate DefaultsHold(params: seq<Parameter>, n: nat) {
    forall i | n <= i < Fixed(params) && params[i].default.Some? :: params[i].default.value.Ok?
  }

  /** A call by position binds exactly when the signature takes its number of arguments, and the defaults needed give
      values. */
  lemma PositionalBindsIff(params: seq<Parameter>, positional: seq<Value>, sig: Signature)
    requires VariadicLast(params) && |positional| <= MAX_INT
    requires LeastCount(params, sig.min) && sig.max == if HasVariadic(params) then MAX_INT else |params|
    ensures Binds(params, positional, map[])
            <==> sig.min <= |positional| <= sig.max && DefaultsHold(params, |positional|)
  {
    var n := |positional|;
    OpenWithoutNames(params, Fixed(params));
    forall i | 0 <= i < |params|
      ensures Unfilled(params, map[], n, i) <==> n <= i < Fixed(params) { OpenWithoutNames(params, i); }
    if n < sig.min {
      assert Unfilled(params, map[], n, sig.min - 1);
    }
  }

  /** The values that came by position: those of the parameters not given by name, as far as arguments went, and the
      elements of a variadic one, in order. */
  function FromPositions(params: seq<Parameter>, named: Named, count: nat, values: seq<Value>, n: nat): seq<Value>
    requires n <= |params| == |values|
  {
    if n == 0 then []
    else
      FromPositions(params, named, count, values, n - 1) +
      (if IsNamed(params, named, n - 1) then []
       else if n - 1 >= Fixed(params) then (if values[n - 1].List? then values[n - 1].elems else [])
       else if Unfilled(params, named, count, n - 1) then []
       else [values[n - 1]])
  }

  lemma {:induction false} FromFixed(params: seq<Parameter>, positional: seq<Value>, named: Named, values: seq<Value>,
                                     n: nat)
    requires n <= Fixed(params) && |values| == |params|
    requires forall i | 0 <= i < |params| :: values[i] == ValueAt(params, positional, named, i)
    ensures var k := Open(params, named, n);
            FromPositions(params, named, |positional|, values, n)
              == positional[..if k <= |positional| then k else |positional|]
    decreases n
  {
    hide IsNamed;
    if n > 0 {
      FromFixed(params, positional, named, values, n - 1);
      var k := Open(params, named, n - 1);
      if !IsNamed(params, named, n - 1) && k < |positional| {
        assert positional[..k + 1] == positional[..k] + [positional[k]];
      }
    }
  }

  /** In a successful call every positional argument reaches a parameter not given by name, none is lost or repeated,
      and their order is kept. */
  lemma PositionsKept(params: seq<Parameter>, positional: seq<Value>, named: Named, values: seq<Value>)
    requires Binds(params, positional, named) && |values| == |params|
    requires forall i | 0 <= i < |params| :: values[i] == ValueAt(params, positional, named, i)
    ensures FromPositions(params, named, |positional|, values, |params|) == positional
  {
    hide IsNamed; hide NameFits;
    FromFixed(params, positional, named, values, Fixed(params));
    var k := Open(params, named, Fixed(params));
    if HasVariadic(params) {
      var last := |params| - 1;
      assert positional[..if k <= |positional| then k else |positional|]
             + (if k <= |positional| then positional[k..] else []) == positional;
    }
  }

  /** And every named argument reaches the parameter it names. */
  lemma NamesKept(params: seq<Parameter>, positional: seq<Value>, named: Named, name: string)
    requires Binds(params, positional, named) && name in named
    ensures IndexOf(params, name).Some?
            && ValueAt(params, positional, named, IndexOf(params, name).value) == named[name]
  {
    assert NameFits(params, named, name);
  }

  /** In a call by position the fixed parameters get the arguments in order, those left over their defaults, and a
      variadic one the list of the rest. */
  lemma PositionalValues(params: seq<Parameter>, positional: seq<Value>, i: nat)
    requires Binds(params, positional, map[]) && i < |params| && VariadicLast(params)
    ensures var v, n := ValueAt(params, positional, map[], i), |positional|;
            && (!params[i].variadic && i < n ==> v == positional[i])
            && (!params[i].variadic && i >= n ==> params[i].default == Some(Ok(v)))
            && (params[i].variadic && i <= n ==> v == List(positional[i..]))
            && (params[i].variadic && i > n ==> v == List([]))
  {
    OpenWithoutNames(params, i);
    assert !params[i].variadic && i >= |positional| ==> Unfilled(params, map[], |positional|, i);
  }

  predicate DistinctNames(params: seq<Parameter>) {
    forall i, j | 0 <= i < j < |params| :: params[i].name != params[j].name
  }

  lemma NamedIff(params: seq<Parameter>, named: Named, i: nat)
    requires DistinctNames(params) && i < |params|
    ensures IndexOf(params, params[i].name) == Some(i)
    ensures IsNamed(params, named, i) <==> params[i].name in named
  {}

  /** A call by name binds exactly when every name is a parameter's, one for a variadic parameter comes with a list, and
      every other parameter that takes one argument has a default that gives a value; a variadic one may be left out. */
  lemma NamedBindsIff(params: seq<Parameter>, named: Named)
    requires DistinctNames(params) && VariadicLast(params)
    ensures Binds(params, [], named)
            <==> && (forall name | name in named :: exists i :: 0 <= i < |params| && params[i].name == name)
                 && (forall i | 0 <= i < |params| && params[i].name in named && params[i].variadic ::
                       named[params[i].name].List?)
                 && forall i | 0 <= i < |params| && params[i].name !in named && !params[i].variadic ::
                      params[i].default.Some? && params[i].default.value.Ok?
  {
    hide IndexOf; hide IsNamed; hide Open;
    forall i | 0 <= i < |params|
      ensures IndexOf(params, params[i].name) == Some(i) && (IsNamed(params, named, i) <==> params[i].name in named)
    {
      NamedIff(params, named, i);
    }
    forall name | name in named
      ensures NameFits(params, named, name)
              <==> exists i :: 0 <= i < |params| && params[i].name == name && (params[i].variadic ==> named[name].List?)
    {
      var i := IndexOf(params, name);
      if i.Some? { assert params[i.value].name == name; }
    }
  }

  /** And gives the values by name, an empty list where a variadic one is left out, and else the defaults. */
  lemma NamedValues(params: seq<Parameter>, named: Named, i: nat)
    requires Binds(params, [], named) && DistinctNames(params) && VariadicLast(params) && i < |params|
    ensures var v, name := ValueAt(params, [], named, i), params[i].name;
            && (name in named ==> v == named[name])
            && (name !in named && params[i].variadic ==> v == List([]))
            && (name !in named && !params[i].variadic ==> params[i].default == Some(Ok(v)))
  {
    NamedIff(params, named, i);
    assert params[i].name !in named && !params[i].variadic ==> Unfilled(params, named, 0, i);
  }

  /** What an error says, in terms of the call; and a call with one does not bind. */
  lemma ErrorMeans(params: seq<Parameter>, positional: seq<Value>, named: Named, e: BindError)
    requires ErrorFits(params, positional, named, e) && DistinctNames(params) && VariadicLast(params)
    ensures !Binds(params, positional, named)
    ensures e.UnknownName? ==> e.name in named && forall i | 0 <= i < |params| :: params[i].name != e.name
    ensures e.NotAList? ==>
      e.name in named && !named[e.name].List?
      && exists i :: 0 <= i < |params| && params[i].name == e.name && params[i].variadic
    ensures e.TooMany? ==> |positional| > Open(params, named, Fixed(params))
                           && (HasVariadic(params) ==> params[|params| - 1].name in named)
    ensures e.Missing? ==>
      e.name !in named && exists i :: 0 <= i < |params| && params[i].name == e.name && !params[i].variadic
                                      && params[i].default.None?
    ensures e.DefaultFailed? ==>
      exists i :: 0 <= i < |params| && params[i].name !in named && !params[i].variadic
                  && params[i].default == Some(Err(e.failure))
  {
    hide IndexOf; hide Open;
    match e
    case NotAList(name) => assert !NameFits(params, named, name);
    case UnknownName(name) =>
      assert !NameFits(params, named, name);
      UnknownIs(params, name);
    case TooMany =>
    case Missing(name) =>
      var i :| 0 <= i < |params| && FirstStuck(params, named, |positional|, i) && params[i].default.None?
               && params[i].name == name;
      NamedIff(params, named, i);
    case DefaultFailed(f) =>
      var i :| 0 <= i < |params| && FirstStuck(params, named, |positional|, i) && params[i].default == Some(Err(f));
      NamedIff(params, named, i);
  }

  /** In a call by position the parameter an error is about is the first after the arguments whose default gives no
      value. */
  lemma FirstLeftOut(params: seq<Parameter>, positional: seq<Value>, e: BindError)
    requires ErrorFits(params, positional, map[], e) && (e.Missing? || e.DefaultFailed?)
    ensures exists i :: |positional| <= i < Fixed(params) && !HasValue(params[i])
                        && (e.Missing? ==> params[i].name == e.name && params[i].default.None?)
                        && (e.DefaultFailed? ==> params[i].default == Some(Err(e.failure)))
                        && forall j | |positional| <= j < i :: HasValue(params[j])
  {
    var i :| 0 <= i < |params| && FirstStuck(params, map[], |positional|, i)
             && (e.Missing? ==> params[i].default.None? && params[i].name == e.name)
             && (e.DefaultFailed? ==> params[i].default == Some(Err(e.failure)));
    OpenWithoutNames(params, i);
    forall j | |positional| <= j < i ensures HasValue(params[j]) {
      OpenWithoutNames(params, j);
      assert Unfilled(params, map[], |positional|, j);
    }
  }

  lemma UnknownIs(params: seq<Parameter>, name: string)
    requires IndexOf(params, name).None?
    ensures forall i | 0 <= i < |params| :: params[i].name != name
  {}
}
