/** The type inferred from a value, and membership of a value in a type. */
module TypeInference {
  import opened Values
  import opened Ordering
  import opened Types
  import opened TypeText
  import opened TypeMatching

  /** The type a function is declared with; that of a group of functions has no result. */
  type FnType = t: Type | t.Fn? witness Fn(None, [], false)

  /** Values, as far as types tell them apart. */
  datatype Datum =
    | NilDatum
    | BoolDatum(b: bool)
    | NumDatum(n: Dec)
    | StrDatum(s: string)
    | BytesDatum(bytes: seq<Byte>)
    | SymDatum(name: string)
    | ListDatum(elems: seq<Datum>)
    | MapDatum(keys: seq<Datum>, vals: seq<Datum>)   // pair by pair, in the order of a visit
    | StructDatum(name: string)                      // a struct or its schema; the name can be empty
    | TaskDatum
    | ChanDatum
    | FnDatum(fnType: FnType)

  predicate Matches(v: Datum, t: Type)
    decreases t
  {
    match t
    case Any => true
    case Param(_) => true
    case Union(options) => exists i :: 0 <= i < |options| && Matches(v, options[i])
    case Base(NilKind) => v.NilDatum?
    case Base(BoolKind) => v.BoolDatum?
    case Base(NumKind) => v.NumDatum?
    case Base(StrKind) => v.StrDatum?
    case Base(BytesKind) => v.BytesDatum?
    case Base(SymKind) => v.SymDatum?
    case Base(TaskKind) => v.TaskDatum?
    case Base(ChanKind) => v.ChanDatum?
    case ListOf(e) => v.ListDatum? && forall i | 0 <= i < |v.elems| :: Matches(v.elems[i], e)
    case Tuple(ts) => v.ListDatum? && |v.elems| == |ts| && forall i | 0 <= i < |ts| :: Matches(v.elems[i], ts[i])
    case MapOf(k, w) =>
      v.MapDatum? && (forall i | 0 <= i < |v.keys| :: Matches(v.keys[i], k)) && forall i | 0 <= i < |v.vals| ::
        Matches(v.vals[i], w)
    case Fn(_, _, _) => v.FnDatum? && Fits(v.fnType, t)
    case Struct(name) => v.StructDatum? && (name == "" || v.name == name)
  }

  // ----- merging types by their texts -----

  predicate HasText(ts: seq<Type>, k: string) {
    exists i :: 0 <= i < |ts| && Print(ts[i]) == k
  }

  lemma HasTextStep(ts: seq<Type>, k: string)
    requires ts != []
    ensures var n := |ts| - 1; HasText(ts, k) <==> Print(ts[n]) == k || HasText(ts[..n], k)
  {
    hide Print;
    var n := |ts| - 1;
    assert forall i | 0 <= i < n :: ts[..n][i] == ts[i];
    if HasText(ts, k) && Print(ts[n]) != k {
      var i :| 0 <= i < |ts| && Print(ts[i]) == k;
      assert Print(ts[..n][i]) == k;
    }
    if HasText(ts[..n], k) {
      var i :| 0 <= i < n && Print(ts[..n][i]) == k;
      assert Print(ts[i]) == k;
    }
  }

  /** The texts of the types, each once, in order. */
  function DistinctTexts(ts: seq<Type>): (ks: seq<string>)
    ensures Ascending(ks) && forall k :: k in ks <==> HasText(ts, k)
    decreases |ts|
  {
    hide Print; hide InsertText; hide HasText; hide Ascending;
    if ts == [] then
      assert forall k :: !HasText(ts, k) by { NoText(); }
      assert Ascending([]) by { NoText(); }
      []
    else
      var n := |ts| - 1;
      assert forall k :: HasText(ts, k) <==> Print(ts[n]) == k || HasText(ts[..n], k) by {
        forall k { HasTextStep(ts, k); }
      }
      InsertText(DistinctTexts(ts[..n]), Print(ts[n]))
  }

  lemma NoText()
    ensures Ascending([]) && forall k :: !HasText([], k)
  {}

  /** The last of the types with a text. */
  function WithText(ts: seq<Type>, k: string): (t: Type)
    requires HasText(ts, k)
    ensures t in ts && Print(t) == k
    decreases |ts|
  {
    hide Print;
    var n := |ts| - 1;
    if Print(ts[n]) == k then ts[n]
    else
      HasTextStep(ts, k);
      var t := WithText(ts[..n], k);
      assert forall i | 0 <= i < n :: ts[..n][i] == ts[i];
      t
  }

  function Options(ts: seq<Type>, ks: seq<string>): (os: seq<Type>)
    requires forall k | k in ks :: HasText(ts, k)
    ensures |os| == |ks| && forall i | 0 <= i < |ks| :: ks[i] in ks && os[i] == WithText(ts, ks[i])
  {
    seq(|ks|, i requires 0 <= i < |ks| => assert ks[i] in ks; WithText(ts, ks[i]))
  }

  /** The type of either of several: types with the same text count as one. */
  function Merged(ts: seq<Type>): Type {
    var ks := DistinctTexts(ts);
    if ts == [] then Any
    else if |ks| == 1 then
      assert ks[0] in ks;
      WithText(ts, ks[0])
    else Union(Options(ts, ks))
  }

  /** Merging as the program does it: through a table from texts to types, whose keys are then sorted. */
  method MergeTypes(ts: seq<Type>) returns (t: Type)
    ensures t == Merged(ts)
  {
    hide Print; hide InsertText; hide HasText; hide DistinctTexts; hide WithText;
    if ts == [] { return Any; }
    var uniq, parts := CollectTexts(ts);
    if |parts| == 1 {
      assert parts[0] in parts;
      return uniq[parts[0]];
    }
    var opts, j := [], 0;
    while j < |parts|
      invariant 0 <= j <= |parts| && opts == Options(ts, parts)[..j]
    {
      assert parts[j] in parts;
      opts := opts + [uniq[parts[j]]];
      j := j + 1;
    }
    t := Union(opts);
  }

  method CollectTexts(ts: seq<Type>) returns (uniq: map<string, Type>, parts: seq<string>)
    ensures parts == DistinctTexts(ts)
    ensures forall k | k in parts :: k in uniq && uniq[k] == WithText(ts, k)
  {
    hide Print; hide InsertText; hide HasText; hide Ascending; hide DistinctTexts; hide WithText;
    uniq, parts := map[], [];
    var i := 0;
    CollectNone();
    assert ts[..0] == [];
    while i < |ts|
      invariant 0 <= i <= |ts| && parts == DistinctTexts(ts[..i])
      invariant forall k | k in parts :: k in uniq && uniq[k] == WithText(ts[..i], k)
    {
      assert ts[..i + 1] == ts[..i] + [ts[i]];
      CollectOne(ts[..i], ts[i]);
      parts := InsertText(parts, Print(ts[i]));
      uniq := uniq[Print(ts[i]) := ts[i]];
      i := i + 1;
    }
    assert ts[..|ts|] == ts;
  }

  lemma CollectNone()
    ensures DistinctTexts([]) == []
  {}

  lemma CollectOne(ts: seq<Type>, t: Type)
    ensures DistinctTexts(ts + [t]) == InsertText(DistinctTexts(ts), Print(t))
    ensures HasText(ts + [t], Print(t)) && WithText(ts + [t], Print(t)) == t
    ensures forall k | HasText(ts, k) && k != Print(t) ::
            HasText(ts + [t], k) && WithText(ts + [t], k) == WithText(ts, k)
  {
    hide Print; hide InsertText; hide HasText;
    var all := ts + [t];
    assert all[..|all| - 1] == ts && all[|all| - 1] == t;
    forall k ensures HasText(all, k) <==> Print(t) == k || HasText(ts, k) { HasTextStep(all, k); }
  }

  // ----- inference -----

  function Infer(v: Datum): Type
    decreases v, 0
  {
    match v
    case NilDatum => Base(NilKind)
    case BoolDatum(_) => Base(BoolKind)
    case NumDatum(_) => Base(NumKind)
    case StrDatum(_) => Base(StrKind)
    case BytesDatum(_) => Base(BytesKind)
    case SymDatum(_) => Base(SymKind)
    case ListDatum(es) => OfElements(InferEach(es))
    case MapDatum(ks, vs) => MapOf(Merged(InferEach(ks)), Merged(InferEach(vs)))
    case StructDatum(name) => Struct(name)
    case TaskDatum => Base(TaskKind)
    case ChanDatum => Base(ChanKind)
    case FnDatum(t) => t
  }

  function InferEach(vs: seq<Datum>): (ts: seq<Type>)
    ensures |ts| == |vs|
    decreases vs, 0
  {
    if vs == [] then [] else [Infer(vs[0])] + InferEach(vs[1..])
  }

  predicate SameTexts(ts: seq<Type>) {
    forall i | 0 < i < |ts| :: Print(ts[i]) == Print(ts[0])
  }

  /** The type of a list whose elements have these types: all alike, up to four side by side, or merged. */
  function OfElements(ts: seq<Type>): Type {
    if ts == [] then ListOf(Any)
    else if SameTexts(ts) then ListOf(ts[0])
    else if |ts| <= 4 then Tuple(ts)
    else ListOf(Merged(ts))
  }

  // ----- types that can be told apart -----

  predicate Proper(t: Type) { Plain(t) && Stable(t, {}) }

  predicate AllProper(ts: seq<Type>) {
    forall i | 0 <= i < |ts| :: Proper(ts[i]) && !ts[i].Union?
  }

  /** No two of the types share a text. */
  predicate Apart(ts: seq<Type>) {
    forall i, j | 0 <= i < |ts| && 0 <= j < |ts| && Print(ts[i]) == Print(ts[j]) :: ts[i] == ts[j]
  }

  /** Types that can be read back from their texts are told apart by them. */
  lemma ProperApart(ts: seq<Type>)
    requires AllProper(ts)
    ensures Apart(ts)
  {
    hide Print; hide Plain; hide Stable;
    forall i, j | 0 <= i < |ts| && 0 <= j < |ts| && Print(ts[i]) == Print(ts[j]) ensures ts[i] == ts[j] {
      TextsTellApart(ts[i], ts[j], {});
    }
  }

  /** The one with a type's text is that type. */
  lemma TextFindsType(ts: seq<Type>, i: nat)
    requires Apart(ts) && i < |ts|
    ensures HasText(ts, Print(ts[i])) && WithText(ts, Print(ts[i])) == ts[i]
  {
    hide Print;
    assert HasText(ts, Print(ts[i]));
    var t := WithText(ts, Print(ts[i]));
    var j :| 0 <= j < |ts| && ts[j] == t;
  }

  lemma MergedProper(ts: seq<Type>)
    requires AllProper(ts)
    ensures Proper(Merged(ts))
  {
    hide Print; hide HasText; hide DistinctTexts; hide WithText; hide TextLess; hide Apart;
    var ks := DistinctTexts(ts);
    if ts != [] {
      ProperApart(ts);
      TextFindsType(ts, 0);
      assert Print(ts[0]) in ks;
      if |ks| != 1 {
        assert |Options(ts, ks)| == |ks| >= 2;
        assert Stable(Merged(ts), {}) && Plain(Merged(ts)) by { hide Options; UnionProper(Options(ts, ks)); }
      }
    }
  }

  lemma UnionProper(os: seq<Type>)
    requires |os| >= 2 && AllProper(os)
    ensures Proper(Union(os))
  {}

  /** Merging loses no type: each is the merged type or one of its options. */
  lemma MergedCovers(ts: seq<Type>, i: nat)
    requires Apart(ts) && i < |ts|
    ensures var m := Merged(ts); m == ts[i] || (m.Union? && exists j :: 0 <= j < |m.options| && m.options[j] == ts[i])
  {
    hide Print; hide HasText; hide DistinctTexts; hide WithText; hide Apart;
    var ks := DistinctTexts(ts);
    TextFindsType(ts, i);
    assert Print(ts[i]) in ks;
    var j :| 0 <= j < |ks| && ks[j] == Print(ts[i]);
    if |ks| != 1 {
      assert Options(ts, ks)[j] == ts[i];
    }
  }

  /** Nor does it bring one in. */
  lemma MergedAmong(ts: seq<Type>)
    requires ts != []
    ensures var m := Merged(ts); m in ts || (m.Union? && forall j | 0 <= j < |m.options| :: m.options[j] in ts)
  {
    hide Print; hide HasText; hide DistinctTexts; hide WithText;
    var ks := DistinctTexts(ts);
    if |ks| == 1 {
      assert ks[0] in ks;
    } else {
      assert forall j | 0 <= j < |ks| :: ks[j] in ks && Options(ts, ks)[j] in ts;
    }
  }

  /** A value without functions and structs. */
  predicate DataOnly(v: Datum)
    decreases v
  {
    match v
    case ListDatum(es) => forall i | 0 <= i < |es| :: DataOnly(es[i])
    case MapDatum(ks, vs) => (forall i | 0 <= i < |ks| :: DataOnly(ks[i])) && forall i | 0 <= i < |vs| ::
      DataOnly(vs[i])
    case StructDatum(_) => false
    case FnDatum(_) => false
    case _ => true
  }

  /** The type inferred from data can be read back from its text, and is no union at the top. */
  lemma {:induction false} InferredProper(v: Datum)
    requires DataOnly(v)
    ensures Proper(Infer(v)) && !Infer(v).Union?
    decreases v, 0
  {
    hide Print; hide Merged;
    if v.ListDatum? {
      InferredEachProper(v.elems);
      var ts := InferEach(v.elems);
      if ts != [] {
        MergedProper(ts);
        assert Proper(ts[0]);
      }
    } else if v.MapDatum? {
      InferredEachProper(v.keys);
      InferredEachProper(v.vals);
      MergedProper(InferEach(v.keys));
      MergedProper(InferEach(v.vals));
    }
  }

  lemma {:induction false} InferredEachProper(vs: seq<Datum>)
    requires forall i | 0 <= i < |vs| :: DataOnly(vs[i])
    ensures AllProper(InferEach(vs))
    decreases vs, 0
  {
    hide Plain; hide Stable; hide Infer;
    if vs != [] {
      InferredProper(vs[0]);
      InferredEachProper(vs[1..]);
    }
  }

  // ----- a value is accepted by the type inferred from it -----

  lemma {:induction false} InferEachAt(vs: seq<Datum>)
    ensures forall i | 0 <= i < |vs| :: InferEach(vs)[i] == Infer(vs[i])
    decreases |vs|
  {
    hide Infer;
    if vs != [] {
      InferEachAt(vs[1..]);
      assert forall i | 0 < i < |vs| :: vs[i] == vs[1..][i - 1];
    }
  }

  /** Wherever types of several values are compared by their texts inside `v`, values with the same text have the same
      type. It fails for functions one of which takes any number of arguments, as texts do not say so. */
  predicate TextsApart(v: Datum)
    decreases v
  {
    match v
    case ListDatum(es) => Apart(InferEach(es)) && forall i | 0 <= i < |es| :: TextsApart(es[i])
    case MapDatum(ks, vs) =>
      && Apart(InferEach(ks)) && Apart(InferEach(vs))
      && (forall i | 0 <= i < |ks| :: TextsApart(ks[i])) && forall i | 0 <= i < |vs| :: TextsApart(vs[i])
    case _ => true
  }

  /** The value has the type of one of those. */
  predicate FitsSome(v: Datum, vs: seq<Datum>) {
    exists j :: 0 <= j < |vs| && Matches(v, Infer(vs[j]))
  }

  predicate EachFitsSome(vs: seq<Datum>) {
    forall i | 0 <= i < |vs| :: FitsSome(vs[i], vs)
  }

  /** Every function in `v` has a type that fits itself; of more than four values unlike each other, or of the keys or
      values of a map, each may fit the type of another instead. */
  predicate SelfAccepting(v: Datum)
    decreases v
  {
    match v
    case FnDatum(t) => SelfFitting(t)
    case ListDatum(es) =>
      if SameTexts(InferEach(es)) || |es| <= 4 then forall i | 0 <= i < |es| ::
        SelfAccepting(es[i]) else EachFitsSome(es)
    case MapDatum(ks, vs) => EachFitsSome(ks) && EachFitsSome(vs)
    case _ => true
  }

  lemma MatchesUnion(v: Datum, t: Type)
    requires t.Union?
    ensures Matches(v, t) <==> exists i :: 0 <= i < |t.options| && Matches(v, t.options[i])
  {}

  lemma MergedMatches(v: Datum, ts: seq<Type>)
    requires Apart(ts) && ts != []
    ensures Matches(v, Merged(ts)) <==> exists j :: 0 <= j < |ts| && Matches(v, ts[j])
  {
    hide Merged; hide Apart; hide Matches;
    MergedAmong(ts);
    var m := Merged(ts);
    if m.Union? { MatchesUnion(v, m); }
    if j :| 0 <= j < |ts| && Matches(v, ts[j]) {
      MergedCovers(ts, j);
    }
  }

  lemma MergedFitsSome(v: Datum, vs: seq<Datum>)
    requires Apart(InferEach(vs)) && vs != []
    ensures Matches(v, Merged(InferEach(vs))) <==> FitsSome(v, vs)
  {
    hide Merged; hide Apart; hide Matches; hide Infer; hide InferEach;
    var ts := InferEach(vs);
    InferEachAt(vs);
    MergedMatches(v, ts);
    if j :| 0 <= j < |vs| && Matches(v, Infer(vs[j])) { assert Matches(v, ts[j]); }
    if j :| 0 <= j < |vs| && Matches(v, ts[j]) { assert Matches(v, Infer(vs[j])); }
  }

  lemma MergedFitsEach(vs: seq<Datum>)
    requires Apart(InferEach(vs))
    ensures (forall i | 0 <= i < |vs| :: Matches(vs[i], Merged(InferEach(vs)))) <==> EachFitsSome(vs)
  {
    hide Merged; hide Apart; hide Matches; hide InferEach; hide FitsSome;
    forall i | 0 <= i < |vs| ensures Matches(vs[i], Merged(InferEach(vs))) <==> FitsSome(vs[i], vs) {
      MergedFitsSome(vs[i], vs);
    }
  }

  /** A value is accepted by the type inferred from it exactly when it is self-accepting. */
  lemma {:induction false} AcceptedIff(v: Datum)
    requires TextsApart(v)
    ensures Matches(v, Infer(v)) <==> SelfAccepting(v)
    decreases v
  {
    hide Apart;
    match v
    case FnDatum(t) => FitsItselfIff(t);
    case ListDatum(es) => ListAcceptedIff(es);
    case MapDatum(ks, vs) => MapAcceptedIff(ks, vs);
    case _ => hide InferEach; hide EachFitsSome; hide SameTexts;
  }

  lemma MapAcceptedIff(ks: seq<Datum>, vs: seq<Datum>)
    requires Apart(InferEach(ks)) && Apart(InferEach(vs))
    ensures Matches(MapDatum(ks, vs), Infer(MapDatum(ks, vs))) <==> SelfAccepting(MapDatum(ks, vs))
  {
    hide Merged; hide EachFitsSome; hide Apart; hide InferEach;
    MergedFitsEach(ks);
    MergedFitsEach(vs);
  }

  lemma {:induction false} ListAcceptedIff(es: seq<Datum>)
    requires Apart(InferEach(es)) && forall i | 0 <= i < |es| :: TextsApart(es[i])
    ensures Matches(ListDatum(es), Infer(ListDatum(es))) <==> SelfAccepting(ListDatum(es))
    decreases es
  {
    hide Merged; hide EachFitsSome; hide TextsApart; hide Print;
    var ts := InferEach(es);
    InferEachAt(es);
    if SameTexts(ts) || |es| <= 4 {
      forall i | 0 <= i < |es| ensures Matches(es[i], Infer(es[i])) <==> SelfAccepting(es[i]) { AcceptedIff(es[i]); }
      if SameTexts(ts) {
        forall i | 0 <= i < |es| ensures ts[i] == ts[0] {}
      }
    } else {
      MergedFitsEach(es);
    }
  }

  /** All the functions in it fit themselves: enough, whatever the value. */
  predicate FunctionsFit(v: Datum)
    decreases v
  {
    match v
    case FnDatum(t) => SelfFitting(t)
    case ListDatum(es) => forall i | 0 <= i < |es| :: FunctionsFit(es[i])
    case MapDatum(ks, vs) =>
      (forall i | 0 <= i < |ks| :: FunctionsFit(ks[i])) && forall i | 0 <= i < |vs| :: FunctionsFit(vs[i])
    case _ => true
  }

  lemma {:induction false} FitFunctionsAccepted(v: Datum)
    requires TextsApart(v) && FunctionsFit(v)
    ensures SelfAccepting(v) && Matches(v, Infer(v))
    decreases v, 1
  {
    match v
    case ListDatum(es) =>
      forall i | 0 <= i < |es| ensures SelfAccepting(es[i]) && Matches(es[i], Infer(es[i])) {
        FitFunctionsAccepted(es[i]);
      }
      AcceptedIff(v);
    case MapDatum(ks, vs) =>
      forall i | 0 <= i < |ks| ensures Matches(ks[i], Infer(ks[i])) { FitFunctionsAccepted(ks[i]); }
      forall i | 0 <= i < |vs| ensures Matches(vs[i], Infer(vs[i])) { FitFunctionsAccepted(vs[i]); }
      AcceptedIff(v);
    case _ => AcceptedIff(v);
  }

  lemma {:induction false} DataApart(v: Datum)
    requires DataOnly(v)
    ensures TextsApart(v) && FunctionsFit(v)
    decreases v
  {
    hide Apart; hide AllProper;
    match v
    case ListDatum(es) =>
      InferredEachProper(es);
      ProperApart(InferEach(es));
      forall i | 0 <= i < |es| ensures TextsApart(es[i]) && FunctionsFit(es[i]) { DataApart(es[i]); }
    case MapDatum(ks, vs) =>
      InferredEachProper(ks);
      InferredEachProper(vs);
      ProperApart(InferEach(ks));
      ProperApart(InferEach(vs));
      forall i | 0 <= i < |ks| ensures TextsApart(ks[i]) && FunctionsFit(ks[i]) { DataApart(ks[i]); }
      forall i | 0 <= i < |vs| ensures TextsApart(vs[i]) && FunctionsFit(vs[i]) { DataApart(vs[i]); }
    case _ =>
  }

  /** Data is always accepted by the type inferred from it. */
  lemma InferredAccepts(v: Datum)
    requires DataOnly(v)
    ensures Matches(v, Infer(v))
  {
    DataApart(v);
    FitFunctionsAccepted(v);
  }

  /** Two functions that differ in taking any number of arguments only: the list of them has the type of lists of the
      first, which refuses the second. */
  lemma VariadicNotAccepted()
    ensures var f, g := FnDatum(Fn(Some(Any), [Any], false)), FnDatum(Fn(Some(Any), [Any], true));
            var v := ListDatum([f, g]);
            Infer(v) == ListOf(Infer(f)) && !TextsApart(v) && !Matches(v, Infer(v))
  {
    var f, g := FnDatum(Fn(Some(Any), [Any], false)), FnDatum(Fn(Some(Any), [Any], true));
    var v := ListDatum([f, g]);
    InferEachAt([f, g]);
    assert Print(Infer(f)) == Print(Infer(g));
    assert InferEach([f, g])[0] == Infer(f) && InferEach([f, g])[1] == Infer(g);
    assert v.elems[1] == g && !Fits(g.fnType, f.fnType);
  }

  /** A function that takes a union does not have the type inferred from it. */
  lemma UnionParameterNotAccepted()
    ensures var f := FnDatum(Fn(Some(Any), [Union([Base(NumKind), Base(StrKind)])], false));
            TextsApart(f) && !Matches(f, Infer(f))
  {
    var u := Union([Base(NumKind), Base(StrKind)]);
    var t := Fn(Some(Any), [u], false);
    AcceptedIff(FnDatum(t));
    assert !Open(u) by { assert forall i | 0 <= i < 2 :: !Open(u.options[i]); }
    assert !SelfFitting(t.params[0]);
  }

  /** The merged type depends on which types there are, not on the order or number in which they come. */
  lemma MergeIgnoresOrder(ts: seq<Type>, us: seq<Type>)
    requires Apart(ts) && forall t :: t in ts <==> t in us
    ensures Merged(ts) == Merged(us)
  {
    hide Print; hide DistinctTexts; hide WithText; hide TextLess;
    assert forall i | 0 <= i < |us| :: us[i] in us;
    assert forall i | 0 <= i < |ts| :: ts[i] in ts;
    SameHasText(ts, us);
    AscendingIsUnique(DistinctTexts(ts), DistinctTexts(us));
    var ks := DistinctTexts(ts);
    forall k | HasText(ts, k) ensures WithText(ts, k) == WithText(us, k) {
      assert WithText(ts, k) in ts && WithText(us, k) in ts;
    }
    assert |us| > 0 ==> us[0] in us && us[0] in ts;
    assert |ts| > 0 ==> ts[0] in ts && ts[0] in us;
    assert |ks| > 0 ==> ks[0] in ks;
    assert Options(ts, ks) == Options(us, ks);
  }

  lemma SameHasText(ts: seq<Type>, us: seq<Type>)
    requires forall t :: t in ts <==> t in us
    ensures forall k :: HasText(ts, k) <==> HasText(us, k)
  {
    hide Print;
    forall k ensures HasText(ts, k) <==> HasText(us, k) {
      assert HasText(ts, k) <==> exists t :: t in ts && Print(t) == k;
      assert HasText(us, k) <==> exists t :: t in us && Print(t) == k;
    }
  }

  // ----- and it accepts nothing unlike the value -----

  /** `w` is of the kind of `v`; and where that is a list with elements, each element of `w` is like one of them; and so
      with the keys and the values of a map. */
  predicate Like(w: Datum, v: Datum)
    decreases v
  {
    match v
    case NilDatum => w.NilDatum?
    case BoolDatum(_) => w.BoolDatum?
    case NumDatum(_) => w.NumDatum?
    case StrDatum(_) => w.StrDatum?
    case BytesDatum(_) => w.BytesDatum?
    case SymDatum(_) => w.SymDatum?
    case ListDatum(es) => w.ListDatum? && (es == [] || forall x | x in w.elems :: exists e | e in es :: Like(x, e))
    case MapDatum(ks, vs) =>
      && w.MapDatum? && (ks == [] || forall x | x in w.keys :: exists k | k in ks :: Like(x, k))
      && (vs == [] || forall x | x in w.vals :: exists y | y in vs :: Like(x, y))
    case StructDatum(name) => w.StructDatum? && (name == "" || w.name == name)
    case TaskDatum => w.TaskDatum?
    case ChanDatum => w.ChanDatum?
    case FnDatum(_) => w.FnDatum?
  }

  /** The type inferred from a value accepts nothing that is unlike it. */
  lemma {:induction false} OnlyLikeAccepted(w: Datum, v: Datum)
    requires Matches(w, Infer(v))
    ensures Like(w, v)
    decreases v
  {
    match v
    case ListDatum(es) => if es != [] { ElementsLike(w, es); }
    case MapDatum(ks, vs) =>
      if ks != [] {
        forall x | x in w.keys ensures exists k | k in ks :: Like(x, k) { OneIsLike(x, ks); }
      }
      if vs != [] {
        forall x | x in w.vals ensures exists y | y in vs :: Like(x, y) { OneIsLike(x, vs); }
      }
    case _ =>
  }

  lemma {:induction false} ElementsLike(w: Datum, es: seq<Datum>)
    requires es != [] && Matches(w, OfElements(InferEach(es)))
    ensures w.ListDatum? && forall x | x in w.elems :: exists e | e in es :: Like(x, e)
    decreases es, 1
  {
    hide Merged; hide Like; hide Infer;
    var ts := InferEach(es);
    InferEachAt(es);
    forall x | x in w.elems ensures exists e | e in es :: Like(x, e) {
      var i :| 0 <= i < |w.elems| && w.elems[i] == x;
      if SameTexts(ts) {
        OnlyLikeAccepted(x, es[0]);
      } else if |ts| <= 4 {
        assert Matches(w.elems[i], ts[i]);
        OnlyLikeAccepted(x, es[i]);
      } else {
        OneIsLike(x, es);
      }
    }
  }

  lemma {:induction false} OneIsLike(x: Datum, es: seq<Datum>)
    requires es != [] && Matches(x, Merged(InferEach(es)))
    ensures exists e | e in es :: Like(x, e)
    decreases es, 0
  {
    hide Merged; hide Like; hide Infer;
    var ts := InferEach(es);
    var m := Merged(ts);
    InferEachAt(es);
    MergedAmong(ts);
    var t := m;
    if m !in ts {
      var j :| 0 <= j < |m.options| && Matches(x, m.options[j]);
      t := m.options[j];
    }
    var i :| 0 <= i < |ts| && ts[i] == t;
    assert es[i] in es;
    OnlyLikeAccepted(x, es[i]);
  }

  /** The type of a list of data: of elements of one type, of up to four places, or of elements of any of the types. */
  lemma ListTypes(es: seq<Datum>)
    requires forall i | 0 <= i < |es| :: DataOnly(es[i])
    ensures var t := Infer(ListDatum(es));
            var same := forall i | 0 <= i < |es| :: Infer(es[i]) == Infer(es[0]);
            && (es == [] ==> t == ListOf(Any))
            && (es != [] && same ==> t == ListOf(Infer(es[0])))
            && (!same && |es| <= 4
              ==> t.Tuple? && |t.elems| == |es| && forall i | 0 <= i < |es| :: t.elems[i] == Infer(es[i]))
            && (!same && |es| > 4 ==> t.ListOf? && t.elem.Union? && forall o ::
                  o in t.elem.options <==> exists i :: 0 <= i < |es| && o == Infer(es[i]))
  {
    hide Merged; hide Infer; hide Print;
    var ts := InferEach(es);
    assert Infer(ListDatum(es)) == OfElements(ts) by { ListIs(es); }
    InferEachAt(es);
    InferredEachProper(es);
    ProperApart(ts);
    var same := forall i | 0 <= i < |es| :: Infer(es[i]) == Infer(es[0]);
    if es != [] {
      assert same ==> SameTexts(ts);
      if SameTexts(ts) {
        forall i | 0 <= i < |es| ensures Infer(es[i]) == Infer(es[0]) { assert Print(ts[i]) == Print(ts[0]); }
      }
      if !same && |es| > 4 {
        MergedAmong(ts);
        forall i | 0 <= i < |ts| ensures Merged(ts) == ts[i] || (Merged(ts).Union? && ts[i] in Merged(ts).options) {
          MergedCovers(ts, i);
        }
        assert forall i | 0 <= i < |ts| :: !ts[i].Union?;
      }
    }
  }

  lemma ListIs(es: seq<Datum>)
    ensures Infer(ListDatum(es)) == OfElements(InferEach(es))
  {}

  /** What the name of a type takes. */
  predicate Suits(word: string, v: Datum) {
    match v
    case NilDatum => word in {"any", "?", "nil"}
    case BoolDatum(_) => word in {"any", "?", "bool"}
    case NumDatum(_) => word in {"any", "?", "num"}
    case StrDatum(_) => word in {"any", "?", "str"}
    case BytesDatum(_) => word in {"any", "?", "bytes"}
    case SymDatum(_) => word in {"any", "?", "sym", "symbol"}
    case ListDatum(_) => word in {"any", "?", "list"}
    case MapDatum(_, _) => word in {"any", "?", "map"}
    case StructDatum(_) => word in {"any", "?", "struct"}
    case TaskDatum => word in {"any", "?", "task"}
    case ChanDatum => word in {"any", "?", "chan"}
    case FnDatum(_) => word in {"any", "?", "fn"}
  }

  /** A value has the type that a name stands for exactly when the name is that of its kind, or `any`. */
  lemma NamesAccept(word: string, t: Type, v: Datum, typeParams: set<string>)
    requires Known(word, t)
    ensures Parse(word, typeParams) == Some(t)
    ensures Matches(v, t) <==> Suits(word, v)
  {
    NamesParse(word, typeParams);
    hide Parse;
    match t
    case Base(k) => KindAccepts(word, k, v);
    case Fn(_, _, _) => if v.FnDatum? { assert Fits(v.fnType, t); }
    case _ =>
  }

  lemma KindAccepts(word: string, k: Kind, v: Datum)
    requires Known(word, Base(k))
    ensures Matches(v, Base(k)) <==> Suits(word, v)
  {}
}
