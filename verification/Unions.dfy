/** Forming the union of types: flattened, without duplicates, its lists and its maps each merged into one. */
module Unions {
  import opened Values
  import opened Types
  import opened TypeInference
  import opened StaticTypes

  const MAX_OPTIONS: nat := 8

  function Max(a: nat, b: nat): nat { if a < b then b else a }

  /** How deep lists, maps and tuples are nested; a union is as deep as its deepest option. */
  function Height(t: Ty): nat
    decreases t, 0
  {
    match t
    case TList(e) => 1 + Height(e)
    case TMap(k, v) => 1 + Max(Height(k), Height(v))
    case TTuple(ts) => 1 + Tallest(ts)
    case TUnion(ts) => Tallest(ts)
    case _ => 0
  }

  function Tallest(ts: seq<Ty>): (h: nat)
    ensures forall t | t in ts :: Height(t) <= h
    decreases ts, 0
  {
    if ts == [] then 0 else Max(Height(ts[0]), Tallest(ts[1..]))
  }

  lemma {:induction false} TallestIsLeast(ts: seq<Ty>, h: nat)
    requires forall t | t in ts :: Height(t) <= h
    ensures Tallest(ts) <= h
    decreases |ts|
  {
    if ts != [] { TallestIsLeast(ts[1..], h); }
  }

  // ----- flattening -----

  predicate HasSig(ts: seq<Ty>, sig: string) {
    exists i :: 0 <= i < |ts| && Sig(ts[i]) == sig
  }

  /** Add the options of a type that are not there yet. `any` takes the place of everything. */
  function AddOption(flat: seq<Ty>, t: Ty): seq<Ty>
    decreases t, 0
  {
    match t
    case TAny => [TAny]
    case TNever => flat
    case TUnion(ts) => AddOptions(flat, ts)
    case _ => if HasSig(flat, Sig(t)) then flat else flat + [t]
  }

  function AddOptions(flat: seq<Ty>, ts: seq<Ty>): seq<Ty>
    decreases ts, 0
  {
    if ts == [] then flat
    else
      var next := AddOption(flat, ts[0]);
      if next == [TAny] then next else AddOptions(next, ts[1..])
  }

  /** An option is a type that is neither `any` nor `never` nor a union; each has a signature of its own. */
  predicate Options(flat: seq<Ty>) {
    && (forall i | 0 <= i < |flat| :: !flat[i].TAny? && !flat[i].TNever? && !flat[i].TUnion? && Named(flat[i]))
    && forall i, j | 0 <= i < j < |flat| :: flat[i] != flat[j]
  }

  /** The options of a type, however deep its unions are nested. */
  predicate OptionOf(o: Ty, t: Ty)
    decreases t
  {
    if t.TUnion? then exists i :: 0 <= i < |t.options| && OptionOf(o, t.options[i]) else o == t
  }

  lemma HasSigIsIn(flat: seq<Ty>, t: Ty)
    requires (forall i | 0 <= i < |flat| :: Named(flat[i])) && Named(t)
    ensures HasSig(flat, Sig(t)) <==> t in flat
  {
    hide Sig; hide Named;
    if HasSig(flat, Sig(t)) {
      var i :| 0 <= i < |flat| && Sig(flat[i]) == Sig(t);
      SameSignature(flat[i], t);
    }
  }

  /** Flattening collects exactly the options, unless there is an `any` among them. */
  lemma {:induction false} AddOptionIs(flat: seq<Ty>, t: Ty)
    requires Options(flat) && Named(t)
    ensures var r := AddOption(flat, t);
            if OptionOf(TAny, t) then r == [TAny]
            else Options(r) && forall o :: o in r <==> o in flat || (o != TNever && OptionOf(o, t))
    decreases t, 0
  {
    hide Sig;
    if t.TUnion? {
      AddOptionsIs(flat, t.options);
    } else if !t.TAny? && !t.TNever? {
      HasSigIsIn(flat, t);
    }
  }

  lemma {:induction false} AddOptionsIs(flat: seq<Ty>, ts: seq<Ty>)
    requires Options(flat) && forall i | 0 <= i < |ts| :: Named(ts[i])
    ensures var r := AddOptions(flat, ts);
            if exists i :: 0 <= i < |ts| && OptionOf(TAny, ts[i]) then r == [TAny]
            else Options(r) && forall o ::
              o in r <==> o in flat || (o != TNever && exists i :: 0 <= i < |ts| && OptionOf(o, ts[i]))
    decreases ts, 0
  {
    hide Named; hide AddOption; hide OptionOf;
    if ts != [] {
      AddOptionIs(flat, ts[0]);
      var next := AddOption(flat, ts[0]);
      if next != [TAny] {
        AddOptionsIs(next, ts[1..]);
        forall o ensures (exists i :: 0 <= i < |ts| && OptionOf(o, ts[i])) <==>
                         OptionOf(o, ts[0]) || exists i :: 0 <= i < |ts[1..]| && OptionOf(o, ts[1..][i]) {
          SomeOption(o, ts);
        }
      } else {
        assert TAny !in flat;
      }
    }
  }

  lemma SomeOption(o: Ty, ts: seq<Ty>)
    requires ts != []
    ensures (exists i :: 0 <= i < |ts| && OptionOf(o, ts[i])) <==>
            OptionOf(o, ts[0]) || exists i :: 0 <= i < |ts[1..]| && OptionOf(o, ts[1..][i])
  {
    hide OptionOf;
    if exists i :: 0 <= i < |ts[1..]| && OptionOf(o, ts[1..][i]) {
      var i :| 0 <= i < |ts[1..]| && OptionOf(o, ts[1..][i]);
      assert OptionOf(o, ts[i + 1]);
    }
    if exists i :: 0 < i < |ts| && OptionOf(o, ts[i]) {
      var i :| 0 < i < |ts| && OptionOf(o, ts[i]);
      assert OptionOf(o, ts[1..][i - 1]);
    }
  }

  lemma {:induction false} OptionHeight(o: Ty, t: Ty)
    requires OptionOf(o, t)
    ensures Height(o) <= Height(t)
    decreases t
  {
    if t.TUnion? {
      var i :| 0 <= i < |t.options| && OptionOf(o, t.options[i]);
      OptionHeight(o, t.options[i]);
      assert t.options[i] in t.options;
    }
  }

  // ----- merging -----

  datatype Part = Elem | Key | Val

  function PartOf(t: Ty, part: Part): (r: Option<Ty>)
    ensures r.Some? ==> Height(r.value) < Height(t) && (Named(t) ==> Named(r.value))
  {
    if part.Elem? && t.TList? then Some(t.elem)
    else if part.Key? && t.TMap? then Some(t.key)
    else if part.Val? && t.TMap? then Some(t.val)
    else None
  }

  predicate AllNamed(ts: seq<Ty>) { forall i | 0 <= i < |ts| :: Named(ts[i]) }

  lemma TallestOfPrefix(ts: seq<Ty>, n: nat)
    requires n <= |ts|
    ensures Tallest(ts[..n]) <= Tallest(ts)
  {
    TallestIsLeast(ts[..n], Tallest(ts));
  }

  predicate HasPart(opts: seq<Ty>, part: Part) {
    exists i :: 0 <= i < |opts| && PartOf(opts[i], part).Some?
  }

  lemma HasPartStep(opts: seq<Ty>, part: Part)
    requires opts != []
    ensures var n := |opts| - 1; HasPart(opts, part) <==> HasPart(opts[..n], part) || PartOf(opts[n], part).Some?
  {
    hide PartOf;
    var n := |opts| - 1;
    if HasPart(opts[..n], part) {
      var i :| 0 <= i < n && PartOf(opts[..n][i], part).Some?;
      assert opts[i] == opts[..n][i];
    }
    if HasPart(opts, part) && PartOf(opts[n], part).None? {
      var i :| 0 <= i < |opts| && PartOf(opts[i], part).Some?;
      assert opts[i] == opts[..n][i];
    }
  }

  /** The union of one part of all the lists, or all the maps, taken one after the other. */
  function MergedPart(opts: seq<Ty>, part: Part): (r: Option<Ty>)
    requires AllNamed(opts)
    ensures r.Some? ==> Height(r.value) < Tallest(opts) && Named(r.value)
    ensures r.Some? <==> HasPart(opts, part)
    decreases Tallest(opts), 0, |opts|
  {
    hide Named; hide Height; hide Tallest; hide PartOf; hide HasPart;
    if opts == [] then
      assert !HasPart([], part) by { NoPart(part); }
      None
    else
      var n := |opts| - 1;
      TallestOfPrefix(opts, n);
      HasPartStep(opts, part);
      assert opts[n] in opts;
      var before, p := MergedPart(opts[..n], part), PartOf(opts[n], part);
      if p.None? then before
      else if before.None? then p
      else
        TallestOfTwo(before.value, p.value, Tallest(opts));
        Some(UnionType([before.value, p.value]))
  }

  lemma TallestOfTwo(a: Ty, b: Ty, h: nat)
    requires Height(a) < h && Height(b) < h
    ensures Tallest([a, b]) < h
  {
    TallestIsLeast([a, b], h - 1);
  }

  lemma NoPart(part: Part)
    ensures !HasPart([], part)
  {}

  function Others(opts: seq<Ty>): (r: seq<Ty>)
    ensures forall o :: o in r <==> o in opts && !o.TList? && !o.TMap?
  {
    if opts == [] then [] else (if opts[0].TList? || opts[0].TMap? then [] else [opts[0]]) + Others(opts[1..])
  }

  function Together(others: seq<Ty>, e: Option<Ty>, k: Option<Ty>, v: Option<Ty>): seq<Ty> {
    others + (if e.Some? then [TList(e.value)] else []) + (if k.Some? && v.Some? then [TMap(k.value, v.value)] else [])
  }

  lemma TogetherBounds(opts: seq<Ty>, e: Option<Ty>, k: Option<Ty>, v: Option<Ty>)
    requires AllNamed(opts)
    requires e.Some? ==> Height(e.value) < Tallest(opts) && Named(e.value)
    requires k.Some? ==> Height(k.value) < Tallest(opts) && Named(k.value)
    requires v.Some? ==> Height(v.value) < Tallest(opts) && Named(v.value)
    ensures AllNamed(Together(Others(opts), e, k, v)) && Tallest(Together(Others(opts), e, k, v)) <= Tallest(opts)
  {
    hide Tallest;
    var r := Together(Others(opts), e, k, v);
    assert forall i | 0 <= i < |Others(opts)| :: Others(opts)[i] in Others(opts);
    assert forall t | t in r ::
           t in opts || (e.Some? && t == TList(e.value)) || (k.Some? && v.Some? && t == TMap(k.value, v.value));
    assert forall i | 0 <= i < |r| :: r[i] in r;
    TallestIsLeast(r, Tallest(opts));
  }

  /** At most one list and one map are left. */
  function Merge(opts: seq<Ty>): (r: seq<Ty>)
    requires AllNamed(opts)
    ensures AllNamed(r) && Tallest(r) <= Tallest(opts)
    decreases Tallest(opts), 0, |opts| + 1
  {
    hide Named; hide Height; hide Tallest; hide HasPart; hide Others; hide Together;
    if |opts| < 2 then opts
    else
      var e, k, v := MergedPart(opts, Elem), MergedPart(opts, Key), MergedPart(opts, Val);
      TogetherBounds(opts, e, k, v);
      Together(Others(opts), e, k, v)
  }

  function Finish(opts: seq<Ty>): Ty {
    if |opts| == 0 then Unknown
    else if |opts| == 1 then opts[0]
    else if |opts| > MAX_OPTIONS then TAny
    else TUnion(opts)
  }

  lemma FlatHeight(ts: seq<Ty>)
    requires AllNamed(ts) && AddOptions([], ts) != [TAny]
    ensures AllNamed(AddOptions([], ts)) && Tallest(AddOptions([], ts)) <= Tallest(ts)
  {
    hide Named; hide AddOptions; hide OptionOf;
    AddOptionsIs([], ts);
    var flat := AddOptions([], ts);
    assert !(exists i :: 0 <= i < |ts| && OptionOf(TAny, ts[i]));
    forall o | o in flat ensures Height(o) <= Tallest(ts) {
      var i :| 0 <= i < |ts| && OptionOf(o, ts[i]);
      OptionHeight(o, ts[i]);
      assert ts[i] in ts;
    }
    TallestIsLeast(flat, Tallest(ts));
  }

  /** The union of types, as the checker forms it. */
  function UnionType(ts: seq<Ty>): (r: Ty)
    requires AllNamed(ts)
    ensures Height(r) <= Tallest(ts) && Named(r)
    decreases Tallest(ts), 1, 0
  {
    var flat := AddOptions([], ts);
    if flat == [TAny] then TAny
    else
      FlatHeight(ts);
      var opts := Merge(flat);
      assert |opts| > 0 ==> opts[0] in opts;
      Finish(opts)
  }

  // ----- forming unions step by step -----

  /** The options collected so far, with their signatures, changed in place. */
  class Collector {
    var flat: seq<Ty>
    var seen: set<string>

    ghost predicate Valid()
      reads this
    {
      forall sig :: sig in seen <==> HasSig(flat, sig)
    }

    constructor ()
      ensures Valid() && flat == []
    {
      flat, seen := [], {};
    }

    method Add(t: Ty)
      requires Valid()
      modifies this
      ensures Valid() && flat == AddOption(old(flat), t)
      decreases t, 0
    {
      hide Sig;
      if t.TAny? {
        flat, seen := [TAny], {Sig(TAny)};
        OneSig(TAny);
      } else if t.TUnion? {
        AddAll(t.options);
      } else if !t.TNever? && Sig(t) !in seen {
        MoreSig(flat, t);
        seen := seen + {Sig(t)};
        flat := flat + [t];
      }
    }

    method AddAll(ts: seq<Ty>)
      requires Valid()
      modifies this
      ensures Valid() && flat == AddOptions(old(flat), ts)
      decreases ts, 0
    {
      hide AddOption; hide HasSig;
      var i := 0;
      assert ts[0..] == ts;
      while i < |ts|
        invariant 0 <= i <= |ts| && Valid() && AddOptions(flat, ts[i..]) == AddOptions(old(flat), ts)
      {
        assert ts[i..][0] == ts[i] && ts[i..][1..] == ts[i + 1..];
        Add(ts[i]);
        if flat == [TAny] { return; }
        i := i + 1;
      }
    }
  }

  lemma OneSig(t: Ty)
    ensures forall sig :: HasSig([t], sig) <==> sig == Sig(t)
  {
    hide Sig;
    assert [t][0] == t;
  }

  lemma MoreSig(flat: seq<Ty>, t: Ty)
    ensures forall sig :: HasSig(flat + [t], sig) <==> HasSig(flat, sig) || sig == Sig(t)
  {
    hide Sig;
    forall sig ensures HasSig(flat + [t], sig) <==> HasSig(flat, sig) || sig == Sig(t) {
      assert (flat + [t])[|flat|] == t;
      if HasSig(flat, sig) {
        var i :| 0 <= i < |flat| && Sig(flat[i]) == sig;
        assert (flat + [t])[i] == flat[i];
      }
    }
  }

  /** The merging loop: the element, key and value types so far are updated by each list and each map. */
  method MergeFamilies(opts: seq<Ty>) returns (r: seq<Ty>)
    requires AllNamed(opts)
    ensures r == Merge(opts)
    decreases Tallest(opts), 0, |opts| + 1
  {
    hide Named; hide Height; hide Tallest; hide MergedPart; hide Others;
    if |opts| < 2 { return opts; }
    var listElem, mapKey, mapVal, rest := None, None, None, [];
    var i := 0;
    MergedNone();
    assert opts[..0] == [];
    while i < |opts|
      invariant 0 <= i <= |opts|
      invariant listElem == MergedPart(opts[..i], Elem) && mapKey == MergedPart(opts[..i], Key)
                && mapVal == MergedPart(opts[..i], Val)
      invariant rest == Others(opts[..i])
    {
      var o := opts[i];
      MergedMore(opts, i);
      if o.TList? {
        listElem := MergeInto(opts, i, Elem, listElem, o.elem);
      } else if o.TMap? {
        mapKey := MergeInto(opts, i, Key, mapKey, o.key);
        mapVal := MergeInto(opts, i, Val, mapVal, o.val);
      } else {
        rest := rest + [o];
      }
      i := i + 1;
    }
    assert opts[..|opts|] == opts;
    r := rest;
    if listElem.Some? { r := r + [TList(listElem.value)]; }
    if mapKey.Some? && mapVal.Some? { r := r + [TMap(mapKey.value, mapVal.value)]; }
    assert rest + [] == rest;
  }

  method MergeInto(opts: seq<Ty>, i: nat, part: Part, before: Option<Ty>, p: Ty) returns (after: Option<Ty>)
    requires AllNamed(opts) && i < |opts| && before == MergedPart(opts[..i], part) && PartOf(opts[i], part) == Some(p)
    ensures after == MergedPart(opts[..i + 1], part)
    decreases Tallest(opts), 0, |opts|
  {
    hide Named; hide Height; hide Tallest; hide MergedPart; hide PartOf; hide Others; hide HasPart;
    MergedMore(opts, i);
    if before.None? { return Some(p); }
    assert opts[i] in opts;
    TallestOfPrefix(opts, i);
    TallestOfTwo(before.value, p, Tallest(opts));
    var u := UnionTypes([before.value, p]);
    after := Some(u);
  }

  lemma MergedNone()
    ensures forall part :: MergedPart([], part) == None
    ensures Others([]) == []
  {}

  ghost function JoinedPart(before: Option<Ty>, p: Option<Ty>): Option<Ty>
    requires (before.Some? ==> Named(before.value)) && (p.Some? ==> Named(p.value))
  {
    if p.None? then before else if before.None? then p else Some(UnionType([before.value, p.value]))
  }

  lemma MergedMore(opts: seq<Ty>, i: nat)
    requires AllNamed(opts) && i < |opts|
    ensures forall part :: MergedPart(opts[..i + 1], part)
                           == JoinedPart(MergedPart(opts[..i], part), PartOf(opts[i], part))
    ensures Others(opts[..i + 1]) == Others(opts[..i]) + (if opts[i].TList? || opts[i].TMap? then [] else [opts[i]])
  {
    hide UnionType; hide PartOf;
    var o := opts[..i + 1];
    assert o[..i] == opts[..i] && o[i] == opts[i];
    OthersMore(opts[..i], opts[i]);
    assert o == opts[..i] + [opts[i]];
  }

  lemma {:induction false} OthersMore(opts: seq<Ty>, o: Ty)
    ensures Others(opts + [o]) == Others(opts) + (if o.TList? || o.TMap? then [] else [o])
    decreases |opts|
  {
    if opts == [] {
      assert opts + [o] == [o] && [o][1..] == [];
    } else {
      assert (opts + [o])[1..] == opts[1..] + [o];
      OthersMore(opts[1..], o);
    }
  }

  /** The first type of each signature, without `never`. */
  function Kept(out: seq<Ty>, options: seq<Ty>): (r: seq<Ty>)
    ensures |r| <= |out| + |options| && forall o | o in r :: o in out || o in options
    decreases |options|
  {
    if options == [] then out
    else
      var o := options[0];
      Kept(if o.TNever? || HasSig(out, Sig(o)) then out else out + [o], options[1..])
  }

  /** Options that are already distinct are all kept, in order. */
  lemma {:induction false} KeptSame(out: seq<Ty>, options: seq<Ty>)
    requires Options(out + options)
    ensures Kept(out, options) == out + options
    decreases |options|
  {
    hide Sig; hide Named;
    if options == [] {
      assert out + options == out;
    } else {
      var o, all := options[0], out + options;
      assert all[|out|] == o && (out + [o]) + options[1..] == all;
      forall i | 0 <= i < |out| ensures Sig(out[i]) != Sig(o) {
        assert all[i] == out[i];
        if Sig(out[i]) == Sig(o) { SameSignature(out[i], o); }
      }
      KeptSame(out + [o], options[1..]);
    }
  }

  /** `any` stands for everything; otherwise each signature once, and the families merged. */
  method NormalizeOptions(options: seq<Ty>) returns (r: seq<Ty>)
    requires AllNamed(options)
    ensures AllNamed(Kept([], options))
    ensures r == if TAny in options then [TAny] else Merge(Kept([], options))
    decreases Tallest(options), 0, |options| + 2
  {
    hide Named; hide Height; hide Tallest; hide Merge; hide Sig; hide HasSig;
    var i := 0;
    while i < |options|
      invariant 0 <= i <= |options| && TAny !in options[..i]
    {
      if options[i].TAny? {
        KeptBounds(options);
        return [TAny];
      }
      i := i + 1;
    }
    var c := new Collector();
    assert options[0..] == options;
    i := 0;
    while i < |options|
      invariant 0 <= i <= |options| && c.Valid() && fresh(c)
      invariant Kept(c.flat, options[i..]) == Kept([], options)
    {
      var o := options[i];
      assert options[i..][0] == o && options[i..][1..] == options[i + 1..];
      if !o.TNever? && Sig(o) !in c.seen {
        MoreSig(c.flat, o);
        c.seen := c.seen + {Sig(o)};
        c.flat := c.flat + [o];
      }
      i := i + 1;
    }
    KeptBounds(options);
    r := MergeFamilies(c.flat);
  }

  lemma KeptBounds(options: seq<Ty>)
    requires AllNamed(options)
    ensures AllNamed(Kept([], options)) && Tallest(Kept([], options)) <= Tallest(options)
  {
    hide Named; hide Height; hide Kept;
    var kept := Kept([], options);
    forall i | 0 <= i < |kept| ensures Named(kept[i]) {
      assert kept[i] in options;
    }
    TallestIsLeast(kept, Tallest(options));
  }

  method UnionTypes(ts: seq<Ty>) returns (r: Ty)
    requires AllNamed(ts)
    ensures r == UnionType(ts)
    decreases Tallest(ts), 1, 0
  {
    hide AddOptions;
    var c := new Collector();
    c.AddAll(ts);
    if c.flat == [TAny] { return TAny; }
    FlatHeight(ts);
    AddOptionsIs([], ts);
    assert [] + c.flat == c.flat;
    KeptSame([], c.flat);
    assert TAny !in c.flat;
    var opts := NormalizeOptions(c.flat);
    if |opts| == 0 {
      r := Unknown;
    } else if |opts| == 1 {
      r := opts[0];
    } else if |opts| > MAX_OPTIONS {
      r := TAny;
    } else {
      r := TUnion(opts);
    }
  }

  // ----- what a union accepts -----

  /** The values of a type. A type not determined yet accepts every value, as the checker treats it. */
  predicate In(v: Datum, t: Ty)
    decreases t
  {
    match t
    case TAny => true
    case Unknown => true
    case TNever => false
    case Scalar(k) => Matches(v, Base(k))
    case TStruct(name) => v.StructDatum? && (name == "" || v.name == name)
    case TList(e) => v.ListDatum? && forall i | 0 <= i < |v.elems| :: In(v.elems[i], e)
    case TMap(k, w) => v.MapDatum? && (forall i | 0 <= i < |v.keys| :: In(v.keys[i], k))
      && forall i | 0 <= i < |v.vals| :: In(v.vals[i], w)
    case TTuple(ts) => v.ListDatum? && |v.elems| == |ts| && forall i | 0 <= i < |ts| :: In(v.elems[i], ts[i])
    case TUnion(ts) => exists i :: 0 <= i < |ts| && In(v, ts[i])
  }

  predicate InOne(v: Datum, ts: seq<Ty>) { exists i :: 0 <= i < |ts| && In(v, ts[i]) }

  /** A value of a type is a value of one of its options. */
  lemma {:induction false} InOption(v: Datum, t: Ty) returns (o: Ty)
    requires In(v, t)
    ensures OptionOf(o, t) && In(v, o) && o != TNever
    decreases t
  {
    o := t;
    if t.TUnion? {
      var i :| 0 <= i < |t.options| && In(v, t.options[i]);
      o := InOption(v, t.options[i]);
    }
  }

  lemma {:induction false} OptionIn(v: Datum, o: Ty, t: Ty)
    requires OptionOf(o, t) && In(v, o)
    ensures In(v, t)
    decreases t
  {
    if t.TUnion? {
      var i :| 0 <= i < |t.options| && OptionOf(o, t.options[i]);
      OptionIn(v, o, t.options[i]);
    }
  }

  /** The union accepts every value that one of the types accepts. */
  lemma {:induction false} UnionCovers(v: Datum, ts: seq<Ty>, i: nat)
    requires AllNamed(ts) && i < |ts| && In(v, ts[i])
    ensures In(v, UnionType(ts))
    decreases Tallest(ts), 1, 0
  {
    hide Named; hide In; hide OptionOf; hide AddOptions; hide Merge; hide Height; hide Tallest; hide Finish;
    hide UnionType;
    var o := InOption(v, ts[i]);
    var flat := AddOptions([], ts);
    AddOptionsIs([], ts);
    UnionIs(ts);
    if flat == [TAny] {
      AnyCovers(v);
    } else {
      assert o in flat;
      FlatHeight(ts);
      MergeCovers(v, flat, o);
      FinishCovers(v, Merge(flat));
    }
  }

  lemma UnionIs(ts: seq<Ty>)
    requires AllNamed(ts)
    ensures var flat := AddOptions([], ts);
            if flat == [TAny] then UnionType(ts) == TAny
            else AllNamed(flat) && UnionType(ts) == Finish(Merge(flat))
  {
    hide Named; hide AddOptions; hide Merge; hide Finish;
    if AddOptions([], ts) != [TAny] { FlatHeight(ts); }
  }

  lemma AnyCovers(v: Datum)
    ensures In(v, TAny)
  {}

  lemma FinishCovers(v: Datum, opts: seq<Ty>)
    requires InOne(v, opts)
    ensures In(v, Finish(opts))
  {}

  lemma {:induction false} MergeCovers(v: Datum, opts: seq<Ty>, o: Ty)
    requires AllNamed(opts) && o in opts && In(v, o)
    ensures InOne(v, Merge(opts))
    decreases Tallest(opts), 0, |opts| + 1
  {
    hide Named; hide Height; hide Tallest; hide MergedPart; hide Others; hide PartOf;
    var n :| 0 <= n < |opts| && opts[n] == o;
    if |opts| >= 2 {
      var e, k, w := MergedPart(opts, Elem), MergedPart(opts, Key), MergedPart(opts, Val);
      var m: Ty;
      if o.TList? {
        ListCovered(v, opts, n);
        m := TList(e.value);
      } else if o.TMap? {
        MapCovered(v, opts, n);
        m := TMap(k.value, w.value);
      } else {
        m := o;
        assert o in Others(opts);
      }
      assert Merge(opts) == Together(Others(opts), e, k, w);
      assert m in Together(Others(opts), e, k, w);
    }
  }

  lemma {:induction false} ListCovered(v: Datum, opts: seq<Ty>, n: nat)
    requires AllNamed(opts) && n < |opts| && opts[n].TList? && In(v, opts[n])
    ensures MergedPart(opts, Elem).Some? && In(v, TList(MergedPart(opts, Elem).value))
    decreases Tallest(opts), 0, |opts|, 1
  {
    hide Named; hide Height; hide Tallest; hide MergedPart; hide Others;
    assert HasPart(opts, Elem) by { assert PartOf(opts[n], Elem).Some?; }
    forall i | 0 <= i < |v.elems| ensures In(v.elems[i], MergedPart(opts, Elem).value) {
      PartCovered(v.elems[i], opts, Elem, n);
    }
  }

  lemma {:induction false} MapCovered(v: Datum, opts: seq<Ty>, n: nat)
    requires AllNamed(opts) && n < |opts| && opts[n].TMap? && In(v, opts[n])
    ensures MergedPart(opts, Key).Some? && MergedPart(opts, Val).Some?
    ensures In(v, TMap(MergedPart(opts, Key).value, MergedPart(opts, Val).value))
    decreases Tallest(opts), 0, |opts|, 1
  {
    hide Named; hide Height; hide Tallest; hide MergedPart; hide Others;
    assert HasPart(opts, Key) by { assert PartOf(opts[n], Key).Some?; }
    assert HasPart(opts, Val) by { assert PartOf(opts[n], Val).Some?; }
    forall i | 0 <= i < |v.keys| ensures In(v.keys[i], MergedPart(opts, Key).value) {
      PartCovered(v.keys[i], opts, Key, n);
    }
    forall i | 0 <= i < |v.vals| ensures In(v.vals[i], MergedPart(opts, Val).value) {
      PartCovered(v.vals[i], opts, Val, n);
    }
  }

  lemma {:induction false} PartCovered(x: Datum, opts: seq<Ty>, part: Part, n: nat)
    requires AllNamed(opts) && n < |opts| && PartOf(opts[n], part).Some? && In(x, PartOf(opts[n], part).value)
    ensures MergedPart(opts, part).Some? && In(x, MergedPart(opts, part).value)
    decreases Tallest(opts), 0, |opts|, 0
  {
    hide Named; hide Height; hide Tallest; hide PartOf; hide Others; hide In; hide UnionType; hide MergedPart;
    hide HasPart;
    var k := |opts| - 1;
    assert opts[..k + 1] == opts;
    MergedMore(opts, k);
    assert opts[k] in opts;
    TallestOfPrefix(opts, k);
    var before, p := MergedPart(opts[..k], part), PartOf(opts[k], part);
    if n < k {
      assert opts[..k][n] == opts[n];
      PartCovered(x, opts[..k], part, n);
    }
    if p.Some? && before.Some? {
      TallestOfTwo(before.value, p.value, Tallest(opts));
      UnionCovers(x, [before.value, p.value], if n < k then 0 else 1);
    }
  }

  // ----- the form of a union -----

  predicate AtMostOne(opts: seq<Ty>) {
    forall i, j | 0 <= i < j < |opts| :: !(opts[i].TList? && opts[j].TList?) && !(opts[i].TMap? && opts[j].TMap?)
  }

  predicate DistinctSigs(opts: seq<Ty>) {
    forall i, j | 0 <= i < j < |opts| :: Sig(opts[i]) != Sig(opts[j])
  }

  /** A type that is not a union, or two to eight that are neither unions nor `any` nor `never`, have different
      signatures and include at most one list and one map. */
  predicate NormalForm(t: Ty) {
    t.TUnion? ==>
      && 2 <= |t.options| <= MAX_OPTIONS && DistinctSigs(t.options) && AtMostOne(t.options)
      && forall i | 0 <= i < |t.options| :: !t.options[i].TUnion? && !t.options[i].TAny? && !t.options[i].TNever?
  }

  lemma {:induction false} OthersKeepOptions(opts: seq<Ty>)
    requires Options(opts)
    ensures Options(Others(opts))
    decreases |opts|
  {
    hide Options;
    assert opts == [] ==> Others(opts) == opts;
    if opts != [] {
      OptionsTail(opts);
      OthersKeepOptions(opts[1..]);
      OptionsCons(opts[0], Others(opts[1..]));
    }
  }

  lemma OptionsTail(opts: seq<Ty>)
    requires Options(opts) && opts != []
    ensures Options(opts[1..]) && opts[0] !in opts[1..] && Options([opts[0]])
  {
    hide Named;
  }

  lemma OptionsCons(o: Ty, opts: seq<Ty>)
    requires Options([o]) && Options(opts) && o !in opts
    ensures Options([o] + opts) && [] + opts == opts
  {
    hide Named;
    assert [o][0] == o;
  }

  lemma MergeKeepsOptions(opts: seq<Ty>)
    requires Options(opts) && AllNamed(opts)
    ensures Options(Merge(opts)) && AtMostOne(Merge(opts))
  {
    if |opts| >= 2 {
      hide Named; hide Others; hide MergedPart; hide Tallest; hide Height; hide HasPart; hide Options; hide Together;
      hide AtMostOne;
      var e, k, v := MergedPart(opts, Elem), MergedPart(opts, Key), MergedPart(opts, Val);
      TogetherBounds(opts, e, k, v);
      OthersKeepOptions(opts);
      TogetherKeepsOptions(Others(opts), e, k, v);
    }
  }

  lemma TogetherKeepsOptions(others: seq<Ty>, e: Option<Ty>, k: Option<Ty>, v: Option<Ty>)
    requires Options(others) && forall o | o in others :: !o.TList? && !o.TMap?
    requires AllNamed(Together(others, e, k, v))
    ensures Options(Together(others, e, k, v)) && AtMostOne(Together(others, e, k, v))
  {
    hide Named;
    assert forall i | 0 <= i < |others| :: others[i] in others;
  }

  lemma OptionsHaveDistinctSigs(opts: seq<Ty>)
    requires Options(opts)
    ensures DistinctSigs(opts)
  {
    hide Named; hide Sig;
    forall i, j | 0 <= i < j < |opts| ensures Sig(opts[i]) != Sig(opts[j]) {
      if Sig(opts[i]) == Sig(opts[j]) { SameSignature(opts[i], opts[j]); }
    }
  }

  lemma UnionIsNormal(ts: seq<Ty>)
    requires AllNamed(ts)
    ensures NormalForm(UnionType(ts)) && !UnionType(ts).TNever?
  {
    hide Named; hide OptionOf; hide AddOptions; hide Merge; hide UnionType; hide Sig;
    var flat := AddOptions([], ts);
    AddOptionsIs([], ts);
    UnionIs(ts);
    if flat != [TAny] {
      MergeKeepsOptions(flat);
      OptionsHaveDistinctSigs(Merge(flat));
    }
  }

  // ----- when nothing is widened -----

  lemma {:induction false} OnlyPart(opts: seq<Ty>, part: Part, n: nat)
    requires AllNamed(opts) && n < |opts| && PartOf(opts[n], part).Some?
    requires forall i | 0 <= i < |opts| && i != n :: PartOf(opts[i], part).None?
    ensures MergedPart(opts, part) == PartOf(opts[n], part)
    decreases |opts|
  {
    hide Named; hide PartOf; hide UnionType; hide MergedPart; hide HasPart;
    var k := |opts| - 1;
    assert opts[..k + 1] == opts;
    MergedMore(opts, k);
    assert forall i | 0 <= i < k :: opts[..k][i] == opts[i];
    if n < k {
      OnlyPart(opts[..k], part, n);
    } else {
      assert MergedPart(opts[..k], part).None? by { NonePart(opts[..k], part); }
    }
  }

  lemma NonePart(opts: seq<Ty>, part: Part)
    requires AllNamed(opts) && forall i | 0 <= i < |opts| :: PartOf(opts[i], part).None?
    ensures MergedPart(opts, part).None?
  {
    assert !HasPart(opts, part);
  }

  /** With at most one list and one map, merging only changes the order. */
  lemma MergeSame(opts: seq<Ty>, o: Ty)
    requires AllNamed(opts) && AtMostOne(opts)
    ensures o in Merge(opts) <==> o in opts
  {
    if |opts| >= 2 {
      var e, k, v := MergedPart(opts, Elem), MergedPart(opts, Key), MergedPart(opts, Val);
      assert Merge(opts) == Together(Others(opts), e, k, v);
      ListKept(opts);
      MapKept(opts);
      hide Named; hide MergedPart; hide Others; hide HasPart; hide Merge;
    }
  }

  lemma ListKept(opts: seq<Ty>)
    requires AllNamed(opts) && AtMostOne(opts)
    ensures var e := MergedPart(opts, Elem); forall o: Ty | o.TList? :: o in opts <==> e.Some? && o == TList(e.value)
  {
    hide Named; hide MergedPart;
    if HasPart(opts, Elem) {
      var n :| 0 <= n < |opts| && PartOf(opts[n], Elem).Some?;
      OnlyPart(opts, Elem, n);
      assert opts[n] in opts;
    } else {
      assert forall i | 0 <= i < |opts| :: PartOf(opts[i], Elem).None?;
    }
  }

  lemma MapKept(opts: seq<Ty>)
    requires AllNamed(opts) && AtMostOne(opts)
    ensures var k, v := MergedPart(opts, Key), MergedPart(opts, Val);
            k.Some? == v.Some? && forall o: Ty | o.TMap? :: o in opts
                                                            <==> k.Some? && v.Some? && o == TMap(k.value, v.value)
  {
    hide Named; hide MergedPart;
    if HasPart(opts, Key) {
      var n :| 0 <= n < |opts| && PartOf(opts[n], Key).Some?;
      OnlyPart(opts, Key, n);
      OnlyPart(opts, Val, n);
      assert opts[n] in opts;
    } else {
      assert forall i | 0 <= i < |opts| :: PartOf(opts[i], Key).None?;
      NonePart(opts, Val);
      NonePart(opts, Key);
    }
  }

  /** Where there are no two lists or maps to merge, nor more than eight options, the union accepts exactly what one of
      the types accepts. */
  lemma UnionExact(v: Datum, ts: seq<Ty>)
    requires AllNamed(ts)
    requires var flat := AddOptions([], ts); flat != [TAny] && 0 < |flat| <= MAX_OPTIONS && AtMostOne(flat)
    ensures In(v, UnionType(ts)) <==> InOne(v, ts)
  {
    hide Named; hide In; hide OptionOf; hide AddOptions; hide Merge; hide UnionType; hide Tallest; hide Height;
    var flat := AddOptions([], ts);
    UnionIs(ts);
    AddOptionsIs([], ts);
    FlatHeight(ts);
    if InOne(v, ts) {
      var i :| 0 <= i < |ts| && In(v, ts[i]);
      UnionCovers(v, ts, i);
    }
    if In(v, UnionType(ts)) {
      forall o ensures o in Merge(flat) <==> o in flat { MergeSame(flat, o); }
      MergeLength(flat);
      var o := FinishIn(v, Merge(flat));
      var i :| 0 <= i < |ts| && OptionOf(o, ts[i]);
      OptionIn(v, o, ts[i]);
    }
  }

  lemma FinishIn(v: Datum, opts: seq<Ty>) returns (o: Ty)
    requires 0 < |opts| <= MAX_OPTIONS && In(v, Finish(opts))
    ensures o in opts && In(v, o)
  {
    if |opts| == 1 {
      o := opts[0];
    } else {
      var i :| 0 <= i < |opts| && In(v, opts[i]);
      o := opts[i];
    }
  }

  lemma {:induction false} OthersLength(opts: seq<Ty>)
    requires AtMostOne(opts)
    ensures |Others(opts)| == |opts| - (if exists i :: 0 <= i < |opts| && opts[i].TList? then 1 else 0)
                                    - (if exists i :: 0 <= i < |opts| && opts[i].TMap? then 1 else 0)
    decreases |opts|
  {
    if opts != [] {
      OthersLength(opts[1..]);
      assert forall i | 0 < i < |opts| :: opts[i] == opts[1..][i - 1];
    }
  }

  lemma MergeLength(opts: seq<Ty>)
    requires AllNamed(opts) && AtMostOne(opts)
    ensures |Merge(opts)| == |opts|
  {
    if |opts| >= 2 {
      OthersLength(opts);
      ListKept(opts);
      MapKept(opts);
      assert Merge(opts) == Together(Others(opts), MergedPart(opts, Elem), MergedPart(opts, Key),
             MergedPart(opts, Val));
      hide Named; hide MergedPart; hide Others; hide HasPart; hide Merge;
      assert forall i | 0 <= i < |opts| :: opts[i] in opts;
    }
  }
}
