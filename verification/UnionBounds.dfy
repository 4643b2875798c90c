/** What a union accepts beyond its types: lists and maps whose parts come from several of them, and `any` past eight.
    */
module UnionBounds {
  import opened Values
  import opened Types
  import opened TypeInference
  import opened StaticTypes
  import opened Unions

  /** No `any` and no undetermined type among the options, nor among those of the elements of lists and the keys and
      values of maps, and so on. */
  predicate Sharp(t: Ty)
    decreases t
  {
    match t
    case TAny => false
    case Unknown => false
    case TList(e) => Sharp(e)
    case TMap(k, v) => Sharp(k) && Sharp(v)
    case TUnion(ts) => forall i | 0 <= i < |ts| :: Sharp(ts[i])
    case _ => true
  }

  predicate AllSharp(ts: seq<Ty>) { forall i | 0 <= i < |ts| :: Sharp(ts[i]) }

  ghost predicate HasOption(q: iset<Ty>, o: Ty) { exists t :: t in q && OptionOf(o, t) }

  ghost function Elems(q: iset<Ty>): iset<Ty> { iset e | HasOption(q, TList(e)) }

  ghost predicate HasKey(q: iset<Ty>, k: Ty) { exists v :: HasOption(q, TMap(k, v)) }

  ghost predicate HasVal(q: iset<Ty>, v: Ty) { exists k :: HasOption(q, TMap(k, v)) }

  ghost function Keys(q: iset<Ty>): iset<Ty> { iset k | HasKey(q, k) }

  ghost function Vals(q: iset<Ty>): iset<Ty> { iset v | HasVal(q, v) }

  ghost function Parts(q: iset<Ty>, part: Part): iset<Ty> {
    match part
    case Elem => Elems(q)
    case Key => Keys(q)
    case Val => Vals(q)
  }

  ghost function Of(ts: seq<Ty>): iset<Ty> { iset i | 0 <= i < |ts| :: ts[i] }

  /** The value is accepted by an option that is neither a list nor a map; or it is a list, each of whose elements is so
      accepted by the element types of the list options; or a map, and its keys and values are. */
  ghost predicate Composed(v: Datum, q: iset<Ty>)
    decreases v
  {
    || (exists o :: HasOption(q, o) && !o.TUnion? && !o.TList? && !o.TMap? && In(v, o))
    || (v.ListDatum? && (exists e :: HasOption(q, TList(e)))
        && forall i | 0 <= i < |v.elems| :: Composed(v.elems[i], Elems(q)))
    || (v.MapDatum? && (exists k, w :: HasOption(q, TMap(k, w)))
        && (forall i | 0 <= i < |v.keys| :: Composed(v.keys[i], Keys(q)))
        && forall i | 0 <= i < |v.vals| :: Composed(v.vals[i], Vals(q)))
  }

  /** The same, said of types. */
  ghost predicate Within(t: Ty, q: iset<Ty>)
    decreases t
  {
    match t
    case TUnion(ts) => forall i | 0 <= i < |ts| :: Within(ts[i], q)
    case TList(e) => (exists x :: HasOption(q, TList(x))) && Within(e, Elems(q))
    case TMap(k, v) => (exists x, y :: HasOption(q, TMap(x, y))) && Within(k, Keys(q)) && Within(v, Vals(q))
    case TNever => true
    case _ => HasOption(q, t)
  }

  lemma {:induction false} WithinAccepts(v: Datum, t: Ty, q: iset<Ty>)
    requires Within(t, q) && In(v, t)
    ensures Composed(v, q)
    decreases t
  {
    hide HasOption;
    match t
    case TUnion(ts) =>
      var i :| 0 <= i < |ts| && In(v, ts[i]);
      WithinAccepts(v, ts[i], q);
    case TList(e) =>
      forall i | 0 <= i < |v.elems| ensures Composed(v.elems[i], Elems(q)) { WithinAccepts(v.elems[i], e, Elems(q)); }
    case TMap(k, w) =>
      forall i | 0 <= i < |v.keys| ensures Composed(v.keys[i], Keys(q)) { WithinAccepts(v.keys[i], k, Keys(q)); }
      forall i | 0 <= i < |v.vals| ensures Composed(v.vals[i], Vals(q)) { WithinAccepts(v.vals[i], w, Vals(q)); }
    case _ =>
  }

  /** Each type of the one set is within the other. */
  ghost predicate AllWithin(p: iset<Ty>, q: iset<Ty>) { forall t | t in p :: Within(t, q) }

  lemma {:induction false} OptionWithin(o: Ty, t: Ty, q: iset<Ty>)
    requires OptionOf(o, t) && Within(t, q)
    ensures Within(o, q)
    decreases t
  {
    hide HasOption;
    if t.TUnion? {
      var i :| 0 <= i < |t.options| && OptionOf(o, t.options[i]);
      OptionWithin(o, t.options[i], q);
    }
  }

  lemma PartsWithin(p: iset<Ty>, q: iset<Ty>)
    requires AllWithin(p, q)
    ensures forall o | HasOption(p, o) :: Within(o, q)
    ensures forall part :: AllWithin(Parts(p, part), Parts(q, part))
  {
    forall o | HasOption(p, o) ensures Within(o, q) {
      var t :| t in p && OptionOf(o, t);
      OptionWithin(o, t, q);
    }
    hide HasOption;
    assert forall e | e in Elems(p) :: Within(TList(e), q);
    assert AllWithin(Elems(p), Elems(q));
    MapPartsWithin(p, q);
  }

  lemma MapPartsWithin(p: iset<Ty>, q: iset<Ty>)
    requires forall o | HasOption(p, o) :: Within(o, q)
    ensures AllWithin(Keys(p), Keys(q)) && AllWithin(Vals(p), Vals(q))
  {
    hide HasOption;
    forall k | HasKey(p, k) ensures Within(k, Keys(q)) {
      var v :| HasOption(p, TMap(k, v));
      assert Within(TMap(k, v), q);
    }
    forall v | HasVal(p, v) ensures Within(v, Vals(q)) {
      var k :| HasOption(p, TMap(k, v));
      assert Within(TMap(k, v), q);
    }
  }

  lemma {:induction false} WithinThrough(t: Ty, p: iset<Ty>, q: iset<Ty>)
    requires Within(t, p) && AllWithin(p, q)
    ensures Within(t, q)
    decreases t
  {
    PartsWithin(p, q);
    hide HasOption; hide AllWithin;
    match t
    case TUnion(ts) => forall i | 0 <= i < |ts| ensures Within(ts[i], q) { WithinThrough(ts[i], p, q); }
    case TList(e) =>
      var x :| HasOption(p, TList(x));
      assert Within(TList(x), q);
      assert AllWithin(Parts(p, Elem), Parts(q, Elem));
      WithinThrough(e, Elems(p), Elems(q));
    case TMap(k, v) =>
      var x, y :| HasOption(p, TMap(x, y));
      assert Within(TMap(x, y), q);
      assert AllWithin(Parts(p, Key), Parts(q, Key)) && AllWithin(Parts(p, Val), Parts(q, Val));
      WithinThrough(k, Keys(p), Keys(q));
      WithinThrough(v, Vals(p), Vals(q));
    case _ =>
  }

  lemma {:induction false} WithinItself(t: Ty, q: iset<Ty>)
    requires forall o | OptionOf(o, t) :: HasOption(q, o)
    ensures Within(t, q)
    decreases t
  {
    hide HasOption;
    match t
    case TUnion(ts) =>
      forall i | 0 <= i < |ts| ensures Within(ts[i], q) {
        assert forall o | OptionOf(o, ts[i]) :: OptionOf(o, t);
        WithinItself(ts[i], q);
      }
    case TList(e) =>
      assert e in Elems(q);
      InItself(e, Elems(q));
      WithinItself(e, Elems(q));
    case TMap(k, v) =>
      assert k in Keys(q) && v in Vals(q);
      InItself(k, Keys(q));
      InItself(v, Vals(q));
      WithinItself(k, Keys(q));
      WithinItself(v, Vals(q));
    case _ =>
  }

  lemma InItself(t: Ty, q: iset<Ty>)
    requires t in q
    ensures forall o | OptionOf(o, t) :: HasOption(q, o)
  {}

  // ----- what is left sharp was sharp -----

  lemma {:induction false} SharpOptions(t: Ty)
    requires forall o | OptionOf(o, t) :: o == TNever || Sharp(o)
    ensures Sharp(t)
    decreases t
  {
    if t.TUnion? {
      forall i | 0 <= i < |t.options| ensures Sharp(t.options[i]) {
        assert forall o | OptionOf(o, t.options[i]) :: OptionOf(o, t);
        SharpOptions(t.options[i]);
      }
    } else {
      assert OptionOf(t, t);
    }
  }

  /** The union is the options merged, if they are all sharp. */
  lemma SharpUnionIs(ts: seq<Ty>)
    requires AllNamed(ts) && Sharp(UnionType(ts))
    ensures var flat := AddOptions([], ts);
            && flat != [TAny] && AllNamed(flat) && Tallest(flat) <= Tallest(ts) && UnionType(ts) == Finish(Merge(flat))
            && 0 < |Merge(flat)| && AllSharp(Merge(flat))
            && (forall o :: o in flat <==> o != TNever && exists i :: 0 <= i < |ts| && OptionOf(o, ts[i]))
  {
    hide Named; hide OptionOf; hide AddOptions; hide Merge; hide Height; hide Tallest;
    var flat := AddOptions([], ts);
    UnionIs(ts);
    AddOptionsIs([], ts);
    FlatHeight(ts);
    var opts := Merge(flat);
    assert 0 < |opts|;
  }

  /** A union is sharp only if its types are. */
  lemma {:induction false} SharpInputs(ts: seq<Ty>)
    requires AllNamed(ts) && Sharp(UnionType(ts))
    ensures AllSharp(ts)
    decreases Tallest(ts), 1, 0
  {
    hide Named; hide OptionOf; hide AddOptions; hide Merge; hide Height; hide Tallest; hide UnionType; hide Sharp;
    SharpUnionIs(ts);
    var flat := AddOptions([], ts);
    forall o | o in flat ensures Sharp(o) { SharpMerged(flat, o); }
    forall i | 0 <= i < |ts| ensures Sharp(ts[i]) {
      forall o | OptionOf(o, ts[i]) ensures o == TNever || Sharp(o) { assert o == TNever || o in flat; }
      SharpOptions(ts[i]);
    }
  }

  lemma {:induction false} SharpMerged(opts: seq<Ty>, o: Ty)
    requires AllNamed(opts) && AllSharp(Merge(opts)) && o in opts
    ensures Sharp(o)
    decreases Tallest(opts), 0, |opts| + 1
  {
    hide Named; hide Height; hide Tallest; hide MergedPart; hide Others; hide HasPart;
    var n :| 0 <= n < |opts| && opts[n] == o;
    if |opts| >= 2 {
      var e, k, v := MergedPart(opts, Elem), MergedPart(opts, Key), MergedPart(opts, Val);
      var r := Merge(opts);
      assert r == Together(Others(opts), e, k, v);
      assert forall x | x in r :: Sharp(x);
      if o.TList? {
        assert HasPart(opts, Elem) by { HasPartAt(opts, Elem, n); }
        assert TList(e.value) in r;
        SharpPart(opts, Elem, n);
      } else if o.TMap? {
        assert HasPart(opts, Key) && HasPart(opts, Val) by { HasPartAt(opts, Key, n); HasPartAt(opts, Val, n); }
        assert TMap(k.value, v.value) in r;
        SharpPart(opts, Key, n);
        SharpPart(opts, Val, n);
      } else {
        assert o in Others(opts) && o in r;
      }
    }
  }

  lemma HasPartAt(opts: seq<Ty>, part: Part, n: nat)
    requires n < |opts| && PartOf(opts[n], part).Some?
    ensures HasPart(opts, part)
  {}

  lemma {:induction false} SharpPart(opts: seq<Ty>, part: Part, n: nat)
    requires AllNamed(opts) && n < |opts| && PartOf(opts[n], part).Some?
    requires MergedPart(opts, part).Some? && Sharp(MergedPart(opts, part).value)
    ensures Sharp(PartOf(opts[n], part).value)
    decreases Tallest(opts), 0, |opts|, 0
  {
    hide Named; hide Height; hide Tallest; hide PartOf; hide Others; hide Sharp; hide UnionType; hide MergedPart;
    var k := |opts| - 1;
    assert opts[..k + 1] == opts;
    MergedMore(opts, k);
    assert opts[k] in opts;
    TallestOfPrefix(opts, k);
    var before, p := MergedPart(opts[..k], part), PartOf(opts[k], part);
    if before.Some? && p.Some? {
      TallestOfTwo(before.value, p.value, Tallest(opts));
      SharpInputs([before.value, p.value]);
      assert Sharp([before.value, p.value][0]) && Sharp([before.value, p.value][1]);
    }
    if n < k {
      assert opts[..k][n] == opts[n];
      assert HasPart(opts[..k], part) by { HasPartAt(opts[..k], part, n); }
      SharpPart(opts[..k], part, n);
    }
  }

  // ----- the union is within its types -----

  lemma {:induction false} UnionWithin(ts: seq<Ty>)
    requires AllNamed(ts) && Sharp(UnionType(ts))
    ensures Within(UnionType(ts), Of(ts))
    decreases Tallest(ts), 1, 0
  {
    hide Named; hide OptionOf; hide AddOptions; hide Merge; hide Height; hide Tallest; hide UnionType; hide Sharp;
    SharpUnionIs(ts);
    var flat := AddOptions([], ts);
    var opts := Merge(flat);
    forall o | o in flat ensures HasOption(Of(ts), o) {
      var i :| 0 <= i < |ts| && OptionOf(o, ts[i]);
      assert ts[i] in Of(ts);
    }
    hide Of; hide HasOption;
    forall i | 0 <= i < |opts| ensures Within(opts[i], Of(ts)) {
      MergedWithin(flat, opts[i], Of(ts));
    }
    FinishWithin(opts, Of(ts));
  }

  lemma FinishWithin(opts: seq<Ty>, q: iset<Ty>)
    requires 0 < |opts| && Sharp(Finish(opts)) && forall i | 0 <= i < |opts| :: Within(opts[i], q)
    ensures Within(Finish(opts), q)
  {
    hide HasOption;
  }

  lemma {:induction false} MergedWithin(opts: seq<Ty>, m: Ty, q: iset<Ty>)
    requires AllNamed(opts) && m in Merge(opts) && AllSharp(Merge(opts)) && forall o | o in opts :: HasOption(q, o)
    ensures Within(m, q)
    decreases Tallest(opts), 0, |opts| + 1
  {
    hide Named; hide Height; hide Tallest; hide MergedPart; hide Others; hide HasPart;
    assert Sharp(m) by { assert exists i :: 0 <= i < |Merge(opts)| && Merge(opts)[i] == m; }
    if m in opts {
      OptionIsWithin(m, q);
    } else {
      var e, k, v := MergedPart(opts, Elem), MergedPart(opts, Key), MergedPart(opts, Val);
      assert Merge(opts) == Together(Others(opts), e, k, v);
      if m.TList? {
        PartIsWithin(opts, Elem, q);
      } else {
        PartIsWithin(opts, Key, q);
        PartIsWithin(opts, Val, q);
      }
    }
  }

  lemma OptionIsWithin(o: Ty, q: iset<Ty>)
    requires HasOption(q, o)
    ensures Within(o, q)
  {
    var t :| t in q && OptionOf(o, t);
    OptionOfIsNoUnion(o, t);
    assert forall x | OptionOf(x, o) :: x == o;
    WithinItself(o, q);
  }

  lemma {:induction false} OptionOfIsNoUnion(o: Ty, t: Ty)
    requires OptionOf(o, t)
    ensures !o.TUnion?
    decreases t
  {
    if t.TUnion? {
      var i :| 0 <= i < |t.options| && OptionOf(o, t.options[i]);
      OptionOfIsNoUnion(o, t.options[i]);
    }
  }

  lemma {:induction false} PartIsWithin(opts: seq<Ty>, part: Part, q: iset<Ty>)
    requires AllNamed(opts) && (forall o | o in opts :: HasOption(q, o))
    requires MergedPart(opts, part).Some? && Sharp(MergedPart(opts, part).value)
    ensures Within(MergedPart(opts, part).value, Parts(q, part))
    ensures part.Elem? ==> exists x :: HasOption(q, TList(x))
    ensures !part.Elem? ==> exists x, y :: HasOption(q, TMap(x, y))
    decreases Tallest(opts), 0, |opts|, 0
  {
    hide Named; hide Height; hide Tallest; hide PartOf; hide Others; hide Sharp; hide UnionType; hide MergedPart;
    hide HasPart; hide Parts; hide HasOption;
    assert HasPart(opts, part);
    SomePart(opts, part, q);
    var k := |opts| - 1;
    assert opts[..k + 1] == opts;
    MergedMore(opts, k);
    assert opts[k] in opts;
    TallestOfPrefix(opts, k);
    var before, p := MergedPart(opts[..k], part), PartOf(opts[k], part);
    var r := Parts(q, part);
    if p.Some? {
      PartIsIn(opts[k], part, q);
      InItself(p.value, r);
      WithinItself(p.value, r);
    }
    if before.Some? {
      if p.Some? {
        TallestOfTwo(before.value, p.value, Tallest(opts));
        SharpInputs([before.value, p.value]);
        assert Sharp([before.value, p.value][0]);
        UnionWithin([before.value, p.value]);
      }
      PartIsWithin(opts[..k], part, q);
      if p.Some? { WithinThrough(MergedPart(opts, part).value, Of([before.value, p.value]), r); }
    }
  }

  lemma SomePart(opts: seq<Ty>, part: Part, q: iset<Ty>)
    requires HasPart(opts, part) && forall o | o in opts :: HasOption(q, o)
    ensures opts != []
    ensures part.Elem? ==> exists x :: HasOption(q, TList(x))
    ensures !part.Elem? ==> exists x, y :: HasOption(q, TMap(x, y))
  {
    hide HasOption;
    var i :| 0 <= i < |opts| && PartOf(opts[i], part).Some?;
    assert opts[i] in opts;
    assert part.Elem? ==> HasOption(q, TList(opts[i].elem));
    assert !part.Elem? ==> HasOption(q, TMap(opts[i].key, opts[i].val));
  }

  lemma PartIsIn(o: Ty, part: Part, q: iset<Ty>)
    requires HasOption(q, o) && PartOf(o, part).Some?
    ensures PartOf(o, part).value in Parts(q, part)
  {
    hide HasOption;
  }

  /** Where no `any` arises, the union accepts only what is composed of what its types accept: a merged list has only
      elements that the element types of its lists accept, and so on down. */
  lemma UnionComposed(v: Datum, ts: seq<Ty>)
    requires AllNamed(ts) && Sharp(UnionType(ts)) && In(v, UnionType(ts))
    ensures Composed(v, iset i | 0 <= i < |ts| :: ts[i])
  {
    UnionWithin(ts);
    WithinAccepts(v, UnionType(ts), Of(ts));
  }

  // ----- the bound, and the merging of two -----

  /** Types that are neither unions nor lists nor maps, all different: up to eight make a union, more make `any`. */
  lemma EightAtMost(ts: seq<Ty>)
    requires Unions.Options(ts) && |ts| >= 2 && forall i | 0 <= i < |ts| :: !ts[i].TList? && !ts[i].TMap?
    ensures AllNamed(ts) && UnionType(ts) == if |ts| <= 8 then TUnion(ts) else TAny
  {
    FlatIs(ts);
    MergedIs(ts);
    hide Named; hide MergedPart; hide AddOptions; hide Merge; hide UnionType;
    UnionIs(ts);
  }

  lemma FlatIs(ts: seq<Ty>)
    requires Unions.Options(ts)
    ensures AllNamed(ts) && AddOptions([], ts) == ts && ts != [TAny]
  {
    hide Named;
    assert [] + ts == ts;
    FlatSame([], ts);
  }

  lemma MergedIs(ts: seq<Ty>)
    requires AllNamed(ts) && |ts| >= 2 && forall i | 0 <= i < |ts| :: !ts[i].TList? && !ts[i].TMap?
    ensures Merge(ts) == ts
  {
    OthersSame(ts);
    assert !HasPart(ts, Elem) && !HasPart(ts, Key) && !HasPart(ts, Val);
    hide Named; hide HasPart; hide Others; hide Tallest;
    assert Merge(ts) == Together(Others(ts), None, None, None);
  }

  lemma {:induction false} FlatSame(flat: seq<Ty>, ts: seq<Ty>)
    requires Unions.Options(flat + ts)
    ensures AddOptions(flat, ts) == flat + ts
    decreases |ts|
  {
    hide Named; hide Sig; hide HasSig;
    if ts == [] {
      assert flat + ts == flat;
    } else {
      var t, all := ts[0], flat + ts;
      assert all[|flat|] == t && (flat + [t]) + ts[1..] == all;
      forall i | 0 <= i < |flat| ensures Named(flat[i]) && flat[i] != t { assert all[i] == flat[i]; }
      HasSigIsIn(flat, t);
      assert (flat + [t])[|flat|] == t;
      FlatSame(flat + [t], ts[1..]);
    }
  }

  lemma {:induction false} OthersSame(ts: seq<Ty>)
    requires forall i | 0 <= i < |ts| :: !ts[i].TList? && !ts[i].TMap?
    ensures Others(ts) == ts
    decreases |ts|
  {
    if ts != [] { OthersSame(ts[1..]); }
  }

  /** Two lists become the list of what either holds. */
  lemma TwoLists(a: Ty, b: Ty)
    requires Named(a) && Named(b) && a != b
    ensures UnionType([TList(a), TList(b)]) == TList(UnionType([a, b]))
  {
    hide MergedPart; hide UnionType; hide Tallest; hide Height; hide Finish; hide Together;
    var ts := [TList(a), TList(b)];
    assert Named(ts[0]) && Named(ts[1]);
    hide Named;
    TwoAlike(ts);
    TwoParts(ts, Elem, a, b);
    NonePart(ts, Key);
    NonePart(ts, Val);
    OneIsLeft(UnionType([a, b]), Unknown);
  }

  /** Two maps become the map of the keys of both to the values of both, even where only one part differs. */
  lemma TwoMaps(a: Ty, b: Ty, k: Ty, v: Ty)
    requires Named(a) && Named(b) && Named(k) && Named(v) && (a != k || b != v)
    ensures UnionType([TMap(a, b), TMap(k, v)]) == TMap(UnionType([a, k]), UnionType([b, v]))
  {
    hide MergedPart; hide UnionType; hide Tallest; hide Height; hide Finish; hide Together;
    var ts := [TMap(a, b), TMap(k, v)];
    assert Named(ts[0]) && Named(ts[1]);
    hide Named;
    TwoAlike(ts);
    MapParts(ts, a, b, k, v);
    OneIsLeft(UnionType([a, k]), UnionType([b, v]));
  }

  lemma MapParts(ts: seq<Ty>, a: Ty, b: Ty, k: Ty, v: Ty)
    requires ts == [TMap(a, b), TMap(k, v)] && AllNamed(ts)
    ensures Named(a) && Named(b) && Named(k) && Named(v) && MergedPart(ts, Elem) == None
    ensures MergedPart(ts, Key) == Some(UnionType([a, k])) && MergedPart(ts, Val) == Some(UnionType([b, v]))
  {
    hide MergedPart; hide UnionType; hide Tallest; hide Height; hide Named;
    TwoParts(ts, Key, a, k);
    TwoParts(ts, Val, b, v);
    NonePart(ts, Elem);
  }

  lemma OneIsLeft(x: Ty, y: Ty)
    ensures Finish(Together([], Some(x), None, None)) == TList(x)
    ensures Finish(Together([], None, Some(x), Some(y))) == TMap(x, y)
  {
    assert Together([], None, Some(x), Some(y)) == [TMap(x, y)];
  }

  lemma TwoAlike(ts: seq<Ty>)
    requires |ts| == 2 && AllNamed(ts) && ts[0] != ts[1]
    requires (ts[0].TList? && ts[1].TList?) || (ts[0].TMap? && ts[1].TMap?)
    ensures UnionType(ts) == Finish(Together([], MergedPart(ts, Elem), MergedPart(ts, Key), MergedPart(ts, Val)))
  {
    hide Named; hide MergedPart; hide AddOptions; hide UnionType; hide Others; hide Tallest; hide HasPart;
    FlatIs(ts);
    TwoOthers(ts);
    UnionIs(ts);
  }

  lemma TwoParts(ts: seq<Ty>, part: Part, x: Ty, y: Ty)
    requires |ts| == 2 && AllNamed(ts) && PartOf(ts[0], part) == Some(x) && PartOf(ts[1], part) == Some(y)
    ensures Named(x) && Named(y) && MergedPart(ts, part) == Some(UnionType([x, y]))
  {
    hide MergedPart; hide UnionType; hide Named; hide PartOf; hide Tallest; hide Height;
    assert ts[..0] == [] && ts[..1] == [ts[0]] && ts[..2] == ts;
    MergedNone();
    MergedMore(ts, 0);
    MergedMore(ts, 1);
  }

  lemma TwoOthers(ts: seq<Ty>)
    requires |ts| == 2 && forall i | 0 <= i < 2 :: ts[i].TList? || ts[i].TMap?
    ensures Others(ts) == []
  {
    hide Others;
    if Others(ts) != [] { assert Others(ts)[0] in Others(ts); }
  }

  /** The union of nothing, or of `never` alone, is not determined. */
  lemma NothingToJoin()
    ensures UnionType([]) == Unknown && UnionType([TNever]) == Unknown
  {
    assert AddOptions([], [TNever]) == [] by { assert [TNever][1..] == []; }
  }

  /** A list comes after the other options and a map last, whatever their order was. */
  lemma ListThenMap(ts: seq<Ty>)
    requires Unions.Options(ts) && |ts| == 3 && ts[0].TMap? && ts[1].TList? && !ts[2].TMap? && !ts[2].TList?
    ensures AllNamed(ts) && UnionType(ts) == TUnion([ts[2], ts[1], ts[0]])
  {
    hide Named; hide MergedPart; hide AddOptions; hide UnionType; hide Tallest; hide HasPart; hide Others;
    FlatIs(ts);
    UnionIs(ts);
    OnlyPart(ts, Elem, 1);
    OnlyPart(ts, Key, 0);
    OnlyPart(ts, Val, 0);
    LastIsOther(ts);
    ThreeTogether(ts[2], ts[1].elem, ts[0].key, ts[0].val);
    hide Together;
  }

  lemma LastIsOther(ts: seq<Ty>)
    requires |ts| == 3 && ts[0].TMap? && ts[1].TList? && !ts[2].TMap? && !ts[2].TList?
    ensures Others(ts) == [ts[2]]
  {
    assert ts[1..][1..] == [ts[2]] && [ts[2]][1..] == [];
    assert Others([ts[2]]) == [ts[2]];
    assert Others(ts) == Others(ts[1..]) == Others(ts[1..][1..]);
  }

  lemma ThreeTogether(t: Ty, e: Ty, k: Ty, v: Ty)
    ensures Finish(Together([t], Some(e), Some(k), Some(v))) == TUnion([t, TList(e), TMap(k, v)])
  {
    assert Together([t], Some(e), Some(k), Some(v)) == [t, TList(e), TMap(k, v)];
  }
}
