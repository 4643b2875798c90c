/** Types as the checker sees them, their signatures, and that signatures tell types apart. */
module StaticTypes {
  import opened Values
  import opened Types

  datatype Ty =
    | TAny
    | TNever
    | Unknown                     // not determined yet: accepts every value
    | Scalar(kind: Kind)
    | TStruct(name: string)
    | TList(elem: Ty)
    | TMap(key: Ty, val: Ty)
    | TTuple(params: seq<Ty>)
    | TUnion(options: seq<Ty>)

  function Head(t: Ty): string {
    match t
    case TAny => "any"
    case TNever => "never"
    case Unknown => "unknown"
    case Scalar(k) => KindText(k)
    case TStruct(_) => "struct"
    case TList(_) => "list"
    case TMap(_, _) => "map"
    case TTuple(_) => ""
    case TUnion(_) => "union"
  }

  function Body(t: Ty): string
    decreases t, 0
  {
    match t
    case TStruct(name) => if name == "" then "" else "(" + (name + ")")
    case TList(e) => "<" + (Sig(e) + ">")
    case TMap(k, v) => "<" + (Sig(k) + ("," + (Sig(v) + ">")))
    case TTuple(ts) => "[" + (Sigs(ts, ',') + "]")
    case TUnion(ts) => "(" + (Sigs(ts, '|') + ")")
    case _ => ""
  }

  /** The text by which the checker recognises a type. */
  function Sig(t: Ty): string
    decreases t, 1
  {
    Head(t) + Body(t)
  }

  function Sigs(ts: seq<Ty>, sep: char): string
    decreases ts, 0
  {
    if ts == [] then "" else if |ts| == 1 then Sig(ts[0]) else Sig(ts[0]) + ([sep] + Sigs(ts[1..], sep))
  }

  /** Structs are named by identifiers. */
  predicate Named(t: Ty)
    decreases t
  {
    match t
    case TStruct(name) => name == "" || IsIdent(name)
    case TList(e) => Named(e)
    case TMap(k, v) => Named(k) && Named(v)
    case TTuple(ts) => forall i | 0 <= i < |ts| :: Named(ts[i])
    case TUnion(ts) => forall i | 0 <= i < |ts| :: Named(ts[i])
    case _ => true
  }

  // ----- signatures can be read back -----

  predicate InWord(c: char) { IdentStart(c) || '0' <= c <= '9' }

  predicate IsWord(s: string) { forall i | 0 <= i < |s| :: InWord(s[i]) }

  /** What may follow a signature. */
  predicate Ends(x: string) { x == "" || x[0] in ",>]|)" }

  lemma FirstChar(a: string, x: string)
    ensures a == "" ==> a + x == x
    ensures a != "" ==> a + x != "" && (a + x)[0] == a[0]
  {}

  lemma {:induction false} WordsSplit(a: string, x: string, b: string, y: string)
    requires IsWord(a) && IsWord(b) && (x == "" || !InWord(x[0])) && (y == "" || !InWord(y[0]))
    requires a + x == b + y
    ensures a == b && x == y
    decreases |a|
  {
    FirstChar(a, x);
    FirstChar(b, y);
    if a != "" && b != "" {
      assert (a + x)[1..] == a[1..] + x && (b + y)[1..] == b[1..] + y;
      WordsSplit(a[1..], x, b[1..], y);
      assert a == [a[0]] + a[1..] && b == [b[0]] + b[1..];
    }
  }

  lemma HeadsDiffer(t: Ty, u: Ty)
    requires Head(t) == Head(u)
    ensures t.TAny? == u.TAny? && t.TNever? == u.TNever? && t.Unknown? == u.Unknown? && t.TStruct? == u.TStruct?
    ensures t.TList? == u.TList? && t.TMap? == u.TMap? && t.TTuple? == u.TTuple? && t.TUnion? == u.TUnion?
    ensures t.Scalar? && u.Scalar? ==> t == u
  {}

  lemma HeadIsWord(t: Ty)
    ensures IsWord(Head(t)) && (Head(t) == "" ==> t.TTuple?)
  {}

  lemma BodyStarts(t: Ty, x: string)
    requires Ends(x)
    ensures Body(t) + x == "" || !InWord((Body(t) + x)[0])
    ensures Body(t) != "" ==> Body(t)[0] in "<([" && (Body(t) + x)[0] in "<(["
  {
    hide Sig; hide Sigs;
  }

  lemma Behead(c: char, x: string, y: string)
    requires [c] + x == [c] + y
    ensures x == y
  {
    assert ([c] + x)[1..] == x && ([c] + y)[1..] == y;
  }

  /** Two signatures followed by a delimiter are the same only for the same type. */
  lemma {:induction false} SigsTellApart(t: Ty, u: Ty, x: string, y: string)
    requires Named(t) && Named(u) && Ends(x) && Ends(y) && Sig(t) + x == Sig(u) + y
    ensures t == u && x == y
    decreases t, 1
  {
    hide Body; hide Head; hide Ends; hide Named; hide Sigs;
    HeadIsWord(t);
    HeadIsWord(u);
    BodyStarts(t, x);
    BodyStarts(u, y);
    assert Head(t) + (Body(t) + x) == Sig(t) + x && Head(u) + (Body(u) + y) == Sig(u) + y;
    WordsSplit(Head(t), Body(t) + x, Head(u), Body(u) + y);
    BodiesTellApart(t, u, x, y);
  }

  lemma {:induction false} BodiesTellApart(t: Ty, u: Ty, x: string, y: string)
    requires Named(t) && Named(u) && Ends(x) && Ends(y) && Head(t) == Head(u) && Body(t) + x == Body(u) + y
    ensures t == u && x == y
    decreases t, 0
  {
    hide Sig; hide Sigs; hide Head;
    HeadsDiffer(t, u);
    if t.TList? {
      assert Body(t) + x == ['<'] + (Sig(t.elem) + (">" + x)) && Body(u) + y == ['<'] + (Sig(u.elem) + (">" + y));
      Behead('<', Sig(t.elem) + (">" + x), Sig(u.elem) + (">" + y));
      SigsTellApart(t.elem, u.elem, ">" + x, ">" + y);
      Behead('>', x, y);
    } else if t.TMap? {
      MapsTellApart(t, u, x, y);
    } else if t.TTuple? {
      ListsTellApart(t, u, t.params, u.params, '[', ',', ']', x, y);
    } else if t.TUnion? {
      ListsTellApart(t, u, t.options, u.options, '(', '|', ')', x, y);
    } else if t.TStruct? {
      StructsTellApart(t, u, x, y);
    } else {
      assert Body(t) == "" && Body(u) == "" && "" + x == x && "" + y == y;
    }
  }

  lemma StructsTellApart(t: Ty, u: Ty, x: string, y: string)
    requires t.TStruct? && u.TStruct? && Named(t) && Named(u) && Ends(x) && Ends(y) && Body(t) + x == Body(u) + y
    ensures t == u && x == y
  {
    if t.name != "" && u.name != "" {
      NamedBody(t, x);
      NamedBody(u, y);
      Behead('(', t.name + (")" + x), u.name + (")" + y));
      WordsSplit(t.name, ")" + x, u.name, ")" + y);
      Behead(')', x, y);
    } else {
      if t.name != "" { NamedBody(t, x); }
      if u.name != "" { NamedBody(u, y); }
      assert "" + x == x && "" + y == y;
    }
  }

  lemma NamedBody(t: Ty, x: string)
    requires t.TStruct? && t.name != ""
    ensures Body(t) + x == ['('] + (t.name + (")" + x))
  {
    assert "(" + (t.name + ")") + x == ['('] + (t.name + (")" + x));
  }

  lemma {:induction false} MapsTellApart(t: Ty, u: Ty, x: string, y: string)
    requires t.TMap? && u.TMap? && Named(t) && Named(u) && Body(t) + x == Body(u) + y
    ensures t == u && x == y
    decreases t, 0, 0
  {
    hide Sig;
    var x1, y1 := ">" + x, ">" + y;
    MapBody(t, x);
    MapBody(u, y);
    hide Body;
    Behead('<', Sig(t.key) + ("," + (Sig(t.val) + x1)), Sig(u.key) + ("," + (Sig(u.val) + y1)));
    SigsTellApart(t.key, u.key, "," + (Sig(t.val) + x1), "," + (Sig(u.val) + y1));
    Behead(',', Sig(t.val) + x1, Sig(u.val) + y1);
    SigsTellApart(t.val, u.val, x1, y1);
    Behead('>', x, y);
  }

  lemma MapBody(t: Ty, x: string)
    requires t.TMap?
    ensures Body(t) + x == ['<'] + (Sig(t.key) + ("," + (Sig(t.val) + (">" + x))))
  {
    hide Sig;
    var k, v := Sig(t.key), Sig(t.val);
    assert "<" + (k + ("," + (v + ">"))) + x == ['<'] + (k + ("," + (v + (">" + x))));
  }

  lemma {:induction false} ListsTellApart(t: Ty, u: Ty, ts: seq<Ty>, us: seq<Ty>, open: char, sep: char, close: char,
                                          x: string, y: string)
    requires Named(t) && Named(u) && ((sep == ',' && close == ']') || (sep == '|' && close == ')'))
    requires (t.TTuple? && u.TTuple? && ts == t.params && us == u.params)
             || (t.TUnion? && u.TUnion? && ts == t.options && us == u.options)
    requires Body(t) == [open] + (Sigs(ts, sep) + [close]) && Body(u) == [open] + (Sigs(us, sep) + [close])
    requires Body(t) + x == Body(u) + y
    ensures ts == us && x == y
    decreases t, 0, 0
  {
    hide Sig; hide Sigs; hide Body;
    assert Body(t) + x == [open] + (Sigs(ts, sep) + ([close] + x))
           && Body(u) + y == [open] + (Sigs(us, sep) + ([close] + y));
    Behead(open, Sigs(ts, sep) + ([close] + x), Sigs(us, sep) + ([close] + y));
    EachTellsApart(ts, us, sep, close, x, y);
  }

  lemma SigStarts(t: Ty)
    ensures Sig(t) != "" && Sig(t)[0] !in ",>]|)"
  {
    hide Sigs;
    HeadIsWord(t);
  }

  lemma {:induction false} EachTellsApart(ts: seq<Ty>, us: seq<Ty>, sep: char, close: char, x: string, y: string)
    requires (forall i | 0 <= i < |ts| :: Named(ts[i])) && forall i | 0 <= i < |us| :: Named(us[i])
    requires (sep == ',' && close == ']') || (sep == '|' && close == ')')
    requires Sigs(ts, sep) + ([close] + x) == Sigs(us, sep) + ([close] + y)
    ensures ts == us && x == y
    decreases ts, 0
  {
    hide Sig; hide Named;
    var x1, y1 := [close] + x, [close] + y;
    assert x1[1..] == x && y1[1..] == y;
    if ts == [] || us == [] {
      SigsStart(ts, sep, x1);
      SigsStart(us, sep, y1);
    } else {
      var x2 := if |ts| == 1 then x1 else [sep] + (Sigs(ts[1..], sep) + x1);
      var y2 := if |us| == 1 then y1 else [sep] + (Sigs(us[1..], sep) + y1);
      FirstSig(ts, sep, x1);
      FirstSig(us, sep, y1);
      SigsTellApart(ts[0], us[0], x2, y2);
      assert x2[0] == if |ts| == 1 then close else sep;
      assert y2[0] == if |us| == 1 then close else sep;
      if |ts| != 1 {
        Behead(sep, Sigs(ts[1..], sep) + x1, Sigs(us[1..], sep) + y1);
        EachTellsApart(ts[1..], us[1..], sep, close, x, y);
      }
      assert ts == [ts[0]] + ts[1..] && us == [us[0]] + us[1..];
    }
  }

  lemma SigsStart(ts: seq<Ty>, sep: char, x: string)
    requires x != "" && x[0] in "])"
    ensures (Sigs(ts, sep) + x)[0] == x[0] <==> ts == []
    ensures ts == [] ==> Sigs(ts, sep) + x == x
  {
    if ts != [] { SigStarts(ts[0]); }
  }

  lemma FirstSig(ts: seq<Ty>, sep: char, x: string)
    requires ts != []
    ensures Sigs(ts, sep) + x == Sig(ts[0]) + if |ts| == 1 then x else [sep] + (Sigs(ts[1..], sep) + x)
  {
    hide Sig;
  }

  /** Types with the same signature are the same. */
  lemma SameSignature(t: Ty, u: Ty)
    requires Named(t) && Named(u) && Sig(t) == Sig(u)
    ensures t == u
  {
    assert Sig(t) + "" == Sig(t) && Sig(u) + "" == Sig(u);
    SigsTellApart(t, u, "", "");
  }
}
