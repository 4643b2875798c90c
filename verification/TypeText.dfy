/** Reading back what is printed: for every type, what the parser makes of its text, and so which types survive. */
module TypeText {
  import opened Values
  import opened Types

  /** Names are identifiers and unions have options, as in every type the parser or the inference makes. */
  predicate Plain(t: Type)
    decreases t
  {
    match t
    case Any => true
    case Base(_) => true
    case ListOf(e) => Plain(e)
    case Tuple(es) => forall i | 0 <= i < |es| :: Plain(es[i])
    case MapOf(k, v) => Plain(k) && Plain(v)
    case Fn(ret, params, _) => (ret.Some? ==> Plain(ret.value)) && forall i | 0 <= i < |params| :: Plain(params[i])
    case Struct(name) => name == "" || IsIdent(name)
    case Param(name) => IsIdent(name)
    case Union(options) => options != [] && forall i | 0 <= i < |options| :: Plain(options[i])
  }

  /** The options of a union, of the unions among them, and so on; a text does not tell these apart. */
  function Flat(t: Type): (r: seq<Type>)
    ensures t.Union? ==> forall f | f in r :: f < t
    ensures !t.Union? ==> r == [t]
    ensures forall f | f in r :: !f.Union?
    decreases t, 0
  {
    if t.Union? then FlatEach(t.options) else [t]
  }

  function FlatEach(ts: seq<Type>): (r: seq<Type>)
    ensures forall f | f in r :: exists i :: 0 <= i < |ts| && (f == ts[i] || f < ts[i])
    ensures forall f | f in r :: !f.Union?
    decreases ts, 0
  {
    if ts == [] then [] else Flat(ts[0]) + FlatEach(ts[1..])
  }

  /** What parsing the text of a type gives: a named struct is lost, a function loses `variadic`, and nested unions are
      flattened. */
  function Read(t: Type, typeParams: set<string>): Option<Type>
    decreases t, 1
  {
    match t
    case Any => Some(t)
    case Base(_) => Some(t)
    case ListOf(e) => Some(ListOf(OrAny(Read(e, typeParams))))
    case Tuple(es) => Some(Tuple(Defaults(ReadEach(es, typeParams))))
    case MapOf(k, v) => Some(MapOf(OrAny(Read(k, typeParams)), OrAny(Read(v, typeParams))))
    case Fn(ret, params, _) =>
      Some(Fn(Some(if ret.Some? then OrAny(Read(ret.value, typeParams)) else Any),
        Defaults(ReadEach(params, typeParams)), false))
    case Struct(name) => if name == "" then Some(t) else None
    case Param(name) => ParseName(name, typeParams)
    case Union(_) => ReadUnion(t, typeParams)
  }

  function ReadUnion(t: Type, typeParams: set<string>): Option<Type>
    requires t.Union?
    decreases t, 0
  {
    var fs := Flat(t);
    if |fs| == 1 then
      assert fs[0] in fs;
      Read(fs[0], typeParams)
    else
      assert forall i | 0 <= i < |fs| :: fs[i] in fs;
      var options := Present(seq(|fs|, i requires 0 <= i < |fs| => Read(fs[i], typeParams)));
      if options == [] then None else Some(Union(options))
  }

  function ReadEach(ts: seq<Type>, typeParams: set<string>): (rs: seq<Option<Type>>)
    ensures |rs| == |ts|
    decreases ts, 0
  {
    if ts == [] then [] else [Read(ts[0], typeParams)] + ReadEach(ts[1..], typeParams)
  }

  // ----- brackets in printed texts -----

  function After(w: string, d: Depth): Depth {
    if w == "" then d else After(w[1..], Scan(d, w[0]))
  }

  /** No separator of `w` stands outside all brackets. */
  predicate Passes(w: string, sep: char, d: Depth) {
    w == "" || (!(w[0] == sep && d == OUTSIDE) && Passes(w[1..], sep, Scan(d, w[0])))
  }

  lemma {:induction false} AfterConcat(a: string, b: string, d: Depth)
    ensures After(a + b, d) == After(b, After(a, d))
    ensures forall sep :: Passes(a + b, sep, d) <==> Passes(a, sep, d) && Passes(b, sep, After(a, d))
    decreases |a|
  {
    if a == "" {
      assert a + b == b;
    } else {
      assert (a + b)[1..] == a[1..] + b;
      AfterConcat(a[1..], b, Scan(d, a[0]));
    }
  }

  /** The text leaves the depth as it found it and has no separator outside all brackets. */
  predicate Closed(s: string, d: Depth) {
    After(s, d) == d && Passes(s, ',', d) && Passes(s, '|', d)
  }

  predicate Word(s: string) { forall i | 0 <= i < |s| :: s[i] !in "<>()[],|" }

  lemma {:induction false} WordCloses(s: string, d: Depth)
    requires Word(s)
    ensures Closed(s, d)
    decreases |s|
  {
    if s != "" {
      WordCloses(s[1..], d);
    }
  }

  lemma OneChar(c: char, d: Depth)
    ensures After([c], d) == Scan(d, c)
    ensures forall sep :: Passes([c], sep, d) <==> !(c == sep && d == OUTSIDE)
  {
    assert [c][1..] == "";
    assert After("", Scan(d, c)) == Scan(d, c);
  }

  lemma ConcatCloses(a: string, b: string, d: Depth)
    requires Closed(a, d) && Closed(b, d)
    ensures Closed(a + b, d)
  {
    AfterConcat(a, b, d);
  }

  predicate Pair(o: char, c: char) { (o == '<' && c == '>') || (o == '(' && c == ')') || (o == '[' && c == ']') }

  lemma BracketsClose(w: string, o: char, x: string, c: char, d: Depth)
    requires Word(w) && Pair(o, c) && Closed(x, Scan(d, o))
    ensures Closed(w + [o] + x + [c], d)
    ensures Scan(d, o) != OUTSIDE
  {
    hide After; hide Passes;
    WordCloses(w, d);
    AfterConcat(w + [o] + x, [c], d);
    AfterConcat(w + [o], x, d);
    AfterConcat(w, [o], d);
    OneChar(o, d);
    OneChar(c, Scan(d, o));
  }

  lemma SeparatorsClose(d: Depth)
    ensures d != OUTSIDE ==> Closed(", ", d) && Closed("|", d)
    ensures After("|", d) == d && Passes("|", ',', d)
  {
    OneChar('|', d);
    OneChar(',', d);
    OneChar(' ', d);
    AfterConcat(",", " ", d);
    assert ", " == "," + " ";
  }

  lemma IdentIsWord(s: string)
    requires IsIdent(s)
    ensures Word(s)
  {}

  /** The text of a type has its brackets in pairs and separators only inside them, but for the bars of a union. */
  lemma {:induction false} PrintCloses(t: Type, d: Depth)
    requires Plain(t)
    ensures After(Print(t), d) == d && Passes(Print(t), ',', d)
    ensures d != OUTSIDE || !t.Union? ==> Passes(Print(t), '|', d)
    decreases t, 1
  {
    hide After; hide Passes; hide Joined; hide Print; hide Scan;
    if t.ListOf? {
      ListCloses(t, d);
    } else if t.Tuple? {
      TupleCloses(t, d);
    } else if t.MapOf? {
      MapCloses(t, d);
    } else if t.Fn? {
      FnCloses(t, d);
    } else if t.Struct? {
      StructCloses(t, d);
    } else if t.Union? {
      UnionText(t);
      JoinedCloses(t.options, "|", d);
    } else {
      NameCloses(t, d);
    }
  }

  lemma KindIsWord(k: Kind)
    ensures Word(KindText(k))
  {}

  lemma AnyIsWord()
    ensures Word("any")
  {}

  lemma NameCloses(t: Type, d: Depth)
    requires (t.Any? || t.Base? || t.Param?) && Plain(t)
    ensures Closed(Print(t), d)
  {
    hide After; hide Passes; hide Scan; hide KindText; hide Word;
    if t.Param? {
      IdentIsWord(t.name);
    } else if t.Base? {
      KindIsWord(t.kind);
    } else {
      AnyIsWord();
    }
    WordCloses(Print(t), d);
  }

  lemma {:induction false} ListCloses(t: Type, d: Depth)
    requires t.ListOf? && Plain(t)
    ensures Closed(Print(t), d)
    decreases t, 0
  {
    hide After; hide Passes; hide Print; hide Scan;
    PrintCloses(t.elem, Scan(d, '<'));
    InsideBrackets('<', d);
    BracketsClose("list", '<', Print(t.elem), '>', d);
    ListText(t);
  }

  lemma {:induction false} TupleCloses(t: Type, d: Depth)
    requires t.Tuple? && Plain(t)
    ensures Closed(Print(t), d)
    decreases t, 0
  {
    hide After; hide Passes; hide Print; hide Joined; hide Scan;
    InsideBrackets('[', d);
    JoinedCloses(t.elems, ", ", Scan(d, '['));
    BracketsClose("", '[', Joined(t.elems, ", "), ']', d);
    TupleText(t);
  }

  lemma InsideBrackets(o: char, d: Depth)
    requires o in "<(["
    ensures Scan(d, o) != OUTSIDE
  {}

  lemma ListText(t: Type)
    requires t.ListOf?
    ensures Print(t) == "list" + ['<'] + Print(t.elem) + ['>']
  {}

  lemma TupleText(t: Type)
    requires t.Tuple?
    ensures Print(t) == "" + ['['] + Joined(t.elems, ", ") + [']']
  {
    hide Joined;
  }

  lemma MapText(t: Type)
    requires t.MapOf?
    ensures Print(t) == "map" + ['<'] + (Print(t.key) + ", " + Print(t.val)) + ['>']
  {
    var k, v := Print(t.key), Print(t.val);
    assert Print(t) == "map<" + k + ", " + v + ">";
    hide Print;
    assert "map<" == "map" + ['<'];
    assert ("map" + ['<']) + k + ", " + v + ">" == ("map" + ['<']) + (k + ", " + v) + ['>'];
  }

  lemma StructText(t: Type)
    requires t.Struct? && t.name != ""
    ensures Print(t) == "struct" + ['('] + t.name + [')']
  {}

  function RetText(t: Type): string
    requires t.Fn?
  {
    if t.ret.Some? then Print(t.ret.value) else "any"
  }

  function ParamsText(t: Type): string
    requires t.Fn?
  {
    if t.params == [] then "" else ", " + Joined(t.params, ", ")
  }

  lemma FnText(t: Type)
    requires t.Fn?
    ensures Print(t) == "fn" + ['<'] + (RetText(t) + ParamsText(t)) + ['>']
  {
    var a, b := RetText(t), ParamsText(t);
    assert Print(t) == "fn<" + a + b + ">";
    hide Print; hide RetText; hide ParamsText;
    assert "fn<" == "fn" + ['<'];
    assert ("fn" + ['<']) + a + b + ">" == ("fn" + ['<']) + (a + b) + ['>'];
  }

  lemma StructCloses(t: Type, d: Depth)
    requires t.Struct? && Plain(t)
    ensures Closed(Print(t), d)
  {
    hide After; hide Passes; hide Scan;
    if t.name == "" {
      WordCloses("struct", d);
    } else {
      IdentIsWord(t.name);
      WordCloses(t.name, Scan(d, '('));
      BracketsClose("struct", '(', t.name, ')', d);
      StructText(t);
    }
  }

  lemma {:induction false} MapCloses(t: Type, d: Depth)
    requires t.MapOf? && Plain(t)
    ensures Closed(Print(t), d)
    decreases t, 0
  {
    hide After; hide Passes; hide Print; hide Scan;
    var d1 := Scan(d, '<');
    InsideBrackets('<', d);
    PrintCloses(t.key, d1);
    PrintCloses(t.val, d1);
    SeparatorsClose(d1);
    ConcatCloses(Print(t.key), ", ", d1);
    ConcatCloses(Print(t.key) + ", ", Print(t.val), d1);
    BracketsClose("map", '<', Print(t.key) + ", " + Print(t.val), '>', d);
    MapText(t);
  }

  lemma {:induction false} FnCloses(t: Type, d: Depth)
    requires t.Fn? && Plain(t)
    ensures Closed(Print(t), d)
    decreases t, 0
  {
    hide After; hide Passes; hide Joined; hide Print; hide Scan;
    var d1 := Scan(d, '<');
    InsideBrackets('<', d);
    if t.ret.Some? {
      PrintCloses(t.ret.value, d1);
    } else {
      WordCloses("any", d1);
    }
    ParamsClose(t, d1);
    ConcatCloses(RetText(t), ParamsText(t), d1);
    BracketsClose("fn", '<', RetText(t) + ParamsText(t), '>', d);
    FnText(t);
  }

  lemma {:induction false} ParamsClose(t: Type, d: Depth)
    requires t.Fn? && Plain(t) && d != OUTSIDE
    ensures Closed(ParamsText(t), d)
    decreases t, 0, 0
  {
    hide After; hide Passes; hide Joined; hide Print;
    JoinedCloses(t.params, ", ", d);
    SeparatorsClose(d);
    WordCloses("", d);
    ConcatCloses(", ", Joined(t.params, ", "), d);
  }

  lemma {:induction false} JoinedCloses(ts: seq<Type>, sep: string, d: Depth)
    requires sep == ", " || sep == "|"
    requires forall i | 0 <= i < |ts| :: Plain(ts[i])
    ensures d != OUTSIDE ==> Closed(Joined(ts, sep), d)
    ensures sep == "|" ==> After(Joined(ts, sep), d) == d && Passes(Joined(ts, sep), ',', d)
    decreases ts, 0
  {
    hide After; hide Passes; hide Print;
    WordCloses("", d);
    if ts != [] {
      PrintCloses(ts[0], d);
      if |ts| > 1 {
        SeparatorsClose(d);
        JoinedCloses(ts[1..], sep, d);
        AfterConcat(Print(ts[0]), sep, d);
        AfterConcat(Print(ts[0]) + sep, Joined(ts[1..], sep), d);
      }
    }
  }

  // ----- cutting a printed text -----

  /** A text without separators outside brackets is not cut. */
  lemma {:induction false} CutThrough(w: string, rest: string, sep: char, d: Depth, cur: string)
    requires Passes(w, sep, d)
    ensures Cut(w + rest, sep, d, cur) == Cut(rest, sep, After(w, d), cur + w)
    decreases |w|
  {
    if w == "" {
      assert w + rest == rest && cur + w == cur;
    } else {
      assert (w + rest)[1..] == w[1..] + rest;
      assert cur + w == (cur + [w[0]]) + w[1..];
      CutThrough(w[1..], rest, sep, Scan(d, w[0]), cur + [w[0]]);
    }
  }

  /** Printed texts neither begin nor end with a space, and are not empty. */
  predicate Tight(s: string) { s != "" && !IsSpace(s[0]) && !IsSpace(s[|s| - 1]) }

  lemma TightTrim(s: string)
    requires Tight(s)
    ensures Trim(s) == s && Trim(" " + s) == s
  {
    assert (" " + s)[1..] == s;
    assert TrimLeft(s) == s;
  }

  lemma {:induction false} PrintTight(t: Type)
    requires Plain(t)
    ensures Tight(Print(t))
    decreases t, 0
  {
    match t
    case Union(options) => JoinedTight(options, "|");
    case _ =>
  }

  lemma {:induction false} JoinedTight(ts: seq<Type>, sep: string)
    requires ts != [] && forall i | 0 <= i < |ts| :: Plain(ts[i])
    ensures Tight(Joined(ts, sep))
    decreases ts, 0
  {
    hide Print;
    PrintTight(ts[0]);
    if |ts| > 1 {
      JoinedTight(ts[1..], sep);
    }
  }

  function Texts(ts: seq<Type>): (r: seq<string>)
    ensures |r| == |ts| && forall i | 0 <= i < |ts| :: r[i] == Print(ts[i])
  {
    seq(|ts|, i requires 0 <= i < |ts| => Print(ts[i]))
  }

  lemma JoinedMore(ts: seq<Type>, sep: string)
    requires |ts| > 1
    ensures Joined(ts, sep) == Print(ts[0]) + (sep + Joined(ts[1..], sep))
  {
    hide Print;
    assert Print(ts[0]) + sep + Joined(ts[1..], sep) == Print(ts[0]) + (sep + Joined(ts[1..], sep));
  }

  lemma CutComma(rest: string, cur: string)
    ensures Cut(", " + rest, ',', OUTSIDE, cur) == [Trim(cur)] + Cut(rest, ',', OUTSIDE, " ")
  {
    hide Trim;
    assert (", " + rest)[1..] == " " + rest && (" " + rest)[1..] == rest && "" + [' '] == " ";
  }

  lemma CutBar(rest: string, cur: string)
    ensures Cut("|" + rest, '|', OUTSIDE, cur) == [Trim(cur)] + Cut(rest, '|', OUTSIDE, "")
  {
    hide Trim;
    assert ("|" + rest)[1..] == rest;
  }

  /** A printed type up to the end of the text, or to the next separator. */
  lemma CutType(t: Type, rest: string, sep: char, cur: string)
    requires Plain(t) && (sep == ',' || (sep == '|' && !t.Union?)) && (cur == "" || cur == " ")
    ensures Cut(Print(t) + rest, sep, OUTSIDE, cur) == Cut(rest, sep, OUTSIDE, cur + Print(t))
    ensures Trim(cur + Print(t)) == Print(t)
  {
    hide Print; hide After; hide Passes; hide Trim; hide Cut;
    PrintCloses(t, OUTSIDE);
    PrintTight(t);
    TightTrim(Print(t));
    assert "" + Print(t) == Print(t);
    CutThrough(Print(t), rest, sep, OUTSIDE, cur);
  }

  lemma CutNothing(sep: char, cur: string)
    ensures Cut("", sep, OUTSIDE, cur) == [Trim(cur)]
  {}

  /** Splitting a list of types at its commas gives their texts. */
  lemma {:induction false} SplitList(ts: seq<Type>, cur: string)
    requires ts != [] && forall i | 0 <= i < |ts| :: Plain(ts[i])
    requires cur == "" || cur == " "
    ensures Cut(Joined(ts, ", "), ',', OUTSIDE, cur) == Texts(ts)
    decreases |ts|
  {
    hide Print; hide Trim; hide Cut; hide Plain;
    var w := Print(ts[0]);
    if |ts| == 1 {
      CutType(ts[0], "", ',', cur);
      CutNothing(',', cur + w);
      assert w + "" == w;
    } else {
      hide Joined;
      var rest := Joined(ts[1..], ", ");
      JoinedMore(ts, ", ");
      CutType(ts[0], ", " + rest, ',', cur);
      CutComma(rest, cur + w);
      SplitList(ts[1..], " ");
      TextsConcat([ts[0]], ts[1..]);
      assert ts == [ts[0]] + ts[1..];
    }
  }

  /** Cutting a text that starts with a type, at bars: its flat options, then what follows the next bar. */
  lemma {:induction false} SplitUnion(t: Type, rest: string)
    requires Plain(t) && (rest == "" || rest[0] == '|')
    ensures Cut(Print(t) + rest, '|', OUTSIDE, "") ==
            Texts(Flat(t)) + (if rest == "" then [] else Cut(rest[1..], '|', OUTSIDE, ""))
    decreases t, 1
  {
    hide After; hide Passes; hide Trim; hide Print; hide Cut; hide FlatEach;
    if t.Union? {
      UnionText(t);
      OptionsPlain(t);
      SplitOptions(t.options, rest);
    } else {
      CutType(t, rest, '|', "");
      assert "" + Print(t) == Print(t) && Texts(Flat(t)) == [Print(t)];
      if rest == "" {
        CutNothing('|', "" + Print(t));
      } else {
        CutBar(rest[1..], "" + Print(t));
        assert "|" + rest[1..] == rest;
      }
    }
  }

  lemma {:induction false} SplitOptions(ts: seq<Type>, rest: string)
    requires ts != [] && (rest == "" || rest[0] == '|') && forall i | 0 <= i < |ts| :: Plain(ts[i])
    ensures Cut(Joined(ts, "|") + rest, '|', OUTSIDE, "") ==
            Texts(FlatEach(ts)) + (if rest == "" then [] else Cut(rest[1..], '|', OUTSIDE, ""))
    decreases ts, 0
  {
    hide After; hide Passes; hide Trim; hide Cut; hide Print; hide Plain; hide Flat;
    FlatMore(ts);
    if |ts| == 1 {
      SplitUnion(ts[0], rest);
    } else {
      var more := Joined(ts[1..], "|") + rest;
      JoinedMore(ts, "|");
      hide Joined; hide FlatEach; hide Texts;
      assert Joined(ts, "|") + rest == Print(ts[0]) + ("|" + more);
      SplitUnion(ts[0], "|" + more);
      assert ("|" + more)[1..] == more;
      SplitOptions(ts[1..], rest);
      TextsConcat(Flat(ts[0]), FlatEach(ts[1..]));
    }
  }

  lemma FlatMore(ts: seq<Type>)
    requires ts != []
    ensures FlatEach(ts) == Flat(ts[0]) + FlatEach(ts[1..])
    ensures |ts| == 1 ==> FlatEach(ts) == Flat(ts[0])
  {
    hide Flat;
    assert |ts| == 1 ==> Flat(ts[0]) + [] == Flat(ts[0]);
  }

  lemma TextsConcat(a: seq<Type>, b: seq<Type>)
    ensures Texts(a + b) == Texts(a) + Texts(b)
  {
    hide Print;
  }

  // ----- reading back -----

  /** No brackets and no separators: none of the bracketed forms. */
  lemma WordWraps(s: string, open: string, close: char)
    requires Word(s) && open != "" && open[|open| - 1] in "<["
    ensures !Wraps(s, open, close)
  {
    if |open| < |s| {
      assert s[..|open|][|open| - 1] == s[|open| - 1];
    }
  }

  lemma TextWraps(open: string, x: string, close: char)
    ensures var s := open + x + [close]; Wraps(s, open, close) && (open != "" ==> Inner(s, open) == Trim(x))
  {
    hide Trim;
    var s := open + x + [close];
    assert s[..|open|] == open && s[|open|..|s| - 1] == x;
  }

  lemma OtherWraps(s: string, open: string, close: char)
    requires s != "" && open != "" && s[0] != open[0]
    ensures !Wraps(s, open, close)
  {
    assert |open| < |s| ==> s[..|open|][0] == s[0];
  }

  predicate Idents(typeParams: set<string>) { forall p | p in typeParams :: IsIdent(p) }

  lemma WordSingle(s: string, typeParams: set<string>)
    requires Word(s) && s != ""
    ensures ParseSingle(s, typeParams) == ParseName(s, typeParams)
  {
    hide Word; hide ParseName; hide Wraps;
    WordWraps(s, "[", ']');
    WordWraps(s, "list<", '>');
    WordWraps(s, "map<", '>');
    WordWraps(s, "chan<", '>');
    WordWraps(s, "task<", '>');
    WordWraps(s, "fn<", '>');
    WordWraps(s, "struct<", '>');
  }

  lemma {:induction false} ReadBackEach(ts: seq<Type>, typeParams: set<string>, bound: nat)
    requires Idents(typeParams)
    requires forall i | 0 <= i < |ts| :: Plain(ts[i]) && |Print(ts[i])| < bound
    ensures ParseEach(Texts(ts), typeParams, bound) == ReadEach(ts, typeParams)
    decreases ts, 0
  {
    hide Parse; hide Read; hide Print; hide Plain;
    if ts != [] {
      ReadBack(ts[0], typeParams);
      ReadBackEach(ts[1..], typeParams, bound);
      assert Texts(ts)[0] == Print(ts[0]) && Texts(ts)[1..] == Texts(ts[1..]);
    }
  }

  lemma {:induction false} ReadTuple(t: Type, typeParams: set<string>)
    requires t.Tuple? && Plain(t) && Idents(typeParams)
    ensures ParseSingle(Print(t), typeParams) == Read(t, typeParams)
    decreases t, 0
  {
    hide Parse; hide Print; hide Cut; hide Trim;
    var s, x := Print(t), Joined(t.elems, ", ");
    TupleText(t);
    assert s == "[" + x + [']'];
    TextWraps("[", x, ']');
    if t.elems == [] {
      assert Trim("") == "" by { TrimNothing(); }
      assert Defaults(ReadEach([], typeParams)) == [];
    } else {
      JoinedTight(t.elems, ", ");
      TightTrim(x);
      SplitList(t.elems, "");
      TextsBound(t.elems, x, |s|);
      ReadBackEach(t.elems, typeParams, |s|);
    }
  }

  lemma TrimNothing()
    ensures Trim("") == ""
  {}

  lemma TextsBound(ts: seq<Type>, x: string, bound: nat)
    requires Split(x, ',') == Texts(ts) && |x| < bound
    ensures forall i | 0 <= i < |ts| :: |Print(ts[i])| < bound
  {
    hide Cut; hide Print;
    assert forall i | 0 <= i < |ts| :: Texts(ts)[i] in Texts(ts);
  }

  lemma {:induction false} ReadList(t: Type, typeParams: set<string>)
    requires t.ListOf? && Plain(t) && Idents(typeParams)
    ensures ParseSingle(Print(t), typeParams) == Read(t, typeParams)
    decreases t, 0
  {
    hide Parse; hide Print; hide Trim;
    var s, x := Print(t), Print(t.elem);
    ListText(t);
    assert s == "list<" + x + ['>'];
    TextWraps("list<", x, '>');
    OtherWraps(s, "[", ']');
    PrintTight(t.elem);
    TightTrim(x);
    ReadBack(t.elem, typeParams);
  }

  lemma {:induction false} ReadMap(t: Type, typeParams: set<string>)
    requires t.MapOf? && Plain(t) && Idents(typeParams)
    ensures ParseSingle(Print(t), typeParams) == Read(t, typeParams)
    decreases t, 0
  {
    hide Parse; hide Print; hide Trim; hide Cut; hide Joined;
    var s, ts := Print(t), [t.key, t.val];
    var x := Joined(ts, ", ");
    MapText(t);
    PairText(t.key, t.val);
    assert s == "map<" + x + ['>'];
    TextWraps("map<", x, '>');
    OtherWraps(s, "[", ']');
    OtherWraps(s, "list<", '>');
    JoinedTight(ts, ", ");
    TightTrim(x);
    SplitList(ts, "");
    assert Texts(ts) == [Print(t.key), Print(t.val)];
    ReadBack(t.key, typeParams);
    ReadBack(t.val, typeParams);
  }

  lemma PairText(k: Type, v: Type)
    ensures Joined([k, v], ", ") == Print(k) + ", " + Print(v)
  {
    hide Print;
    assert [k, v][1..] == [v];
  }

  lemma {:induction false} ReadFn(t: Type, typeParams: set<string>)
    requires t.Fn? && Plain(t) && Idents(typeParams)
    ensures ParseSingle(Print(t), typeParams) == Read(t, typeParams)
    decreases t, 0
  {
    hide Parse; hide Print; hide Trim; hide Cut; hide Joined; hide Tight; hide RetText; hide ParamsText;
    var ret := if t.ret.Some? then t.ret.value else Any;
    var s, ts := Print(t), [ret] + t.params;
    var x := Joined(ts, ", ");
    FnText(t);
    FnParts(t);
    assert s == "fn<" + x + ['>'];
    TextWraps("fn<", x, '>');
    OtherWraps(s, "[", ']');
    OtherWraps(s, "list<", '>');
    OtherWraps(s, "map<", '>');
    OtherWraps(s, "chan<", '>');
    OtherWraps(s, "task<", '>');
    JoinedTight(ts, ", ");
    TightTrim(x);
    SplitList(ts, "");
    TextsBound(ts, x, |s|);
    assert Texts(ts)[1..] == Texts(t.params);
    assert forall i | 0 <= i < |t.params| :: t.params[i] == ts[i + 1];
    ReadBackEach(t.params, typeParams, |s|);
    if t.ret.Some? {
      ReadBack(ret, typeParams);
    } else {
      ReadAny(typeParams);
    }
  }

  lemma FnParts(t: Type)
    requires t.Fn?
    ensures RetText(t) + ParamsText(t) == Joined([if t.ret.Some? then t.ret.value else Any] + t.params, ", ")
    ensures RetText(t) == Print(if t.ret.Some? then t.ret.value else Any)
  {
    var ret := if t.ret.Some? then t.ret.value else Any;
    assert Print(Any) == "any";
    hide Print;
    var ts := [ret] + t.params;
    assert ts[1..] == t.params;
    if t.params != [] {
      JoinedMore(ts, ", ");
    }
  }

  lemma ReadAny(typeParams: set<string>)
    ensures Parse("any", typeParams) == Some(Any) && Print(Any) == "any"
  {
    NameReads("any", typeParams);
  }

  /** A word is parsed as a name. */
  lemma NameReads(s: string, typeParams: set<string>)
    requires Word(s) && Tight(s)
    ensures Parse(s, typeParams) == ParseName(s, typeParams)
  {
    hide ParseName; hide Trim; hide Cut; hide After; hide Passes; hide ParseSingle;
    TightTrim(s);
    WordCloses(s, OUTSIDE);
    CutThrough(s, "", '|', OUTSIDE, "");
    CutNothing('|', "" + s);
    assert s + "" == s && "" + s == s;
    assert Split(s, '|') == [s];
    WordSingle(s, typeParams);
  }

  lemma ReadStruct(t: Type, typeParams: set<string>)
    requires t.Struct? && t.name != "" && Plain(t) && Idents(typeParams)
    ensures ParseSingle(Print(t), typeParams) == None
  {
    hide Trim;
    var s := Print(t);
    StructText(t);
    assert s == "struct(" + t.name + ")";
    hide Print;
    assert s[6] == '(';
    assert |s| > 7 ==> s[..7][6] == s[6];
    OtherWraps(s, "[", ']');
    OtherWraps(s, "list<", '>');
    OtherWraps(s, "map<", '>');
    OtherWraps(s, "chan<", '>');
    OtherWraps(s, "task<", '>');
    OtherWraps(s, "fn<", '>');
    assert !IsIdent(s);
    assert KindNamed(s).None?;
  }

  lemma KindsAreRead(k: Kind, typeParams: set<string>)
    ensures Word(KindText(k)) && KindText(k) != "" && ParseName(KindText(k), typeParams) == Some(Base(k))
  {}

  lemma NamesAreRead(typeParams: set<string>)
    ensures ParseName("any", typeParams) == Some(Any) && ParseName("struct", typeParams) == Some(Struct(""))
  {}

  lemma {:induction false} ReadSingle(t: Type, typeParams: set<string>)
    requires Plain(t) && Idents(typeParams) && !t.Union?
    ensures Print(t) != "" && ParseSingle(Print(t), typeParams) == Read(t, typeParams)
    decreases t, 1
  {
    hide Parse; hide ParseSingle; hide Trim; hide ParseName;
    PrintTight(t);
    if t.Any? {
      WordSingle("any", typeParams);
      NamesAreRead(typeParams);
    } else if t.Base? {
      KindsAreRead(t.kind, typeParams);
      WordSingle(KindText(t.kind), typeParams);
    } else if t.ListOf? {
      ReadList(t, typeParams);
    } else if t.Tuple? {
      ReadTuple(t, typeParams);
    } else if t.MapOf? {
      ReadMap(t, typeParams);
    } else if t.Fn? {
      ReadFn(t, typeParams);
    } else if t.Param? {
      IdentIsWord(t.name);
      WordSingle(t.name, typeParams);
    } else if t.name == "" {
      WordSingle("struct", typeParams);
      NamesAreRead(typeParams);
    } else {
      ReadStruct(t, typeParams);
    }
  }

  /** Parsing the text of any type gives the type `Read` describes. */
  lemma {:induction false} ReadBack(t: Type, typeParams: set<string>)
    requires Plain(t) && Idents(typeParams)
    ensures Parse(Print(t), typeParams) == Read(t, typeParams)
    decreases t, 2
  {
    hide ParseSingle; hide Trim; hide Cut; hide Print; hide Plain; hide ReadUnion;
    var s, fs := Print(t), Flat(t);
    PrintTight(t);
    TightTrim(s);
    SplitUnion(t, "");
    assert s + "" == s && Split(s, '|') == Texts(fs);
    if t.Union? {
      ReadBackUnion(t, typeParams);
    } else {
      ReadSingle(t, typeParams);
    }
  }

  lemma {:induction false} ParseEachIs(parts: seq<string>, rs: seq<Option<Type>>, typeParams: set<string>, bound: nat)
    requires |parts| == |rs| && forall p | p in parts :: |p| < bound
    requires forall i | 0 <= i < |parts| :: Parse(parts[i], typeParams) == rs[i]
    ensures ParseEach(parts, typeParams, bound) == rs
    decreases |parts|
  {
    hide Parse;
    if parts != [] {
      ParseEachIs(parts[1..], rs[1..], typeParams, bound);
      assert rs == [rs[0]] + rs[1..];
    }
  }

  lemma {:induction false} FlatPlain(t: Type)
    requires Plain(t)
    ensures Flat(t) != [] && forall f | f in Flat(t) :: Plain(f)
    ensures |Flat(t)| == 1 ==> Print(t) == Print(Flat(t)[0])
    decreases t, 1
  {
    hide Print;
    if t.Union? {
      FlatEachPlain(t.options);
      UnionText(t);
    }
  }

  lemma UnionText(t: Type)
    requires t.Union?
    ensures Print(t) == Joined(t.options, "|")
  {}

  lemma {:induction false} FlatEachPlain(ts: seq<Type>)
    requires forall i | 0 <= i < |ts| :: Plain(ts[i])
    ensures |FlatEach(ts)| >= |ts| && forall f | f in FlatEach(ts) :: Plain(f)
    ensures |FlatEach(ts)| == 1 && ts != [] ==> Joined(ts, "|") == Print(FlatEach(ts)[0])
    decreases ts, 0
  {
    hide Print; hide Flat;
    if ts != [] {
      FlatMore(ts);
      FlatPlain(ts[0]);
      FlatEachPlain(ts[1..]);
    }
  }

  lemma {:induction false} ReadBackUnion(t: Type, typeParams: set<string>)
    requires t.Union? && Plain(t) && Idents(typeParams)
    requires Tight(Print(t)) && Trim(Print(t)) == Print(t) && Split(Print(t), '|') == Texts(Flat(t))
    ensures Parse(Print(t), typeParams) == ReadUnion(t, typeParams)
    decreases t, 0
  {
    hide ParseSingle; hide Trim; hide Cut; hide Print; hide Plain; hide Read; hide Flat;
    var s, fs := Print(t), Flat(t);
    FlatPlain(t);
    assert forall i | 0 <= i < |fs| :: fs[i] in fs && Texts(fs)[i] in Texts(fs);
    forall i | 0 <= i < |fs| ensures Parse(Print(fs[i]), typeParams) == Read(fs[i], typeParams) {
      ReadBack(fs[i], typeParams);
    }
    if |fs| > 1 {
      hide Parse;
      ParseEachIs(Texts(fs), seq(|fs|, i requires 0 <= i < |fs| => Read(fs[i], typeParams)), typeParams, |s|);
      ParseUnion(s, typeParams);
    }
  }

  lemma ParseUnion(s: string, typeParams: set<string>)
    requires s != "" && Trim(s) == s && |Split(s, '|')| > 1
    ensures Parse(s, typeParams) ==
      var options := Present(ParseEach(Split(s, '|'), typeParams, |s|));
      if options == [] then None else Some(Union(options))
  {
    hide ParseSingle; hide Trim; hide Cut; hide ParseEach;
  }

  // ----- which types survive -----

  const KEYWORDS := {"any", "?", "nil", "bool", "num", "str", "bytes", "sym", "symbol", "task", "chan", "list", "map",
    "fn", "struct"}

  /** No struct names, no variadic or untyped functions, no unions of unions or of one option, and no type parameter
      that is unknown or has the name of a type. */
  predicate Stable(t: Type, typeParams: set<string>)
    decreases t
  {
    match t
    case Any => true
    case Base(_) => true
    case ListOf(e) => Stable(e, typeParams)
    case Tuple(es) => forall i | 0 <= i < |es| :: Stable(es[i], typeParams)
    case MapOf(k, v) => Stable(k, typeParams) && Stable(v, typeParams)
    case Fn(ret, params, variadic) =>
      ret.Some? && Stable(ret.value, typeParams) && !variadic && forall i | 0 <= i < |params| ::
        Stable(params[i], typeParams)
    case Struct(name) => name == ""
    case Param(name) => name in typeParams && name !in KEYWORDS
    case Union(options) => |options| >= 2 && forall i | 0 <= i < |options| ::
      !options[i].Union? && Stable(options[i], typeParams)
  }

  lemma {:induction false} ReadAt(ts: seq<Type>, typeParams: set<string>)
    ensures |Defaults(ReadEach(ts, typeParams))| == |ts|
    ensures forall i | 0 <= i < |ts| :: Defaults(ReadEach(ts, typeParams))[i] == OrAny(Read(ts[i], typeParams))
    decreases |ts|
  {
    hide Read;
    if ts != [] {
      ReadAt(ts[1..], typeParams);
      assert ReadEach(ts, typeParams)[1..] == ReadEach(ts[1..], typeParams);
    }
  }

  lemma {:induction false} ReadAllIff(ts: seq<Type>, typeParams: set<string>)
    requires forall i | 0 <= i < |ts| :: Plain(ts[i])
    ensures Defaults(ReadEach(ts, typeParams)) == ts <==> forall i | 0 <= i < |ts| :: Stable(ts[i], typeParams)
    decreases ts, 0
  {
    hide Read; hide Plain; hide ReadEach; hide Defaults; hide Stable;
    ReadAt(ts, typeParams);
    var rs := Defaults(ReadEach(ts, typeParams));
    forall i | 0 <= i < |ts| ensures rs[i] == ts[i] <==> Stable(ts[i], typeParams) {
      ReadIff(ts[i], typeParams);
    }
  }

  lemma ParamReads(name: string, typeParams: set<string>)
    requires IsIdent(name)
    ensures ParseName(name, typeParams) == Some(Param(name)) <==> name in typeParams && name !in KEYWORDS
  {}

  /** Parsing gives a type for itself exactly when it is stable, and otherwise something else than an option of a union.
      */
  lemma {:induction false} ReadIff(t: Type, typeParams: set<string>)
    requires Plain(t)
    ensures Read(t, typeParams) == Some(t) <==> Stable(t, typeParams)
    ensures OrAny(Read(t, typeParams)) == t <==> Stable(t, typeParams)
    decreases t, 1
  {
    hide ReadEach; hide Defaults; hide ParseName; hide ReadUnion;
    if t.ListOf? {
      ReadIff(t.elem, typeParams);
    } else if t.Tuple? {
      ReadAllIff(t.elems, typeParams);
    } else if t.MapOf? {
      ReadIff(t.key, typeParams);
      ReadIff(t.val, typeParams);
    } else if t.Fn? {
      if t.ret.Some? {
        ReadIff(t.ret.value, typeParams);
      }
      ReadAllIff(t.params, typeParams);
    } else if t.Param? {
      ParamReads(t.name, typeParams);
    } else if t.Union? {
      ReadUnionIff(t, typeParams);
    }
  }

  lemma ReadOneIsSingle(t: Type, typeParams: set<string>)
    requires !t.Union?
    ensures Read(t, typeParams).Some? ==> !Read(t, typeParams).value.Union?
  {
    hide Defaults; hide ReadEach;
  }

  lemma {:induction false} PresentAll(ts: seq<Option<Type>>)
    ensures |Present(ts)| <= |ts|
    ensures |Present(ts)| == |ts| ==> forall i | 0 <= i < |ts| :: ts[i] == Some(Present(ts)[i])
    ensures (forall i | 0 <= i < |ts| :: ts[i].Some?) ==> |Present(ts)| == |ts|
    ensures forall o | o in Present(ts) :: Some(o) in ts
    decreases |ts|
  {
    if ts != [] {
      PresentAll(ts[1..]);
      assert forall i | 0 < i < |ts| :: ts[i] == ts[1..][i - 1];
    }
  }

  lemma {:induction false} FlatOfSingles(ts: seq<Type>)
    requires forall i | 0 <= i < |ts| :: !ts[i].Union?
    ensures FlatEach(ts) == ts
    decreases |ts|
  {
    if ts != [] {
      FlatMore(ts);
      FlatOfSingles(ts[1..]);
    }
  }

  lemma {:induction false} ReadUnionIff(t: Type, typeParams: set<string>)
    requires t.Union? && Plain(t)
    ensures ReadUnion(t, typeParams) == Some(t) <==> Stable(t, typeParams)
    ensures OrAny(ReadUnion(t, typeParams)) == t <==> Stable(t, typeParams)
    decreases t, 0
  {
    hide Read; hide ReadUnion; hide Plain;
    var options := t.options;
    ReadUnionSingles(t, typeParams);
    OptionsPlain(t);
    if forall i | 0 <= i < |options| :: !options[i].Union? {
      forall i | 0 <= i < |options|
        ensures Read(options[i], typeParams) == Some(options[i]) <==> Stable(options[i], typeParams) {
        ReadIff(options[i], typeParams);
      }
      ReadUnionOf(t, typeParams);
    }
  }

  lemma OptionsPlain(t: Type)
    requires t.Union? && Plain(t)
    ensures t.options != [] && forall i | 0 <= i < |t.options| :: Plain(t.options[i])
  {}

  /** No option of a union that is read is a union. */
  lemma ReadUnionSingles(t: Type, typeParams: set<string>)
    requires t.Union?
    ensures var r := ReadUnion(t, typeParams);
            r.Some? && r.value.Union? ==> forall i | 0 <= i < |r.value.options| :: !r.value.options[i].Union?
  {
    hide Read;
    var fs := Flat(t);
    assert forall i | 0 <= i < |fs| :: fs[i] in fs;
    forall i | 0 <= i < |fs| ensures Read(fs[i], typeParams).Some? ==> !Read(fs[i], typeParams).value.Union? {
      ReadOneIsSingle(fs[i], typeParams);
    }
    if |fs| != 1 {
      var rs := seq(|fs|, i requires 0 <= i < |fs| => Read(fs[i], typeParams));
      PresentAll(rs);
      assert forall o | o in Present(rs) :: Some(o) in rs;
      assert forall i | 0 <= i < |Present(rs)| :: Present(rs)[i] in Present(rs);
    }
  }

  /** A union of types that are not unions is read as itself when there are several and each is. */
  lemma ReadUnionOf(t: Type, typeParams: set<string>)
    requires t.Union? && t.options != [] && forall i | 0 <= i < |t.options| :: !t.options[i].Union?
    ensures OrAny(ReadUnion(t, typeParams)) == t <==>
            |t.options| >= 2 && forall i | 0 <= i < |t.options| :: Read(t.options[i], typeParams) == Some(t.options[i])
  {
    hide Read;
    FlatOfSingles(t.options);
    if |t.options| == 1 {
      ReadOneIsSingle(t.options[0], typeParams);
    } else {
      var rs := seq(|t.options|, i requires 0 <= i < |t.options| => Read(t.options[i], typeParams));
      PresentAll(rs);
      if forall i | 0 <= i < |t.options| :: Read(t.options[i], typeParams) == Some(t.options[i]) {
        assert forall i | 0 <= i < |t.options| :: rs[i] == Some(t.options[i]);
        assert Present(rs) == t.options;
      }
    }
  }

  /** A type is its own text's type exactly when it is stable. */
  lemma RoundTripIff(t: Type, typeParams: set<string>)
    requires Plain(t) && Idents(typeParams)
    ensures Parse(Print(t), typeParams) == Some(t) <==> Stable(t, typeParams)
  {
    hide Parse; hide Print; hide Read; hide Stable; hide Plain;
    ReadBack(t, typeParams);
    ReadIff(t, typeParams);
  }

  /** Stable types with the same text are the same. */
  lemma TextsTellApart(t: Type, u: Type, typeParams: set<string>)
    requires Plain(t) && Plain(u) && Stable(t, typeParams) && Stable(u, typeParams) && Idents(typeParams)
    requires Print(t) == Print(u)
    ensures t == u
  {
    hide Parse; hide Print; hide Read; hide Stable; hide Plain;
    RoundTripIff(t, typeParams);
    RoundTripIff(u, typeParams);
  }

  predicate Blank(s: string) { forall i | 0 <= i < |s| :: s[i] in {' ', '\t', '\n', '\r'} }

  /** Blanks, tabs and line ends around a type make no difference. */
  lemma SpacesDoNotMatter(a: string, s: string, b: string, typeParams: set<string>)
    requires Blank(a) && Blank(b) && s != "" && !Blank([s[0]]) && !Blank([s[|s| - 1]])
    ensures Parse(a + s + b, typeParams) == Parse(s, typeParams)
  {
    assert [s[0]][0] == s[0] && [s[|s| - 1]][0] == s[|s| - 1];
    TrimBefore(a, s + b);
    TrimAfter(s, b);
    TrimAfter(s, "");
    assert a + s + b == a + (s + b) && s + "" == s;
    assert TrimLeft(s + b) == s + b && TrimLeft(s) == s;
    hide Split; hide ParseSingle; hide ParseEach; hide TrimLeft; hide TrimRight;
    assert Trim(a + s + b) == s == Trim(s);
  }

  lemma {:induction false} TrimBefore(a: string, s: string)
    requires Blank(a) && s != "" && !IsSpace(s[0])
    ensures TrimLeft(a + s) == s
    decreases |a|
  {
    if a == "" {
      assert a + s == s;
    } else {
      assert (a + s)[0] == a[0] && (a + s)[1..] == a[1..] + s;
      TrimBefore(a[1..], s);
    }
  }

  lemma {:induction false} TrimAfter(s: string, b: string)
    requires Blank(b) && s != "" && !IsSpace(s[|s| - 1])
    ensures TrimRight(s + b) == s
    decreases |b|
  {
    if b == "" {
      assert s + b == s;
    } else {
      var n := |b| - 1;
      assert (s + b)[..|s| + n] == s + b[..n] && (s + b)[|s| + n] == b[n];
      TrimAfter(s, b[..n]);
    }
  }

  // ----- what texts mean -----

  /** The names the language knows, and their types. */
  predicate Known(word: string, t: Type) {
    match t
    case Any => word == "any" || word == "?"
    case Base(NilKind) => word == "nil"
    case Base(BoolKind) => word == "bool"
    case Base(NumKind) => word == "num"
    case Base(StrKind) => word == "str"
    case Base(BytesKind) => word == "bytes"
    case Base(SymKind) => word == "sym" || word == "symbol"
    case Base(TaskKind) => word == "task"
    case Base(ChanKind) => word == "chan"
    case ListOf(e) => word == "list" && e == Any
    case MapOf(k, v) => word == "map" && k == v == Any
    case Fn(ret, params, variadic) => word == "fn" && ret == None && params == [] && !variadic
    case Struct(name) => word == "struct" && name == ""
    case _ => false
  }

  /** A name the language knows is its type, whatever the type parameters; another is a type parameter or a struct. */
  lemma NamesParse(word: string, typeParams: set<string>)
    ensures forall t | Known(word, t) :: Parse(word, typeParams) == Some(t)
    ensures IsIdent(word) && !(exists t :: Known(word, t)) ==>
      Parse(word, typeParams) == Some(if word in typeParams then Param(word) else Struct(word))
  {
    forall t | Known(word, t) ensures Parse(word, typeParams) == Some(t) {
      KnownIsRead(word, t, typeParams);
      NameReads(word, typeParams);
    }
    if IsIdent(word) && !(exists t :: Known(word, t)) {
      OtherIsRead(word, typeParams);
      IdentIsWord(word);
      NameReads(word, typeParams);
    }
  }

  lemma KnownIsRead(word: string, t: Type, typeParams: set<string>)
    requires Known(word, t)
    ensures Word(word) && Tight(word) && ParseName(word, typeParams) == Some(t)
  {
    if t.Base? {
      hide ParseName; hide Word; hide Tight;
      KindIsRead(word, t.kind, typeParams);
    } else if t.Any? {
      AnyIsRead(word, typeParams);
    } else {
      FormIsRead(word, t, typeParams);
    }
  }

  lemma AnyIsRead(word: string, typeParams: set<string>)
    requires Known(word, Any)
    ensures Word(word) && Tight(word) && ParseName(word, typeParams) == Some(Any)
  {}

  lemma FormIsRead(word: string, t: Type, typeParams: set<string>)
    requires Known(word, t) && !t.Base? && !t.Any?
    ensures Word(word) && Tight(word) && ParseName(word, typeParams) == Some(t)
  {
    AngleWords();
    hide Word; hide Tight;
  }

  lemma KindIsRead(word: string, k: Kind, typeParams: set<string>)
    requires Known(word, Base(k))
    ensures Word(word) && Tight(word) && ParseName(word, typeParams) == Some(Base(k))
  {
    if word != "symbol" {
      KindsAreRead(k, typeParams);
      PrintTight(Base(k));
      assert word == KindText(k);
    }
  }

  lemma OtherIsRead(word: string, typeParams: set<string>)
    requires IsIdent(word) && !(exists t :: Known(word, t))
    ensures Tight(word)
    ensures ParseName(word, typeParams) == Some(if word in typeParams then Param(word) else Struct(word))
  {
    assert !Known(word, Any) && !Known(word, ListOf(Any)) && !Known(word, MapOf(Any, Any)) && !Known(word, Struct(""));
    assert !Known(word, Fn(None, [], false));
    assert KindNamed(word).Some? ==> Known(word, Base(KindNamed(word).value));
  }

  /** The types written with angle brackets around one text. */
  lemma AnglesParse(x: string, typeParams: set<string>)
    requires Tight(x) && Closed(x, Depth(1, 0, 0))
    ensures Parse("list<" + x + ">", typeParams) == Some(ListOf(OrAny(Parse(x, typeParams))))
    ensures Parse("chan<" + x + ">", typeParams) == Some(Base(ChanKind))
    ensures Parse("task<" + x + ">", typeParams) == Some(Base(TaskKind))
    ensures Parse("struct<" + x + ">", typeParams) == Some(Struct(x))
  {
    hide Parse; hide ParseSingle; hide Trim; hide Closed; hide Tight; hide Wraps;
    ListParses(x, typeParams);
    HandleParses("chan", x, typeParams);
    HandleParses("task", x, typeParams);
    StructParses(x, typeParams);
    assert "chan" + "<" == "chan<" && "task" + "<" == "task<";
  }

  /** A map with one part and a function without parameters. */
  lemma OnePartParses(x: string, typeParams: set<string>)
    requires Tight(x) && Closed(x, Depth(1, 0, 0)) && Closed(x, OUTSIDE)
    ensures Parse("map<" + x + ">", typeParams) == Some(MapOf(Any, Any))
    ensures Parse("fn<" + x + ">", typeParams) == Some(Fn(Some(OrAny(Parse(x, typeParams))), [], false))
  {
    hide Parse; hide Trim; hide Closed; hide Tight; hide Word; hide Wraps; hide Cut;
    OneMapPart(x, typeParams);
    OneFnPart(x, typeParams);
  }

  lemma OneMapPart(x: string, typeParams: set<string>)
    requires Tight(x) && Closed(x, Depth(1, 0, 0)) && Closed(x, OUTSIDE)
    ensures Parse("map<" + x + ">", typeParams) == Some(MapOf(Any, Any))
  {
    AngleWords();
    TightTrim(x);
    CommaFree(x);
    assert "map" + "<" == "map<";
    OtherWraps("map<" + x + ">", "list<", '>');
    hide Parse; hide Trim; hide Closed; hide Tight; hide Word; hide Wraps; hide Cut;
    AngleIsSingle("map", x, typeParams);
  }

  lemma OneFnPart(x: string, typeParams: set<string>)
    requires Tight(x) && Closed(x, Depth(1, 0, 0)) && Closed(x, OUTSIDE)
    ensures Parse("fn<" + x + ">", typeParams) == Some(Fn(Some(OrAny(Parse(x, typeParams))), [], false))
  {
    AngleWords();
    TightTrim(x);
    CommaFree(x);
    assert "fn" + "<" == "fn<";
    var s := "fn<" + x + ">";
    OtherWraps(s, "list<", '>');
    OtherWraps(s, "map<", '>');
    OtherWraps(s, "chan<", '>');
    OtherWraps(s, "task<", '>');
    hide Parse; hide Trim; hide Closed; hide Tight; hide Word; hide Wraps; hide Cut;
    AngleIsSingle("fn", x, typeParams);
    assert Defaults(ParseEach([], typeParams, |s|)) == [];
  }

  lemma CommaFree(x: string)
    requires Closed(x, OUTSIDE) && Trim(x) == x
    ensures Split(x, ',') == [x]
  {
    hide Trim; hide Cut; hide After; hide Passes;
    CutThrough(x, "", ',', OUTSIDE, "");
    CutNothing(',', "" + x);
    assert x + "" == x && "" + x == x;
  }

  lemma AngleWords()
    ensures forall w | w in {"list", "map", "chan", "task", "fn", "struct"} :: Word(w) && Tight(w)
  {}

  lemma ListParses(x: string, typeParams: set<string>)
    requires Tight(x) && Closed(x, Depth(1, 0, 0))
    ensures Parse("list<" + x + ">", typeParams) == Some(ListOf(OrAny(Parse(x, typeParams))))
  {
    AngleWords();
    TightTrim(x);
    assert "list" + "<" == "list<";
    hide Parse; hide Trim; hide Closed; hide Tight; hide Word; hide Wraps;
    AngleIsSingle("list", x, typeParams);
  }

  lemma HandleParses(w: string, x: string, typeParams: set<string>)
    requires (w == "chan" || w == "task") && Tight(x) && Closed(x, Depth(1, 0, 0))
    ensures Parse(w + "<" + x + ">", typeParams) == Some(Base(if w == "chan" then ChanKind else TaskKind))
  {
    AngleWords();
    var s := w + "<" + x + ">";
    assert w[0] in "ct";
    OtherWraps(s, "list<", '>');
    OtherWraps(s, "map<", '>');
    assert w + "<" == if w == "chan" then "chan<" else "task<";
    if w == "task" { OtherWraps(s, "chan<", '>'); }
    hide Parse; hide Trim; hide Closed; hide Tight; hide Word; hide Wraps;
    AngleIsSingle(w, x, typeParams);
  }

  lemma StructParses(x: string, typeParams: set<string>)
    requires Tight(x) && Closed(x, Depth(1, 0, 0))
    ensures Parse("struct<" + x + ">", typeParams) == Some(Struct(x))
  {
    AngleWords();
    TightTrim(x);
    var s := "struct<" + x + ">";
    OtherWraps(s, "list<", '>');
    OtherWraps(s, "map<", '>');
    OtherWraps(s, "chan<", '>');
    OtherWraps(s, "task<", '>');
    OtherWraps(s, "fn<", '>');
    assert "struct" + "<" == "struct<";
    hide Parse; hide Trim; hide Closed; hide Tight; hide Word; hide Wraps;
    AngleIsSingle("struct", x, typeParams);
  }

  lemma AngleIsSingle(w: string, x: string, typeParams: set<string>)
    requires Word(w) && Tight(w) && Tight(x) && Closed(x, Depth(1, 0, 0))
    ensures var s := w + "<" + x + ">"; s != "" && Parse(s, typeParams) == ParseSingle(s, typeParams)
    ensures var s := w + "<" + x + ">";
            Wraps(s, w + "<", '>') && Inner(s, w + "<") == Trim(x) && !Wraps(s, "[", ']')
  {
    var s := w + "<" + x + ">";
    hide Trim; hide Cut; hide ParseSingle; hide Closed;
    BracketsClose(w, '<', x, '>', OUTSIDE);
    assert s == w + ['<'] + x + ['>'];
    assert Closed(s, OUTSIDE);
    assert Tight(s);
    TightTrim(s);
    SplitClosed(s);
    TextWraps(w + "<", x, '>');
    OtherWraps(s, "[", ']');
  }

  lemma SplitClosed(s: string)
    requires Closed(s, OUTSIDE) && Trim(s) == s
    ensures Split(s, '|') == [s]
  {
    hide Trim; hide Cut; hide After; hide Passes;
    CutThrough(s, "", '|', OUTSIDE, "");
    CutNothing('|', "" + s);
    assert s + "" == s && "" + s == s;
  }

  /** Types of every form, and how they are written. */
  lemma Written(typeParams: set<string>)
    requires Idents(typeParams)
    ensures Parse("map<str, list<num>>", typeParams) == Some(MapOf(Base(StrKind), ListOf(Base(NumKind))))
    ensures Parse("[num, bool]", typeParams) == Some(Tuple([Base(NumKind), Base(BoolKind)]))
    ensures Parse("fn<nil, bytes, any>", typeParams) == Some(Fn(Some(Base(NilKind)), [Base(BytesKind), Any], false))
    ensures Parse("sym|struct", typeParams) == Some(Union([Base(SymKind), Struct("")]))
  {
    hide Parse; hide Print; hide Stable; hide Plain;
    WrittenMap(typeParams);
    WrittenTuple(typeParams);
    WrittenFn(typeParams);
    WrittenUnion(typeParams);
  }

  lemma WrittenMap(typeParams: set<string>)
    requires Idents(typeParams)
    ensures Parse("map<str, list<num>>", typeParams) == Some(MapOf(Base(StrKind), ListOf(Base(NumKind))))
  {
    hide Parse;
    var t := MapOf(Base(StrKind), ListOf(Base(NumKind)));
    assert Print(t) == "map<str, list<num>>" && Plain(t) && Stable(t, typeParams);
    RoundTripIff(t, typeParams);
  }

  lemma WrittenTuple(typeParams: set<string>)
    requires Idents(typeParams)
    ensures Parse("[num, bool]", typeParams) == Some(Tuple([Base(NumKind), Base(BoolKind)]))
  {
    hide Parse;
    var ts := [Base(NumKind), Base(BoolKind)];
    PairText(ts[0], ts[1]);
    assert Print(Tuple(ts)) == "[num, bool]" && Plain(Tuple(ts)) && Stable(Tuple(ts), typeParams);
    RoundTripIff(Tuple(ts), typeParams);
  }

  lemma WrittenFn(typeParams: set<string>)
    requires Idents(typeParams)
    ensures Parse("fn<nil, bytes, any>", typeParams) == Some(Fn(Some(Base(NilKind)), [Base(BytesKind), Any], false))
  {
    hide Parse;
    var ts := [Base(BytesKind), Any];
    var t := Fn(Some(Base(NilKind)), ts, false);
    PairText(ts[0], ts[1]);
    assert Print(t) == "fn<nil, bytes, any>" && Plain(t) && Stable(t, typeParams);
    RoundTripIff(t, typeParams);
  }

  lemma WrittenUnion(typeParams: set<string>)
    requires Idents(typeParams)
    ensures Parse("sym|struct", typeParams) == Some(Union([Base(SymKind), Struct("")]))
  {
    hide Parse;
    var ts := [Base(SymKind), Struct("")];
    JoinedMore(ts, "|");
    assert ts[1..] == [Struct("")];
    assert Print(Union(ts)) == "sym|struct" && Plain(Union(ts)) && Stable(Union(ts), typeParams);
    RoundTripIff(Union(ts), typeParams);
  }
}
