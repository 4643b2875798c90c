/** Types as the running program sees them: their printed form and the parser that reads it back. */
module Types {
  import opened Values

  datatype Kind = NilKind | BoolKind | NumKind | StrKind | BytesKind | SymKind | TaskKind | ChanKind

  datatype Type =
    | Any
    | Base(kind: Kind)
    | ListOf(elem: Type)
    | Tuple(elems: seq<Type>)
    | MapOf(key: Type, val: Type)
    | Fn(ret: Option<Type>, params: seq<Type>, variadic: bool)   // no `ret`: any function
    | Struct(name: string)                                       // no name: any struct
    | Param(name: string)                                        // a type parameter
    | Union(options: seq<Type>)

  // ----- printing -----

  function KindText(k: Kind): string {
    match k
    case NilKind => "nil"
    case BoolKind => "bool"
    case NumKind => "num"
    case StrKind => "str"
    case BytesKind => "bytes"
    case SymKind => "sym"
    case TaskKind => "task"
    case ChanKind => "chan"
  }

  function Print(t: Type): string
    decreases t, 0
  {
    match t
    case Any => "any"
    case Base(k) => KindText(k)
    case ListOf(e) => "list<" + Print(e) + ">"
    case Tuple(es) => "[" + Joined(es, ", ") + "]"
    case MapOf(k, v) => "map<" + Print(k) + ", " + Print(v) + ">"
    case Fn(ret, params, _) =>
      "fn<" + (if ret.Some? then Print(ret.value) else "any")
        + (if params == [] then "" else ", " + Joined(params, ", ")) + ">"
    case Struct(name) => if name == "" then "struct" else "struct(" + name + ")"
    case Param(name) => if name == "" then "typeparam" else name
    case Union(options) => Joined(options, "|")
  }

  function Joined(ts: seq<Type>, sep: string): string
    decreases ts, 0
  {
    if ts == [] then ""
    else if |ts| == 1 then Print(ts[0])
    else Print(ts[0]) + sep + Joined(ts[1..], sep)
  }

  // ----- splitting -----

  predicate IsSpace(c: char) { c in " \t\n\r" }

  function TrimLeft(s: string): (r: string)
    ensures |r| <= |s|
  {
    if s != [] && IsSpace(s[0]) then TrimLeft(s[1..]) else s
  }

  function TrimRight(s: string): (r: string)
    ensures |r| <= |s|
  {
    if s != [] && IsSpace(s[|s| - 1]) then TrimRight(s[..|s| - 1]) else s
  }

  function Trim(s: string): (r: string)
    ensures |r| <= |s|
  {
    TrimRight(TrimLeft(s))
  }

  /** How many brackets of each kind are open. */
  datatype Depth = Depth(angles: nat, parens: nat, brackets: nat)

  const OUTSIDE := Depth(0, 0, 0)

  function Less(n: nat): nat { if n > 0 then n - 1 else 0 }

  function Scan(d: Depth, c: char): Depth {
    match c
    case '<' => d.(angles := d.angles + 1)
    case '>' => d.(angles := Less(d.angles))
    case '(' => d.(parens := d.parens + 1)
    case ')' => d.(parens := Less(d.parens))
    case '[' => d.(brackets := d.brackets + 1)
    case ']' => d.(brackets := Less(d.brackets))
    case _ => d
  }

  /** The parts of `cur + s`, trimmed, where `s` is cut at separators outside all brackets. */
  function Cut(s: string, sep: char, d: Depth, cur: string): (parts: seq<string>)
    ensures parts != []
    ensures forall p | p in parts :: |p| <= |cur| + |s|
    ensures |parts| > 1 ==> forall p | p in parts :: |p| < |cur| + |s|
    decreases s
  {
    if s == [] then [Trim(cur)]
    else if s[0] == sep && d == OUTSIDE then [Trim(cur)] + Cut(s[1..], sep, d, "")
    else Cut(s[1..], sep, Scan(d, s[0]), cur + [s[0]])
  }

  function Split(s: string, sep: char): (parts: seq<string>)
    ensures parts != []
    ensures forall p | p in parts :: |p| <= |s|
    ensures |parts| > 1 ==> forall p | p in parts :: |p| < |s|
  {
    Cut(s, sep, OUTSIDE, "")
  }

  lemma CutAt(s: string, start: nat, i: nat, sep: char, d: Depth, out: seq<string>)
    requires start <= i < |s|
    ensures s[i] == sep && d == OUTSIDE ==>
      out + Cut(s[i..], sep, d, s[start..i]) == (out + [Trim(s[start..i])]) + Cut(s[i + 1..], sep, d, s[i + 1..i + 1])
    ensures !(s[i] == sep && d == OUTSIDE) ==>
      Cut(s[i..], sep, d, s[start..i]) == Cut(s[i + 1..], sep, Scan(d, s[i]), s[start..i + 1])
  {
    hide Scan; hide Trim;
    assert s[i..][0] == s[i] && s[i..][1..] == s[i + 1..] && s[start..i] + [s[i]] == s[start..i + 1];
    var more := Cut(s[i + 1..], sep, d, "");
    assert out + ([Trim(s[start..i])] + more) == (out + [Trim(s[start..i])]) + more;
  }

  /** The splitter as the program runs it: one pass with three counters. The separators are ',' and '|'. */
  method SplitTopLevel(s: string, sep: char) returns (out: seq<string>)
    requires sep !in "<>()[]"
    ensures out == Split(s, sep)
  {
    hide Cut; hide Trim;
    out := [];
    var start, angles, parens, brackets := 0, 0, 0, 0;
    var i := 0;
    assert s[0..] == s && s[0..0] == "" && out + Cut(s, sep, OUTSIDE, "") == Cut(s, sep, OUTSIDE, "");
    while i < |s|
      invariant 0 <= start <= i <= |s| && angles >= 0 && parens >= 0 && brackets >= 0
      invariant out + Cut(s[i..], sep, Depth(angles, parens, brackets), s[start..i]) == Split(s, sep)
    {
      CutAt(s, start, i, sep, Depth(angles, parens, brackets), out);
      match s[i] {
        case '<' => angles := angles + 1;
        case '>' => angles := if angles > 0 then angles - 1 else angles;
        case '(' => parens := parens + 1;
        case ')' => parens := if parens > 0 then parens - 1 else parens;
        case '[' => brackets := brackets + 1;
        case ']' => brackets := if brackets > 0 then brackets - 1 else brackets;
        case _ =>
          if s[i] == sep && angles == 0 && parens == 0 && brackets == 0 {
            out := out + [Trim(s[start..i])];
            start := i + 1;
          }
      }
      i := i + 1;
    }
    CutEnd(s[i..], sep, Depth(angles, parens, brackets), s[start..i]);
    assert s[start..] == s[start..|s|];
    out := out + [Trim(s[start..])];
  }

  lemma CutEnd(s: string, sep: char, d: Depth, cur: string)
    requires s == ""
    ensures Cut(s, sep, d, cur) == [Trim(cur)]
  {}

  // ----- parsing -----

  predicate Wraps(s: string, open: string, close: char) {
    |open| < |s| && s[..|open|] == open && s[|s| - 1] == close
  }

  /** What stands between an opening and a closing text. */
  function Inner(s: string, open: string): (r: string)
    requires |s| > |open|
    ensures |r| < |s|
  {
    Trim(s[|open|..|s| - 1])
  }

  predicate IdentStart(c: char) { 'a' <= c <= 'z' || 'A' <= c <= 'Z' || c == '_' }

  predicate IsIdent(s: string) {
    s != "" && forall i | 0 <= i < |s| :: IdentStart(s[i]) || (i > 0 && '0' <= s[i] <= '9')
  }

  function OrAny(t: Option<Type>): Type { if t.Some? then t.value else Any }

  function KindNamed(s: string): Option<Kind> {
    if s == "nil" then Some(NilKind)
    else if s == "bool" then Some(BoolKind)
    else if s == "num" then Some(NumKind)
    else if s == "str" then Some(StrKind)
    else if s == "bytes" then Some(BytesKind)
    else if s == "sym" || s == "symbol" then Some(SymKind)
    else if s == "task" then Some(TaskKind)
    else if s == "chan" then Some(ChanKind)
    else None
  }

  /** A text without brackets: a name the language knows, a type parameter, or the name of a struct. */
  function ParseName(s: string, typeParams: set<string>): Option<Type> {
    if s == "any" || s == "?" then Some(Any)
    else if KindNamed(s).Some? then Some(Base(KindNamed(s).value))
    else if s == "list" then Some(ListOf(Any))
    else if s == "map" then Some(MapOf(Any, Any))
    else if s == "fn" then Some(Fn(None, [], false))
    else if s == "struct" then Some(Struct(""))
    else if s in typeParams then Some(Param(s))
    else if IsIdent(s) then Some(Struct(s))
    else None
  }

  function Parse(raw: string, typeParams: set<string>): Option<Type>
    decreases |raw|, 2
  {
    var s := Trim(raw);
    if s == "" then None
    else if |Split(s, '|')| > 1 then
      var options := Present(ParseEach(Split(s, '|'), typeParams, |s|));
      if options == [] then None else Some(Union(options))
    else ParseSingle(s, typeParams)
  }

  /** A type that is not a union. */
  function ParseSingle(s: string, typeParams: set<string>): Option<Type>
    requires s != ""
    decreases |s|, 1
  {
    if Wraps(s, "[", ']') then
      var inner := Inner(s, "[");
      Some(Tuple(if inner == "" then [] else Defaults(ParseEach(Split(inner, ','), typeParams, |s|))))
    else if Wraps(s, "list<", '>') then Some(ListOf(OrAny(Parse(Inner(s, "list<"), typeParams))))
    else if Wraps(s, "map<", '>') then
      var parts := Split(Inner(s, "map<"), ',');
      if |parts| == 2 then Some(MapOf(OrAny(Parse(parts[0], typeParams)), OrAny(Parse(parts[1], typeParams))))
      else Some(MapOf(Any, Any))
    else if Wraps(s, "chan<", '>') then Some(Base(ChanKind))
    else if Wraps(s, "task<", '>') then Some(Base(TaskKind))
    else if Wraps(s, "fn<", '>') then
      var parts := Split(Inner(s, "fn<"), ',');
      Some(Fn(Some(OrAny(Parse(parts[0], typeParams))), Defaults(ParseEach(parts[1..], typeParams, |s|)), false))
    else if Wraps(s, "struct<", '>') then Some(Struct(Inner(s, "struct<")))
    else ParseName(s, typeParams)
  }

  function ParseEach(parts: seq<string>, typeParams: set<string>, bound: nat): (ts: seq<Option<Type>>)
    requires forall p | p in parts :: |p| < bound
    ensures |ts| == |parts|
    decreases bound, 0, |parts|
  {
    if parts == [] then [] else [Parse(parts[0], typeParams)] + ParseEach(parts[1..], typeParams, bound)
  }

  function Present(ts: seq<Option<Type>>): seq<Type> {
    if ts == [] then [] else (if ts[0].Some? then [ts[0].value] else []) + Present(ts[1..])
  }

  function Defaults(ts: seq<Option<Type>>): seq<Type> {
    if ts == [] then [] else [OrAny(ts[0])] + Defaults(ts[1..])
  }
}
