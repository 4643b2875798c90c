/** Numbers printed with a fixed count of fraction digits. */
module Formatting {
  import opened Decimals
  import opened Numerals

  // ----- grouping -----

  /** Digits in groups of three, counted from the end. */
  function Group(s: string): string {
    if |s| <= 3 then s else Group(s[..|s| - 3]) + "," + s[|s| - 3..]
  }

  function WithoutCommas(s: string): string {
    if s == [] then [] else (if s[0] == ',' then [] else [s[0]]) + WithoutCommas(s[1..])
  }

  lemma {:induction false} WithoutConcat(a: string, b: string)
    ensures WithoutCommas(a + b) == WithoutCommas(a) + WithoutCommas(b)
    decreases |a|
  {
    if a == [] {
      assert a + b == b;
    } else {
      assert (a + b)[1..] == a[1..] + b;
      WithoutConcat(a[1..], b);
    }
  }

  lemma {:induction false} WithoutNone(s: string)
    requires ',' !in s
    ensures WithoutCommas(s) == s
    decreases |s|
  {
    if s != [] { WithoutNone(s[1..]); }
  }

  /** Grouping adds commas and nothing else. */
  lemma {:induction false} GroupAddsCommas(s: string)
    requires ',' !in s
    ensures WithoutCommas(Group(s)) == s
    decreases |s|
  {
    if |s| <= 3 {
      WithoutNone(s);
    } else {
      var a, b := s[..|s| - 3], s[|s| - 3..];
      NoCommaIn(a, b, s);
      GroupAddsCommas(a);
      CommaBetween(Group(a), b);
    }
  }

  lemma CommaBetween(a: string, b: string)
    requires ',' !in b
    ensures WithoutCommas(a + "," + b) == WithoutCommas(a) + b
  {
    WithoutNone(b);
    OneComma();
    hide WithoutCommas;
    WithoutConcat(a + ",", b);
    WithoutConcat(a, ",");
    assert WithoutCommas(a) + "" == WithoutCommas(a);
  }

  lemma NoCommaIn(a: string, b: string, s: string)
    requires s == a + b && ',' !in s
    ensures ',' !in a && ',' !in b
  {}

  lemma OneComma()
    ensures WithoutCommas(",") == ""
  {
    assert WithoutCommas(",") == [] + WithoutCommas([]) == [];
  }

  /** One comma for every three digits but the first group. */
  lemma {:induction false} GroupLength(s: string)
    requires s != []
    ensures |Group(s)| == |s| + (|s| - 1) / 3
    decreases |s|
  {
    if |s| > 3 {
      GroupLength(s[..|s| - 3]);
    }
  }

  /** Counted from the end, every fourth character is a comma and no other is. */
  lemma {:induction false} CommaAt(s: string, k: nat)
    requires ',' !in s && k < |Group(s)|
    ensures Group(s)[|Group(s)| - 1 - k] == ',' <==> k % 4 == 3
    decreases |s|
  {
    if |s| > 3 {
      var a, b := s[..|s| - 3], s[|s| - 3..];
      NoCommaIn(a, b, s);
      if k >= 4 { CommaAt(a, k - 4); }
      assert k < 3 ==> Group(s)[|Group(s)| - 1 - k] == b[2 - k] && b[2 - k] in b;
    } else {
      assert Group(s)[|s| - 1 - k] in s;
    }
  }

  lemma GroupStep(s: string, i: nat)
    requires 1 <= i && i + 3 <= |s|
    ensures Group(s[..i + 3]) == Group(s[..i]) + "," + s[i..i + 3]
  {
    assert s[..i + 3][..i] == s[..i] && s[..i + 3][i..] == s[i..i + 3];
  }

  lemma GroupShort(s: string)
    requires |s| <= 3
    ensures Group(s) == s
  {}

  /** How long the first group is, and how many follow. */
  method FirstGroup(n: nat) returns (lead: nat, left: nat)
    requires n > 3
    ensures 1 <= lead <= 3 && n == lead + 3 * left
  {
    lead := n % 3;
    if lead == 0 {
      lead := 3;
    }
    left := (n - lead) / 3;
  }

  /** Grouping as a loop from the front. */
  method GroupDigits(s: string) returns (out: string)
    ensures out == Group(s)
  {
    hide Group;
    var n := |s|;
    if n <= 3 {
      GroupShort(s);
      return s;
    }
    var i, left := FirstGroup(n);
    GroupShort(s[..i]);
    out := s[..i];
    while i < n
      invariant 1 <= i <= n && n - i == 3 * left && out == Group(s[..i])
      decreases n - i
    {
      GroupStep(s, i);
      out := out + "," + s[i..i + 3];
      i, left := i + 3, left - 1;
    }
    assert s[..n] == s;
  }

  /** A leading minus stays where it is. */
  method AddGrouping(text: string) returns (out: string)
    ensures out == if text != [] && text[0] == '-' then "-" + Group(text[1..]) else Group(text)
  {
    if text != [] && text[0] == '-' {
      out := GroupDigits(text[1..]);
      out := "-" + out;
    } else {
      out := GroupDigits(text);
    }
  }

  // ----- fixed-point text -----

  /** `r` is `coef` times ten to the `shift`, rounded half to even. */
  predicate RoundsTo(r: int, coef: int, shift: int) {
    if shift >= 0 then r == coef * Pow10(shift)
    else Rounded(HalfEven, Abs(r), Abs(coef), Pow10(-shift)) && (r > 0 ==> coef > 0) && (r < 0 ==> coef < 0)
  }

  /** `whole` and `frac` are the digits of `r` before and after the point. */
  predicate Shows(whole: string, frac: string, r: int, precision: nat) {
    && AllDigits(whole) && whole != "" && (whole[0] == '0' ==> |whole| == 1)
    && AllDigits(frac) && |frac| == precision
    && AllDigits(whole + frac) && Number(whole + frac) == Abs(r)
  }

  function Text(whole: string, frac: string, negative: bool, grouping: bool): string {
    (if negative then "-" else "") + (if grouping then Group(whole) else whole)
      + (if frac == "" then "" else "." + frac)
  }

  ghost predicate Prints(text: string, r: int, precision: nat, grouping: bool) {
    exists whole, frac :: Shows(whole, frac, r, precision) && text == Text(whole, frac, r < 0, grouping)
  }

  /** Round to the precision asked for, if there are more digits. */
  method RoundCoefficient(coef: int, exp: int, precision: nat) returns (c: int, e: int)
    requires Abs(coef) <= MAX_COEFF + 1
    ensures e + precision >= 0
    ensures exp + precision >= 0 && coef != 0 ==> c == coef && e == exp
    ensures exp + precision < 0 || coef == 0 ==> e + precision == 0
    ensures exp + precision < 0 ==> RoundsTo(c, coef, exp + precision)
    ensures exp + precision >= 0 ==> c == coef
  {
    hide Rounded; hide Pow10; hide RoundsTo;
    var targetExp: int := precision;
    targetExp := -targetExp;
    c, e := coef, exp;
    if exp < targetExp {
      var delta: nat := targetExp - exp;
      assert Abs(Pow10(delta)) == Pow10(delta);
      if delta > 18 {
        TooSmall(coef, delta);
        c := 0;
      } else {
        c := DivideRounded(coef, Pow10(delta), HalfEven);
      }
      RoundsDown(c, coef, delta);
      e := targetExp;
    }
    if c == 0 {
      e := targetExp;
    }
  }

  lemma RoundsDown(c: int, coef: int, delta: nat)
    requires delta > 0 && Rounded(HalfEven, Abs(c), Abs(coef), Pow10(delta))
    requires (c > 0 ==> coef > 0) && (c < 0 ==> coef <= 0)
    ensures RoundsTo(c, coef, -(delta as int))
  {
    hide Pow10;
    if coef == 0 { NothingRounds(HalfEven, Abs(c), Pow10(delta)); }
    hide Rounded;
  }

  lemma TooSmall(coef: int, delta: nat)
    requires Abs(coef) <= MAX_COEFF + 1 && delta > 18
    ensures Rounded(HalfEven, 0, Abs(coef), Pow10(delta))
  {
    assert Pow10(18) == 1_000_000_000_000_000_000 by { PowerOfEighteen(); }
    PowGrows(18, delta);
  }

  lemma PowerOfEighteen()
    ensures Pow10(18) == 1_000_000_000_000_000_000
  {
    assert Pow10(3) == 1000;
    assert Pow10(6) == 1_000_000;
    assert Pow10(9) == 1_000_000_000;
    assert Pow10(12) == 1_000_000_000_000;
    assert Pow10(15) == 1_000_000_000_000_000;
  }

  /** Put the point into the digits, and zeros where digits are wanting. */
  method PlacePoint(c: int, e: int, precision: nat) returns (whole: string, frac: string)
    requires e + precision >= 0 && (c == 0 ==> e + precision == 0)
    ensures Shows(whole, frac, c * Pow10(e + precision), precision)
  {
    var digits := Digits(Abs(c));
    if e >= 0 {
      whole, frac := digits + Zeros(e), "";
    } else {
      var point := |digits| + e;
      if point > 0 {
        whole, frac := digits[..point], digits[point..];
      } else {
        whole, frac := "0", Zeros(-point) + digits;
      }
    }
    DigitsShown(c, e, precision, whole, frac);
    frac := frac + Zeros(precision - |frac|);
  }

  lemma DigitsShown(c: int, e: int, precision: nat, whole: string, frac: string)
    requires e + precision >= 0 && (c == 0 ==> e + precision == 0)
    requires var digits := Digits(Abs(c));
             if e >= 0 then whole == digits + Zeros(e) && frac == ""
             else if |digits| + e > 0 then whole == digits[..|digits| + e] && frac == digits[|digits| + e..]
             else whole == "0" && frac == Zeros(-e - |digits|) + digits
    ensures |frac| <= precision && Shows(whole, frac + Zeros(precision - |frac|), c * Pow10(e + precision), precision)
  {
    hide Digits; hide Zeros; hide Number; hide Pow10;
    var digits, k := Digits(Abs(c)), precision - |frac|;
    NumberOfDigits(Abs(c));
    AbsScaled(c, Pow10(e + precision));
    if e >= 0 {
      WholeShown(digits, e, precision);
    } else if |digits| + e > 0 {
      assert whole + (frac + Zeros(k)) == digits + Zeros(k);
      NumberThenZeros(digits, k);
    } else {
      SmallShown(digits, -e - |digits|, k);
    }
  }

  lemma WholeShown(digits: string, e: nat, precision: nat)
    requires AllDigits(digits) && digits != []
    ensures var all := digits + Zeros(e) + ("" + Zeros(precision));
            AllDigits(all) && Number(all) == Number(digits) * Pow10(e + precision)
  {
    assert digits + Zeros(e) + ("" + Zeros(precision)) == digits + Zeros(e + precision);
    NumberThenZeros(digits, e + precision);
  }

  lemma SmallShown(digits: string, z: nat, k: nat)
    requires AllDigits(digits)
    ensures var all := "0" + (Zeros(z) + digits + Zeros(k));
            AllDigits(all) && Number(all) == Number(digits) * Pow10(k)
  {
    assert "0" + (Zeros(z) + digits + Zeros(k)) == Zeros(z + 1) + (digits + Zeros(k));
    NumberThenZeros(digits, k);
    NumberAfterZeros(z + 1, digits + Zeros(k));
  }

  lemma AbsScaled(c: int, x: nat)
    ensures Abs(c * x) == Abs(c) * x
  {
    if c < 0 {
      assert c * x == -((-c) * x);
    }
  }

  /** A number's text with a fixed count of fraction digits. A negative count means none. */
  method FormatFixed(coef: int, exp: int, precision: int, grouping: bool) returns (text: string)
    requires Abs(coef) <= MAX_COEFF + 1 && -127 <= exp <= 127 && precision <= 127
    ensures var p := if precision < 0 then 0 else precision;
            exists r :: RoundsTo(r, coef, exp + p) && Prints(text, r, p, grouping)
  {
    var p := if precision < 0 then 0 else precision;
    var c, e := RoundCoefficient(coef, exp, p);
    var whole, frac := PlacePoint(c, e, p);
    ghost var r := c * Pow10(e + p);
    FormatRounds(coef, exp, p, c, e);
    assert |frac| == p && whole[0] != '-';
    hide Shows; hide RoundsTo; hide Group; hide Pow10; hide AllDigits;
    text := Assemble(whole, frac, c < 0, grouping);
    assert Prints(text, r, p, grouping);
  }

  method Assemble(whole: string, frac: string, negative: bool, grouping: bool) returns (text: string)
    requires whole != "" ==> whole[0] != '-'
    ensures text == Text(whole, frac, negative, grouping)
  {
    text := whole;
    if grouping {
      text := AddGrouping(whole);
    }
    if frac != "" {
      text := text + "." + frac;
    }
    if negative {
      text := "-" + text;
    }
  }

  // ----- reading a text back -----

  function OnlyDigits(s: string): (r: string)
    ensures AllDigits(r)
  {
    if s == [] then [] else (if '0' <= s[0] <= '9' then [s[0]] else []) + OnlyDigits(s[1..])
  }

  lemma {:induction false} OnlyConcat(a: string, b: string)
    ensures OnlyDigits(a + b) == OnlyDigits(a) + OnlyDigits(b)
    decreases |a|
  {
    if a == [] {
      assert a + b == b;
    } else {
      assert (a + b)[1..] == a[1..] + b;
      OnlyConcat(a[1..], b);
    }
  }

  lemma {:induction false} OnlyAll(s: string)
    requires AllDigits(s)
    ensures OnlyDigits(s) == s && ',' !in s
    decreases |s|
  {
    if s != [] { OnlyAll(s[1..]); }
  }

  lemma {:induction false} OnlyWithoutCommas(s: string)
    ensures OnlyDigits(s) == OnlyDigits(WithoutCommas(s))
    decreases |s|
  {
    if s != [] {
      OnlyWithoutCommas(s[1..]);
      OnlyConcat([s[0]], WithoutCommas(s[1..]));
      OnlyConcat([s[0]], s[1..]);
      assert s == [s[0]] + s[1..];
      assert "" + WithoutCommas(s[1..]) == WithoutCommas(s[1..]);
      assert OnlyDigits(",") == "" by { assert ","[1..] == ""; }
    }
  }

  lemma OneSign()
    ensures OnlyDigits("-") == "" && OnlyDigits("") == ""
  {
    assert "-"[1..] == "";
  }

  lemma PointThenDigits(frac: string)
    requires AllDigits(frac)
    ensures OnlyDigits("." + frac) == frac
  {
    OnlyAll(frac);
    assert ("." + frac)[1..] == frac;
  }

  /** The digits of a printed text are those of the number, the sign is a minus exactly below zero, and as many digits
      follow the point as were asked for. */
  lemma PrintedDenotes(text: string, r: int, precision: nat, grouping: bool)
    requires Prints(text, r, precision, grouping)
    ensures Number(OnlyDigits(text)) == Abs(r)
    ensures text != "" && (text[0] == '-' <==> r < 0)
    ensures precision > 0 ==> |text| > precision && text[|text| - precision - 1] == '.'
                              && AllDigits(text[|text| - precision..])
  {
    hide Shows; hide OnlyDigits; hide Group; hide Text;
    var whole, frac :| Shows(whole, frac, r, precision) && text == Text(whole, frac, r < 0, grouping);
    TextDigits(whole, frac, r < 0, grouping, r, precision);
  }

  lemma TextDigits(whole: string, frac: string, negative: bool, grouping: bool, r: int, precision: nat)
    requires Shows(whole, frac, r, precision)
    ensures var text := Text(whole, frac, negative, grouping);
            && OnlyDigits(text) == whole + frac && Number(whole + frac) == Abs(r)
            && text != "" && (text[0] == '-' <==> negative)
            && (precision > 0 ==> |text| > precision && text[|text| - precision - 1] == '.'
                                  && AllDigits(text[|text| - precision..]))
  {
    hide OnlyDigits; hide Group; hide Number; hide WithoutCommas; hide AllDigits;
    var sign, body := if negative then "-" else "", if grouping then Group(whole) else whole;
    var point := if frac == "" then "" else "." + frac;
    BodyDigits(whole, grouping);
    OneSign();
    PointThenDigits(frac);
    PartsDigits(sign, body, point);
    PartsShape(sign, body, point, frac);
  }

  lemma PartsDigits(sign: string, body: string, point: string)
    requires OnlyDigits(sign) == ""
    ensures OnlyDigits(sign + body + point) == OnlyDigits(body) + OnlyDigits(point)
  {
    hide OnlyDigits;
    OnlyConcat(sign + body, point);
    OnlyConcat(sign, body);
    assert "" + OnlyDigits(body) == OnlyDigits(body);
  }

  lemma PartsShape(sign: string, body: string, point: string, frac: string)
    requires body != "" && point == if frac == "" then "" else "." + frac
    ensures var text := sign + body + point;
            && text != "" && text[0] == (if sign != "" then sign[0] else body[0])
            && (frac != "" ==> |text| > |frac| && text[|text| - |frac| - 1] == '.' && text[|text| - |frac|..] == frac)
  {}

  lemma {:induction false} BodyDigits(whole: string, grouping: bool)
    requires AllDigits(whole) && whole != ""
    ensures var body := if grouping then Group(whole) else whole; body != "" && '0' <= body[0] <= '9'
                                                                  && OnlyDigits(body) == whole
  {
    hide OnlyDigits; hide Group; hide WithoutCommas;
    OnlyAll(whole);
    GroupAddsCommas(whole);
    OnlyWithoutCommas(Group(whole));
    GroupStarts(whole);
  }

  lemma {:induction false} GroupStarts(s: string)
    requires s != ""
    ensures Group(s) != "" && Group(s)[0] == s[0]
    decreases |s|
  {
    if |s| > 3 { GroupStarts(s[..|s| - 3]); }
  }

  lemma {:induction false} NumberBelow(s: string)
    requires AllDigits(s)
    ensures Number(s) < Pow10(|s|)
    decreases |s|
  {
    if s != "" { NumberBelow(s[..|s| - 1]); }
  }

  lemma {:induction false} NumberAtLeast(s: string)
    requires AllDigits(s) && s != "" && s[0] != '0'
    ensures Number(s) >= Pow10(|s| - 1)
    decreases |s|
  {
    if |s| == 1 {
      assert Pow10(0) == 1;
    } else {
      NumberAtLeast(s[..|s| - 1]);
    }
  }

  lemma {:induction false} SameDigits(a: string, b: string)
    requires AllDigits(a) && AllDigits(b) && |a| == |b| && Number(a) == Number(b)
    ensures a == b
    decreases |a|
  {
    if a != "" {
      var n := |a| - 1;
      SameDigits(a[..n], b[..n]);
      assert a == a[..n] + [a[n]] && b == b[..n] + [b[n]];
    }
  }

  lemma ShownNoShorter(whole: string, frac: string, other: string, tail: string, r: int, precision: nat)
    requires Shows(whole, frac, r, precision) && Shows(other, tail, r, precision)
    ensures |whole| >= |other|
  {
    if |whole| < |other| {
      NumberBelow(whole + frac);
      NumberAtLeast(other + tail);
      PowGrows(|whole + frac|, |other + tail| - 1);
    }
  }

  /** A number has one text for each count of fraction digits, grouped or not. */
  lemma PrintedIsUnique(text: string, other: string, r: int, precision: nat, grouping: bool)
    requires Prints(text, r, precision, grouping) && Prints(other, r, precision, grouping)
    ensures text == other
  {
    var whole, frac :| Shows(whole, frac, r, precision) && text == Text(whole, frac, r < 0, grouping);
    var whole1, frac1 :| Shows(whole1, frac1, r, precision) && other == Text(whole1, frac1, r < 0, grouping);
    ShownNoShorter(whole, frac, whole1, frac1, r, precision);
    ShownNoShorter(whole1, frac1, whole, frac, r, precision);
    SameDigits(whole + frac, whole1 + frac1);
    assert whole == (whole + frac)[..|whole|] && frac == (whole + frac)[|whole|..];
    assert whole1 == (whole1 + frac1)[..|whole|] && frac1 == (whole1 + frac1)[|whole|..];
  }

  /** The texts of two numbers. */
  lemma Printed()
    ensures Prints("-1,234.5", -12345, 1, true) && Prints("0.05", 5, 2, true)
  {
    NumberOfText();
    assert Group("1234") == "1,234" by { assert "1234"[..1] == "1" && "1234"[1..] == "234"; }
    assert "1234" + "5" == "12345" && "0" + "05" == "005";
    hide Number; hide Group;
    assert Shows("1234", "5", -12345, 1) && Shows("0", "05", 5, 2);
    assert Text("1234", "5", true, true) == "-1,234.5";
    assert Text("0", "05", false, true) == "0.05" by { GroupShort("0"); }
  }

  lemma NumberOfText()
    ensures Number("12345") == 12345 && Number("005") == 5
  {
    assert "12345"[..4] == "1234" && "1234"[..3] == "123" && "123"[..2] == "12" && "12"[..1] == "1" && "1"[..0] == "";
    assert Number("1") == 1 && Number("12") == 12 && Number("123") == 123;
    assert "005"[..2] == "00" && "00"[..1] == "0" && "0"[..0] == "" && Number("0") == 0;
  }

  lemma FormatRounds(coef: int, exp: int, p: nat, c: int, e: int)
    requires e + p >= 0
    requires if exp + p < 0 then e + p == 0 && RoundsTo(c, coef, exp + p) else
               c == coef
               && (if coef == 0 then e + p == 0 else e == exp)
    ensures RoundsTo(c * Pow10(e + p), coef, exp + p) && (c * Pow10(e + p) < 0 <==> c < 0)
  {
    assert Pow10(0) == 1;
    var x := Pow10(e + p);
    if c < 0 {
      MulGrows(-c, 1, x);
      assert c * x == -((-c) * x);
    }
  }
}
