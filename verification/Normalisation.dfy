/** Bringing a coefficient and an exponent into their usual form. */
module Normalisation {
  import opened Decimals

  const MIN_EXP: int := -128

  datatype Parts = Parts(c: int, e: int)

  /** The number, counted in units of the smallest exponent. */
  function Units(p: Parts): int
    requires p.e >= MIN_EXP
  {
    p.c * Pow10(p.e - MIN_EXP)
  }

  /** A coefficient that is too large loses digits at its end, as long as the exponent can grow. */
  function Shrunk(p: Parts): (r: Parts)
    ensures r.e >= p.e && (Abs(p.c) <= 36_028_797_018_963_967 ==> r == p)
    ensures r.e < 127 ==> Abs(r.c) <= 36_028_797_018_963_967
    ensures p.c != 0 ==> r.c != 0 && (r.c > 0) == (p.c > 0)
    ensures r.e > p.e ==> r.e <= 127 && Abs(r.c) >= 3_602_879_701_896_396
    decreases Abs(p.c)
  {
    if Abs(p.c) > MAX_COEFF && p.e < 127 then
      TenthIsLess(p.c);
      Shrunk(Parts(Quot(p.c, 10), p.e + 1))
    else p
  }

  /** A coefficient of more than sixteen digits loses the zeros at its end. */
  function Stripped(p: Parts): (r: Parts)
    requires p.c != 0
    ensures r.e >= p.e && Abs(r.c) <= Abs(p.c) && r.c % 10 != 0 && (r.c > 0) == (p.c > 0)
    decreases Abs(p.c)
  {
    if p.c % 10 == 0 then
      TenthIsLess(p.c);
      Stripped(Parts(Quot(p.c, 10), p.e + 1))
    else p
  }

  lemma TenthIsLess(c: int)
    requires c != 0
    ensures Abs(Quot(c, 10)) < Abs(c)
    ensures c % 10 == 0 ==> Quot(c, 10) * 10 == c && Quot(c, 10) != 0 && (Quot(c, 10) > 0) == (c > 0)
    ensures Abs(c) >= 10 ==> Quot(c, 10) != 0
  {}

  lemma PowSixteen()
    ensures Pow10(16) == 10_000_000_000_000_000
  {
    assert Pow10(5) == 100_000;
    assert Pow10(10) == 10_000_000_000;
    assert Pow10(15) == 1_000_000_000_000_000;
  }

  /** The form before the exponent is moved toward zero. */
  function Trimmed(p: Parts): (r: Parts)
    requires p.c != 0
    ensures r.e >= p.e && Abs(r.c) <= Abs(p.c) && r.c != 0 && (r.c > 0) == (p.c > 0)
    ensures Abs(p.c) < 10_000_000_000_000_000 ==> r == p
    ensures Abs(p.c) >= 10_000_000_000_000_000 ==> r.c % 10 != 0
  {
    PowSixteen();
    if Abs(p.c) >= Pow10(16) then Stripped(p) else p
  }

  /** The loop that gives a positive exponent away multiplies a negative coefficient without a bound. */
  predicate Overflows(p: Parts) {
    p.c < 0 && 0 < p.e < 16 && Abs(p.c) * Pow10(p.e) > MAX_COEFF
  }

  /** The form numbers end in: a fraction has no zero at its end, a small positive exponent is given away as far as the
      coefficient can grow, and the one number that could then be written in two ways has the shorter coefficient. */
  predicate Usual(p: Parts) {
    && p.c != 0 && p.c != 36_028_797_018_963_960
    && (p.e < 0 ==> p.c % 10 != 0)
    && (0 < p.e < 16 ==> p.c >= 3_602_879_701_896_396)
  }

  lemma TenTimes(p: Parts, q: Parts)
    requires p.e >= MIN_EXP && q.e == p.e + 1 && p.c == 10 * q.c
    ensures Units(p) == Units(q)
  {
    assert Pow10(q.e - MIN_EXP) == 10 * Pow10(p.e - MIN_EXP);
    assert 10 * q.c * Pow10(p.e - MIN_EXP) == q.c * (10 * Pow10(p.e - MIN_EXP));
  }

  method Shrink(p: Parts) returns (r: Parts)
    ensures r == Shrunk(p)
  {
    r := p;
    while Abs(r.c) > MAX_COEFF && r.e < 127
      invariant Shrunk(r) == Shrunk(p)
      decreases Abs(r.c)
    {
      TenthIsLess(r.c);
      r := Parts(Quot(r.c, 10), r.e + 1);
    }
  }

  method Strip(p: Parts) returns (r: Parts)
    requires p.c != 0 && p.e >= MIN_EXP
    ensures r == Stripped(p) && Units(r) == Units(p)
  {
    r := p;
    while r.c % 10 == 0
      invariant r.c != 0 && r.e >= MIN_EXP && Stripped(r) == Stripped(p) && Units(r) == Units(p)
      decreases Abs(r.c)
    {
      TenthIsLess(r.c);
      var next := Parts(Quot(r.c, 10), r.e + 1);
      TenTimes(r, next);
      r := next;
    }
  }

  /** A negative exponent rises as long as there are zeros to drop. */
  method StripFraction(p: Parts) returns (r: Parts)
    requires p.c != 0 && MIN_EXP <= p.e < 0
    ensures p.e <= r.e <= 0 && Units(r) == Units(p) && Abs(r.c) <= Abs(p.c)
    ensures (r.e == 0 || r.c % 10 != 0) && (r.c > 0) == (p.c > 0) && (r == p || 10 * Abs(r.c) <= Abs(p.c))
  {
    r := p;
    while r.e < 0 && r.c % 10 == 0
      invariant r.c != 0 && p.e <= r.e <= 0 && Units(r) == Units(p) && Abs(r.c) <= Abs(p.c)
      invariant (r.c > 0) == (p.c > 0) && (r == p || 10 * Abs(r.c) <= Abs(p.c))
    {
      TenthIsLess(r.c);
      var next := Parts(Quot(r.c, 10), r.e + 1);
      TenTimes(r, next);
      r := next;
    }
  }

  function Spread(p: Parts): nat
    requires p.e >= 0
  {
    Abs(p.c) * Pow10(p.e)
  }

  lemma SpreadTenTimes(p: Parts, q: Parts)
    requires p.e >= 0 && q.e == p.e + 1 && p.c == 10 * q.c
    ensures Spread(p) == Spread(q)
  {
    SameProduct(Abs(q.c), Pow10(p.e));
    assert Abs(p.c) == 10 * Abs(q.c) && Pow10(q.e) == 10 * Pow10(p.e);
  }

  lemma SameProduct(a: nat, x: nat)
    ensures 10 * a * x == a * (10 * x)
  {}

  lemma SpreadAtZero(p: Parts)
    requires p.e == 0
    ensures Spread(p) == Abs(p.c)
  {
    assert Pow10(0) == 1;
  }

  /** A small positive exponent falls while the coefficient is less than a tenth of the largest. */
  method GrowCoefficient(p: Parts) returns (r: Parts)
    requires p.c != 0 && 0 < p.e < 16 && Abs(p.c) <= MAX_COEFF
    ensures 0 <= r.e <= p.e && Units(r) == Units(p)
    ensures Abs(r.c) <= MAX_COEFF <==> !Overflows(p)
    ensures (p.c < 0 ==> r.e == 0) && r.c != 0 && (r.c > 0) == (p.c > 0)
    ensures (r.e > 0 ==> r.c >= 3_602_879_701_896_396) && (r.c == 36_028_797_018_963_960 ==> r == p)
  {
    hide Units; hide Spread; hide Pow10;
    r := p;
    while r.e > 0 && r.c < MAX_COEFF / 10
      invariant r.c != 0 && (r.c > 0) == (p.c > 0) && 0 <= r.e <= p.e && Units(r) == Units(p)
      invariant r.c > 0 ==> r.c <= MAX_COEFF
      invariant Spread(r) == Spread(p) && (r.c == 36_028_797_018_963_960 ==> r == p)
    {
      var next := Parts(r.c * 10, r.e - 1);
      TenTimes(next, r);
      SpreadTenTimes(next, r);
      r := next;
    }
    if r.e == 0 { SpreadAtZero(r); }
    OverflowsBySpread(p);
  }

  lemma OverflowsBySpread(p: Parts)
    requires 0 < p.e < 16
    ensures Overflows(p) <==> p.c < 0 && Spread(p) > MAX_COEFF
  {}

  /** Normalising keeps the number and its sign, up to the digits a coefficient that is too large must lose, and brings
      it into the usual form; the coefficient fits exactly when the loop for negative numbers does not run over. */
  method Normalise(p: Parts) returns (nan: bool, r: Parts)
    requires MIN_EXP <= p.e <= 127
    ensures p.c == 0 ==> !nan && r == Parts(0, 0)
    ensures nan <==> Abs(Shrunk(p).c) > MAX_COEFF
    ensures p.c != 0 && !nan ==> r.e >= MIN_EXP && Units(r) == Units(Shrunk(p)) && (r.c > 0) == (p.c > 0) && Usual(r)
    ensures p.c != 0 && !nan && r.e >= 16 ==> r == Trimmed(Shrunk(p))
    ensures p.c != 0 && !nan ==> (Abs(r.c) <= MAX_COEFF <==> !Overflows(Trimmed(Shrunk(p))))
  {
    nan, r := false, Parts(0, 0);
    if p.c == 0 { return; }
    hide Units; hide Shrunk; hide Stripped; hide Pow10; hide Overflows;
    r := Shrink(p);
    if Abs(r.c) > MAX_COEFF {
      nan := true;
      return;
    }
    PowSixteen();
    if Abs(r.c) >= Pow10(16) {
      r := Strip(r);
    }
    assert Abs(r.c) >= 10_000_000_000_000_000 ==> r.c % 10 != 0;
    if r.e <= 0 || r.e >= 16 { NoOverflow(r); }
    if r.e < 0 {
      r := StripFraction(r);
    } else if 0 < r.e < 16 {
      r := GrowCoefficient(r);
    }
  }

  lemma NoOverflow(p: Parts)
    requires p.e <= 0 || p.e >= 16
    ensures !Overflows(p)
  {}

  /** Division of two numbers: the rounded quotient `q` of the dividend scaled by `p` digits, with the exponent that
      makes up for them, in its usual form. */
  method DivideNumbers(a: Parts, b: Parts, precision: int, mode: Rounding)
    returns (nan: bool, r: Parts, ghost q: int, ghost p: nat)
    requires MIN_EXP <= a.e - b.e - (if precision > 0 then precision else 0) && a.e - b.e <= 127
    ensures b.c == 0 ==> nan
    ensures b.c != 0 ==> IsScale(Abs(a.c), Abs(b.c), precision, p)
    ensures b.c != 0 ==> Rounded(mode, Abs(q), Abs(a.c) * Pow10(p), Abs(b.c))
    ensures b.c != 0 && q != 0 ==> (q > 0) == (if precision > 0 then a.c > 0 else (a.c > 0) == (b.c > 0))
    ensures b.c != 0 ==>
      var exact := Parts(q, a.e - b.e - p);
      && (nan <==> Abs(Shrunk(exact).c) > MAX_COEFF)
      && (q == 0 ==> r == Parts(0, 0))
      && (q != 0 && !nan ==> r.e >= MIN_EXP && exact.e >= MIN_EXP && Units(r) == Units(Shrunk(exact)) && Usual(r))
      && (q != 0 && !nan ==> (r.c > 0) == (if precision > 0 then a.c > 0 else (a.c > 0) == (b.c > 0)))
  {
    hide Rounded; hide Units; hide Shrunk; hide Trimmed;
    var quotient, used;
    nan, quotient, used := Divide(a.c, b.c, precision, mode);
    q, p, r := quotient, used, Parts(0, 0);
    if !nan {
      nan, r := Normalise(Parts(quotient, a.e - b.e - used));
    }
  }

  /** Shrinking drops digits and nothing more: what is left has the sign of the number and what is lost is less than one
      unit of the last digit kept; and it drops no digit unless what is left needs all of a coefficient. */
  lemma {:induction false} ShrunkTruncates(p: Parts)
    ensures var r := Shrunk(p);
            var x := Pow10(r.e - p.e);
            && (p.c >= 0 ==> 0 <= r.c && r.c * x <= p.c < r.c * x + x)
            && (p.c <= 0 ==> r.c <= 0 && r.c * x - x < p.c <= r.c * x)
            && (r != p ==> Abs(p.c) > MAX_COEFF && Abs(r.c) >= 3_602_879_701_896_396)
    decreases Abs(p.c)
  {
    if Abs(p.c) > MAX_COEFF && p.e < 127 {
      TenthIsLess(p.c);
      var q := Parts(Quot(p.c, 10), p.e + 1);
      ShrunkTruncates(q);
      var r := Shrunk(q);
      TenthBounds(p.c);
      assert Pow10(r.e - p.e) == 10 * Pow10(r.e - q.e);
      hide Shrunk; hide Pow10; hide Quot;
      Widen(r.c, Pow10(r.e - q.e), q.c, p.c);
    } else {
      assert Pow10(0) == 1;
    }
  }

  /** `a` is `c` without what is less than one unit `x`. */
  predicate Cut(a: int, x: nat, c: int) {
    (c >= 0 ==> 0 <= a && a * x <= c < a * x + x) && (c <= 0 ==> a <= 0 && a * x - x < c <= a * x)
  }

  lemma Widen(a: int, y: nat, b: int, c: int)
    requires Cut(a, y, b) && Cut(b, 10, c) && c != 0 && (b > 0) == (c > 0) && b != 0
    ensures Cut(a, 10 * y, c)
  {
    assert a * (10 * y) == 10 * (a * y);
  }

  lemma TenthBounds(c: int)
    ensures Cut(Quot(c, 10), 10, c)
  {}

  /** A negative million of billions and an exponent of ten: the result does not fit a coefficient. */
  lemma NegativeRunsOver()
    ensures Overflows(Trimmed(Shrunk(Parts(-1_000_000_000_000_001, 10))))
  {
    var p := Parts(-1_000_000_000_000_001, 10);
    assert Pow10(5) == 100_000;
    assert Pow10(10) == 10_000_000_000;
    PowSixteen();
    assert Shrunk(p) == p && Trimmed(p) == p;
  }

  // ----- the usual form -----

  /** Below an exponent of sixteen a number has one usual form. */
  lemma UsualIsUnique(p: Parts, q: Parts)
    requires Usual(p) && Usual(q) && MIN_EXP <= p.e < 16 && MIN_EXP <= q.e < 16
    requires Abs(p.c) <= MAX_COEFF && Abs(q.c) <= MAX_COEFF && Units(p) == Units(q)
    ensures p == q
  {
    if p.e < q.e {
      Longer(p, q);
    } else if q.e < p.e {
      Longer(q, p);
    } else {
      SameExponent(p, q);
    }
  }

  lemma Cancel(a: int, b: int, x: nat)
    requires x > 0 && a * x == b * x
    ensures a == b
  {
    assert (a - b) * x == 0;
  }

  lemma {:induction false} Shifted(p: Parts, q: Parts)
    requires MIN_EXP <= p.e <= q.e && Units(p) == Units(q)
    ensures p.c == q.c * Pow10(q.e - p.e)
    decreases q.e - p.e
  {
    hide Units;
    if p.e == q.e {
      assert p.c == q.c by { SameExponent(p, q); }
      assert Pow10(0) == 1;
    } else {
      var next := Parts(10 * q.c, q.e - 1);
      TenTimes(next, q);
      Shifted(p, next);
      assert 10 * q.c * Pow10(next.e - p.e) == q.c * (10 * Pow10(next.e - p.e));
    }
  }

  lemma SameExponent(p: Parts, q: Parts)
    requires MIN_EXP <= p.e == q.e && Units(p) == Units(q)
    ensures p.c == q.c
  {
    Cancel(p.c, q.c, Pow10(p.e - MIN_EXP));
  }

  lemma Longer(p: Parts, q: Parts)
    requires MIN_EXP <= p.e < q.e && Units(p) == Units(q)
    ensures p.c % 10 == 0 && (q.c > 0 ==> p.c == 10 * q.c || p.c >= 100 * q.c)
  {
    hide Units;
    Shifted(p, q);
    var k := q.e - p.e - 1;
    var x := Pow10(k);
    assert Pow10(k + 1) == 10 * x;
    assert p.c == 10 * (q.c * x) by { assert q.c * (10 * x) == 10 * (q.c * x); }
    if k == 0 {
      assert x == 1;
    } else if q.c > 0 {
      assert x == 10 * Pow10(k - 1);
      MulGrows(q.c, 10, x);
    }
  }

  /** From sixteen on there is no one form: ten, and one with an exponent greater by one, stay as they are. */
  lemma UsualIsNotUnique()
    ensures var p, q := Parts(10, 20), Parts(1, 21);
            && Usual(p) && Usual(q) && Units(p) == Units(q)
            && p == Trimmed(Shrunk(p)) && q == Trimmed(Shrunk(q))
  {
    TenTimes(Parts(10, 20), Parts(1, 21));
    PowSixteen();
  }
}
