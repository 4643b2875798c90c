/** Division of decimals: the choice of scale, the rounding of the quotient, and the sign. */
module Decimals {

  /** Coefficients are signed numbers of 56 bits, computed with in 64. */
  const MAX_COEFF: int := 0x7F_FFFF_FFFF_FFFF
  const MAX_INT64: int := 0x7FFF_FFFF_FFFF_FFFF

  function Abs(a: int): (r: nat)
    ensures r == a || r == -a
  {
    if a < 0 then -a else a
  }

  function Pow10(n: nat): (r: nat)
    ensures r >= 1
  {
    if n == 0 then 1 else 10 * Pow10(n - 1)
  }

  function Whole(x: nat, b: nat): nat
    requires b > 0
  {
    x / b
  }

  function Left(x: nat, b: nat): nat
    requires b > 0
  {
    x % b
  }

  /** Division that truncates toward zero, and its remainder. */
  function Quot(a: int, b: int): int
    requires b != 0
  {
    var m: int := Whole(Abs(a), Abs(b));
    if (a >= 0) == (b > 0) then m else -m
  }

  function Rem(a: int, b: int): int
    requires b != 0
  {
    var r: int := Left(Abs(a), Abs(b));
    if a >= 0 then r else -r
  }

  datatype Rounding = HalfUp | HalfEven | Down | Up

  /** `m` is the magnitude `num / den` rounded to a whole number. */
  predicate Rounded(mode: Rounding, m: nat, num: nat, den: nat)
    requires den > 0
  {
    var twice: int, whole: int := 2 * (m * den - num), den;
    match mode
    case Down => m * den <= num < m * den + den
    case Up => m * den - den < num <= m * den
    case HalfUp => -whole < twice <= whole
    case HalfEven => -whole <= twice <= whole && (twice == whole || twice == -whole ==> m % 2 == 0)
  }

  lemma MulStep(m: nat, n: nat, d: nat)
    requires m < n
    ensures m * d + d <= n * d
    decreases n
  {
    if m + 1 < n { MulStep(m, n - 1, d); }
    assert n * d == (n - 1) * d + d;
  }

  lemma DivBounds(x: nat, b: nat)
    requires b > 0
    ensures x / b * b <= x < x / b * b + b
    ensures x % b == x - x / b * b
  {}

  /** The whole numbers whose multiples of `den` are within `den` of `num` are neighbours. */
  lemma NearIsNext(m: nat, n: nat, num: nat, den: nat)
    requires den > 0 && m < n && n * den - num <= den && num - m * den <= den
    ensures n == m + 2 ==> n * den - num == den == num - m * den
    ensures n <= m + 2 && (n == m + 1 ==> n * den == m * den + den)
  {
    MulStep(m, m + 1, den);
    MulStep(m + 1, m + 2, den);
    if m + 1 < n { MulStep(m + 1, n, den); }
    if m + 2 < n { MulStep(m + 2, n, den); }
    assert (m + 1) * den == m * den + den;
  }

  lemma RoundedNotBelow(mode: Rounding, m: nat, n: nat, num: nat, den: nat)
    requires den > 0 && Rounded(mode, m, num, den) && Rounded(mode, n, num, den)
    ensures m >= n
  {
    if m < n {
      NearIsNext(m, n, num, den);
    }
  }

  /** There is one way to round. */
  lemma RoundedIsUnique(mode: Rounding, m: nat, n: nat, num: nat, den: nat)
    requires den > 0 && Rounded(mode, m, num, den) && Rounded(mode, n, num, den)
    ensures m == n
  {
    RoundedNotBelow(mode, m, n, num, den);
    RoundedNotBelow(mode, n, m, num, den);
  }

  /** What rounding `k` and `r` parts of `den` gives, in each mode. */
  lemma RoundedIff(mode: Rounding, m: nat, k: nat, r: nat, den: nat)
    requires r < den
    ensures Rounded(mode, m, k * den + r, den)
            <==> && (m == k || m == k + 1)
                 && (mode == Down ==> m == k)
                 && (mode == Up ==> (m == k <==> r == 0))
                 && (mode == HalfUp ==> (m == k <==> 2 * r < den))
                 && (mode == HalfEven ==> (m == k <==> 2 * r < den || (2 * r == den && k % 2 == 0)))
  {
    var num := k * den + r;
    assert (k + 1) * den == k * den + den;
    if Rounded(mode, m, num, den) {
      if m < k {
        MulStep(m, k, den);
      } else if m > k + 1 {
        MulStep(k + 1, m, den);
      }
    }
  }

  // ----- the scale -----

  /** The dividend can be scaled this far: it still fits, and so does the coefficient of the quotient. */
  predicate FitsScale(a: nat, b: nat, k: nat)
    requires b > 0
  {
    a * Pow10(k) <= MAX_INT64 && a * Pow10(k) / b <= MAX_COEFF
  }

  lemma PowGrows(j: nat, k: nat)
    requires j <= k
    ensures Pow10(j) <= Pow10(k)
  {
    if j < k { PowGrows(j, k - 1); }
  }

  lemma FitsSmaller(a: nat, b: nat, j: nat, k: nat)
    requires b > 0 && j <= k && FitsScale(a, b, k)
    ensures FitsScale(a, b, j)
  {
    PowGrows(j, k);
    var x, y := a * Pow10(j), a * Pow10(k);
    assert x <= y by { MulGrows(a, Pow10(j), Pow10(k)); }
    DivGrows(x, y, b);
  }

  lemma MulGrows(a: nat, x: nat, y: nat)
    requires x <= y
    ensures a * x <= a * y
  {}

  lemma DivGrows(x: nat, y: nat, b: nat)
    requires x <= y && b > 0
    ensures x / b <= y / b
  {
    DivBounds(x, b);
    DivBounds(y, b);
    if x / b > y / b {
      MulStep(y / b, x / b, b);
    }
  }

  /** The scale that the division uses: none when it is not asked for, and otherwise the largest up to the request that
      fits (or zero, which is not checked). */
  predicate IsScale(a: nat, b: nat, requested: int, p: nat)
    requires b > 0
  {
    if a == 0 || requested <= 0 then p == 0
    else p <= requested && (p > 0 ==> FitsScale(a, b, p)) && forall k | p < k <= requested :: !FitsScale(a, b, k)
  }

  method ScaleForDiv(ca: int, cb: int, requested: int) returns (scaled: int, p: nat)
    requires cb != 0
    ensures IsScale(Abs(ca), Abs(cb), requested, p)
    ensures ca == 0 || requested <= 0 ==> scaled == ca
    ensures ca != 0 && requested > 0 ==>
      scaled == if (ca < 0) != (cb < 0) then -(Abs(ca) * Pow10(p)) else Abs(ca) * Pow10(p)
  {
    if ca == 0 || requested <= 0 { return ca, 0; }
    var neg := (ca < 0) != (cb < 0);
    var aca, acb := Abs(ca), Abs(cb);
    var cur := aca;
    p := 0;
    while p < requested
      invariant p <= requested && cur == aca * Pow10(p) && (p > 0 ==> FitsScale(aca, acb, p))
    {
      assert aca * Pow10(p + 1) == cur * 10 by { assert Pow10(p + 1) == 10 * Pow10(p); }
      if cur > MAX_INT64 / 10 {
        NoLarger(aca, acb, p, requested);
        break;
      }
      var next := cur * 10;
      if next / acb > MAX_COEFF {
        NoLarger(aca, acb, p, requested);
        break;
      }
      cur := next;
      p := p + 1;
    }
    scaled := if neg then -cur else cur;
  }

  lemma NoLarger(a: nat, b: nat, p: nat, requested: int)
    requires b > 0 && !FitsScale(a, b, p + 1)
    ensures forall k | p < k <= requested :: !FitsScale(a, b, k)
  {
    forall k | p < k <= requested ensures !FitsScale(a, b, k) {
      if FitsScale(a, b, k) { FitsSmaller(a, b, p + 1, k); }
    }
  }

  /** One by three is scaled by seventeen digits, which a coefficient can hold; one by a million by eighteen, which fit
      a machine integer. */
  lemma ScaleOfOne()
    ensures IsScale(1, 3, 20, 17) && IsScale(1, 1_000_000, 20, 18)
  {
    assert Pow10(5) == 100_000;
    assert Pow10(10) == 10_000_000_000;
    assert Pow10(15) == 1_000_000_000_000_000;
    assert Pow10(18) == 1_000_000_000_000_000_000;
    assert Pow10(19) == 10_000_000_000_000_000_000;
    assert Pow10(17) == 100_000_000_000_000_000;
    NoLarger(1, 3, 17, 20);
    NoLarger(1, 1_000_000, 18, 20);
  }

  // ----- the quotient -----

  lemma QuotMagnitude(a: int, b: int)
    requires b != 0
    ensures Abs(Quot(a, b)) == Whole(Abs(a), Abs(b)) && Abs(Rem(a, b)) == Left(Abs(a), Abs(b))
    ensures Quot(a, b) > 0 ==> (a > 0) == (b > 0)
    ensures Quot(a, b) < 0 ==> (a > 0) != (b > 0)
    ensures Quot(a, b) % 2 == 0 <==> Whole(Abs(a), Abs(b)) % 2 == 0
  {
    ZeroWhole(Abs(b));
    hide Whole; hide Left;
  }

  lemma ZeroWhole(b: nat)
    requires b > 0
    ensures Whole(0, b) == 0
  {}

  /** When the magnitude goes up by one. */
  predicate Away(mode: Rounding, num: nat, den: nat)
    requires den > 0
  {
    var r := num % den;
    r != 0 &&
    match mode
    case HalfUp => r * 2 >= den
    case HalfEven => r * 2 > den || (r * 2 == den && (num / den) % 2 != 0)
    case Down => false
    case Up => true
  }

  lemma RoundMagnitude(mode: Rounding, num: nat, den: nat)
    requires den > 0
    ensures Rounded(mode, if Away(mode, num, den) then num / den + 1 else num / den, num, den)
  {
    DivBounds(num, den);
    var m := num / den;
    assert (m + 1) * den == m * den + den;
  }

  /** Round the quotient of the scaled dividend: away from zero by one, or not. */
  method DivideRounded(scaled: int, cb: int, mode: Rounding) returns (q: int)
    requires cb != 0
    ensures Rounded(mode, Abs(q), Abs(scaled), Abs(cb))
    ensures q > 0 ==> (scaled > 0) == (cb > 0)
    ensures q < 0 ==> (scaled > 0) != (cb > 0)
  {
    q := Quot(scaled, cb);
    var r := Rem(scaled, cb);
    ghost var n, d := Abs(scaled), Abs(cb);
    DivBounds(n, d);
    QuotMagnitude(scaled, cb);
    RoundMagnitude(mode, n, d);
    if r != 0 {
      var away :=
        match mode
        case HalfUp => Abs(r) * 2 >= Abs(cb)
        case HalfEven => Abs(r) * 2 > Abs(cb) || (Abs(r) * 2 == Abs(cb) && q % 2 != 0)
        case Down => false
        case Up => true;
      if away {
        q := if (scaled > 0) == (cb > 0) then q + 1 else q - 1;
      }
    }
  }

  /** The coefficient of a quotient before it is normalised; its value is `q` over ten to the `p`. Dividing by zero
      gives no number. */
  method Divide(ca: int, cb: int, precision: int, mode: Rounding) returns (nan: bool, q: int, p: nat)
    ensures nan <==> cb == 0
    ensures !nan ==> IsScale(Abs(ca), Abs(cb), precision, p)
    ensures !nan ==> Rounded(mode, Abs(q), Abs(ca) * Pow10(p), Abs(cb))
    ensures !nan && q != 0 ==> ca != 0 && (q > 0) == (if precision > 0 then ca > 0 else (ca > 0) == (cb > 0))
  {
    if cb == 0 { return true, 0, 0; }
    nan := false;
    var scaled;
    scaled, p := ScaleForDiv(ca, cb, if precision < 0 then 0 else precision);
    assert Pow10(0) == 1;
    if ca == 0 || precision <= 0 {
      assert p == 0 && Abs(ca) * 1 == Abs(ca);
    } else {
      SignedMagnitude(ca, cb, Pow10(p), scaled);
    }
    hide Rounded; hide IsScale; hide Pow10;
    q := DivideRounded(scaled, cb, mode);
    if ca == 0 { NothingRounds(mode, Abs(q), Abs(cb)); }
  }

  lemma SignedMagnitude(ca: int, cb: int, x: nat, scaled: int)
    requires ca != 0 && x >= 1 && scaled == if (ca < 0) != (cb < 0) then -(Abs(ca) * x) else Abs(ca) * x
    ensures Abs(scaled) == Abs(ca) * x && scaled != 0
    ensures (scaled > 0) == ((ca < 0) == (cb < 0))
  {
    MulGrows(Abs(ca), 1, x);
  }

  lemma NothingRounds(mode: Rounding, m: nat, den: nat)
    requires den > 0 && Rounded(mode, m, 0, den)
    ensures m == 0
  {
    RoundedIsUnique(mode, m, 0, 0, den);
  }

  /** `q` has the sign of `ca / cb`. */
  predicate RightSign(q: int, ca: int, cb: int) {
    q == 0 || (ca != 0 && (q > 0) == ((ca > 0) == (cb > 0)))
  }

  /** The quotient vanishes when it is rounded at the full precision asked for. */
  predicate Vanishes(ca: int, cb: int, precision: int, mode: Rounding)
    requires cb != 0 && precision > 0
  {
    Rounded(mode, 0, Abs(ca) * Pow10(precision), Abs(cb))
  }

  /** The sign of the divisor is applied twice, so that the quotient is right exactly when the divisor is positive, or
      nothing is scaled, or the quotient vanishes. */
  lemma DivisionRightIff(ca: int, cb: int, precision: int, mode: Rounding, q: int, p: nat)
    requires cb != 0 && Abs(cb) <= MAX_COEFF + 1
    requires IsScale(Abs(ca), Abs(cb), precision, p) && Rounded(mode, Abs(q), Abs(ca) * Pow10(p), Abs(cb))
    requires q != 0 ==> ca != 0 && (q > 0) == (if precision > 0 then ca > 0 else (ca > 0) == (cb > 0))
    ensures RightSign(q, ca, cb) <==> cb > 0 || ca == 0 || precision <= 0 || Vanishes(ca, cb, precision, mode)
  {
    if ca != 0 && precision > 0 {
      ZeroIff(ca, cb, precision, mode, q, p);
    }
  }

  lemma ZeroIff(ca: int, cb: int, precision: int, mode: Rounding, q: int, p: nat)
    requires cb != 0 && Abs(cb) <= MAX_COEFF + 1 && ca != 0 && precision > 0
    requires IsScale(Abs(ca), Abs(cb), precision, p) && Rounded(mode, Abs(q), Abs(ca) * Pow10(p), Abs(cb))
    ensures q == 0 <==> Vanishes(ca, cb, precision, mode)
  {
    var a, b := Abs(ca), Abs(cb);
    if q == 0 {
      SmallFits(a, b, p, mode);
      assert p == precision;
    } else if Vanishes(ca, cb, precision, mode) {
      assert a * Pow10(precision) <= b by { ZeroIsSmall(mode, a * Pow10(precision), b); }
      PowGrows(p, precision);
      MulGrows(a, Pow10(p), Pow10(precision));
      ZeroAtSmaller(mode, a * Pow10(p), a * Pow10(precision), b);
      RoundedIsUnique(mode, Abs(q), 0, a * Pow10(p), b);
    }
  }

  lemma ZeroIsSmall(mode: Rounding, num: nat, den: nat)
    requires den > 0 && Rounded(mode, 0, num, den)
    ensures num < den
  {}

  lemma ZeroAtSmaller(mode: Rounding, x: nat, y: nat, den: nat)
    requires den > 0 && Rounded(mode, 0, y, den) && x <= y
    ensures Rounded(mode, 0, x, den)
  {}

  /** When a quotient rounds to zero there is room for one more digit. */
  lemma SmallFits(a: nat, b: nat, p: nat, mode: Rounding)
    requires 0 < b <= MAX_COEFF + 1 && Rounded(mode, 0, a * Pow10(p), b)
    ensures FitsScale(a, b, p + 1)
  {
    var x, y := a * Pow10(p), a * Pow10(p + 1);
    ZeroIsSmall(mode, x, b);
    assert y == 10 * x by { assert Pow10(p + 1) == 10 * Pow10(p); }
    TenthFits(y, b);
  }

  lemma TenthFits(y: nat, b: nat)
    requires b > 0 && y < 10 * b
    ensures y / b < 10
  {
    DivBounds(y, b);
    var k: nat := y / b;
    MulGrows(b, 10, if k > 10 then k else 10);
  }

  /** Ten divided by minus two, with any digits asked for, comes out positive. */
  lemma TenByMinusTwo(q: int, p: nat)
    requires IsScale(10, 2, 14, p) && Rounded(HalfEven, Abs(q), 10 * Pow10(p), 2) && (q != 0 ==> q > 0)
    ensures q == 5 * Pow10(p) && !RightSign(q, 10, -2)
  {
    assert 5 * Pow10(p) * 2 == 10 * Pow10(p);
    RoundedIsUnique(HalfEven, Abs(q), 5 * Pow10(p), 10 * Pow10(p), 2);
  }
}
