/** Whole numbers written in decimal digits. */
module Numerals {
  import opened Decimals

  predicate AllDigits(s: string) { forall i | 0 <= i < |s| :: '0' <= s[i] <= '9' }

  function Digits(n: nat): (s: string)
    ensures s != [] && AllDigits(s) && (s[0] == '0' ==> |s| == 1 && n == 0)
  {
    if n < 10 then [('0' as int + n) as char] else Digits(n / 10) + [('0' as int + n % 10) as char]
  }

  /** The number some digits stand for. */
  function Number(s: string): nat
    requires AllDigits(s)
  {
    if s == [] then 0
    else
      var n := |s| - 1;
      10 * Number(s[..n]) + (s[n] as int - '0' as int)
  }

  lemma {:induction false} NumberOfDigits(n: nat)
    ensures Number(Digits(n)) == n
    decreases n
  {
    var s := Digits(n);
    if n >= 10 {
      NumberOfDigits(n / 10);
      assert s[..|s| - 1] == Digits(n / 10);
    } else {
      assert s[..|s| - 1] == [];
    }
  }

  function Zeros(k: nat): (s: string)
    ensures |s| == k && AllDigits(s)
  {
    seq(k, i => '0')
  }

  lemma TenTimes(a: nat, x: nat)
    ensures 10 * (a * x) == a * (10 * x)
  {}

  lemma {:induction false} NumberThenZeros(s: string, k: nat)
    requires AllDigits(s)
    ensures AllDigits(s + Zeros(k)) && Number(s + Zeros(k)) == Number(s) * Pow10(k)
    decreases k
  {
    if k == 0 {
      assert s + Zeros(0) == s;
    } else {
      var t := s + Zeros(k);
      assert t[..|t| - 1] == s + Zeros(k - 1) && t[|t| - 1] == '0';
      NumberThenZeros(s, k - 1);
      TenTimes(Number(s), Pow10(k - 1));
    }
  }

  lemma {:induction false} NumberAfterZeros(k: nat, s: string)
    requires AllDigits(s)
    ensures AllDigits(Zeros(k) + s) && Number(Zeros(k) + s) == Number(s)
    decreases |s|
  {
    var t := Zeros(k) + s;
    if s == [] {
      assert t == [] + Zeros(k);
      NumberThenZeros([], k);
    } else {
      assert t[..|t| - 1] == Zeros(k) + s[..|s| - 1] && t[|t| - 1] == s[|s| - 1];
      NumberAfterZeros(k, s[..|s| - 1]);
    }
  }
}
