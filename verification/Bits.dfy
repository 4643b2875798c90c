/** The 32-bit map of a trie branch: one bit for each child. */
module Bits {

  /** A position in the bitmap. */
  type Segment = s: int | 0 <= s < 32

  function Bit(s: Segment): bv32 { 1 << s }

  predicate Has(b: bv32, s: Segment) { b & Bit(s) != 0 }

  function With(b: bv32, s: Segment): bv32 { b | Bit(s) }

  function Without(b: bv32, s: Segment): bv32 { b & !Bit(s) }

  lemma BitsApart(s: Segment, t: Segment)
    requires s != t
    ensures Bit(s) & Bit(t) == 0
  {}

  lemma OrSame(b: bv32, x: bv32)
    ensures (b | x) & x == x
  {}

  lemma OrOther(b: bv32, x: bv32, y: bv32)
    requires x & y == 0
    ensures (b | x) & y == b & y
  {}

  lemma AndNotSame(b: bv32, x: bv32)
    ensures (b & !x) & x == 0
  {}

  lemma AndNotOther(b: bv32, x: bv32, y: bv32)
    requires x & y == 0
    ensures (b & !x) & y == b & y
  {}

  lemma HasWithSame(b: bv32, s: Segment)
    ensures Has(b | Bit(s), s) && !Has(b & !Bit(s), s)
  {
    OrSame(b, Bit(s));
    AndNotSame(b, Bit(s));
  }

  lemma HasOrOther(b: bv32, s: Segment, t: Segment)
    requires s != t
    ensures Has(b | Bit(s), t) <==> Has(b, t)
  {
    BitsApart(s, t);
    OrOther(b, Bit(s), Bit(t));
    hide Bit;
  }

  lemma HasAndNotOther(b: bv32, s: Segment, t: Segment)
    requires s != t
    ensures Has(b & !Bit(s), t) <==> Has(b, t)
  {
    BitsApart(s, t);
    AndNotOther(b, Bit(s), Bit(t));
    hide Bit;
  }

  lemma HasWith(b: bv32, s: Segment, t: Segment)
    ensures Has(With(b, s), t) <==> t == s || Has(b, t)
  {
    hide Has; hide Bit;
    if s == t {
      HasWithSame(b, s);
    } else {
      HasOrOther(b, s, t);
    }
  }

  lemma HasWithout(b: bv32, s: Segment, t: Segment)
    ensures Has(Without(b, s), t) <==> t != s && Has(b, t)
  {
    hide Has; hide Bit;
    if s == t {
      HasWithSame(b, s);
    } else {
      HasAndNotOther(b, s, t);
    }
  }

  /** No bit below `s` is set. */
  predicate ClearBelow(b: bv32, s: Segment) { b & (Bit(s) - 1) == 0 }

  lemma NextClear(b: bv32, s: Segment)
    requires ClearBelow(b, s) && !Has(b, s) && b != 0
    ensures s < 31
  {}

  lemma NextClearBelow(b: bv32, s: Segment)
    requires ClearBelow(b, s) && !Has(b, s) && s < 31
    ensures ClearBelow(b, s + 1)
  {}

  lemma NothingBelow(b: bv32)
    ensures ClearBelow(b, 0)
  {}

  function TrailingFrom(b: bv32, s: Segment): (r: Segment)
    requires ClearBelow(b, s) && b != 0
    ensures Has(b, r) && ClearBelow(b, r)
    decreases 32 - s
  {
    hide Has; hide ClearBelow;
    if Has(b, s) then s
    else
      NextClear(b, s);
      NextClearBelow(b, s);
      TrailingFrom(b, s + 1)
  }

  /** The position of the lowest set bit. */
  function Trailing(b: bv32): (r: Segment)
    requires b != 0
    ensures Has(b, r) && ClearBelow(b, r)
  {
    NothingBelow(b);
    TrailingFrom(b, 0)
  }

  function Rest(b: bv32): bv32 { b & (b - 1) }

  lemma RestIsWithout(b: bv32, r: Segment)
    requires Has(b, r) && ClearBelow(b, r)
    ensures Rest(b) == Without(b, r)
  {}

  lemma RestIsLess(b: bv32)
    requires b != 0
    ensures Rest(b) < b
  {}

  lemma EmptyHas(s: Segment)
    ensures !Has(0, s)
  {}

  lemma RestEmpty(b: bv32, s: Segment, t: Segment)
    requires Rest(b) == 0 && Has(b, s) && Has(b, t)
    ensures s == t
  {}
}
