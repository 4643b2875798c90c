/** What the operators of the language do to values, case by case and as laws. */
module ValueLaws {
  import opened Values
  import Decimals

  // ----- truth -----

  /** Only nil and false are untrue. */
  lemma UntrueIff(v: Value)
    ensures !Truthy(v) <==> v == Nil || v == Bool(false)
    ensures Not(v) == Bool(v == Nil || v == Bool(false))
  {}

  // ----- equality -----

  /** The number order is one: equal to itself, and the other way round when the operands change places. */
  ghost predicate Ordered(pr: Prims) {
    && (forall m, n :: pr.compare(m, n) in {-1, 0, 1} && pr.compare(m, n) == -pr.compare(n, m))
    && forall l, m, n | pr.compare(l, m) == 0 && pr.compare(m, n) == 0 :: pr.compare(l, n) == 0
  }

  lemma OrderedPair(pr: Prims, m: Dec, n: Dec)
    requires Ordered(pr)
    ensures pr.compare(m, n) in {-1, 0, 1} && pr.compare(m, n) == -pr.compare(n, m)
    ensures pr.compare(m, m) == 0
  {}

  /** Numbers are equal when they compare so; other values but lists only to themselves; lists element by element. */
  lemma EqualIff(pr: Prims, a: Value, b: Value)
    ensures a.Num? && b.Num? ==> (ObjectsEqual(pr, a, b) <==> pr.compare(a.n, b.n) == 0)
    ensures a.List? && b.List? ==> (ObjectsEqual(pr, a, b) <==>
              |a.elems| == |b.elems| && forall i | 0 <= i < |a.elems| :: ObjectsEqual(pr, a.elems[i], b.elems[i]))
    ensures !(a.Num? && b.Num?) && !(a.List? && b.List?) ==> (ObjectsEqual(pr, a, b) <==> a == b)
    ensures Binary(pr, Eq, a, b) == Ok(Bool(ObjectsEqual(pr, a, b)))
    ensures Binary(pr, Ne, a, b) == Ok(Bool(!ObjectsEqual(pr, a, b)))
  {}

  /** Equality is an equivalence, as far as the order of numbers is one. */
  lemma {:induction false} EqualItself(pr: Prims, a: Value)
    requires Ordered(pr)
    ensures ObjectsEqual(pr, a, a)
    decreases a
  {
    match a
    case Num(n) => OrderedPair(pr, n, n);
    case List(xs) =>
      forall i | 0 <= i < |xs| ensures ObjectsEqual(pr, xs[i], xs[i]) { EqualItself(pr, xs[i]); }
    case _ =>
  }

  lemma {:induction false} EqualBothWays(pr: Prims, a: Value, b: Value)
    requires Ordered(pr) && ObjectsEqual(pr, a, b)
    ensures ObjectsEqual(pr, b, a)
    decreases a
  {
    match (a, b)
    case (Num(m), Num(n)) => OrderedPair(pr, m, n);
    case (List(xs), List(ys)) =>
      forall i | 0 <= i < |ys| ensures ObjectsEqual(pr, ys[i], xs[i]) { EqualBothWays(pr, xs[i], ys[i]); }
    case _ =>
  }

  lemma {:induction false} EqualThrough(pr: Prims, a: Value, b: Value, c: Value)
    requires Ordered(pr) && ObjectsEqual(pr, a, b) && ObjectsEqual(pr, b, c)
    ensures ObjectsEqual(pr, a, c)
    decreases a
  {
    match (a, b, c)
    case (Num(l), Num(m), Num(n)) => assert pr.compare(l, m) == 0 && pr.compare(m, n) == 0;
    case (List(xs), List(ys), List(zs)) =>
      forall i | 0 <= i < |zs| ensures ObjectsEqual(pr, xs[i], zs[i]) { EqualThrough(pr, xs[i], ys[i], zs[i]); }
    case _ =>
  }

  // ----- comparison -----

  /** Numbers compare with numbers, strings with strings, symbols with symbols, and nothing else. */
  lemma ComparesIff(pr: Prims, op: BinOp, a: Value, b: Value)
    requires op == Gt || op == Ge || op == Lt || op == Le
    ensures Binary(pr, op, a, b).Ok? <==> (a.Num? && b.Num?) || (a.Str? && b.Str?) || (a.Sym? && b.Sym?)
    ensures Binary(pr, op, a, b).Ok? ==> Binary(pr, op, a, b).value.Bool?
    ensures Binary(pr, op, a, b).Err? ==> Binary(pr, op, a, b).failure == TypeMismatch(op, TypeName(a), TypeName(b))
  {}

  /** One operator decides the others: the second operand is less when they change places, and what is not less is
      greater or equal. */
  lemma CompareLaws(pr: Prims, a: Value, b: Value)
    requires Ordered(pr) && Binary(pr, Lt, a, b).Ok?
    ensures Binary(pr, Gt, a, b) == Binary(pr, Lt, b, a)
    ensures Binary(pr, Ge, a, b).Ok? && Binary(pr, Ge, a, b).value == Not(Binary(pr, Lt, a, b).value)
    ensures Binary(pr, Le, a, b).Ok? && Binary(pr, Le, a, b).value == Not(Binary(pr, Gt, a, b).value)
  {
    if a.Num? { OrderedPair(pr, a.n, b.n); }
  }

  /** And that one is the order of numbers and of texts. */
  lemma LessIs(pr: Prims, a: Value, b: Value)
    ensures a.Num? && b.Num? ==> Binary(pr, Lt, a, b) == Ok(Bool(pr.compare(a.n, b.n) == -1))
    ensures a.Str? && b.Str? ==> Binary(pr, Lt, a, b) == Ok(Bool(pr.stringLess(a.s, b.s)))
    ensures a.Sym? && b.Sym? ==> Binary(pr, Lt, a, b) == Ok(Bool(pr.stringLess(a.name, b.name)))
  {}

  // ----- arithmetic, joining, repeating -----

  /** Numbers are added; a string joins with anything; lists join, and bytes; nothing else can be added. */
  lemma AdditionIs(pr: Prims, a: Value, b: Value)
    ensures a.Num? && b.Num? ==> Binary(pr, Add, a, b) == Ok(Num(pr.arith(Add, a.n, b.n)))
    ensures a.Str? && b.Str? ==> Binary(pr, Add, a, b) == Ok(Str(a.s + b.s))
    ensures a.Str? && !b.Str? ==> Binary(pr, Add, a, b) == Ok(Str(a.s + pr.inspect(b)))
    ensures !a.Str? && b.Str? ==> Binary(pr, Add, a, b) == Ok(Str(pr.inspect(a) + b.s))
    ensures a.List? && b.List? ==> Binary(pr, Add, a, b) == Ok(List(a.elems + b.elems))
    ensures a.Bytes? && b.Bytes? ==> Binary(pr, Add, a, b) == Ok(Bytes(a.bytes + b.bytes))
    ensures Binary(pr, Add, a, b).Err? <==>
            !a.Str? && !b.Str? && !(a.Num? && b.Num?) && !(a.List? && b.List?) && !(a.Bytes? && b.Bytes?)
    ensures Binary(pr, Add, a, b).Err? ==>
      Binary(pr, Add, a, b).failure == TypeMismatch(Add, TypeName(a), TypeName(b))
  {}

  /** Joining is associative: for strings, for lists, for bytes. */
  lemma JoiningAssociates(pr: Prims, a: Value, b: Value, c: Value)
    requires (a.Str? && b.Str? && c.Str?) || (a.List? && b.List? && c.List?) || (a.Bytes? && b.Bytes? && c.Bytes?)
    ensures var ab, bc := Binary(pr, Add, a, b), Binary(pr, Add, b, c);
            ab.Ok? && bc.Ok? && Binary(pr, Add, ab.value, c) == Binary(pr, Add, a, bc.value)
  {
    match a
    case Str(s) => assert (s + b.s) + c.s == s + (b.s + c.s);
    case List(xs) => assert (xs + b.elems) + c.elems == xs + (b.elems + c.elems);
    case Bytes(xs) => assert (xs + b.bytes) + c.bytes == xs + (b.bytes + c.bytes);
  }

  /** The other operators of arithmetic take numbers, but for a string times a number that is not negative. */
  lemma ArithmeticIs(pr: Prims, op: BinOp, a: Value, b: Value)
    requires op == Sub || op == Div || op == Mod || op == Mul
    ensures a.Num? && b.Num? ==> Binary(pr, op, a, b) == Ok(Num(pr.arith(op, a.n, b.n)))
    ensures Binary(pr, op, a, b).Ok? <==>
            b.Num? && (a.Num? || (op == Mul && a.Str? && ToInt(pr, b.n) >= 0))
    ensures !(a.Num? && b.Num?) && !(op == Mul && a.Str? && b.Num?) ==>
      Binary(pr, op, a, b) == Err(TypeMismatch(op, TypeName(a), TypeName(b)))
    ensures op == Mul && a.Str? && b.Num? && ToInt(pr, b.n) < 0 ==>
      Binary(pr, op, a, b) == Err(BadRepeat(ToInt(pr, b.n)))
  {}

  /** A string times `n` is as long as `n` of it, and has its characters round and round. */
  lemma RepeatIs(pr: Prims, s: string, n: nat)
    ensures Binary(pr, Mul, Str(s), Num(FromInt(n))) == Ok(Str(Repeat(s, n)))
    ensures |Repeat(s, n)| == n * |s|
    ensures forall i | 0 <= i < |Repeat(s, n)| :: 0 <= i % |s| < |s| && Repeat(s, n)[i] == s[i % |s|]
  {
    RepeatRound(s, n);
  }

  lemma {:induction false} RepeatRound(s: string, n: nat)
    ensures |Repeat(s, n)| == n * |s|
    ensures forall i | 0 <= i < |Repeat(s, n)| :: 0 <= i % |s| < |s| && Repeat(s, n)[i] == s[i % |s|]
    decreases n
  {
    if n > 0 {
      RepeatRound(s, n - 1);
      var rest := Repeat(s, n - 1);
      assert n * |s| == |s| + (n - 1) * |s|;
      forall i | 0 <= i < |s + rest| ensures 0 <= i % |s| < |s| && (s + rest)[i] == s[i % |s|] {
        if i < |s| { SmallRemainder(i, |s|); } else { RemainderAgain(i, |s|); }
      }
    }
  }

  lemma SmallRemainder(i: nat, k: nat)
    requires i < k
    ensures i % k == i
  {}

  lemma RemainderAgain(i: nat, k: nat)
    requires 0 < k <= i
    ensures i % k == (i - k) % k && 0 <= i % k < k
  {
    Decimals.DivBounds(i - k, k);
    Decimals.DivBounds(i, k);
    var q, q1 := (i - k) / k + 1, i / k;
    assert q * k == (i - k) / k * k + k;
    if q1 < q { Decimals.MulStep(q1, q, k); }
    if q < q1 { Decimals.MulStep(q, q1, k); }
  }

  /** Appending and prepending one element, to a list or, for a number that is a byte, to bytes. */
  lemma OneMoreIs(pr: Prims, xs: seq<Value>, bs: seq<Byte>, v: Value, i: int)
    ensures Binary(pr, Append, List(xs), v) == Ok(List(xs + [v]))
    ensures Binary(pr, Prepend, v, List(xs)) == Ok(List([v] + xs))
    ensures 0 <= i < 256 ==> Binary(pr, Append, Bytes(bs), Num(FromInt(i))) == Ok(Bytes(bs + [i]))
    ensures 0 <= i < 256 ==> Binary(pr, Prepend, Num(FromInt(i)), Bytes(bs)) == Ok(Bytes([i] + bs))
    ensures !(0 <= i < 256) ==> Binary(pr, Append, Bytes(bs), Num(FromInt(i))) == Err(BadByte(i))
    ensures !(0 <= i < 256) ==> Binary(pr, Prepend, Num(FromInt(i)), Bytes(bs)) == Err(BadByte(i))
  {}

  lemma CannotAppend(pr: Prims, a: Value, b: Value)
    ensures !a.List? && !(a.Bytes? && b.Num?) ==>
      Binary(pr, Append, a, b) == Err(TypeMismatch(Append, TypeName(a), TypeName(b)))
    ensures !b.List? && !(b.Bytes? && a.Num?) ==>
      Binary(pr, Prepend, a, b) == Err(TypeMismatch(Prepend, TypeName(a), TypeName(b)))
  {}

  /** `!` turns truth round, twice gives the truth of the value; `-` takes numbers. */
  lemma PrefixIs(pr: Prims, v: Value)
    ensures Prefix(pr, Bang, v) == Ok(Bool(v == Nil || v == Bool(false)))
    ensures Prefix(pr, Bang, Not(v)) == Ok(Bool(v != Nil && v != Bool(false)))
    ensures v.Num? ==> Prefix(pr, Negate, v) == Ok(Num(pr.negate(v.n)))
    ensures !v.Num? ==> Prefix(pr, Negate, v) == Err(BadPrefix(Negate, TypeName(v)))
  {}

  /** The names of the types in messages. */
  lemma TypeNames(b: bool, n: Dec, s: string, bs: seq<Byte>, xs: seq<Value>)
    ensures TypeName(Nil) == "NIL" && TypeName(Bool(b)) == "BOOLEAN" && TypeName(Num(n)) == "NUMBER"
    ensures TypeName(Str(s)) == "STRING" && TypeName(Sym(s)) == "SYMBOL" && TypeName(Bytes(bs)) == "BYTES"
    ensures TypeName(List(xs)) == "LIST" && TypeName(Slice(Nil, Nil, Nil)) == "SLICE"
  {}

  // ----- indexing -----

  /** The element at a position, counted from the end below zero, or nil. */
  lemma ElementIs(pr: Prims, xs: seq<Value>, i: int)
    ensures IndexValue(pr, List(xs), Num(FromInt(i)))
            == Ok(if 0 <= i < |xs| then xs[i] else if -|xs| <= i < 0 then xs[|xs| + i] else Nil)
  {}

  lemma CharacterIs(pr: Prims, s: string, i: int)
    ensures IndexValue(pr, Str(s), Num(FromInt(i)))
            == Ok(if 0 <= i < |s| then Str([s[i]]) else if -|s| <= i < 0 then Str([s[|s| + i]]) else Nil)
  {}

  lemma ByteIs(pr: Prims, bs: seq<Byte>, i: int)
    ensures IndexValue(pr, Bytes(bs), Num(FromInt(i)))
            == Ok(if 0 <= i < |bs| then Num(FromInt(bs[i]))
                  else if -|bs| <= i < 0 then Num(FromInt(bs[|bs| + i])) else Nil)
  {}

  /** Sequences are indexed by numbers and slices, and nothing else is. */
  lemma CannotIndex(pr: Prims, v: Value, i: Value)
    ensures !v.List? && !v.Str? && !v.Bytes? ==> IndexValue(pr, v, i) == Err(BadIndex(TypeName(v)))
    ensures (v.List? || v.Str? || v.Bytes?) && !i.Num? && !i.Slice? ==>
      IndexValue(pr, v, i) == Err(BadIndex(TypeName(i)))
  {}

  /** The elements from a position on, every so many of them, up to a bound. */
  lemma {:induction false} PickIs<T>(xs: seq<T>, i: nat, end: int, step: nat)
    requires end <= |xs| && 1 <= step
    ensures var r := Pick(xs, i, end, step);
            && (i < end ==> (|r| - 1) * step + i < end <= |r| * step + i)
            && (i >= end ==> r == [])
            && forall j | 0 <= j < |r| :: 0 <= i + j * step < end && r[j] == xs[i + j * step]
    decreases end - i
  {
    if i < end {
      PickIs(xs, i + step, end, step);
      var rest := Pick(xs, i + step, end, step);
      var r := [xs[i]] + rest;
      assert |rest| * step + step == |r| * step;
      assert rest != [] ==> (|rest| - 1) * step + step == (|r| - 1) * step;
      forall j | 0 <= j < |r| ensures 0 <= i + j * step < end && r[j] == xs[i + j * step] {
        if j > 0 {
          assert (j - 1) * step + step == j * step;
          assert r[j] == rest[j - 1];
        }
      }
    }
  }

  /** Where a slice starts: at its bound, counted from the end below zero, not before the sequence. */
  function From(length: nat, a: int): nat { if a >= 0 then a else if length + a >= 0 then length + a else 0 }

  /** Where it ends: at its bound, counted from the end below zero, not after the sequence. */
  function To(length: nat, b: int): int { if b >= length then length else if b >= 0 then b else length + b }

  /** A slice of a list has the elements from its first bound on, every `c` of them, below its second bound. */
  lemma SliceIs(pr: Prims, xs: seq<Value>, a: int, b: int, c: int)
    ensures var r := IndexValue(pr, List(xs), Slice(Num(FromInt(a)), Num(FromInt(b)), Num(FromInt(c))));
            var i, end, step := From(|xs|, a), To(|xs|, b), if c <= 0 then 1 else c;
            && r.Ok? && r.value.List?
            && var ys := r.value.elems;
               && (if i < end then (|ys| - 1) * step + i < end <= |ys| * step + i else ys == [])
               && forall j | 0 <= j < |ys| :: 0 <= i + j * step < |xs| && ys[j] == xs[i + j * step]
  {
    PickIs(xs, From(|xs|, a), To(|xs|, b), if c <= 0 then 1 else c);
  }

  /** Bounds left out stand for the whole; a bound that is neither a number nor nil is refused. */
  lemma SliceBounds(pr: Prims, xs: seq<Value>, a: Value, b: Value, c: Value)
    ensures var n := |xs|;
            IndexValue(pr, List(xs), Slice(a, b, c))
            == if (a.Nil? || a.Num?) && (b.Nil? || b.Num?) && (c.Nil? || c.Num?) then
                 IndexValue(pr, List(xs), Slice(if a.Nil? then Num(FromInt(0)) else Num(FromInt(ToInt(pr, a.n))),
                                                if b.Nil? then Num(FromInt(n)) else Num(FromInt(ToInt(pr, b.n))),
                                                if c.Nil? then Num(FromInt(1)) else Num(FromInt(ToInt(pr, c.n)))))
               else Err(BadSliceBound)
  {}

  /** The slice from `a` to `b` of a list, and of a string, with both in range. */
  lemma PlainSlice(pr: Prims, xs: seq<Value>, s: string, a: nat, b: nat)
    ensures a <= b <= |xs| ==>
      IndexValue(pr, List(xs), Slice(Num(FromInt(a)), Num(FromInt(b)), Nil)) == Ok(List(xs[a..b]))
    ensures a <= b <= |s| ==>
      IndexValue(pr, Str(s), Slice(Num(FromInt(a)), Num(FromInt(b)), Nil)) == Ok(Str(s[a..b]))
  {
    if a <= b <= |xs| { PickAll(xs, a, b); }
    if a <= b <= |s| { PickAll(s, a, b); }
  }

  lemma {:induction false} PickAll<T>(xs: seq<T>, a: nat, b: nat)
    requires a <= b <= |xs|
    ensures Pick(xs, a, b, 1) == xs[a..b]
    decreases b - a
  {
    if a < b { PickAll(xs, a + 1, b); }
  }
}
