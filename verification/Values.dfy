/** Runtime values and the primitive operators of the virtual machine. Decimal arithmetic itself is a parameter
    (`Prims`): every statement about the compiler holds for whatever the arithmetic does. */
module Values {

  datatype Option<+T> = None | Some(value: T)

  datatype Result<+T> = Ok(value: T) | Err(failure: Failure)

  /** A decimal number: coefficient times ten to the exponent. */
  datatype Dec = Dec(coef: int, exp: int)

  type Byte = b: int | 0 <= b < 256

  datatype Value =
    | Nil
    | Bool(b: bool)
    | Num(n: Dec)
    | Str(s: string)
    | Sym(name: string)
    | Bytes(bytes: seq<Byte>)
    | List(elems: seq<Value>)
    | Slice(start: Value, end: Value, step: Value)

  datatype BinOp =
    | Add | Sub | Mul | Div | Mod
    | Eq | Ne | Gt | Ge | Lt | Le
    | Append | Prepend

  datatype PrefixOp = Bang | Negate

  /** What the machine reports when it stops with an error object. */
  datatype Failure =
    | IdentifierNotFound(name: string)
    | AlreadyDefined(name: string, asConst: bool)
    | AssignToVal(name: string)
    | AssignUndefined(name: string)
    | TypeMismatch(binary: BinOp, left: string, right: string)
    | BadPrefix(prefix: PrefixOp, operand: string)
    | BadIndex(operand: string)
    | BadRepeat(count: int)
    | BadByte(value: int)
    | BadSliceBound
    | BadConstant
    | StackUnderflow
    | PopsRootScope

  /** Operations on numbers and the printed form of values, supplied by other parts of the program. */
  datatype Prims = Prims(
    arith: (BinOp, Dec, Dec) -> Dec,
    negate: Dec -> Dec,
    compare: (Dec, Dec) -> int,
    scaledInt: Dec -> int,
    inspect: Value -> string,
    stringLess: (string, string) -> bool)

  /** The number constant for an index or a length. */
  function FromInt(i: int): Dec { Dec(i, 0) }

  /** The integer a number denotes: the coefficient itself when the exponent is zero. */
  function ToInt(pr: Prims, n: Dec): int {
    if n.exp == 0 then n.coef else pr.scaledInt(n)
  }

  function TypeName(v: Value): string {
    match v
    case Nil => "NIL"
    case Bool(_) => "BOOLEAN"
    case Num(_) => "NUMBER"
    case Str(_) => "STRING"
    case Sym(_) => "SYMBOL"
    case Bytes(_) => "BYTES"
    case List(_) => "LIST"
    case Slice(_, _, _) => "SLICE"
  }

  predicate Truthy(v: Value) { v != Bool(false) && v != Nil }

  function Not(v: Value): Value { Bool(!Truthy(v)) }

  predicate ObjectsEqual(pr: Prims, a: Value, b: Value) {
    match (a, b)
    case (Num(m), Num(n)) => pr.compare(m, n) == 0
    case (List(xs), List(ys)) =>
      |xs| == |ys| && forall i | 0 <= i < |xs| :: ObjectsEqual(pr, xs[i], ys[i])
    case _ => a == b
  }

  function Repeat(s: string, n: nat): string {
    if n == 0 then [] else s + Repeat(s, n - 1)
  }

  function ToByte(pr: Prims, n: Dec): Result<Byte> {
    var i := ToInt(pr, n);
    if 0 <= i < 256 then Ok(i) else Err(BadByte(i))
  }

  function AddValues(pr: Prims, l: Value, r: Value): Result<Value> {
    match (l, r)
    case (Num(m), Num(n)) => Ok(Num(pr.arith(Add, m, n)))
    case (Str(s), Str(t)) => Ok(Str(s + t))
    case (Str(s), _) => Ok(Str(s + pr.inspect(r)))
    case (_, Str(t)) => Ok(Str(pr.inspect(l) + t))
    case (List(xs), List(ys)) => Ok(List(xs + ys))
    case (Bytes(xs), Bytes(ys)) => Ok(Bytes(xs + ys))
    case _ => Err(TypeMismatch(Add, TypeName(l), TypeName(r)))
  }

  function AppendValue(pr: Prims, l: Value, r: Value): Result<Value> {
    match (l, r)
    case (List(xs), _) => Ok(List(xs + [r]))
    case (Bytes(xs), Num(n)) =>
      (match ToByte(pr, n)
       case Ok(b) => Ok(Bytes(xs + [b]))
       case Err(f) => Err(f))
    case _ => Err(TypeMismatch(Append, TypeName(l), TypeName(r)))
  }

  function PrependValue(pr: Prims, l: Value, r: Value): Result<Value> {
    match (l, r)
    case (_, List(ys)) => Ok(List([l] + ys))
    case (Num(n), Bytes(ys)) =>
      (match ToByte(pr, n)
       case Ok(b) => Ok(Bytes([b] + ys))
       case Err(f) => Err(f))
    case _ => Err(TypeMismatch(Prepend, TypeName(l), TypeName(r)))
  }

  function MulValues(pr: Prims, l: Value, r: Value): Result<Value> {
    match (l, r)
    case (Num(m), Num(n)) => Ok(Num(pr.arith(Mul, m, n)))
    case (Str(s), Num(n)) =>
      var times := ToInt(pr, n);
      if times < 0 then Err(BadRepeat(times)) else Ok(Str(Repeat(s, times)))
    case _ => Err(TypeMismatch(Mul, TypeName(l), TypeName(r)))
  }

  function Compare(pr: Prims, op: BinOp, l: Value, r: Value): Result<Value>
    requires op in {Gt, Ge, Lt, Le}
  {
    match (l, r)
    case (Num(m), Num(n)) =>
      var c := pr.compare(m, n);
      Ok(Bool(match op case Gt => c == 1 case Ge => c >= 0 case Lt => c == -1 case _ => c <= 0))
    case (Str(s), Str(t)) => Ok(Bool(CompareText(pr, op, s, t)))
    case (Sym(s), Sym(t)) => Ok(Bool(CompareText(pr, op, s, t)))
    case _ => Err(TypeMismatch(op, TypeName(l), TypeName(r)))
  }

  predicate CompareText(pr: Prims, op: BinOp, s: string, t: string)
    requires op in {Gt, Ge, Lt, Le}
  {
    match op
    case Gt => pr.stringLess(t, s)
    case Ge => !pr.stringLess(s, t)
    case Lt => pr.stringLess(s, t)
    case _ => !pr.stringLess(t, s)
  }

  /** The binary operators, branch by branch as the machine evaluates them. */
  function Binary(pr: Prims, op: BinOp, l: Value, r: Value): Result<Value> {
    match op
    case Add => AddValues(pr, l, r)
    case Mul => MulValues(pr, l, r)
    case Sub | Div | Mod =>
      if l.Num? && r.Num? then Ok(Num(pr.arith(op, l.n, r.n)))
      else Err(TypeMismatch(op, TypeName(l), TypeName(r)))
    case Eq => Ok(Bool(ObjectsEqual(pr, l, r)))
    case Ne => Ok(Bool(!ObjectsEqual(pr, l, r)))
    case Gt | Ge | Lt | Le => Compare(pr, op, l, r)
    case Append => AppendValue(pr, l, r)
    case Prepend => PrependValue(pr, l, r)
  }

  function Prefix(pr: Prims, op: PrefixOp, v: Value): Result<Value> {
    match op
    case Bang => Ok(Not(v))
    case Negate => if v.Num? then Ok(Num(pr.negate(v.n))) else Err(BadPrefix(Negate, TypeName(v)))
  }

  /** The length of a sequence the `match` instructions accept (lists and bytes only). */
  function SeqLen(v: Value): Option<nat> {
    match v
    case List(xs) => Some(|xs|)
    case Bytes(bs) => Some(|bs|)
    case _ => None
  }

  /** A bound of a slice: absent, or an integer. */
  function Bound(pr: Prims, v: Value, default: int): Option<int> {
    match v
    case Nil => Some(default)
    case Num(n) => Some(ToInt(pr, n))
    case _ => None
  }

  datatype Range = Range(start: nat, end: int, step: nat)

  function SliceRange(pr: Prims, length: nat, s: Value): (r: Option<Range>)
    requires s.Slice?
    ensures r.Some? ==> r.value.end <= length && 1 <= r.value.step
  {
    match (Bound(pr, s.start, 0), Bound(pr, s.end, length), Bound(pr, s.step, 1))
    case (Some(a), Some(b), Some(c)) =>
      var a1 := if a < 0 then a + length else a;
      var b1 := if b < 0 then b + length else b;
      Some(Range(if a1 < 0 then 0 else a1, if b1 > length then length else b1, if c <= 0 then 1 else c))
    case _ => None
  }

  function Pick<T>(xs: seq<T>, i: nat, end: int, step: nat): seq<T>
    requires end <= |xs| && 1 <= step
    decreases end - i
  {
    if i >= end then [] else [xs[i]] + Pick(xs, i + step, end, step)
  }

  /** A position counted from the end when negative; none when out of range. */
  function Position(pr: Prims, length: nat, n: Dec): (p: Option<nat>)
    ensures p.Some? ==> p.value < length
  {
    var i := ToInt(pr, n);
    var j := if i < 0 then length + i else i;
    if 0 <= j < length then Some(j) else None
  }

  function IndexValue(pr: Prims, l: Value, i: Value): Result<Value> {
    match (l, i)
    case (List(xs), Num(n)) =>
      var p := Position(pr, |xs|, n);
      Ok(if p.Some? then xs[p.value] else Nil)
    case (Str(s), Num(n)) =>
      var p := Position(pr, |s|, n);
      Ok(if p.Some? then Str([s[p.value]]) else Nil)
    case (Bytes(bs), Num(n)) =>
      var p := Position(pr, |bs|, n);
      Ok(if p.Some? then Num(FromInt(bs[p.value])) else Nil)
    case (List(xs), Slice(_, _, _)) =>
      var r := SliceRange(pr, |xs|, i);
      if r.None? then Err(BadSliceBound) else Ok(List(Pick(xs, r.value.start, r.value.end, r.value.step)))
    case (Str(s), Slice(_, _, _)) =>
      var r := SliceRange(pr, |s|, i);
      if r.None? then Err(BadSliceBound) else Ok(Str(Pick(s, r.value.start, r.value.end, r.value.step)))
    case (Bytes(bs), Slice(_, _, _)) =>
      var r := SliceRange(pr, |bs|, i);
      if r.None? then Err(BadSliceBound) else Ok(Bytes(Pick(bs, r.value.start, r.value.end, r.value.step)))
    case (List(_), _) => Err(BadIndex(TypeName(i)))
    case (Str(_), _) => Err(BadIndex(TypeName(i)))
    case (Bytes(_), _) => Err(BadIndex(TypeName(i)))
    case _ => Err(BadIndex(TypeName(l)))
  }

  /** What is left of a sequence after its first `n` elements. */
  function SeqTail(v: Value, n: nat): (r: Value)
    requires SeqLen(v).Some?
  {
    match v
    case List(xs) => List(if n <= |xs| then xs[n..] else [])
    case Bytes(bs) => Bytes(if n <= |bs| then bs[n..] else [])
  }

  /** The element of a sequence at a known position. */
  function SeqAt(v: Value, i: nat): Value
    requires SeqLen(v).Some? && i < SeqLen(v).value
  {
    match v
    case List(xs) => xs[i]
    case Bytes(bs) => Num(FromInt(bs[i]))
  }

  lemma IndexIsSeqAt(pr: Prims, v: Value, i: nat)
    requires SeqLen(v).Some? && i < SeqLen(v).value
    ensures IndexValue(pr, v, Num(FromInt(i))) == Ok(SeqAt(v, i))
  {}
}
