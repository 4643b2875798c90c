/** The code of each construct, as a relation between a chunk, an address and the syntax: which instruction stands
    where, with every jump already patched. */
module Layout {
  import opened Values
  import opened Syntax
  import opened Evaluator
  import opened Bytecode

  // ----- how many instructions each construct takes -----

  function Size(e: Expr): nat
    decreases e, 0
  {
    match e
    case Literal(_) => 1
    case BoolLit(_) => 1
    case NilLit => 1
    case Name(_) => 1
    case Bind(p, _, value) => Size(value) + BindSize(p)
    case Assign(_, value) => Size(value) + 1
    case PrefixExpr(_, x) => Size(x) + 1
    case Infix(_, _, _) => Size(Lowered(e).left) + Size(Lowered(e).right) + 1
    case And(l, r) => Size(l) + Size(r) + 3
    case Or(l, r) => Size(l) + Size(r) + 3
    case If(c, t, f) => Size(c) + Size(t) + 2 + (if f.Some? then Size(f.value) else 1)
    case Block(stmts) => if stmts == [] then 3 else StmtsSize(stmts) + 2
    case Match(subject, cases) => Size(subject) + CasesSize(cases) + 2
    case ListLit(es) => ListSize(es) + 1
    case Index(l, i) => Size(l) + Size(i) + 1
  }

  function ListSize(es: seq<Expr>): nat
    decreases es, 0
  {
    if es == [] then 0 else Size(es[0]) + ListSize(es[1..])
  }

  function StmtSize(s: Stmt): nat
    decreases s, 0
  {
    match s
    case ExprStmt(e) => Size(e)
    case Return(e) => Size(e) + 1
    case Throw(e) => Size(e) + 1
  }

  /** Statements of a block, with an OpPop between them. */
  function StmtsSize(stmts: seq<Stmt>): nat
    requires stmts != []
    decreases stmts, 0
  {
    if |stmts| == 1 then StmtSize(stmts[0]) else StmtSize(stmts[0]) + 1 + StmtsSize(stmts[1..])
  }

  function BindSize(p: Pattern): nat
    decreases p, 0
  {
    match p
    case Ident(_) => 1
    case As(_, inner) => 3 + BindSize(inner)
    case ListPat(ps) => BindElemsSize(ps)
    case _ => 0
  }

  function BindElemsSize(ps: seq<Pattern>): nat
    decreases ps, 0
  {
    if ps == [] then 0 else BindElemSize(ps[0]) + BindElemsSize(ps[1..])
  }

  function BindElemSize(p: Pattern): nat
    decreases p, 1
  {
    match p
    case Wildcard => 0
    case Spread(None) => 0
    case Spread(Some(_)) => 7
    case _ => 4 + BindSize(p)
  }

  function CasesSize(cases: seq<Case>): nat
    decreases cases, 0
  {
    if cases == [] then 0 else CaseSize(cases[0]) + CasesSize(cases[1..])
  }

  function CaseSize(c: Case): nat
    decreases c, 0
  {
    if Scoped(Stripped(c.pattern)) then
      1 + WholeSize(c.pattern) + ScopedSize(Stripped(c.pattern)) + GuardSize(c.guard) + Size(c.body) + 3
      + (if Stripped(c.pattern).Ident? && c.guard.None? then 0 else 1)
    else
      FlatSize(Stripped(c.pattern)) + GuardSize(c.guard) + Size(c.body) + 2
  }

  function WholeSize(p: Pattern): nat { if p.As? then 3 else 0 }

  function ScopedSize(p: Pattern): nat
    decreases p, 0
  {
    match p
    case ListPat(ps) => 3 + ElemsSize(ps)
    case _ => 3
  }

  function FlatSize(p: Pattern): nat
    decreases p, 1
  {
    match p
    case Wildcard => 0
    case Multi(alts) => AltsSize(alts) + 2
    case _ => OperandSize(p) + 3
  }

  function GuardSize(g: Option<Expr>): nat
    decreases g, 0
  {
    if g.Some? then Size(g.value) + 1 else 0
  }

  /** The value a literal or pinned pattern is compared with. */
  function OperandSize(p: Pattern): nat
    decreases p, 0
  {
    if p.LiteralPat? then Size(p.e) else 1
  }

  function AltsSize(alts: seq<Pattern>): nat
    decreases alts, 0
  {
    if alts == [] then 0 else OperandSize(alts[0]) + 5 + AltsSize(alts[1..])
  }

  function ElemsSize(ps: seq<Pattern>): nat
    decreases ps, 0
  {
    if ps == [] then 0 else ElemSize(ps[0]) + ElemsSize(ps[1..])
  }

  function ElemSize(p: Pattern): nat
    decreases p, 1
  {
    match p
    case Wildcard => 0
    case Ident(_) => 5
    case Spread(None) => 0
    case Spread(Some(_)) => 4
    case ListPat(ps) => 10 + ElemsSize(ps)
    case _ => OperandSize(p) + 5
  }

  // ----- which instructions they are -----

  predicate Is(ch: Chunk, k: nat, ins: Instruction) { k < |ch.code| && ch.code[k] == ins }

  predicate IsConst(ch: Chunk, k: nat, v: Value) {
    k < |ch.code| && ch.code[k].OpConstant? && ch.code[k].idx < |ch.consts| && ch.consts[ch.code[k].idx] == v
  }

  predicate Encodes(ch: Chunk, b: nat, e: Expr)
    decreases e, 1
  {
    match e
    case Literal(v) => IsConst(ch, b, v)
    case BoolLit(x) => Is(ch, b, if x then OpTrue else OpFalse)
    case NilLit => Is(ch, b, OpNil)
    case Name(x) => Is(ch, b, OpGetGlobal(x))
    case Bind(_, _, _) => EncodesBindExpr(ch, b, e)
    case Assign(_, _) => EncodesAssign(ch, b, e)
    case PrefixExpr(_, _) => EncodesPrefix(ch, b, e)
    case Infix(_, _, _) => EncodesInfix(ch, b, e)
    case And(_, _) => EncodesAnd(ch, b, e)
    case Or(_, _) => EncodesOr(ch, b, e)
    case If(_, _, _) => EncodesIf(ch, b, e)
    case Block(_) => EncodesBlock(ch, b, e)
    case Match(_, _) => EncodesMatch(ch, b, e)
    case ListLit(es) => EncodesList(ch, b, es) && Is(ch, b + ListSize(es), OpArray(|es|))
    case Index(_, _) => EncodesIndex(ch, b, e)
  }

  predicate EncodesBindExpr(ch: Chunk, b: nat, e: Expr)
    requires e.Bind?
    decreases e, 0
  {
    Encodes(ch, b, e.value) && EncodesBind(ch, b + Size(e.value), e.pattern, e.asConst)
  }

  predicate EncodesAssign(ch: Chunk, b: nat, e: Expr)
    requires e.Assign?
    decreases e, 0
  {
    e.target.Name? && Encodes(ch, b, e.value) && Is(ch, b + Size(e.value), OpAssignGlobal(e.target.name))
  }

  predicate EncodesPrefix(ch: Chunk, b: nat, e: Expr)
    requires e.PrefixExpr?
    decreases e, 0
  {
    Encodes(ch, b, e.operand) && Is(ch, b + Size(e.operand), OpPrefix(e.prefix))
  }

  predicate EncodesInfix(ch: Chunk, b: nat, e: Expr)
    requires e.Infix?
    decreases e, 0
  {
    var op := Lowered(e);
    var m := b + Size(op.left);
    Encodes(ch, b, op.left) && Encodes(ch, m, op.right) && Is(ch, m + Size(op.right), OpBinary(op.op))
  }

  predicate EncodesIndex(ch: Chunk, b: nat, e: Expr)
    requires e.Index?
    decreases e, 0
  {
    var m := b + Size(e.left);
    Encodes(ch, b, e.left) && Encodes(ch, m, e.index) && Is(ch, m + Size(e.index), OpIndex)
  }

  predicate EncodesAnd(ch: Chunk, b: nat, e: Expr)
    requires e.And?
    decreases e, 0
  {
    var n := b + Size(e.left);
    var m := n + 1 + Size(e.right);
    && Encodes(ch, b, e.left) && Is(ch, n, OpJumpIfFalse(m + 1))
    && Encodes(ch, n + 1, e.right) && Is(ch, m, OpJump(m + 2)) && Is(ch, m + 1, OpFalse)
  }

  predicate EncodesOr(ch: Chunk, b: nat, e: Expr)
    requires e.Or?
    decreases e, 0
  {
    var m := b + Size(e.left);
    && Encodes(ch, b, e.left) && Is(ch, m, OpJumpIfFalse(m + 3)) && Is(ch, m + 1, OpTrue)
    && Is(ch, m + 2, OpJump(m + 3 + Size(e.right))) && Encodes(ch, m + 3, e.right)
  }

  predicate EncodesIf(ch: Chunk, b: nat, e: Expr)
    requires e.If?
    decreases e, 0
  {
    var m := b + Size(e.cond);
    var n := m + 1 + Size(e.thn);
    && Encodes(ch, b, e.cond) && Is(ch, m, OpJumpIfFalse(n + 1)) && Encodes(ch, m + 1, e.thn)
    && Is(ch, n, OpJump(n + 1 + (if e.els.Some? then Size(e.els.value) else 1)))
    && (if e.els.Some? then Encodes(ch, n + 1, e.els.value) else Is(ch, n + 1, OpNil))
  }

  predicate EncodesBlock(ch: Chunk, b: nat, e: Expr)
    requires e.Block?
    decreases e, 0
  {
    && Is(ch, b, OpPushScope)
    && (if e.stmts == [] then Is(ch, b + 1, OpNil) && Is(ch, b + 2, OpPopScope)
        else EncodesStmts(ch, b + 1, e.stmts) && Is(ch, b + 1 + StmtsSize(e.stmts), OpPopScope))
  }

  predicate EncodesMatch(ch: Chunk, b: nat, e: Expr)
    requires e.Match?
    decreases e, 0
  {
    var m := b + Size(e.subject);
    var n := m + CasesSize(e.cases);
    && e.cases != [] && Encodes(ch, b, e.subject) && EncodesCases(ch, m, e.cases, n + 2)
    && Is(ch, n, OpPop) && Is(ch, n + 1, OpNil)
  }

  predicate EncodesList(ch: Chunk, b: nat, es: seq<Expr>)
    decreases es, 0
  {
    es == [] || (Encodes(ch, b, es[0]) && EncodesList(ch, b + Size(es[0]), es[1..]))
  }

  predicate EncodesStmt(ch: Chunk, b: nat, s: Stmt)
    decreases s, 0
  {
    match s
    case ExprStmt(e) => Encodes(ch, b, e)
    case Return(e) => Encodes(ch, b, e) && Is(ch, b + Size(e), OpReturn)
    case Throw(e) => Encodes(ch, b, e) && Is(ch, b + Size(e), OpThrow)
  }

  predicate EncodesStmts(ch: Chunk, b: nat, stmts: seq<Stmt>)
    requires stmts != []
    decreases stmts, 0
  {
    && EncodesStmt(ch, b, stmts[0])
    && (|stmts| == 1 ||
        (Is(ch, b + StmtSize(stmts[0]), OpPop) && EncodesStmts(ch, b + StmtSize(stmts[0]) + 1, stmts[1..])))
  }

  predicate EncodesBind(ch: Chunk, b: nat, p: Pattern, asConst: bool)
    decreases p, 1
  {
    match p
    case Ident(x) => Is(ch, b, OpSetGlobal(x, asConst))
    case As(_, _) => EncodesBindAs(ch, b, p, asConst)
    case ListPat(ps) => EncodesBindElems(ch, b, ps, 0, asConst)
    case _ => false
  }

  predicate EncodesBindAs(ch: Chunk, b: nat, p: Pattern, asConst: bool)
    requires p.As?
    decreases p, 0
  {
    && Is(ch, b, OpDup) && Is(ch, b + 1, OpSetGlobal(p.name, asConst)) && Is(ch, b + 2, OpPop)
    && EncodesBind(ch, b + 3, p.inner, asConst)
  }

  predicate EncodesBindElems(ch: Chunk, b: nat, ps: seq<Pattern>, i: nat, asConst: bool)
    decreases ps, 0
  {
    ps == [] ||
    (&& (ps[0].Spread? ==> |ps| == 1)
     && EncodesBindElem(ch, b, ps[0], i, asConst)
     && EncodesBindElems(ch, b + BindElemSize(ps[0]), ps[1..], i + 1, asConst))
  }

  predicate EncodesBindElem(ch: Chunk, b: nat, p: Pattern, i: nat, asConst: bool)
    decreases p, 3
  {
    match p
    case Wildcard => true
    case Spread(None) => true
    case Spread(Some(x)) => EncodesBindRest(ch, b, x, i, asConst)
    case _ => EncodesBindPart(ch, b, p, i, asConst)
  }

  /** A named spread: the slice is built but never applied to the duplicated value. */
  predicate EncodesBindRest(ch: Chunk, b: nat, x: string, i: nat, asConst: bool) {
    && Is(ch, b, OpDup) && IsConst(ch, b + 1, Num(FromInt(i))) && Is(ch, b + 2, OpNil) && Is(ch, b + 3, OpNil)
    && Is(ch, b + 4, OpSlice) && Is(ch, b + 5, OpSetGlobal(x, asConst)) && Is(ch, b + 6, OpPop)
  }

  predicate EncodesBindPart(ch: Chunk, b: nat, p: Pattern, i: nat, asConst: bool)
    decreases p, 2
  {
    EncodesFetch(ch, b, i) && EncodesBind(ch, b + 3, p, asConst) && Is(ch, b + 3 + BindSize(p), OpPop)
  }

  /** Push element `i` of the value on top of the stack. */
  predicate EncodesFetch(ch: Chunk, b: nat, i: nat) {
    Is(ch, b, OpDup) && IsConst(ch, b + 1, Num(FromInt(i))) && Is(ch, b + 2, OpIndex)
  }

  predicate EncodesCases(ch: Chunk, b: nat, cases: seq<Case>, end: nat)
    decreases cases, 0
  {
    cases == [] || (EncodesCase(ch, b, cases[0], end) && EncodesCases(ch, b + CaseSize(cases[0]), cases[1..], end))
  }

  predicate EncodesCase(ch: Chunk, b: nat, c: Case, end: nat)
    decreases c, 1
  {
    if Scoped(Stripped(c.pattern)) then EncodesScopedCase(ch, b, c, end) else EncodesFlatCase(ch, b, c, end)
  }

  predicate EncodesScopedCase(ch: Chunk, b: nat, c: Case, end: nat)
    requires Scoped(Stripped(c.pattern))
    decreases c, 0
  {
    var p := Stripped(c.pattern);
    var m := b + 1 + WholeSize(c.pattern);
    var g := m + ScopedSize(p);
    var body := g + GuardSize(c.guard);
    var fail := body + Size(c.body) + 3;
    && Is(ch, b, OpPushScope)
    && EncodesWhole(ch, b + 1, c.pattern)
    && EncodesScoped(ch, m, p, fail)
    && EncodesGuard(ch, g, c.guard, fail)
    && Is(ch, body, OpPop) && Encodes(ch, body + 1, c.body)
    && Is(ch, fail - 2, OpPopScope) && Is(ch, fail - 1, OpJump(end))
    && ((p.Ident? && c.guard.None?) || Is(ch, fail, OpPopScope))
  }

  predicate EncodesFlatCase(ch: Chunk, b: nat, c: Case, end: nat)
    decreases c, 0
  {
    var p := Stripped(c.pattern);
    var g := b + FlatSize(p);
    var body := g + GuardSize(c.guard);
    var next := body + Size(c.body) + 2;
    && EncodesFlat(ch, b, p, next)
    && EncodesGuard(ch, g, c.guard, next)
    && Is(ch, body, OpPop) && Encodes(ch, body + 1, c.body)
    && Is(ch, next - 1, OpJump(end))
  }

  predicate EncodesWhole(ch: Chunk, b: nat, p: Pattern) {
    p.As? ==> Is(ch, b, OpDup) && Is(ch, b + 1, OpSetGlobal(p.name, true)) && Is(ch, b + 2, OpPop)
  }

  predicate EncodesScoped(ch: Chunk, b: nat, p: Pattern, fail: nat)
    requires Scoped(p)
    decreases p, 0
  {
    match p
    case Ident(x) => Is(ch, b, OpDup) && Is(ch, b + 1, OpSetGlobal(x, true)) && Is(ch, b + 2, OpPop)
    case ListPat(ps) => EncodesLength(ch, b, ps, fail) && EncodesElems(ch, b + 3, ps, 0, fail)
  }

  predicate EncodesLength(ch: Chunk, b: nat, ps: seq<Pattern>, fail: nat) {
    && SpreadsLast(ps) && Is(ch, b, OpDup)
    && Is(ch, b + 1, if EndsInSpread(ps) then OpMatchSeqLenGte(|ps| - 1) else OpMatchSeqLenEq(|ps|))
    && Is(ch, b + 2, OpJumpIfFalse(fail))
  }

  predicate EncodesGuard(ch: Chunk, b: nat, g: Option<Expr>, fail: nat)
    decreases g, 0
  {
    g.Some? ==> Encodes(ch, b, g.value) && Is(ch, b + Size(g.value), OpJumpIfFalse(fail))
  }

  predicate EncodesFlat(ch: Chunk, b: nat, p: Pattern, next: nat)
    decreases p, 3
  {
    match p
    case Wildcard => true
    case Multi(alts) =>
      var m := b + AltsSize(alts);
      alts != [] && EncodesAlts(ch, b, alts, m + 1) && Is(ch, m, OpFalse) && Is(ch, m + 1, OpJumpIfFalse(next))
    case _ => EncodesEqual(ch, b, p, next)
  }

  /** Compare the value on top of the stack, kept below a copy, with a literal or pinned pattern. */
  predicate EncodesEqual(ch: Chunk, b: nat, p: Pattern, fail: nat)
    decreases p, 2
  {
    Is(ch, b, OpDup) && EncodesTest(ch, b + 1, p, fail)
  }

  /** Compare the value on top of the stack with the pattern's, and drop both. */
  predicate EncodesTest(ch: Chunk, b: nat, p: Pattern, fail: nat)
    decreases p, 1
  {
    && EncodesOperand(ch, b, p)
    && Is(ch, b + OperandSize(p), OpBinary(Eq)) && Is(ch, b + OperandSize(p) + 1, OpJumpIfFalse(fail))
  }

  predicate EncodesOperand(ch: Chunk, b: nat, p: Pattern)
    decreases p, 0
  {
    match p
    case LiteralPat(e) => Encodes(ch, b, e)
    case Pinned(x) => Is(ch, b, OpGetGlobal(x))
    case _ => false
  }

  /** Alternatives: leave true at `matched` when one holds. */
  predicate EncodesAlts(ch: Chunk, b: nat, alts: seq<Pattern>, matched: nat)
    decreases alts, 0
  {
    alts == [] ||
    (var n := b + OperandSize(alts[0]) + 5;
     && EncodesEqual(ch, b, alts[0], n) && Is(ch, n - 2, OpTrue) && Is(ch, n - 1, OpJump(matched))
     && EncodesAlts(ch, n, alts[1..], matched))
  }

  predicate EncodesElems(ch: Chunk, b: nat, ps: seq<Pattern>, i: nat, fail: nat)
    decreases ps, 0
  {
    ps == [] ||
    (EncodesElem(ch, b, ps[0], i, fail) && EncodesElems(ch, b + ElemSize(ps[0]), ps[1..], i + 1, fail))
  }

  predicate EncodesElem(ch: Chunk, b: nat, p: Pattern, i: nat, fail: nat)
    decreases p, 3
  {
    match p
    case Wildcard => true
    case Spread(None) => true
    case Spread(Some(x)) =>
      Is(ch, b, OpDup) && Is(ch, b + 1, OpMatchSeqTail(i)) && Is(ch, b + 2, OpSetGlobal(x, true))
        && Is(ch, b + 3, OpPop)
    case Ident(x) => EncodesFetch(ch, b, i) && Is(ch, b + 3, OpSetGlobal(x, true)) && Is(ch, b + 4, OpPop)
    case ListPat(ps) => EncodesFetch(ch, b, i) && EncodesNested(ch, b + 3, ps, fail)
    case _ => EncodesFetch(ch, b, i) && EncodesTest(ch, b + 3, p, fail)
  }

  /** A list pattern inside a list pattern: its own fail label drops the inner value first. */
  predicate EncodesNested(ch: Chunk, b: nat, ps: seq<Pattern>, fail: nat)
    decreases ps, 1
  {
    var m := b + 3 + ElemsSize(ps);
    && EncodesLength(ch, b, ps, m + 2) && EncodesElems(ch, b + 3, ps, 0, m + 2)
    && Is(ch, m, OpPop) && Is(ch, m + 1, OpJump(m + 4))
    && Is(ch, m + 2, OpPop) && Is(ch, m + 3, OpJump(fail))
  }

  /** A program: each expression statement is followed by OpPop, and OpReturn ends the chunk. */
  function ProgramSize(stmts: seq<Stmt>): nat {
    if stmts == [] then 0
    else StmtSize(stmts[0]) + (if stmts[0].ExprStmt? then 1 else 0) + ProgramSize(stmts[1..])
  }

  predicate EncodesProgram(ch: Chunk, b: nat, stmts: seq<Stmt>)
    decreases stmts
  {
    if stmts == [] then Is(ch, b, OpReturn)
    else
      && EncodesStmt(ch, b, stmts[0])
      && (stmts[0].ExprStmt? ==> Is(ch, b + StmtSize(stmts[0]), OpPop))
      && EncodesProgram(ch, b + StmtSize(stmts[0]) + (if stmts[0].ExprStmt? then 1 else 0), stmts[1..])
  }
}
