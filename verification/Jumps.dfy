/** Every jump of compiled code goes forward and stays inside the code it was compiled for. */
module Jumps {
  import opened Values
  import opened Syntax
  import opened Evaluator
  import opened Bytecode
  import opened Layout

  /** The instructions from `lo` up to `hi` exist, and their jumps go forward, no further than `top`. */
  predicate Contained(ch: Chunk, lo: nat, hi: nat, top: nat) {
    hi <= |ch.code| && forall k | lo <= k < hi && IsJump(ch.code[k]) :: k < ch.code[k].target <= top
  }

  lemma {:induction false} ExprJumps(ch: Chunk, b: nat, e: Expr, top: nat)
    requires Encodes(ch, b, e) && b + Size(e) <= top
    ensures Contained(ch, b, b + Size(e), top)
    decreases e, 1
  {
    hide EncodesBindExpr; hide EncodesAssign; hide EncodesPrefix; hide EncodesInfix; hide EncodesAnd; hide EncodesOr;
    hide EncodesIf; hide EncodesBlock; hide EncodesMatch; hide EncodesList; hide EncodesIndex;
    hide Lowered; hide BindSize; hide ListSize; hide CasesSize; hide StmtsSize;
    match e
    case Literal(v) =>
    case BoolLit(x) =>
    case NilLit =>
    case Name(x) =>
    case Bind(_, _, _) => BindExprJumps(ch, b, e, top);
    case Assign(_, _) => AssignJumps(ch, b, e, top);
    case PrefixExpr(_, _) => PrefixJumps(ch, b, e, top);
    case Infix(_, _, _) => InfixJumps(ch, b, e, top);
    case And(_, _) => AndJumps(ch, b, e, top);
    case Or(_, _) => OrJumps(ch, b, e, top);
    case If(_, _, _) => IfJumps(ch, b, e, top);
    case Block(_) => BlockJumps(ch, b, e, top);
    case Match(_, _) => MatchJumps(ch, b, e, top);
    case ListLit(es) => ListJumps(ch, b, es, top);
    case Index(_, _) => IndexJumps(ch, b, e, top);
  }

  lemma {:induction false} AssignJumps(ch: Chunk, b: nat, e: Expr, top: nat)
    requires e.Assign? && EncodesAssign(ch, b, e) && b + Size(e.value) + 1 <= top
    ensures Contained(ch, b, b + Size(e.value) + 1, top)
    decreases e, 0
  {
    hide Encodes; hide Size;
    ExprJumps(ch, b, e.value, top);
  }

  lemma {:induction false} PrefixJumps(ch: Chunk, b: nat, e: Expr, top: nat)
    requires e.PrefixExpr? && EncodesPrefix(ch, b, e) && b + Size(e.operand) + 1 <= top
    ensures Contained(ch, b, b + Size(e.operand) + 1, top)
    decreases e, 0
  {
    hide Encodes; hide Size;
    ExprJumps(ch, b, e.operand, top);
  }

  lemma {:induction false} InfixJumps(ch: Chunk, b: nat, e: Expr, top: nat)
    requires e.Infix? && EncodesInfix(ch, b, e) && b + Size(Lowered(e).left) + Size(Lowered(e).right) + 1 <= top
    ensures Contained(ch, b, b + Size(Lowered(e).left) + Size(Lowered(e).right) + 1, top)
    decreases e, 0
  {
    hide Encodes; hide Size;
    ExprJumps(ch, b, Lowered(e).left, top);
    ExprJumps(ch, b + Size(Lowered(e).left), Lowered(e).right, top);
  }

  lemma {:induction false} IndexJumps(ch: Chunk, b: nat, e: Expr, top: nat)
    requires e.Index? && EncodesIndex(ch, b, e) && b + Size(e.left) + Size(e.index) + 1 <= top
    ensures Contained(ch, b, b + Size(e.left) + Size(e.index) + 1, top)
    decreases e, 0
  {
    hide Encodes; hide Size;
    ExprJumps(ch, b, e.left, top);
    ExprJumps(ch, b + Size(e.left), e.index, top);
  }

  lemma {:induction false} AndJumps(ch: Chunk, b: nat, e: Expr, top: nat)
    requires e.And? && EncodesAnd(ch, b, e) && b + Size(e.left) + Size(e.right) + 3 <= top
    ensures Contained(ch, b, b + Size(e.left) + Size(e.right) + 3, top)
    decreases e, 0
  {
    hide Encodes; hide Size;
    ExprJumps(ch, b, e.left, top);
    ExprJumps(ch, b + Size(e.left) + 1, e.right, top);
  }

  lemma {:induction false} OrJumps(ch: Chunk, b: nat, e: Expr, top: nat)
    requires e.Or? && EncodesOr(ch, b, e) && b + Size(e.left) + Size(e.right) + 3 <= top
    ensures Contained(ch, b, b + Size(e.left) + Size(e.right) + 3, top)
    decreases e, 0
  {
    hide Encodes; hide Size;
    ExprJumps(ch, b, e.left, top);
    ExprJumps(ch, b + Size(e.left) + 3, e.right, top);
  }

  lemma {:induction false} IfJumps(ch: Chunk, b: nat, e: Expr, top: nat)
    requires e.If? && EncodesIf(ch, b, e)
             && b + Size(e.cond) + Size(e.thn) + 2 + (if e.els.Some? then Size(e.els.value) else 1) <= top
    ensures Contained(ch, b, b + Size(e.cond) + Size(e.thn) + 2 + (if e.els.Some? then Size(e.els.value) else 1), top)
    decreases e, 0
  {
    hide Encodes; hide Size;
    ExprJumps(ch, b, e.cond, top);
    ExprJumps(ch, b + Size(e.cond) + 1, e.thn, top);
    if e.els.Some? {
      ExprJumps(ch, b + Size(e.cond) + Size(e.thn) + 2, e.els.value, top);
    }
  }

  lemma {:induction false} ListJumps(ch: Chunk, b: nat, es: seq<Expr>, top: nat)
    requires EncodesList(ch, b, es) && b + ListSize(es) <= top && b <= |ch.code|
    ensures Contained(ch, b, b + ListSize(es), top)
    decreases es, 0
  {
    hide Encodes; hide Size;
    if es != [] {
      ExprJumps(ch, b, es[0], top);
      ListJumps(ch, b + Size(es[0]), es[1..], top);
    }
  }

  lemma {:induction false} BlockJumps(ch: Chunk, b: nat, e: Expr, top: nat)
    requires e.Block? && EncodesBlock(ch, b, e) && b + (if e.stmts == [] then 3 else StmtsSize(e.stmts) + 2) <= top
    ensures Contained(ch, b, b + (if e.stmts == [] then 3 else StmtsSize(e.stmts) + 2), top)
    decreases e, 0
  {
    hide EncodesStmts; hide StmtsSize;
    if e.stmts != [] {
      StmtsJumps(ch, b + 1, e.stmts, top);
    }
  }

  lemma {:induction false} StmtsJumps(ch: Chunk, b: nat, stmts: seq<Stmt>, top: nat)
    requires stmts != [] && EncodesStmts(ch, b, stmts) && b + StmtsSize(stmts) <= top
    ensures Contained(ch, b, b + StmtsSize(stmts), top)
    decreases stmts, 0
  {
    hide EncodesStmt; hide StmtSize;
    StmtJumps(ch, b, stmts[0], top);
    if |stmts| > 1 {
      StmtsJumps(ch, b + StmtSize(stmts[0]) + 1, stmts[1..], top);
    }
  }

  lemma {:induction false} StmtJumps(ch: Chunk, b: nat, s: Stmt, top: nat)
    requires EncodesStmt(ch, b, s) && b + StmtSize(s) <= top
    ensures Contained(ch, b, b + StmtSize(s), top)
    decreases s, 0
  {
    hide Encodes; hide Size;
    ExprJumps(ch, b, s.e, top);
  }

  lemma {:induction false} BindExprJumps(ch: Chunk, b: nat, e: Expr, top: nat)
    requires e.Bind? && EncodesBindExpr(ch, b, e) && b + Size(e.value) + BindSize(e.pattern) <= top
    ensures Contained(ch, b, b + Size(e.value) + BindSize(e.pattern), top)
    decreases e, 0
  {
    hide Encodes; hide Size; hide EncodesBind; hide BindSize;
    ExprJumps(ch, b, e.value, top);
    NoBindJumps(ch, b + Size(e.value), e.pattern, e.asConst);
  }

  /** Binding a pattern takes no jumps at all. */
  lemma {:induction false} NoBindJumps(ch: Chunk, b: nat, p: Pattern, asConst: bool)
    requires EncodesBind(ch, b, p, asConst) && b <= |ch.code|
    ensures Contained(ch, b, b + BindSize(p), 0)
    decreases p, 1
  {
    hide EncodesBindElems; hide BindElemsSize;
    match p
    case Ident(_) =>
    case As(_, _) => NoBindAsJumps(ch, b, p, asConst);
    case ListPat(ps) => NoBindElemsJumps(ch, b, ps, 0, asConst);
  }

  lemma {:induction false} NoBindAsJumps(ch: Chunk, b: nat, p: Pattern, asConst: bool)
    requires p.As? && EncodesBindAs(ch, b, p, asConst)
    ensures Contained(ch, b, b + 3 + BindSize(p.inner), 0)
    decreases p, 0
  {
    hide EncodesBind; hide BindSize;
    NoBindJumps(ch, b + 3, p.inner, asConst);
  }

  lemma {:induction false} NoBindElemsJumps(ch: Chunk, b: nat, ps: seq<Pattern>, i: nat, asConst: bool)
    requires EncodesBindElems(ch, b, ps, i, asConst) && b <= |ch.code|
    ensures Contained(ch, b, b + BindElemsSize(ps), 0)
    decreases ps, 0
  {
    hide EncodesBindElem; hide BindElemSize;
    if ps != [] {
      NoBindElemJumps(ch, b, ps[0], i, asConst);
      NoBindElemsJumps(ch, b + BindElemSize(ps[0]), ps[1..], i + 1, asConst);
    }
  }

  lemma {:induction false} NoBindElemJumps(ch: Chunk, b: nat, p: Pattern, i: nat, asConst: bool)
    requires EncodesBindElem(ch, b, p, i, asConst) && b <= |ch.code|
    ensures Contained(ch, b, b + BindElemSize(p), 0)
    decreases p, 2
  {
    hide EncodesBind; hide BindSize;
    if !p.Wildcard? && !p.Spread? {
      NoBindJumps(ch, b + 3, p, asConst);
    }
  }

  lemma {:induction false} MatchJumps(ch: Chunk, b: nat, e: Expr, top: nat)
    requires e.Match? && EncodesMatch(ch, b, e) && b + Size(e.subject) + CasesSize(e.cases) + 2 <= top
    ensures Contained(ch, b, b + Size(e.subject) + CasesSize(e.cases) + 2, top)
    decreases e, 0
  {
    hide Encodes; hide Size; hide EncodesCases; hide CasesSize;
    ExprJumps(ch, b, e.subject, top);
    CasesJumps(ch, b + Size(e.subject), e.cases, b + Size(e.subject) + CasesSize(e.cases) + 2);
  }

  lemma {:induction false} CasesJumps(ch: Chunk, b: nat, cases: seq<Case>, end: nat)
    requires EncodesCases(ch, b, cases, end) && b + CasesSize(cases) <= end && b <= |ch.code|
    ensures Contained(ch, b, b + CasesSize(cases), end)
    decreases cases, 0
  {
    hide EncodesCase; hide CaseSize;
    if cases != [] {
      CaseJumps(ch, b, cases[0], end);
      CasesJumps(ch, b + CaseSize(cases[0]), cases[1..], end);
    }
  }

  lemma {:induction false} CaseJumps(ch: Chunk, b: nat, c: Case, end: nat)
    requires EncodesCase(ch, b, c, end) && b + CaseSize(c) <= end && b <= |ch.code|
    ensures Contained(ch, b, b + CaseSize(c), end)
    decreases c, 2
  {
    hide EncodesScopedCase; hide EncodesFlatCase; hide Size; hide GuardSize; hide FlatSize; hide ScopedSize;
    if Scoped(Stripped(c.pattern)) {
      ScopedCaseJumps(ch, b, c, end);
    } else {
      FlatCaseJumps(ch, b, c, end);
    }
  }

  lemma {:induction false} ScopedCaseJumps(ch: Chunk, b: nat, c: Case, end: nat)
    requires Scoped(Stripped(c.pattern)) && EncodesScopedCase(ch, b, c, end)
    requires var n := 1 + WholeSize(c.pattern) + ScopedSize(Stripped(c.pattern)) + GuardSize(c.guard) + Size(c.body) + 3
                      + (if Stripped(c.pattern).Ident? && c.guard.None? then 0 else 1);
             b + n <= end
    ensures var n := 1 + WholeSize(c.pattern) + ScopedSize(Stripped(c.pattern)) + GuardSize(c.guard) + Size(c.body) + 3
                     + (if Stripped(c.pattern).Ident? && c.guard.None? then 0 else 1);
            Contained(ch, b, b + n, end)
    decreases c, 1
  {
    hide Encodes; hide Size; hide EncodesScoped; hide EncodesGuard; hide ScopedSize; hide GuardSize;
    var m := b + 1 + WholeSize(c.pattern);
    var g := m + ScopedSize(Stripped(c.pattern));
    var body := g + GuardSize(c.guard);
    var fail := body + Size(c.body) + 3;
    ExprJumps(ch, body + 1, c.body, end);
    BindingJumps(ch, m, Stripped(c.pattern), fail, end);
    GuardJumps(ch, g, c.guard, fail, end);
  }

  /** A bare name has no test; otherwise the fail label lies within the bound. */
  lemma {:induction false} BindingJumps(ch: Chunk, b: nat, p: Pattern, fail: nat, top: nat)
    requires Scoped(p) && EncodesScoped(ch, b, p, fail) && (p.ListPat? ==> b + ScopedSize(p) <= fail <= top)
    ensures Contained(ch, b, b + ScopedSize(p), top)
    decreases p, 1
  {
    hide EncodesElems; hide ElemsSize;
    if p.ListPat? {
      ElemsJumps(ch, b + 3, p.elems, 0, fail, top);
    }
  }

  lemma {:induction false} ElemsJumps(ch: Chunk, b: nat, ps: seq<Pattern>, i: nat, fail: nat, top: nat)
    requires EncodesElems(ch, b, ps, i, fail) && b + ElemsSize(ps) <= fail <= top && b <= |ch.code|
    ensures Contained(ch, b, b + ElemsSize(ps), top)
    decreases ps, 0
  {
    hide EncodesElem; hide ElemSize;
    if ps != [] {
      ElemJumps(ch, b, ps[0], i, fail, top);
      ElemsJumps(ch, b + ElemSize(ps[0]), ps[1..], i + 1, fail, top);
    }
  }

  lemma {:induction false} ElemJumps(ch: Chunk, b: nat, p: Pattern, i: nat, fail: nat, top: nat)
    requires EncodesElem(ch, b, p, i, fail) && b + ElemSize(p) <= fail <= top && b <= |ch.code|
    ensures Contained(ch, b, b + ElemSize(p), top)
    decreases p, 3
  {
    hide EncodesElems; hide ElemsSize; hide OperandSize; hide EncodesTest;
    if p.ListPat? {
      ElemsJumps(ch, b + 6, p.elems, 0, b + 3 + 3 + ElemsSize(p.elems) + 2, top);
    } else if p.LiteralPat? || p.Pinned? || p.As? || p.Multi? {
      TestJumps(ch, b + 3, p, fail, top);
    }
  }

  lemma {:induction false} TestJumps(ch: Chunk, b: nat, p: Pattern, fail: nat, top: nat)
    requires EncodesTest(ch, b, p, fail) && b + OperandSize(p) + 2 <= fail <= top
    ensures Contained(ch, b, b + OperandSize(p) + 2, top)
    decreases p, 1
  {
    hide EncodesOperand; hide OperandSize;
    OperandJumps(ch, b, p, top);
  }

  lemma {:induction false} OperandJumps(ch: Chunk, b: nat, p: Pattern, top: nat)
    requires EncodesOperand(ch, b, p) && b + OperandSize(p) <= top
    ensures Contained(ch, b, b + OperandSize(p), top)
    decreases p, 0
  {
    hide Encodes; hide Size;
    if p.LiteralPat? {
      ExprJumps(ch, b, p.e, top);
    }
  }

  lemma {:induction false} GuardJumps(ch: Chunk, b: nat, g: Option<Expr>, fail: nat, top: nat)
    requires EncodesGuard(ch, b, g, fail) && b <= |ch.code| && (g.Some? ==> b + GuardSize(g) <= fail <= top)
    ensures Contained(ch, b, b + GuardSize(g), top)
    decreases g, 0
  {
    hide Encodes; hide Size;
    if g.Some? {
      ExprJumps(ch, b, g.value, top);
    }
  }

  lemma {:induction false} FlatCaseJumps(ch: Chunk, b: nat, c: Case, end: nat)
    requires EncodesFlatCase(ch, b, c, end)
    requires b + FlatSize(Stripped(c.pattern)) + GuardSize(c.guard) + Size(c.body) + 2 <= end
    ensures Contained(ch, b, b + FlatSize(Stripped(c.pattern)) + GuardSize(c.guard) + Size(c.body) + 2, end)
    decreases c, 1
  {
    hide Encodes; hide Size; hide EncodesFlat; hide EncodesGuard; hide FlatSize; hide GuardSize;
    var p := Stripped(c.pattern);
    var g := b + FlatSize(p);
    var body := g + GuardSize(c.guard);
    var next := body + Size(c.body) + 2;
    ExprJumps(ch, body + 1, c.body, end);
    FlatJumps(ch, b, p, next, end);
    GuardJumps(ch, g, c.guard, next, end);
  }

  lemma {:induction false} FlatJumps(ch: Chunk, b: nat, p: Pattern, next: nat, top: nat)
    requires EncodesFlat(ch, b, p, next) && b + FlatSize(p) <= next <= top && b <= |ch.code|
    ensures Contained(ch, b, b + FlatSize(p), top)
    decreases p, 2
  {
    hide EncodesTest; hide OperandSize; hide EncodesAlts; hide AltsSize;
    if p.Multi? {
      AltsJumps(ch, b, p.alts, b + AltsSize(p.alts) + 1, top);
    } else if !p.Wildcard? {
      TestJumps(ch, b + 1, p, next, top);
    }
  }

  lemma {:induction false} AltsJumps(ch: Chunk, b: nat, alts: seq<Pattern>, matched: nat, top: nat)
    requires EncodesAlts(ch, b, alts, matched) && b + AltsSize(alts) < matched <= top && b <= |ch.code|
    ensures Contained(ch, b, b + AltsSize(alts), top)
    decreases alts, 0
  {
    hide EncodesTest; hide OperandSize;
    if alts != [] {
      TestJumps(ch, b + 1, alts[0], b + OperandSize(alts[0]) + 5, top);
      AltsJumps(ch, b + OperandSize(alts[0]) + 5, alts[1..], matched, top);
    }
  }

  // ----- programs -----

  lemma {:induction false} ProgramJumps(ch: Chunk, b: nat, stmts: seq<Stmt>)
    requires EncodesProgram(ch, b, stmts)
    ensures Contained(ch, b, b + ProgramSize(stmts) + 1, b + ProgramSize(stmts))
    decreases stmts
  {
    hide EncodesStmt; hide StmtSize;
    if stmts != [] {
      var n := b + StmtSize(stmts[0]) + (if stmts[0].ExprStmt? then 1 else 0);
      StmtJumps(ch, b, stmts[0], b + ProgramSize(stmts));
      ProgramJumps(ch, n, stmts[1..]);
    }
  }

  /** A chunk that holds a compiled program and nothing else has only forward jumps within itself. */
  lemma ProgramForward(ch: Chunk, stmts: seq<Stmt>)
    requires EncodesProgram(ch, 0, stmts) && |ch.code| == ProgramSize(stmts) + 1
    ensures Forward(ch)
  {
    hide EncodesProgram; hide ProgramSize;
    ProgramJumps(ch, 0, stmts);
  }
}
