/** What the compiler accepts, and how code under construction relates to its final form. */
module Compilation {
  import opened Values
  import opened Syntax
  import opened Evaluator
  import opened Bytecode
  import opened Layout

  // ----- the syntax the compiler accepts -----

  predicate Compiles(e: Expr)
    decreases e, 0
  {
    match e
    case Literal(_) => true
    case BoolLit(_) => true
    case NilLit => true
    case Name(_) => true
    case Bind(p, _, value) => Compiles(value) && CompilesBind(p)
    case Assign(target, value) => target.Name? && Compiles(value)
    case PrefixExpr(_, x) => Compiles(x)
    case Infix(_, _, _) => Compiles(Lowered(e).left) && Compiles(Lowered(e).right)
    case And(l, r) => Compiles(l) && Compiles(r)
    case Or(l, r) => Compiles(l) && Compiles(r)
    case If(c, t, f) => Compiles(c) && Compiles(t) && (f.Some? ==> Compiles(f.value))
    case Block(stmts) => forall i | 0 <= i < |stmts| :: Compiles(stmts[i].e)
    case Match(subject, cases) =>
      Compiles(subject) && cases != [] && forall i | 0 <= i < |cases| :: CompilesCase(cases[i])
    case ListLit(es) => forall i | 0 <= i < |es| :: Compiles(es[i])
    case Index(l, i) => Compiles(l) && Compiles(i)
  }

  predicate CompilesBind(p: Pattern)
    decreases p, 0
  {
    match p
    case Ident(_) => true
    case As(_, inner) => CompilesBind(inner)
    case ListPat(ps) =>
      SpreadsLast(ps) && forall i | 0 <= i < |ps| :: ps[i].Wildcard? || ps[i].Spread? || CompilesBind(ps[i])
    case _ => false
  }

  predicate CompilesCase(c: Case)
    decreases c, 0
  {
    CompilesPattern(Stripped(c.pattern)) && (c.guard.Some? ==> Compiles(c.guard.value)) && Compiles(c.body)
  }

  predicate CompilesPattern(p: Pattern)
    decreases p, 0
  {
    match p
    case Wildcard => true
    case Ident(_) => true
    case ListPat(ps) => SpreadsLast(ps) && forall i | 0 <= i < |ps| :: CompilesElem(ps[i])
    case Multi(alts) => alts != [] && forall i | 0 <= i < |alts| :: CompilesOperand(alts[i])
    case LiteralPat(e) => Compiles(e)
    case Pinned(_) => true
    case _ => false
  }

  predicate CompilesElem(p: Pattern)
    decreases p, 0
  {
    match p
    case Wildcard => true
    case Ident(_) => true
    case Spread(_) => true
    case ListPat(ps) => SpreadsLast(ps) && forall i | 0 <= i < |ps| :: CompilesElem(ps[i])
    case LiteralPat(e) => Compiles(e)
    case Pinned(_) => true
    case _ => false
  }

  predicate CompilesOperand(p: Pattern)
    decreases p, 0
  {
    match p
    case LiteralPat(e) => Compiles(e)
    case Pinned(_) => true
    case _ => false
  }

  // ----- code under construction -----

  function Retarget(ins: Instruction, t: nat): Instruction {
    match ins
    case OpJump(_) => OpJump(t)
    case OpJumpIfFalse(_) => OpJumpIfFalse(t)
    case _ => ins
  }

  /** `ch` only grew: its old instructions and constants are still in place. */
  predicate Extends(old_: Chunk, ch: Chunk) {
    |old_.code| <= |ch.code| && ch.code[..|old_.code|] == old_.code && old_.consts <= ch.consts
  }

  lemma ExtendsItself(c: Chunk)
    ensures Extends(c, c)
  {}

  lemma ExtendsTransitive(c1: Chunk, c2: Chunk, c3: Chunk)
    requires Extends(c1, c2) && Extends(c2, c3)
    ensures Extends(c1, c3)
  {
    assert c3.code[..|c1.code|] == c2.code[..|c1.code|];
  }

  lemma ExtendsByEmit(c: Chunk, d: Chunk)
    requires d.consts == c.consts && c.code <= d.code
    ensures Extends(c, d)
  {}

  /** `fin` has the instructions of `ch` between `lo` and `hi`, except that the jumps at `js` lead to `t`. */
  predicate Patched(ch: Chunk, fin: Chunk, lo: nat, hi: nat, js: seq<nat>, t: nat) {
    && hi <= |ch.code| && hi <= |fin.code| && ch.consts <= fin.consts
    && forall k | lo <= k < hi :: fin.code[k] == if k in js then Retarget(ch.code[k], t) else ch.code[k]
  }

  predicate Agree(ch: Chunk, fin: Chunk, lo: nat, hi: nat) {
    && hi <= |ch.code| && hi <= |fin.code| && ch.consts <= fin.consts
    && forall k | lo <= k < hi :: fin.code[k] == ch.code[k]
  }

  /** The code of `e` stands at `b`, and stays its code whatever happens to the rest of the chunk. */
  ghost predicate Emitted(ch: Chunk, b: nat, e: Expr) {
    forall fin | Agree(ch, fin, b, b + Size(e)) :: Encodes(fin, b, e)
  }

  lemma Dispatch(ch: Chunk, b: nat, e: Expr)
    ensures e.Bind? ==> Encodes(ch, b, e) == EncodesBindExpr(ch, b, e) && Size(e) == Size(e.value) + BindSize(e.pattern)
    ensures e.Assign? ==> Encodes(ch, b, e) == EncodesAssign(ch, b, e) && Size(e) == Size(e.value) + 1
    ensures e.PrefixExpr? ==> Encodes(ch, b, e) == EncodesPrefix(ch, b, e) && Size(e) == Size(e.operand) + 1
    ensures e.Infix? ==> Encodes(ch, b, e) == EncodesInfix(ch, b, e)
                         && Size(e) == Size(Lowered(e).left) + Size(Lowered(e).right) + 1
    ensures e.And? ==> Encodes(ch, b, e) == EncodesAnd(ch, b, e) && Size(e) == Size(e.left) + Size(e.right) + 3
    ensures e.Or? ==> Encodes(ch, b, e) == EncodesOr(ch, b, e) && Size(e) == Size(e.left) + Size(e.right) + 3
    ensures e.If? ==> Encodes(ch, b, e) == EncodesIf(ch, b, e)
                      && Size(e) == Size(e.cond) + Size(e.thn) + 2 + (if e.els.Some? then Size(e.els.value) else 1)
    ensures e.Block? ==> Encodes(ch, b, e) == EncodesBlock(ch, b, e)
                         && Size(e) == (if e.stmts == [] then 3 else StmtsSize(e.stmts) + 2)
    ensures e.Match? ==> Encodes(ch, b, e) == EncodesMatch(ch, b, e)
                         && Size(e) == Size(e.subject) + CasesSize(e.cases) + 2
    ensures e.Index? ==> Encodes(ch, b, e) == EncodesIndex(ch, b, e) && Size(e) == Size(e.left) + Size(e.index) + 1
    ensures e.ListLit? ==> Encodes(ch, b, e)
                           == (EncodesList(ch, b, e.elems) && Is(ch, b + ListSize(e.elems), OpArray(|e.elems|)))
                           && Size(e) == ListSize(e.elems) + 1
  {
    hide EncodesBindExpr; hide EncodesAssign; hide EncodesPrefix; hide EncodesInfix; hide EncodesAnd; hide EncodesOr;
    hide EncodesIf; hide EncodesBlock; hide EncodesMatch; hide EncodesList; hide EncodesIndex;
  }
}
