/** Which programs the compiler accepts, and which of them its correctness is stated for: both are decided node by node.
    */
module Acceptance {
  import opened Values
  import opened Syntax
  import opened Evaluator
  import opened Compilation
  import opened Correctness

  /** The expressions in a pattern. */
  function InPattern(p: Pattern): (r: set<Expr>)
    ensures forall x | x in r :: x < p
    decreases p
  {
    match p
    case LiteralPat(e) => {e}
    case As(_, inner) => InPattern(inner)
    case ListPat(ps) => set i, x | 0 <= i < |ps| && x in InPattern(ps[i]) :: x
    case Multi(ps) => set i, x | 0 <= i < |ps| && x in InPattern(ps[i]) :: x
    case _ => {}
  }

  function InCase(c: Case): (r: set<Expr>)
    ensures forall x | x in r :: x < c
  {
    InPattern(c.pattern) + (if c.guard.Some? then {c.guard.value} else {}) + {c.body}
  }

  /** The expressions an expression is made of. */
  function Parts(e: Expr): (r: set<Expr>)
    ensures forall x | x in r :: x < e
  {
    match e
    case Bind(_, _, x) => {x}
    case Assign(_, x) => {x}
    case PrefixExpr(_, x) => {x}
    case Infix(_, l, r) => {l, r}
    case And(l, r) => {l, r}
    case Or(l, r) => {l, r}
    case If(c, t, f) => {c, t} + if f.Some? then {f.value} else {}
    case Block(stmts) => set i | 0 <= i < |stmts| :: stmts[i].e
    case Match(subject, cases) => {subject} + set i, x | 0 <= i < |cases| && x in InCase(cases[i]) :: x
    case ListLit(es) => set i | 0 <= i < |es| :: es[i]
    case Index(l, i) => {l, i}
    case _ => {}
  }

  /** All expressions inside one, at any depth, and it itself. */
  function Nodes(e: Expr): set<Expr>
    decreases e
  {
    {e} + set x, n | x in Parts(e) && n in Nodes(x) :: n
  }

  /** A pattern of `match` that is supported as such: wildcards, names, literals, pinned names, alternatives of the last
      two, and lists of all but alternatives with a spread at the end at most. */
  predicate Supported(p: Pattern)
    decreases p
  {
    match p
    case As(_, _) => false
    case Spread(_) => false
    case ListPat(ps) => SpreadsLast(ps) && forall i | 0 <= i < |ps| ::
      ps[i].Spread? || (!ps[i].Multi? && Supported(ps[i]))
    case Multi(alts) => alts != [] && forall i | 0 <= i < |alts| :: alts[i].LiteralPat? || alts[i].Pinned?
    case _ => true
  }

  /** What a single node asks for: a name to assign to, a supported pattern, a case at least. */
  predicate NodeCompiles(e: Expr) {
    match e
    case Bind(p, _, _) => CompilesBind(p)
    case Assign(target, _) => target.Name?
    case Match(_, cases) =>
      cases != [] && forall i | 0 <= i < |cases| ::
        Supported(if cases[i].pattern.As? then cases[i].pattern.inner else cases[i].pattern)
    case _ => true
  }

  /** The patterns of `val` and `var`: a name, `name @` such a pattern, a list of such patterns, wildcards, and a spread
      at the end at most. */
  lemma BindPatterns(p: Pattern)
    ensures CompilesBind(p)
            <==> p.Ident? || (p.As? && CompilesBind(p.inner))
                 || (p.ListPat? && SpreadsLast(p.elems) && forall i | 0 <= i < |p.elems| ::
                       p.elems[i].Wildcard? || p.elems[i].Spread? || CompilesBind(p.elems[i]))
  {}

  predicate AllCompile(xs: set<Expr>) { forall x | x in xs :: Compiles(x) }

  lemma Gathered(ps: seq<Pattern>)
    ensures AllCompile(InPattern(ListPat(ps))) <==> forall i | 0 <= i < |ps| :: AllCompile(InPattern(ps[i]))
    ensures InPattern(Multi(ps)) == InPattern(ListPat(ps))
  {
    hide Compiles;
    forall i, x | 0 <= i < |ps| && x in InPattern(ps[i]) ensures x in InPattern(ListPat(ps)) {}
  }

  predicate ElemSupported(p: Pattern) { p.Spread? || (!p.Multi? && Supported(p)) }

  lemma {:induction false} ElemIff(p: Pattern)
    ensures CompilesElem(p) <==> ElemSupported(p) && AllCompile(InPattern(p))
    decreases p
  {
    if p.ListPat? {
      var ps := p.elems;
      forall i | 0 <= i < |ps|
        ensures CompilesElem(ps[i]) <==> ElemSupported(ps[i]) && AllCompile(InPattern(ps[i]))
      {
        ElemIff(ps[i]);
      }
      Gathered(ps);
      hide Compiles; hide AllCompile;
    }
  }

  lemma PatternIff(p: Pattern)
    ensures CompilesPattern(p) <==> Supported(p) && AllCompile(InPattern(p))
  {
    match p
    case ListPat(ps) => ElemIff(p);
    case Multi(alts) =>
      Gathered(alts);
      forall i | 0 <= i < |alts|
        ensures CompilesOperand(alts[i])
                <==> (alts[i].LiteralPat? || alts[i].Pinned?) && AllCompile(InPattern(alts[i])) {}
      hide Compiles; hide AllCompile;
    case _ =>
  }

  lemma CaseIff(c: Case)
    ensures CompilesCase(c)
            <==> Supported(if c.pattern.As? then c.pattern.inner else c.pattern) && AllCompile(InCase(c))
  {
    PatternIff(Stripped(c.pattern));
    assert InPattern(c.pattern) == InPattern(Stripped(c.pattern));
    hide Compiles; hide Supported; hide InPattern; hide CompilesPattern;
  }

  lemma {:induction false} OneLevel(e: Expr)
    ensures Compiles(e) <==> NodeCompiles(e) && AllCompile(Parts(e))
  {
    match e
    case Infix(_, l, r) => InfixOneLevel(e);
    case Match(subject, cases) => MatchOneLevel(e);
    case Block(stmts) =>
      forall i | 0 <= i < |stmts| ensures stmts[i].e in Parts(e) {}
    case ListLit(es) =>
      forall i | 0 <= i < |es| ensures es[i] in Parts(e) {}
    case _ =>
  }

  lemma MatchOneLevel(e: Expr)
    requires e.Match?
    ensures Compiles(e) <==> NodeCompiles(e) && AllCompile(Parts(e))
  {
    var cs := e.cases;
    forall i | 0 <= i < |cs| ensures CompilesCase(cs[i])
        <==> Supported(if cs[i].pattern.As? then cs[i].pattern.inner else cs[i].pattern) && AllCompile(InCase(cs[i])) {
      CaseIff(cs[i]);
    }
    CasesGathered(e.subject, cs);
    hide Supported; hide InCase; hide CompilesCase; hide AllCompile; hide Parts;
  }

  lemma CasesGathered(subject: Expr, cs: seq<Case>)
    ensures AllCompile(Parts(Match(subject, cs)))
            <==> Compiles(subject) && forall i | 0 <= i < |cs| :: AllCompile(InCase(cs[i]))
  {
    hide Compiles; hide InCase;
    var e := Match(subject, cs);
    forall i, x | 0 <= i < |cs| && x in InCase(cs[i]) ensures x in Parts(e) {}
    assert subject in Parts(e);
  }

  /** Rewriting an addition with a list literal of one element leaves out a node that is always accepted. */
  lemma InfixOneLevel(e: Expr)
    requires e.Infix?
    ensures Compiles(e) <==> AllCompile(Parts(e))
  {
    assert Parts(e) == {e.left, e.right};
    SingleIff(e.left);
    SingleIff(e.right);
  }

  lemma SingleIff(e: Expr)
    ensures SingleElement(e).Some? ==> (Compiles(e) <==> Compiles(SingleElement(e).value))
  {}

  /** An expression is accepted exactly when every node of it is. */
  lemma {:induction false} CompilesIff(e: Expr)
    ensures Compiles(e) <==> forall n | n in Nodes(e) :: NodeCompiles(n)
    decreases e
  {
    OneLevel(e);
    forall x | x in Parts(e) ensures Compiles(x) <==> forall n | n in Nodes(x) :: NodeCompiles(n) { CompilesIff(x); }
    NodesAre(e);
    hide Compiles; hide NodeCompiles; hide Parts; hide Nodes;
    forall x | x in Parts(e) && Compiles(e) ensures forall n | n in Nodes(x) :: NodeCompiles(n) {}
  }

  lemma NodesAre(e: Expr)
    ensures forall n :: n in Nodes(e) <==> n == e || exists x :: x in Parts(e) && n in Nodes(x)
  {}

  // ----- named spreads -----

  /** Correctness is stated for expressions in which no `val` or `var` pattern has a named spread, at any depth. */
  predicate NodeBalanced(e: Expr) { e.Bind? ==> NamedSpreads(e.pattern) == 0 }

  predicate AllBalanced(xs: set<Expr>) { forall x | x in xs :: Balanced(x) }

  lemma BalancedGathered(ps: seq<Pattern>)
    ensures AllBalanced(InPattern(ListPat(ps))) <==> forall i | 0 <= i < |ps| :: AllBalanced(InPattern(ps[i]))
    ensures InPattern(Multi(ps)) == InPattern(ListPat(ps))
  {
    hide Balanced;
    forall i, x | 0 <= i < |ps| && x in InPattern(ps[i]) ensures x in InPattern(ListPat(ps)) {}
  }

  lemma {:induction false} BalancedPatternIff(p: Pattern)
    ensures BalancedPattern(p) <==> AllBalanced(InPattern(p))
    decreases p
  {
    if p.ListPat? || p.Multi? {
      var ps := if p.ListPat? then p.elems else p.alts;
      forall i | 0 <= i < |ps| ensures BalancedPattern(ps[i]) <==> AllBalanced(InPattern(ps[i])) {
        BalancedPatternIff(ps[i]);
      }
      BalancedGathered(ps);
      hide Balanced; hide AllBalanced;
    } else if p.As? {
      BalancedPatternIff(p.inner);
    }
  }

  lemma BalancedCaseIff(c: Case)
    ensures BalancedCase(c) <==> AllBalanced(InCase(c))
  {
    BalancedPatternIff(c.pattern);
    hide Balanced; hide InPattern; hide BalancedPattern;
  }

  lemma BalancedCasesGathered(subject: Expr, cs: seq<Case>)
    ensures AllBalanced(Parts(Match(subject, cs)))
            <==> Balanced(subject) && forall i | 0 <= i < |cs| :: AllBalanced(InCase(cs[i]))
  {
    hide Balanced; hide InCase;
    var e := Match(subject, cs);
    forall i, x | 0 <= i < |cs| && x in InCase(cs[i]) ensures x in Parts(e) {}
    assert subject in Parts(e);
  }

  lemma BalancedOneLevel(e: Expr)
    ensures Balanced(e) <==> NodeBalanced(e) && AllBalanced(Parts(e))
  {
    match e
    case Infix(_, l, r) =>
      assert Parts(e) == {l, r};
      BalancedSingle(l);
      BalancedSingle(r);
    case Match(subject, cases) =>
      forall i | 0 <= i < |cases| ensures BalancedCase(cases[i]) <==> AllBalanced(InCase(cases[i])) {
        BalancedCaseIff(cases[i]);
      }
      BalancedCasesGathered(subject, cases);
      hide InCase; hide BalancedCase; hide AllBalanced; hide Parts;
    case Block(stmts) =>
      forall i | 0 <= i < |stmts| ensures stmts[i].e in Parts(e) {}
    case ListLit(es) =>
      forall i | 0 <= i < |es| ensures es[i] in Parts(e) {}
    case _ =>
  }

  lemma BalancedSingle(e: Expr)
    ensures SingleElement(e).Some? ==> (Balanced(e) <==> Balanced(SingleElement(e).value))
  {}

  lemma {:induction false} BalancedIff(e: Expr)
    ensures Balanced(e) <==> forall n | n in Nodes(e) :: NodeBalanced(n)
    decreases e
  {
    BalancedOneLevel(e);
    forall x | x in Parts(e) ensures Balanced(x) <==> forall n | n in Nodes(x) :: NodeBalanced(n) { BalancedIff(x); }
    NodesAre(e);
    hide Balanced; hide NodeBalanced; hide Parts; hide Nodes;
    forall x | x in Parts(e) && Balanced(e) ensures forall n | n in Nodes(x) :: NodeBalanced(n) {}
  }

  /** The patterns inside a `val` or `var` pattern, at any depth, and it itself. */
  function Patterns(p: Pattern): set<Pattern>
    decreases p
  {
    {p} + match p
      case As(_, inner) => Patterns(inner)
      case ListPat(ps) => set i, q | 0 <= i < |ps| && q in Patterns(ps[i]) :: q
      case _ => {}
  }

  /** No named spread is counted exactly where there is none. */
  lemma {:induction false} NoSpreadIff(p: Pattern)
    ensures NamedSpreads(p) == 0 <==> forall q | q in Patterns(p) :: !(q.Spread? && q.rest.Some?)
    decreases p, 0
  {
    match p
    case As(_, inner) => NoSpreadIff(inner);
    case ListPat(ps) =>
      NoSpreadsIff(ps);
      forall i, q | 0 <= i < |ps| && q in Patterns(ps[i]) ensures q in Patterns(p) {}
    case _ =>
  }

  lemma {:induction false} NoSpreadsIff(ps: seq<Pattern>)
    ensures NamedSpreadsIn(ps) == 0
            <==> forall i, q | 0 <= i < |ps| && q in Patterns(ps[i]) :: !(q.Spread? && q.rest.Some?)
    decreases ps, 0
  {
    hide Patterns; hide NamedSpreads;
    if ps != [] {
      NoSpreadIff(ps[0]);
      NoSpreadsIff(ps[1..]);
      assert forall i | 0 < i < |ps| :: ps[i] == ps[1..][i - 1];
      assert forall i | 0 <= i < |ps| - 1 :: ps[1..][i] == ps[i + 1];
    }
  }
}
