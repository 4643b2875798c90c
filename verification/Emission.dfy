/** Each construct is laid out correctly once its parts are, whatever the rest of the chunk becomes. */
module Emission {
  import opened Values
  import opened Syntax
  import opened Evaluator
  import opened Bytecode
  import opened Layout
  import opened Compilation

  lemma LeafEmitted(f: Chunk, b: nat, e: Expr)
    requires match e
      case Literal(v) => IsConst(f, b, v)
      case BoolLit(x) => Is(f, b, if x then OpTrue else OpFalse)
      case NilLit => Is(f, b, OpNil)
      case Name(x) => Is(f, b, OpGetGlobal(x))
      case _ => false
    ensures Emitted(f, b, e)
  {
    forall fin | Agree(f, fin, b, b + Size(e)) ensures Encodes(fin, b, e) {
      assert Size(e) == 1 && fin.code[b] == f.code[b];
    }
  }

  lemma AssignEmitted(c1: Chunk, f: Chunk, b: nat, e: Expr)
    requires e.Assign? && e.target.Name?
    requires var n := b + Size(e.value);
             Emitted(c1, b, e.value) && Agree(c1, f, b, n) && Is(f, n, OpAssignGlobal(e.target.name))
    ensures Emitted(f, b, e)
  {
    hide Encodes; hide Size;
    forall fin | Agree(f, fin, b, b + Size(e)) ensures Encodes(fin, b, e) {
      Dispatch(fin, b, e);
      assert Agree(c1, fin, b, b + Size(e.value));
    }
  }

  lemma PrefixEmitted(c1: Chunk, f: Chunk, b: nat, e: Expr)
    requires e.PrefixExpr?
    requires var n := b + Size(e.operand);
             Emitted(c1, b, e.operand) && Agree(c1, f, b, n) && Is(f, n, OpPrefix(e.prefix))
    ensures Emitted(f, b, e)
  {
    hide Encodes; hide Size;
    forall fin | Agree(f, fin, b, b + Size(e)) ensures Encodes(fin, b, e) {
      Dispatch(fin, b, e);
      assert Agree(c1, fin, b, b + Size(e.operand));
    }
  }

  lemma BindExprEmitted(c1: Chunk, f: Chunk, b: nat, e: Expr)
    requires e.Bind?
    requires var n := b + Size(e.value);
             && Emitted(c1, b, e.value) && Agree(c1, f, b, n)
             && BindEmitted(f, n, e.pattern, e.asConst)
    ensures Emitted(f, b, e)
  {
    hide Encodes; hide Size; hide EncodesBind; hide BindSize;
    forall fin | Agree(f, fin, b, b + Size(e)) ensures Encodes(fin, b, e) {
      Dispatch(fin, b, e);
      var n := b + Size(e.value);
      assert Agree(c1, fin, b, n);
      assert Agree(f, fin, n, n + BindSize(e.pattern));
    }
  }

  lemma InfixEmitted(c1: Chunk, c2: Chunk, f: Chunk, b: nat, e: Expr)
    requires e.Infix?
    requires var n := b + Size(Lowered(e).left);
             var m := n + Size(Lowered(e).right);
             && Emitted(c1, b, Lowered(e).left) && Agree(c1, f, b, n)
             && Emitted(c2, n, Lowered(e).right) && Agree(c2, f, n, m)
             && Is(f, m, OpBinary(Lowered(e).op))
    ensures Emitted(f, b, e)
  {
    hide Encodes; hide Size;
    forall fin | Agree(f, fin, b, b + Size(e)) ensures Encodes(fin, b, e) {
      Dispatch(fin, b, e);
      var n := b + Size(Lowered(e).left);
      assert Agree(c1, fin, b, n);
      assert Agree(c2, fin, n, n + Size(Lowered(e).right));
    }
  }

  lemma IndexEmitted(c1: Chunk, c2: Chunk, f: Chunk, b: nat, e: Expr)
    requires e.Index?
    requires var n := b + Size(e.left);
             var m := n + Size(e.index);
             && Emitted(c1, b, e.left) && Agree(c1, f, b, n)
             && Emitted(c2, n, e.index) && Agree(c2, f, n, m)
             && Is(f, m, OpIndex)
    ensures Emitted(f, b, e)
  {
    hide Encodes; hide Size;
    forall fin | Agree(f, fin, b, b + Size(e)) ensures Encodes(fin, b, e) {
      Dispatch(fin, b, e);
      var n := b + Size(e.left);
      assert Agree(c1, fin, b, n);
      assert Agree(c2, fin, n, n + Size(e.index));
    }
  }

  lemma AndEmitted(c1: Chunk, c2: Chunk, f: Chunk, b: nat, e: Expr)
    requires e.And?
    requires var n := b + Size(e.left);
             var m := n + 1 + Size(e.right);
             && Emitted(c1, b, e.left) && Agree(c1, f, b, n)
             && Emitted(c2, n + 1, e.right) && Agree(c2, f, n + 1, m)
             && Is(f, n, OpJumpIfFalse(m + 1)) && Is(f, m, OpJump(m + 2)) && Is(f, m + 1, OpFalse)
    ensures Emitted(f, b, e)
  {
    hide Encodes; hide Size;
    forall fin | Agree(f, fin, b, b + Size(e)) ensures Encodes(fin, b, e) {
      Dispatch(fin, b, e);
      var n := b + Size(e.left);
      assert Agree(c1, fin, b, n);
      assert Agree(c2, fin, n + 1, n + 1 + Size(e.right));
    }
  }

  lemma OrEmitted(c1: Chunk, c2: Chunk, f: Chunk, b: nat, e: Expr)
    requires e.Or?
    requires var n := b + Size(e.left);
             var m := n + 3 + Size(e.right);
             && Emitted(c1, b, e.left) && Agree(c1, f, b, n)
             && Emitted(c2, n + 3, e.right) && Agree(c2, f, n + 3, m)
             && Is(f, n, OpJumpIfFalse(n + 3)) && Is(f, n + 1, OpTrue) && Is(f, n + 2, OpJump(m))
    ensures Emitted(f, b, e)
  {
    hide Encodes; hide Size;
    forall fin | Agree(f, fin, b, b + Size(e)) ensures Encodes(fin, b, e) {
      Dispatch(fin, b, e);
      var n := b + Size(e.left);
      assert Agree(c1, fin, b, n);
      assert Agree(c2, fin, n + 3, n + 3 + Size(e.right));
    }
  }

  lemma IfEmitted(c1: Chunk, c2: Chunk, c3: Chunk, f: Chunk, b: nat, e: Expr)
    requires e.If?
    requires var m := b + Size(e.cond);
             var n := m + 1 + Size(e.thn);
             var end := n + 1 + (if e.els.Some? then Size(e.els.value) else 1);
             && Emitted(c1, b, e.cond) && Agree(c1, f, b, m)
             && Emitted(c2, m + 1, e.thn) && Agree(c2, f, m + 1, n)
             && Is(f, m, OpJumpIfFalse(n + 1)) && Is(f, n, OpJump(end))
             && (if e.els.Some? then Emitted(c3, n + 1, e.els.value) && Agree(c3, f, n + 1, end)
                 else Is(f, n + 1, OpNil))
    ensures Emitted(f, b, e)
  {
    hide Encodes; hide Size; hide Agree; hide EncodesBindExpr; hide EncodesAssign; hide EncodesPrefix;
    hide EncodesInfix;
    hide EncodesAnd; hide EncodesOr; hide EncodesBlock; hide EncodesMatch; hide EncodesList; hide EncodesIndex;
    var m := b + Size(e.cond);
    var n := m + 1 + Size(e.thn);
    forall fin | Agree(f, fin, b, b + Size(e)) ensures Encodes(fin, b, e) {
      Dispatch(fin, b, e);
      AgreeThenAgree(c1, f, fin, b, m, b, b + Size(e));
      AgreeThenAgree(c2, f, fin, m + 1, n, b, b + Size(e));
      IsKept(f, fin, b, b + Size(e), m);
      IsKept(f, fin, b, b + Size(e), n);
      if e.els.Some? {
        AgreeThenAgree(c3, f, fin, n + 1, n + 1 + Size(e.els.value), b, b + Size(e));
      } else {
        IsKept(f, fin, b, b + Size(e), n + 1);
      }
    }
  }

  /** How the chunk grows: condition, jump, branch, jump over the other branch, and the jumps patched. */
  lemma IfChunks(c0: Chunk, c1: Chunk, d1: Chunk, c2: Chunk, d2: Chunk, c3: Chunk, f: Chunk)
    requires Extends(c0, c1) && d1 == Chunk(c1.code + [OpJumpIfFalse(0)], c1.consts)
    requires Extends(d1, c2) && |c1.code| < |c2.code|
    requires var g := c2.code + [OpJump(0)];
             d2 == Chunk(g[|c1.code| := Retarget(g[|c1.code|], |g|)], c2.consts)
    requires Extends(d2, c3) && |c2.code| < |c3.code|
    requires f == Chunk(c3.code[|c2.code| := Retarget(c3.code[|c2.code|], |c3.code|)], c3.consts)
    ensures Extends(c0, f) && Agree(c1, f, |c0.code|, |c1.code|) && Agree(c2, f, |c1.code| + 1, |c2.code|)
    ensures Is(f, |c1.code|, OpJumpIfFalse(|c2.code| + 1)) && Is(f, |c2.code|, OpJump(|c3.code|))
  {
    var m, n := |c1.code|, |c2.code|;
    SameBefore(c0, c1);
    SameBefore(d1, c2);
    SameBefore(d2, c3);
    hide Extends;
    assert forall k | 0 <= k < m :: c2.code[k] == d1.code[k] == c1.code[k];
    assert forall k | 0 <= k < n && k != m :: f.code[k] == c3.code[k] == d2.code[k] == c2.code[k];
    assert f.code[m] == d2.code[m] && c2.code[m] == d1.code[m];
    assert c3.code[n] == d2.code[n];
    ExtendsWhenSame(c0, f);
  }

  lemma AgreesBefore(c: Chunk, f: Chunk, lo: nat, hi: nat, j: nat)
    requires j < lo && hi <= |c.code| && j < |c.code| && |f.code| == |c.code| && f.consts == c.consts
    requires f.code == c.code[j := f.code[j]]
    ensures Agree(c, f, lo, hi)
  {}

  lemma IsBefore(c: Chunk, f: Chunk, k: nat, j: nat)
    requires j < k && j < |c.code| && |f.code| == |c.code| && f.code == c.code[j := f.code[j]] && Is(c, k, OpNil)
    ensures Is(f, k, OpNil)
  {}

  // ----- list literals -----

  /** Once the elements from `i` on follow, the whole list is laid out. */
  ghost predicate ListSoFar(ch: Chunk, b: nat, es: seq<Expr>, i: nat)
    requires i <= |es|
  {
    forall fin | Agree(ch, fin, b, |ch.code|) && EncodesList(fin, |ch.code|, es[i..]) :: EncodesList(fin, b, es)
  }

  lemma ListStep(c1: Chunk, c2: Chunk, b: nat, es: seq<Expr>, i: nat)
    requires i < |es| && b <= |c1.code| && ListSoFar(c1, b, es, i)
    requires Extends(c1, c2) && |c2.code| == |c1.code| + Size(es[i]) && Emitted(c2, |c1.code|, es[i])
    ensures ListSoFar(c2, b, es, i + 1)
    ensures ListSize(es[i..]) == Size(es[i]) + ListSize(es[i + 1..])
  {
    hide Encodes; hide Size;
    assert es[i..][0] == es[i] && es[i..][1..] == es[i + 1..];
    forall fin | Agree(c2, fin, b, |c2.code|) && EncodesList(fin, |c2.code|, es[i + 1..])
      ensures EncodesList(fin, b, es) {
      assert Agree(c1, fin, b, |c1.code|);
      assert Agree(c2, fin, |c1.code|, |c2.code|);
      assert EncodesList(fin, |c1.code|, es[i..]);
    }
  }

  lemma ListEmitted(c: Chunk, f: Chunk, b: nat, e: Expr)
    requires e.ListLit? && b <= |c.code| && ListSoFar(c, b, e.elems, |e.elems|) && |c.code| == b + ListSize(e.elems)
    requires Agree(c, f, b, |c.code|) && Is(f, |c.code|, OpArray(|e.elems|))
    ensures Emitted(f, b, e)
  {
    hide Encodes; hide Size;
    forall fin | Agree(f, fin, b, b + Size(e)) ensures Encodes(fin, b, e) {
      Dispatch(fin, b, e);
      assert Agree(c, fin, b, |c.code|);
      assert e.elems[|e.elems|..] == [];
    }
  }

  // ----- statements and blocks -----

  ghost predicate StmtEmitted(ch: Chunk, b: nat, s: Stmt) {
    forall fin | Agree(ch, fin, b, b + StmtSize(s)) :: EncodesStmt(fin, b, s)
  }

  lemma StmtIsEmitted(c: Chunk, f: Chunk, b: nat, s: Stmt)
    requires Emitted(c, b, s.e) && Agree(c, f, b, b + Size(s.e))
    requires match s
      case ExprStmt(_) => true
      case Return(_) => Is(f, b + Size(s.e), OpReturn)
      case Throw(_) => Is(f, b + Size(s.e), OpThrow)
    ensures StmtEmitted(f, b, s)
  {
    hide Encodes; hide Size;
    forall fin | Agree(f, fin, b, b + StmtSize(s)) ensures EncodesStmt(fin, b, s) {
      assert Agree(c, fin, b, b + Size(s.e));
    }
  }

  /** Once the statements from `i` on follow (if any are left), all of them are laid out. */
  ghost predicate StmtsSoFar(ch: Chunk, b: nat, stmts: seq<Stmt>, i: nat)
    requires i <= |stmts| && stmts != []
  {
    forall fin | Agree(ch, fin, b, |ch.code|) && (i < |stmts| ==> EncodesStmts(fin, |ch.code|, stmts[i..])) ::
      EncodesStmts(fin, b, stmts)
  }

  function RestSize(stmts: seq<Stmt>, i: nat): nat
    requires i <= |stmts|
  {
    if i < |stmts| then StmtsSize(stmts[i..]) else 0
  }

  lemma StmtsStep(c1: Chunk, c2: Chunk, c3: Chunk, b: nat, stmts: seq<Stmt>, i: nat)
    requires i < |stmts| && b <= |c1.code| && StmtsSoFar(c1, b, stmts, i)
    requires Extends(c1, c2) && |c2.code| == |c1.code| + StmtSize(stmts[i]) && StmtEmitted(c2, |c1.code|, stmts[i])
    requires Extends(c2, c3)
    requires if i < |stmts| - 1 then |c3.code| == |c2.code| + 1 && Is(c3, |c2.code|, OpPop) else c3 == c2
    ensures StmtsSoFar(c3, b, stmts, i + 1)
    ensures |c3.code| + RestSize(stmts, i + 1) == |c1.code| + RestSize(stmts, i)
  {
    hide EncodesStmt; hide StmtSize;
    assert stmts[i..][0] == stmts[i] && stmts[i..][1..] == stmts[i + 1..];
    forall fin | Agree(c3, fin, b, |c3.code|) && (i + 1 < |stmts| ==> EncodesStmts(fin, |c3.code|, stmts[i + 1..]))
      ensures EncodesStmts(fin, b, stmts)
    {
      assert Agree(c1, fin, b, |c1.code|);
      assert Agree(c2, fin, |c1.code|, |c2.code|);
      assert EncodesStmts(fin, |c1.code|, stmts[i..]);
    }
  }

  lemma BlockEmitted(c: Chunk, f: Chunk, b: nat, e: Expr)
    requires e.Block? && Is(f, b, OpPushScope)
    requires if e.stmts == [] then Is(f, b + 1, OpNil) && Is(f, b + 2, OpPopScope)
             else && b + 1 <= |c.code| && StmtsSoFar(c, b + 1, e.stmts, |e.stmts|)
                  && |c.code| == b + 1 + StmtsSize(e.stmts)
                  && Agree(c, f, b + 1, |c.code|) && Is(f, |c.code|, OpPopScope)
    ensures Emitted(f, b, e)
  {
    hide Encodes; hide Size; hide EncodesStmts; hide StmtsSize;
    forall fin | Agree(f, fin, b, b + Size(e)) ensures Encodes(fin, b, e) {
      Dispatch(fin, b, e);
      if e.stmts != [] {
        assert Agree(c, fin, b + 1, |c.code|);
      }
    }
  }

  // ----- binding patterns -----

  ghost predicate BindEmitted(ch: Chunk, b: nat, p: Pattern, asConst: bool) {
    forall fin | Agree(ch, fin, b, b + BindSize(p)) :: EncodesBind(fin, b, p, asConst)
  }

  lemma BindIdentEmitted(f: Chunk, b: nat, p: Pattern, asConst: bool)
    requires p.Ident? && Is(f, b, OpSetGlobal(p.name, asConst))
    ensures BindEmitted(f, b, p, asConst)
  {
    forall fin | Agree(f, fin, b, b + BindSize(p)) ensures EncodesBind(fin, b, p, asConst) {
      assert fin.code[b] == f.code[b];
    }
  }

  lemma BindAsEmitted(f: Chunk, b: nat, p: Pattern, asConst: bool)
    requires p.As? && Is(f, b, OpDup) && Is(f, b + 1, OpSetGlobal(p.name, asConst)) && Is(f, b + 2, OpPop)
    requires BindEmitted(f, b + 3, p.inner, asConst)
    ensures BindEmitted(f, b, p, asConst)
    ensures BindSize(p) == 3 + BindSize(p.inner)
  {
    forall fin | Agree(f, fin, b, b + BindSize(p)) ensures EncodesBind(fin, b, p, asConst) {
      assert Agree(f, fin, b + 3, b + 3 + BindSize(p.inner));
      assert EncodesBind(fin, b + 3, p.inner, asConst);
      assert EncodesBindAs(fin, b, p, asConst);
    }
  }

  ghost predicate BindElemEmitted(ch: Chunk, b: nat, p: Pattern, i: nat, asConst: bool) {
    forall fin | Agree(ch, fin, b, b + BindElemSize(p)) :: EncodesBindElem(fin, b, p, i, asConst)
  }

  lemma BindRestEmitted(f: Chunk, b: nat, x: string, i: nat, asConst: bool)
    requires EncodesBindRest(f, b, x, i, asConst)
    ensures BindElemEmitted(f, b, Spread(Some(x)), i, asConst)
  {
    forall fin | Agree(f, fin, b, b + 7) ensures EncodesBindRest(fin, b, x, i, asConst) {
      assert forall k | b <= k < b + 7 :: fin.code[k] == f.code[k];
    }
  }

  lemma BindPartEmitted(c: Chunk, f: Chunk, b: nat, p: Pattern, i: nat, asConst: bool)
    requires !p.Wildcard? && !p.Spread? && EncodesFetch(f, b, i)
    requires BindEmitted(c, b + 3, p, asConst) && Agree(c, f, b, b + 3 + BindSize(p))
             && Is(f, b + 3 + BindSize(p), OpPop)
    ensures BindElemEmitted(f, b, p, i, asConst) && BindElemSize(p) == 4 + BindSize(p)
  {
    hide EncodesBind; hide BindSize;
    forall fin | Agree(f, fin, b, b + BindElemSize(p)) ensures EncodesBindElem(fin, b, p, i, asConst) {
      assert Agree(c, fin, b + 3, b + 3 + BindSize(p));
      assert EncodesBindPart(fin, b, p, i, asConst);
    }
  }

  ghost predicate BindSoFar(ch: Chunk, b: nat, ps: seq<Pattern>, i: nat, asConst: bool)
    requires i <= |ps|
  {
    forall fin | Agree(ch, fin, b, |ch.code|) && EncodesBindElems(fin, |ch.code|, ps[i..], i, asConst) ::
      EncodesBindElems(fin, b, ps, 0, asConst)
  }

  lemma BindStep(c1: Chunk, c2: Chunk, b: nat, ps: seq<Pattern>, i: nat, asConst: bool)
    requires i < |ps| && b <= |c1.code| && BindSoFar(c1, b, ps, i, asConst) && (ps[i].Spread? ==> i == |ps| - 1)
    requires Extends(c1, c2) && |c2.code| == |c1.code| + BindElemSize(ps[i])
             && BindElemEmitted(c2, |c1.code|, ps[i], i, asConst)
    ensures BindSoFar(c2, b, ps, i + 1, asConst)
    ensures BindElemsSize(ps[i..]) == BindElemSize(ps[i]) + BindElemsSize(ps[i + 1..])
  {
    hide EncodesBindElem; hide BindElemSize;
    assert ps[i..][0] == ps[i] && ps[i..][1..] == ps[i + 1..];
    forall fin | Agree(c2, fin, b, |c2.code|) && EncodesBindElems(fin, |c2.code|, ps[i + 1..], i + 1, asConst)
      ensures EncodesBindElems(fin, b, ps, 0, asConst)
    {
      assert Agree(c1, fin, b, |c1.code|);
      assert Agree(c2, fin, |c1.code|, |c2.code|);
      assert EncodesBindElems(fin, |c1.code|, ps[i..], i, asConst);
    }
  }

  lemma BindListEmitted(f: Chunk, b: nat, p: Pattern, asConst: bool)
    requires p.ListPat? && b <= |f.code| && BindSoFar(f, b, p.elems, |p.elems|, asConst)
             && |f.code| == b + BindElemsSize(p.elems)
    ensures BindEmitted(f, b, p, asConst)
  {
    hide EncodesBindElem; hide BindElemSize;
    forall fin | Agree(f, fin, b, b + BindSize(p)) ensures EncodesBind(fin, b, p, asConst) {
      assert p.elems[|p.elems|..] == [];
    }
  }

  // ----- match patterns, with fail jumps still open -----

  predicate Within(js: seq<nat>, lo: nat, hi: nat) {
    forall k | 0 <= k < |js| :: lo <= js[k] < hi
  }

  /** A stretch after which further code with further open jumps was emitted. */
  lemma PatchedBefore(c: Chunk, f: Chunk, fin: Chunk, lo: nat, hi: nat, top: nat, js: seq<nat>, js1: seq<nat>, t: nat)
    requires lo <= hi <= top && hi <= |c.code| && Extends(c, f) && Within(js1, hi, top)
             && Patched(f, fin, lo, top, js + js1, t)
    ensures Patched(c, fin, lo, hi, js, t)
  {
    forall k | lo <= k < hi ensures fin.code[k] == if k in js then Retarget(c.code[k], t) else c.code[k] {
      assert k in js + js1 <==> k in js;
      assert f.code[k] == f.code[..|c.code|][k];
    }
  }

  lemma PatchedAfter(f: Chunk, fin: Chunk, lo: nat, hi: nat, top: nat, js: seq<nat>, js1: seq<nat>, t: nat)
    requires lo <= hi <= top && Within(js, lo, hi) && Patched(f, fin, lo, top, js + js1, t)
    ensures Patched(f, fin, hi, top, js1, t)
  {
    forall k | hi <= k < top ensures fin.code[k] == if k in js1 then Retarget(f.code[k], t) else f.code[k] {
      assert k in js + js1 <==> k in js1;
    }
  }

  /** Away from the one open jump nothing changes. */
  lemma AgreeAway(f: Chunk, fin: Chunk, lo: nat, hi: nat, j: nat, t: nat, lo1: nat, hi1: nat)
    requires Patched(f, fin, lo, hi, [j], t) && lo <= lo1 && hi1 <= hi && !(lo1 <= j < hi1)
    ensures Agree(f, fin, lo1, hi1)
  {}

  lemma OpenJump(f: Chunk, fin: Chunk, lo: nat, hi: nat, j: nat, t: nat)
    requires Patched(f, fin, lo, hi, [j], t) && lo <= j < hi
    ensures j < |f.code| && j < |fin.code| && fin.code[j] == Retarget(f.code[j], t)
  {}

  lemma PatchedThenAgree(c: Chunk, f: Chunk, fin: Chunk, lo: nat, hi: nat, js: seq<nat>, t: nat, lo1: nat, hi1: nat)
    requires Patched(c, f, lo, hi, js, t) && Agree(f, fin, lo1, hi1) && lo1 <= lo && hi <= hi1
    ensures Patched(c, fin, lo, hi, js, t)
  {}

  lemma AgreeThenAgree(c: Chunk, f: Chunk, fin: Chunk, lo: nat, hi: nat, lo1: nat, hi1: nat)
    requires Agree(c, f, lo, hi) && Agree(f, fin, lo1, hi1) && lo1 <= lo && hi <= hi1
    ensures Agree(c, fin, lo, hi)
  {}

  lemma IsKept(f: Chunk, fin: Chunk, lo: nat, hi: nat, k: nat)
    requires Agree(f, fin, lo, hi) && lo <= k < hi
    ensures k < |f.code| && k < |fin.code| && fin.code[k] == f.code[k]
  {}

  ghost predicate OperandEmitted(ch: Chunk, b: nat, p: Pattern) {
    forall fin | Agree(ch, fin, b, b + OperandSize(p)) :: EncodesOperand(fin, b, p)
  }

  lemma OperandIsEmitted(f: Chunk, b: nat, p: Pattern)
    requires (p.Pinned? && Is(f, b, OpGetGlobal(p.name))) || (p.LiteralPat? && Emitted(f, b, p.e))
    ensures OperandEmitted(f, b, p)
  {
    hide Encodes; hide Size;
    forall fin | Agree(f, fin, b, b + OperandSize(p)) ensures EncodesOperand(fin, b, p) {
      if p.Pinned? {
        assert fin.code[b] == f.code[b];
      }
    }
  }

  ghost predicate TestEmitted(ch: Chunk, b: nat, p: Pattern, js: seq<nat>) {
    forall fin, t | Patched(ch, fin, b, b + OperandSize(p) + 2, js, t) :: EncodesTest(fin, b, p, t)
  }

  lemma TestIsEmitted(c: Chunk, f: Chunk, b: nat, p: Pattern)
    requires var n := b + OperandSize(p);
             && OperandEmitted(c, b, p) && Agree(c, f, b, n) && Is(f, n, OpBinary(Eq))
             && n + 1 < |f.code| && f.code[n + 1].OpJumpIfFalse?
    ensures TestEmitted(f, b, p, [b + OperandSize(p) + 1])
  {
    hide EncodesOperand; hide OperandSize;
    var n := b + OperandSize(p);
    forall fin, t | Patched(f, fin, b, n + 2, [n + 1], t) ensures EncodesTest(fin, b, p, t) {
      assert Agree(c, fin, b, n);
      assert fin.code[n] == f.code[n] && fin.code[n + 1] == OpJumpIfFalse(t);
    }
  }

  ghost predicate ElemEmitted(ch: Chunk, b: nat, p: Pattern, i: nat, js: seq<nat>) {
    forall fin, t | Patched(ch, fin, b, b + ElemSize(p), js, t) :: EncodesElem(fin, b, p, i, t)
  }

  lemma ElemSpreadEmitted(f: Chunk, b: nat, x: string, i: nat)
    requires Is(f, b, OpDup) && Is(f, b + 1, OpMatchSeqTail(i)) && Is(f, b + 2, OpSetGlobal(x, true))
             && Is(f, b + 3, OpPop)
    ensures ElemEmitted(f, b, Spread(Some(x)), i, [])
  {
    var p := Spread(Some(x));
    forall fin, t | Patched(f, fin, b, b + 4, [], t) ensures EncodesElem(fin, b, p, i, t) {
      assert forall k | b <= k < b + 4 :: fin.code[k] == f.code[k];
    }
  }

  lemma ElemIdentEmitted(f: Chunk, b: nat, x: string, i: nat)
    requires EncodesFetch(f, b, i) && Is(f, b + 3, OpSetGlobal(x, true)) && Is(f, b + 4, OpPop)
    ensures ElemEmitted(f, b, Ident(x), i, [])
  {
    var p := Ident(x);
    forall fin, t | Patched(f, fin, b, b + 5, [], t) ensures EncodesElem(fin, b, p, i, t) {
      assert forall k | b <= k < b + 5 :: fin.code[k] == f.code[k];
    }
  }

  lemma ElemTestEmitted(f: Chunk, b: nat, p: Pattern, i: nat, js: seq<nat>)
    requires p.Pinned? || p.LiteralPat?
    requires EncodesFetch(f, b, i) && TestEmitted(f, b + 3, p, js) && Within(js, b + 3, b + 5 + OperandSize(p))
    ensures ElemEmitted(f, b, p, i, js) && ElemSize(p) == OperandSize(p) + 5
  {
    hide EncodesTest; hide OperandSize;
    forall fin, t | Patched(f, fin, b, b + ElemSize(p), js, t) ensures EncodesElem(fin, b, p, i, t) {
      assert Patched(f, fin, b + 3, b + 5 + OperandSize(p), js, t);
      assert forall k | b <= k < b + 3 :: fin.code[k] == f.code[k];
    }
  }

  lemma ElemListEmitted(f: Chunk, b: nat, p: Pattern, i: nat, js: seq<nat>)
    requires p.ListPat? && EncodesFetch(f, b, i) && NestedEmitted(f, b + 3, p.elems, js)
    requires Within(js, b + 3, b + 10 + ElemsSize(p.elems))
    ensures ElemEmitted(f, b, p, i, js) && ElemSize(p) == 10 + ElemsSize(p.elems)
  {
    hide EncodesNested; hide ElemsSize;
    forall fin, t | Patched(f, fin, b, b + ElemSize(p), js, t) ensures EncodesElem(fin, b, p, i, t) {
      assert Patched(f, fin, b + 3, b + 10 + ElemsSize(p.elems), js, t);
      assert forall k | b <= k < b + 3 :: fin.code[k] == f.code[k];
    }
  }

  ghost predicate ElemsSoFar(ch: Chunk, b: nat, ps: seq<Pattern>, i: nat, js: seq<nat>)
    requires i <= |ps|
  {
    forall fin, t | Patched(ch, fin, b, |ch.code|, js, t) && EncodesElems(fin, |ch.code|, ps[i..], i, t) ::
      EncodesElems(fin, b, ps, 0, t)
  }

  lemma ElemsStep(c1: Chunk, c2: Chunk, b: nat, ps: seq<Pattern>, i: nat, js: seq<nat>, js1: seq<nat>)
    requires i < |ps| && b <= |c1.code| && ElemsSoFar(c1, b, ps, i, js) && Within(js, b, |c1.code|)
    requires Extends(c1, c2) && |c2.code| == |c1.code| + ElemSize(ps[i])
    requires ElemEmitted(c2, |c1.code|, ps[i], i, js1) && Within(js1, |c1.code|, |c2.code|)
    ensures ElemsSoFar(c2, b, ps, i + 1, js + js1)
    ensures ElemsSize(ps[i..]) == ElemSize(ps[i]) + ElemsSize(ps[i + 1..])
  {
    hide EncodesElem; hide ElemSize; hide Patched; hide Extends;
    assert ps[i..][0] == ps[i] && ps[i..][1..] == ps[i + 1..];
    forall fin, t | Patched(c2, fin, b, |c2.code|, js + js1, t) && EncodesElems(fin, |c2.code|, ps[i + 1..], i + 1, t)
      ensures EncodesElems(fin, b, ps, 0, t)
    {
      PatchedBefore(c1, c2, fin, b, |c1.code|, |c2.code|, js, js1, t);
      PatchedAfter(c2, fin, b, |c1.code|, |c2.code|, js, js1, t);
      assert EncodesElems(fin, |c1.code|, ps[i..], i, t);
    }
  }

  ghost predicate ElemsEmitted(ch: Chunk, b: nat, ps: seq<Pattern>, js: seq<nat>) {
    forall fin, t | Patched(ch, fin, b, b + ElemsSize(ps), js, t) :: EncodesElems(fin, b, ps, 0, t)
  }

  lemma ElemsAreEmitted(f: Chunk, b: nat, ps: seq<Pattern>, js: seq<nat>)
    requires b <= |f.code| && ElemsSoFar(f, b, ps, |ps|, js) && |f.code| == b + ElemsSize(ps)
    ensures ElemsEmitted(f, b, ps, js)
  {
    hide EncodesElem; hide ElemSize; hide Patched;
    forall fin, t | Patched(f, fin, b, b + ElemsSize(ps), js, t) ensures EncodesElems(fin, b, ps, 0, t) {
      assert ps[|ps|..] == [];
    }
  }

  ghost predicate NestedEmitted(ch: Chunk, b: nat, ps: seq<Pattern>, js: seq<nat>) {
    forall fin, t | Patched(ch, fin, b, b + 7 + ElemsSize(ps), js, t) :: EncodesNested(fin, b, ps, t)
  }

  /** The nested pattern's own fail jumps `js` (with the length test's) have been patched in `f`. */
  lemma NestedIsEmitted(c: Chunk, f: Chunk, b: nat, ps: seq<Pattern>, js: seq<nat>)
    requires var m := b + 3 + ElemsSize(ps);
             && ElemsEmitted(c, b + 3, ps, js) && Within(js, b + 3, m) && Patched(c, f, b + 3, m, js, m + 2)
             && EncodesLength(f, b, ps, m + 2)
             && Is(f, m, OpPop) && Is(f, m + 1, OpJump(m + 4)) && Is(f, m + 2, OpPop)
             && m + 3 < |f.code| && f.code[m + 3].OpJump?
    ensures NestedEmitted(f, b, ps, [b + 6 + ElemsSize(ps)])
  {
    hide EncodesElems; hide ElemsSize;
    var m := b + 3 + ElemsSize(ps);
    forall fin, t | Patched(f, fin, b, m + 4, [m + 3], t) ensures EncodesNested(fin, b, ps, t) {
      assert forall k | b <= k < m + 3 :: fin.code[k] == f.code[k];
      assert fin.code[m + 3] == OpJump(t);
      assert Patched(c, fin, b + 3, m, js, m + 2);
    }
  }

  // ----- match cases -----

  ghost predicate GuardEmitted(ch: Chunk, b: nat, g: Option<Expr>, js: seq<nat>) {
    forall fin, t | Patched(ch, fin, b, b + GuardSize(g), js, t) :: EncodesGuard(fin, b, g, t)
  }

  lemma GuardIsEmitted(c: Chunk, f: Chunk, b: nat, g: Expr)
    requires var n := b + Size(g);
             Emitted(c, b, g) && Agree(c, f, b, n) && n < |f.code| && f.code[n].OpJumpIfFalse?
    ensures GuardEmitted(f, b, Some(g), [b + Size(g)])
  {
    hide Encodes; hide Size;
    var n := b + Size(g);
    forall fin, t | Patched(f, fin, b, n + 1, [n], t) ensures EncodesGuard(fin, b, Some(g), t) {
      assert Agree(c, fin, b, n);
      assert fin.code[n] == OpJumpIfFalse(t);
    }
  }

  ghost predicate ScopedEmitted(ch: Chunk, b: nat, p: Pattern, js: seq<nat>)
    requires Scoped(p)
  {
    forall fin, t | Patched(ch, fin, b, b + ScopedSize(p), js, t) :: EncodesScoped(fin, b, p, t)
  }

  lemma NameEmitted(f: Chunk, b: nat, p: Pattern)
    requires p.Ident? && Is(f, b, OpDup) && Is(f, b + 1, OpSetGlobal(p.name, true)) && Is(f, b + 2, OpPop)
    ensures ScopedEmitted(f, b, p, [])
  {
    forall fin, t | Patched(f, fin, b, b + 3, [], t) ensures EncodesScoped(fin, b, p, t) {
      assert forall k | b <= k < b + 3 :: fin.code[k] == f.code[k];
    }
  }

  lemma ListPatEmitted(f: Chunk, b: nat, p: Pattern, js: seq<nat>)
    requires p.ListPat? && SpreadsLast(p.elems) && Is(f, b, OpDup)
    requires Is(f, b + 1, if EndsInSpread(p.elems) then OpMatchSeqLenGte(|p.elems| - 1) else OpMatchSeqLenEq(|p.elems|))
    requires b + 2 < |f.code| && f.code[b + 2].OpJumpIfFalse?
    requires ElemsEmitted(f, b + 3, p.elems, js) && Within(js, b + 3, b + 3 + ElemsSize(p.elems))
    ensures ScopedEmitted(f, b, p, [b + 2] + js)
  {
    hide EncodesElems; hide ElemsSize;
    forall fin, t | Patched(f, fin, b, b + 3 + ElemsSize(p.elems), [b + 2] + js, t)
      ensures EncodesScoped(fin, b, p, t) {
      assert fin.code[b] == f.code[b] && fin.code[b + 1] == f.code[b + 1] && fin.code[b + 2] == OpJumpIfFalse(t);
      PatchedAfter(f, fin, b, b + 3, b + 3 + ElemsSize(p.elems), [b + 2], js, t);
    }
  }

  /** The code of a case, with its jump to the end of the match at `j` still open. */
  ghost predicate CaseEmitted(ch: Chunk, b: nat, c: Case, j: nat) {
    forall fin, t | Patched(ch, fin, b, b + CaseSize(c), [j], t) :: EncodesCase(fin, b, c, t)
  }

  /** The parts of a scoped case, in chunks (`c1`, `c2`, `c3`) that agree with `f` but for the jumps of a miss. */
  ghost predicate ScopedParts(c1: Chunk, c2: Chunk, c3: Chunk, f: Chunk, b: nat, c: Case, js1: seq<nat>, js2: seq<nat>)
    requires Scoped(Stripped(c.pattern))
  {
    var p := Stripped(c.pattern);
    var m := b + 1 + WholeSize(c.pattern);
    var g := m + ScopedSize(p);
    var body := g + GuardSize(c.guard);
    var fail := body + Size(c.body) + 3;
    && Is(f, b, OpPushScope) && EncodesWhole(f, b + 1, c.pattern)
    && ScopedEmitted(c1, m, p, js1) && Patched(c1, f, m, g, js1, fail)
    && GuardEmitted(c2, g, c.guard, js2) && Patched(c2, f, g, body, js2, fail)
    && Is(f, body, OpPop) && Emitted(c3, body + 1, c.body) && Agree(c3, f, body + 1, body + 1 + Size(c.body))
    && Is(f, fail - 2, OpPopScope) && fail - 1 < |f.code| && f.code[fail - 1].OpJump?
    && ((p.Ident? && c.guard.None?) || Is(f, fail, OpPopScope))
  }

  lemma ScopedCaseEmitted(c1: Chunk, c2: Chunk, c3: Chunk, f: Chunk, b: nat, c: Case, js1: seq<nat>, js2: seq<nat>)
    requires Scoped(Stripped(c.pattern)) && ScopedParts(c1, c2, c3, f, b, c, js1, js2)
    ensures CaseEmitted(f, b, c,
            b + 1 + WholeSize(c.pattern) + ScopedSize(Stripped(c.pattern)) + GuardSize(c.guard) + Size(c.body) + 2)
  {
    hide Size; hide ScopedSize; hide GuardSize; hide Patched; hide WholeSize; hide CaseSize; hide ScopedParts;
    hide EncodesScopedCase;
    var j := b + 1 + WholeSize(c.pattern) + ScopedSize(Stripped(c.pattern)) + GuardSize(c.guard) + Size(c.body) + 2;
    CaseSizes(c);
    forall fin, t | Patched(f, fin, b, b + CaseSize(c), [j], t) ensures EncodesCase(fin, b, c, t) {
      ScopedCaseEncoded(c1, c2, c3, f, fin, b, c, js1, js2, t);
    }
  }

  lemma ScopedCaseEncoded(c1: Chunk, c2: Chunk, c3: Chunk, f: Chunk, fin: Chunk, b: nat, c: Case, js1: seq<nat>,
                          js2: seq<nat>, t: nat)
    requires Scoped(Stripped(c.pattern)) && ScopedParts(c1, c2, c3, f, b, c, js1, js2)
    requires Patched(f, fin, b, b + CaseSize(c), [b + 1 + WholeSize(c.pattern) + ScopedSize(Stripped(c.pattern))
                                                  + GuardSize(c.guard) + Size(c.body) + 2], t)
    ensures EncodesScopedCase(fin, b, c, t)
  {
    hide Encodes; hide Size; hide EncodesScoped; hide ScopedSize; hide EncodesGuard; hide GuardSize;
    hide Patched; hide Agree; hide WholeSize; hide EncodesWhole; hide CaseSize;
    var p := Stripped(c.pattern);
    var m := b + 1 + WholeSize(c.pattern);
    var g := m + ScopedSize(p);
    var body := g + GuardSize(c.guard);
    var fail := body + Size(c.body) + 3;
    CaseSizes(c);
    OpenJump(f, fin, b, b + CaseSize(c), fail - 1, t);
    AgreeAway(f, fin, b, b + CaseSize(c), fail - 1, t, b, fail - 1);
    PatchedThenAgree(c1, f, fin, m, g, js1, fail, b, fail - 1);
    PatchedThenAgree(c2, f, fin, g, body, js2, fail, b, fail - 1);
    AgreeThenAgree(c3, f, fin, body + 1, body + 1 + Size(c.body), b, fail - 1);
    IsKept(f, fin, b, fail - 1, b);
    WholeKept(f, fin, b, fail - 1, b + 1, c.pattern);
    IsKept(f, fin, b, fail - 1, body);
    IsKept(f, fin, b, fail - 1, fail - 2);
    if !(p.Ident? && c.guard.None?) {
      AgreeAway(f, fin, b, b + CaseSize(c), fail - 1, t, fail, fail + 1);
      IsKept(f, fin, fail, fail + 1, fail);
    }
  }

  lemma WholeKept(f: Chunk, fin: Chunk, lo: nat, hi: nat, b: nat, p: Pattern)
    requires Agree(f, fin, lo, hi) && EncodesWhole(f, b, p) && lo <= b && b + WholeSize(p) <= hi
    ensures EncodesWhole(fin, b, p)
  {}

  lemma CaseSizes(c: Case)
    ensures Scoped(Stripped(c.pattern)) ==>
              CaseSize(c) == 1 + WholeSize(c.pattern) + ScopedSize(Stripped(c.pattern)) + GuardSize(c.guard)
                + Size(c.body) + 3
                             + (if Stripped(c.pattern).Ident? && c.guard.None? then 0 else 1)
    ensures !Scoped(Stripped(c.pattern))
            ==> CaseSize(c) == FlatSize(Stripped(c.pattern)) + GuardSize(c.guard) + Size(c.body) + 2
  {
    hide Size; hide ScopedSize; hide GuardSize; hide FlatSize;
  }

  ghost predicate FlatEmitted(ch: Chunk, b: nat, p: Pattern, js: seq<nat>) {
    forall fin, t | Patched(ch, fin, b, b + FlatSize(p), js, t) :: EncodesFlat(fin, b, p, t)
  }

  lemma FlatCaseEmitted(c1: Chunk, c2: Chunk, c3: Chunk, f: Chunk, b: nat, c: Case, js1: seq<nat>, js2: seq<nat>)
    requires !Scoped(Stripped(c.pattern))
    requires var p := Stripped(c.pattern);
             var g := b + FlatSize(p);
             var body := g + GuardSize(c.guard);
             var next := body + Size(c.body) + 2;
             && FlatEmitted(c1, b, p, js1) && Patched(c1, f, b, g, js1, next)
             && GuardEmitted(c2, g, c.guard, js2) && Patched(c2, f, g, body, js2, next)
             && Is(f, body, OpPop) && Emitted(c3, body + 1, c.body) && Agree(c3, f, body + 1, body + 1 + Size(c.body))
             && next - 1 < |f.code| && f.code[next - 1].OpJump?
    ensures CaseEmitted(f, b, c, b + FlatSize(Stripped(c.pattern)) + GuardSize(c.guard) + Size(c.body) + 1)
  {
    hide Encodes; hide Size; hide EncodesFlat; hide FlatSize; hide EncodesGuard; hide GuardSize;
    var p := Stripped(c.pattern);
    var g := b + FlatSize(p);
    var body := g + GuardSize(c.guard);
    var next := body + Size(c.body) + 2;
    CaseSizes(c);
    forall fin, t | Patched(f, fin, b, b + CaseSize(c), [next - 1], t) ensures EncodesCase(fin, b, c, t) {
      assert forall k | b <= k < b + CaseSize(c) && k != next - 1 :: fin.code[k] == f.code[k];
      assert fin.code[next - 1] == OpJump(t);
      assert Patched(c1, fin, b, g, js1, next);
      assert Patched(c2, fin, g, body, js2, next);
      assert Agree(c3, fin, body + 1, body + 1 + Size(c.body));
      assert EncodesFlatCase(fin, b, c, t);
    }
  }

  lemma WildcardEmitted(f: Chunk, b: nat)
    ensures FlatEmitted(f, b, Wildcard, [])
  {}

  lemma EqualEmitted(f: Chunk, b: nat, p: Pattern, js: seq<nat>)
    requires (p.Pinned? || p.LiteralPat?) && Is(f, b, OpDup) && TestEmitted(f, b + 1, p, js)
             && Within(js, b + 1, b + 3 + OperandSize(p))
    ensures FlatEmitted(f, b, p, js) && FlatSize(p) == OperandSize(p) + 3
  {
    hide EncodesTest; hide OperandSize;
    forall fin, t | Patched(f, fin, b, b + FlatSize(p), js, t) ensures EncodesFlat(fin, b, p, t) {
      assert fin.code[b] == f.code[b];
      assert Patched(f, fin, b + 1, b + 3 + OperandSize(p), js, t);
      assert EncodesEqual(fin, b, p, t);
    }
  }

  ghost predicate AltsSoFar(ch: Chunk, b: nat, alts: seq<Pattern>, i: nat, ms: seq<nat>)
    requires i <= |alts|
  {
    forall fin, t | Patched(ch, fin, b, |ch.code|, ms, t) && EncodesAlts(fin, |ch.code|, alts[i..], t) ::
      EncodesAlts(fin, b, alts, t)
  }

  lemma AltsStep(c1: Chunk, c2: Chunk, c3: Chunk, b: nat, alts: seq<Pattern>, i: nat, ms: seq<nat>)
    requires i < |alts| && b <= |c1.code| && AltsSoFar(c1, b, alts, i, ms) && Within(ms, b, |c1.code|)
    requires Extends(c1, c3) && c2.consts <= c3.consts
    requires var n0 := |c1.code|;
             var n := n0 + OperandSize(alts[i]) + 5;
             && |c3.code| == n && Is(c3, n0, OpDup) && TestEmitted(c2, n0 + 1, alts[i], [n - 3])
             && Patched(c2, c3, n0 + 1, n - 2, [n - 3], n)
             && Is(c3, n - 2, OpTrue) && c3.code[n - 1].OpJump?
    ensures AltsSoFar(c3, b, alts, i + 1, ms + [|c3.code| - 1])
    ensures AltsSize(alts[i..]) == OperandSize(alts[i]) + 5 + AltsSize(alts[i + 1..])
  {
    hide EncodesTest; hide OperandSize; hide Extends; hide Patched; hide Agree;
    assert alts[i..][0] == alts[i] && alts[i..][1..] == alts[i + 1..];
    var n0, n := |c1.code|, |c3.code|;
    forall fin, t | Patched(c3, fin, b, n, ms + [n - 1], t) && EncodesAlts(fin, n, alts[i + 1..], t)
      ensures EncodesAlts(fin, b, alts, t)
    {
      PatchedBefore(c1, c3, fin, b, n0, n, ms, [n - 1], t);
      PatchedAfter(c3, fin, b, n0, n, ms, [n - 1], t);
      OpenJump(c3, fin, n0, n, n - 1, t);
      AgreeAway(c3, fin, n0, n, n - 1, t, n0, n - 1);
      PatchedThenAgree(c2, c3, fin, n0 + 1, n - 2, [n - 3], n, n0, n - 1);
      IsKept(c3, fin, n0, n - 1, n0);
      IsKept(c3, fin, n0, n - 1, n - 2);
      assert EncodesEqual(fin, n0, alts[i], n);
      assert EncodesAlts(fin, n0, alts[i..], t);
    }
  }

  lemma MultiEmitted(c: Chunk, f: Chunk, b: nat, p: Pattern, ms: seq<nat>)
    requires p.Multi? && p.alts != [] && b <= |c.code| && AltsSoFar(c, b, p.alts, |p.alts|, ms)
    requires var m := |c.code|;
             && m == b + AltsSize(p.alts) && Patched(c, f, b, m, ms, m + 1) && Is(f, m, OpFalse)
             && m + 1 < |f.code| && f.code[m + 1].OpJumpIfFalse?
    ensures FlatEmitted(f, b, p, [|c.code| + 1])
  {
    hide EncodesTest; hide OperandSize; hide AltsSize; hide Patched; hide Agree;
    var m := |c.code|;
    forall fin, t | Patched(f, fin, b, m + 2, [m + 1], t) ensures EncodesFlat(fin, b, p, t) {
      OpenJump(f, fin, b, m + 2, m + 1, t);
      AgreeAway(f, fin, b, m + 2, m + 1, t, b, m + 1);
      IsKept(f, fin, b, m + 1, m);
      PatchedThenAgree(c, f, fin, b, m, ms, m + 1, b, m + 1);
      assert p.alts[|p.alts|..] == [];
      assert EncodesAlts(fin, b, p.alts, m + 1);
    }
  }

  /** Once the cases from `i` on follow, all of them are laid out, their jumps `js` leading to the end. */
  ghost predicate CasesSoFar(ch: Chunk, b: nat, cases: seq<Case>, i: nat, js: seq<nat>)
    requires i <= |cases|
  {
    forall fin, t | Patched(ch, fin, b, |ch.code|, js, t) && EncodesCases(fin, |ch.code|, cases[i..], t) ::
      EncodesCases(fin, b, cases, t)
  }

  lemma CasesStep(c1: Chunk, c2: Chunk, b: nat, cases: seq<Case>, i: nat, js: seq<nat>, j: nat)
    requires i < |cases| && b <= |c1.code| && CasesSoFar(c1, b, cases, i, js) && Within(js, b, |c1.code|)
    requires Extends(c1, c2) && |c2.code| == |c1.code| + CaseSize(cases[i])
    requires CaseEmitted(c2, |c1.code|, cases[i], j) && |c1.code| <= j < |c2.code|
    ensures CasesSoFar(c2, b, cases, i + 1, js + [j])
    ensures CasesSize(cases[i..]) == CaseSize(cases[i]) + CasesSize(cases[i + 1..])
  {
    hide EncodesCase; hide CaseSize; hide Patched; hide Extends;
    assert cases[i..][0] == cases[i] && cases[i..][1..] == cases[i + 1..];
    forall fin, t | Patched(c2, fin, b, |c2.code|, js + [j], t) && EncodesCases(fin, |c2.code|, cases[i + 1..], t)
      ensures EncodesCases(fin, b, cases, t)
    {
      PatchedBefore(c1, c2, fin, b, |c1.code|, |c2.code|, js, [j], t);
      PatchedAfter(c2, fin, b, |c1.code|, |c2.code|, js, [j], t);
      assert EncodesCases(fin, |c1.code|, cases[i..], t);
    }
  }

  lemma MatchEmitted(c1: Chunk, c2: Chunk, f: Chunk, b: nat, e: Expr, js: seq<nat>)
    requires e.Match? && e.cases != []
    requires var m := b + Size(e.subject);
             var n := m + CasesSize(e.cases);
             && Emitted(c1, b, e.subject) && Agree(c1, f, b, m)
             && |c2.code| == n && CasesSoFar(c2, m, e.cases, |e.cases|, js) && Patched(c2, f, m, n, js, n + 2)
             && Is(f, n, OpPop) && Is(f, n + 1, OpNil)
    ensures Emitted(f, b, e)
  {
    hide Encodes; hide Size; hide EncodesCase; hide CaseSize;
    var m := b + Size(e.subject);
    var n := m + CasesSize(e.cases);
    forall fin | Agree(f, fin, b, b + Size(e)) ensures Encodes(fin, b, e) {
      Dispatch(fin, b, e);
      assert Agree(c1, fin, b, m);
      assert Patched(c2, fin, m, n, js, n + 2);
      assert e.cases[|e.cases|..] == [];
    }
  }

  // ----- chunks before and after patching -----

  /** What patching the jumps `all` of `d` makes of a stretch emitted earlier, whose jumps are `js`. */
  lemma PatchedPart(c: Chunk, d: Chunk, f: Chunk, lo: nat, hi: nat, all: seq<nat>, js: seq<nat>, t: nat)
    requires Extends(c, d) && Patched(d, f, 0, |d.code|, all, t) && lo <= hi <= |c.code|
    requires forall k | lo <= k < hi :: k in all <==> k in js
    ensures Patched(c, f, lo, hi, js, t)
  {
    assert forall k | lo <= k < hi :: d.code[k] == d.code[..|c.code|][k];
  }

  lemma UnpatchedPart(c: Chunk, d: Chunk, f: Chunk, lo: nat, hi: nat, all: seq<nat>, t: nat)
    requires Extends(c, d) && Patched(d, f, 0, |d.code|, all, t) && lo <= hi <= |c.code|
    requires forall k | lo <= k < hi :: k !in all
    ensures Agree(c, f, lo, hi)
  {
    PatchedPart(c, d, f, lo, hi, all, [], t);
  }

  lemma PatchedGrows(d: Chunk, e: Chunk, f: Chunk, hi: nat, all: seq<nat>, t: nat)
    requires Patched(d, e, 0, hi, all, t) && e.code <= f.code && e.consts <= f.consts
    ensures Patched(d, f, 0, hi, all, t)
  {}

  lemma PatchedExtends(c: Chunk, d: Chunk, f: Chunk, all: seq<nat>, t: nat)
    requires Extends(c, d) && Patched(d, f, 0, |d.code|, all, t) && Within(all, |c.code|, |d.code|)
    ensures Extends(c, f)
  {
    assert forall k | 0 <= k < |c.code| :: d.code[k] == d.code[..|c.code|][k];
  }

  lemma InJoin(js1: seq<nat>, js2: seq<nat>, a: nat, b: nat, c: nat)
    requires a <= b <= c && Within(js1, a, b) && Within(js2, b, c)
    ensures Within(js1 + js2, a, c)
    ensures forall k | a <= k < b :: k in js1 + js2 <==> k in js1
    ensures forall k | b <= k < c :: k in js1 + js2 <==> k in js2
    ensures forall k | k < a || c <= k :: k !in js1 + js2
  {}

  /** A case with its own scope: chunks after the scope and name (`cw`), the pattern (`c1`), the guard (`c2`), the body
      (`c3`) and the jump (`c4`); in `f` the fail jumps are patched. */
  lemma ScopedChunks(c0: Chunk, cw: Chunk, c1: Chunk, c2: Chunk, c3: Chunk, c4: Chunk, f: Chunk, c: Case,
                     js1: seq<nat>, js2: seq<nat>, fail: nat)
    requires Extends(c0, cw) && Extends(cw, c1) && Extends(c1, c2) && Extends(c2, c3) && Extends(c3, c4)
    requires Within(js1, |cw.code|, |c1.code|) && Within(js2, |c1.code|, |c2.code|)
    requires Patched(c4, f, 0, |c4.code|, js1 + js2, fail)
    requires |cw.code| == |c0.code| + 1 + WholeSize(c.pattern) && Is(cw, |c0.code|, OpPushScope)
             && EncodesWhole(cw, |c0.code| + 1, c.pattern)
    requires |c3.code| == |c2.code| + 1 + Size(c.body) && Is(c3, |c2.code|, OpPop)
    requires |c4.code| == |c3.code| + 2 && Is(c4, |c3.code|, OpPopScope) && c4.code[|c3.code| + 1].OpJump?
    ensures Extends(c0, f)
    ensures Is(f, |c0.code|, OpPushScope) && EncodesWhole(f, |c0.code| + 1, c.pattern)
    ensures Patched(c1, f, |cw.code|, |c1.code|, js1, fail) && Patched(c2, f, |c1.code|, |c2.code|, js2, fail)
    ensures Is(f, |c2.code|, OpPop) && Agree(c3, f, |c2.code| + 1, |c3.code|)
    ensures Is(f, |c3.code|, OpPopScope) && |c3.code| + 1 < |f.code| && f.code[|c3.code| + 1].OpJump?
  {
    hide Extends; hide Patched; hide Agree; hide EncodesWhole; hide Size;
    var js := js1 + js2;
    ExtendsTransitive(c2, c3, c4);
    ExtendsTransitive(c1, c2, c4);
    ExtendsTransitive(cw, c1, c4);
    ExtendsTransitive(c0, cw, c4);
    ExtendsLength(cw, c1);
    ExtendsLength(c1, c2);
    ExtendsItself(c4);
    InJoin(js1, js2, |cw.code|, |c1.code|, |c2.code|);
    assert Within(js, |c0.code|, |c4.code|);
    PatchedExtends(c0, c4, f, js, fail);
    UnpatchedPart(cw, c4, f, |c0.code|, |cw.code|, js, fail);
    IsKept(cw, f, |c0.code|, |cw.code|, |c0.code|);
    WholeKept(cw, f, |c0.code|, |cw.code|, |c0.code| + 1, c.pattern);
    PatchedPart(c1, c4, f, |cw.code|, |c1.code|, js, js1, fail);
    PatchedPart(c2, c4, f, |c1.code|, |c2.code|, js, js2, fail);
    UnpatchedPart(c3, c4, f, |c2.code|, |c3.code|, js, fail);
    IsKept(c3, f, |c2.code|, |c3.code|, |c2.code|);
    AgreeInside(c3, f, |c2.code|, |c3.code|, |c2.code| + 1);
    UnpatchedPart(c4, c4, f, |c3.code|, |c4.code|, js, fail);
    IsKept(c4, f, |c3.code|, |c4.code|, |c3.code|);
    IsKept(c4, f, |c3.code|, |c4.code|, |c3.code| + 1);
  }

  /** A scoped case up to its body: chunks after the name for the whole (`cw`), the pattern (`c1`) and the guard (`c2`).
      */
  ghost predicate ScopedHead(c0: Chunk, cw: Chunk, c1: Chunk, c2: Chunk, c: Case, js1: seq<nat>, js2: seq<nat>) {
    var p := Stripped(c.pattern);
    && Scoped(p) && Extends(c0, cw) && Extends(cw, c1) && Extends(c1, c2)
    && |cw.code| == |c0.code| + 1 + WholeSize(c.pattern) && Is(cw, |c0.code|, OpPushScope)
    && EncodesWhole(cw, |c0.code| + 1, c.pattern)
    && |c1.code| == |cw.code| + ScopedSize(p) && ScopedEmitted(c1, |cw.code|, p, js1)
    && |c2.code| == |c1.code| + GuardSize(c.guard) && GuardEmitted(c2, |c1.code|, c.guard, js2)
    && Within(js1, |cw.code|, |c1.code|) && Within(js2, |c1.code|, |c2.code|)
  }

  lemma ScopedCaseDone(c0: Chunk, cw: Chunk, c1: Chunk, c2: Chunk, c3: Chunk, c4: Chunk, f: Chunk, c: Case,
                       js1: seq<nat>, js2: seq<nat>)
    requires ScopedHead(c0, cw, c1, c2, c, js1, js2) && Extends(c2, c3)
    requires c4.code == c3.code + [OpPopScope, OpJump(0)] && c4.consts == c3.consts
    requires |c3.code| == |c2.code| + 1 + Size(c.body) && Is(c3, |c2.code|, OpPop) && Emitted(c3, |c2.code| + 1, c.body)
    requires Patched(c4, f, 0, |c4.code|, js1 + js2, |c4.code|)
    requires (Stripped(c.pattern).Ident? && c.guard.None?) || Is(f, |c4.code|, OpPopScope)
    ensures Extends(c0, f) && CaseEmitted(f, |c0.code|, c, |c3.code| + 1)
  {
    hide Extends; hide Patched; hide Agree; hide EncodesWhole; hide WholeSize; hide Size; hide ScopedSize;
    hide GuardSize;
    hide ScopedEmitted; hide GuardEmitted; hide Emitted; hide CaseEmitted;
    ExtendsByEmit(c3, c4);
    ScopedChunks(c0, cw, c1, c2, c3, c4, f, c, js1, js2, |c4.code|);
    ScopedCaseEmitted(c1, c2, c3, f, |c0.code|, c, js1, js2);
  }

  lemma ExtendsLength(c: Chunk, d: Chunk)
    requires Extends(c, d)
    ensures |c.code| <= |d.code|
  {}

  lemma AgreeInside(c: Chunk, f: Chunk, lo: nat, hi: nat, lo1: nat)
    requires Agree(c, f, lo, hi) && lo <= lo1
    ensures Agree(c, f, lo1, hi)
  {}

  /** A case without a scope: chunks after the pattern (`c1`), the guard (`c2`), the body (`c3`) and the jump (`c4`). */
  lemma FlatChunks(c0: Chunk, c1: Chunk, c2: Chunk, c3: Chunk, c4: Chunk, f: Chunk, c: Case, js1: seq<nat>,
                   js2: seq<nat>, next: nat)
    requires Extends(c0, c1) && Extends(c1, c2) && Extends(c2, c3) && Extends(c3, c4)
    requires Within(js1, |c0.code|, |c1.code|) && Within(js2, |c1.code|, |c2.code|)
    requires Patched(c4, f, 0, |c4.code|, js1 + js2, next)
    requires |c3.code| == |c2.code| + 1 + Size(c.body) && Is(c3, |c2.code|, OpPop)
    requires |c4.code| == |c3.code| + 1 && c4.code[|c3.code|].OpJump?
    ensures Extends(c0, f)
    ensures Patched(c1, f, |c0.code|, |c1.code|, js1, next) && Patched(c2, f, |c1.code|, |c2.code|, js2, next)
    ensures Is(f, |c2.code|, OpPop) && Agree(c3, f, |c2.code| + 1, |c3.code|)
    ensures |c3.code| < |f.code| && f.code[|c3.code|].OpJump?
  {
    hide Extends; hide Patched; hide Agree; hide Size;
    var js := js1 + js2;
    ExtendsTransitive(c2, c3, c4);
    ExtendsTransitive(c1, c2, c4);
    ExtendsTransitive(c0, c1, c4);
    ExtendsLength(c0, c1);
    ExtendsLength(c1, c2);
    ExtendsItself(c4);
    InJoin(js1, js2, |c0.code|, |c1.code|, |c2.code|);
    assert Within(js, |c0.code|, |c4.code|);
    PatchedExtends(c0, c4, f, js, next);
    PatchedPart(c1, c4, f, |c0.code|, |c1.code|, js, js1, next);
    PatchedPart(c2, c4, f, |c1.code|, |c2.code|, js, js2, next);
    UnpatchedPart(c3, c4, f, |c2.code|, |c3.code|, js, next);
    IsKept(c3, f, |c2.code|, |c3.code|, |c2.code|);
    AgreeInside(c3, f, |c2.code|, |c3.code|, |c2.code| + 1);
    UnpatchedPart(c4, c4, f, |c3.code|, |c4.code|, js, next);
    IsKept(c4, f, |c3.code|, |c4.code|, |c3.code|);
  }

  lemma FetchKept(c: Chunk, f: Chunk, b: nat, i: nat)
    requires Extends(c, f) && |c.code| == b + 3 && EncodesFetch(c, b, i)
    ensures EncodesFetch(f, b, i)
  {
    assert forall k | b <= k < b + 3 :: f.code[k] == f.code[..b + 3][k];
  }

  lemma MatchChunks(c0: Chunk, c1: Chunk, c2: Chunk, c3: Chunk, f: Chunk, js: seq<nat>)
    requires Extends(c0, c1) && Extends(c1, c2) && Within(js, |c1.code|, |c2.code|)
    requires c3.code == c2.code + [OpPop, OpNil] && c3.consts == c2.consts
             && Patched(c3, f, 0, |c3.code|, js, |c3.code|)
    ensures Extends(c0, f) && Agree(c1, f, |c0.code|, |c1.code|)
    ensures Patched(c2, f, |c1.code|, |c2.code|, js, |c3.code|)
    ensures Is(f, |c2.code|, OpPop) && Is(f, |c2.code| + 1, OpNil)
  {
    hide Extends; hide Patched; hide Agree;
    ExtendsByEmit(c2, c3);
    ExtendsTransitive(c1, c2, c3);
    ExtendsTransitive(c0, c1, c3);
    ExtendsItself(c3);
    ExtendsLength(c0, c1);
    ExtendsLength(c1, c2);
    PatchedExtends(c0, c3, f, js, |c3.code|);
    UnpatchedPart(c1, c3, f, |c0.code|, |c1.code|, js, |c3.code|);
    PatchedPart(c2, c3, f, |c1.code|, |c2.code|, js, js, |c3.code|);
    UnpatchedPart(c3, c3, f, |c2.code|, |c3.code|, js, |c3.code|);
    IsKept(c3, f, |c2.code|, |c3.code|, |c2.code|);
    IsKept(c3, f, |c2.code|, |c3.code|, |c2.code| + 1);
  }

  lemma MultiChunks(c0: Chunk, c2: Chunk, c3: Chunk, c4: Chunk, f: Chunk, ms: seq<nat>)
    requires Extends(c0, c2) && Within(ms, |c0.code|, |c2.code|)
    requires c3.code == c2.code + [OpFalse] && c3.consts == c2.consts && Patched(c3, c4, 0, |c3.code|, ms, |c3.code|)
             && |c4.code| == |c3.code|
    requires f.code == c4.code + [OpJumpIfFalse(0)] && f.consts == c4.consts
    ensures Extends(c0, f)
    ensures Patched(c2, f, |c0.code|, |c2.code|, ms, |c3.code|)
    ensures Is(f, |c2.code|, OpFalse)
  {
    hide Extends; hide Patched; hide Agree;
    PatchedGrows(c3, c4, f, |c3.code|, ms, |c3.code|);
    ExtendsByEmit(c2, c3);
    ExtendsTransitive(c0, c2, c3);
    ExtendsItself(c3);
    ExtendsLength(c0, c2);
    PatchedExtends(c0, c3, f, ms, |c3.code|);
    PatchedPart(c2, c3, f, |c0.code|, |c2.code|, ms, ms, |c3.code|);
    UnpatchedPart(c3, c3, f, |c2.code|, |c3.code|, ms, |c3.code|);
    IsKept(c3, f, |c2.code|, |c3.code|, |c2.code|);
  }

  lemma AltChunks(c1: Chunk, d: Chunk, c2: Chunk, c3: Chunk, f: Chunk, jf: nat)
    requires d.code == c1.code + [OpDup] && d.consts == c1.consts && Extends(d, c2) && |d.code| <= jf < |c2.code|
             && c2.code[jf].OpJumpIfFalse?
    requires c3.code == c2.code + [OpTrue, OpJump(0)] && c3.consts == c2.consts
    requires f == Chunk(c3.code[jf := Retarget(c3.code[jf], |c3.code|)], c3.consts)
    ensures Extends(c1, f) && Is(f, |c1.code|, OpDup) && Patched(c2, f, |d.code|, |c2.code|, [jf], |f.code|)
    ensures Is(f, |c2.code|, OpTrue) && f.code[|c2.code| + 1].OpJump?
  {
    assert c2.code[..|d.code|] == d.code;
    assert f.code[..|c1.code|] == c2.code[..|d.code|][..|c1.code|];
    assert c2.code[|c1.code|] == c2.code[..|d.code|][|c1.code|];
  }

  lemma SameBefore(c: Chunk, d: Chunk)
    requires Extends(c, d)
    ensures |c.code| <= |d.code| && c.consts <= d.consts && forall k | 0 <= k < |c.code| :: d.code[k] == c.code[k]
  {
    assert forall k | 0 <= k < |c.code| :: d.code[k] == d.code[..|c.code|][k];
  }

  lemma ExtendsWhenSame(c: Chunk, d: Chunk)
    requires |c.code| <= |d.code| && c.consts <= d.consts && forall k | 0 <= k < |c.code| :: d.code[k] == c.code[k]
    ensures Extends(c, d)
  {}

  /** The code of a nested list pattern before the jumps to its failure are patched, and after. */
  predicate NestedParts(c1: Chunk, c2: Chunk, c3: Chunk, c4: Chunk, f: Chunk, b: nat, inner: seq<nat>) {
    && |c1.code| == b + 3 <= |c2.code| && c1.consts <= c2.consts
      && (forall k | 0 <= k < |c1.code| :: c2.code[k] == c1.code[k])
    && c1.code[b + 2].OpJumpIfFalse? && Within(inner, |c1.code|, |c2.code|)
    && c3.code == c2.code + [OpPop, OpJump(0)] && c3.consts == c2.consts
    && Patched(c3, c4, 0, |c3.code|, [b + 2] + inner, |c3.code|) && |c4.code| == |c3.code|
    && var g := c4.code + [OpPop, OpJump(0)];
       f.code == g[|c2.code| + 1 := Retarget(g[|c2.code| + 1], |g|)] && f.consts == c4.consts
  }

  lemma NestedCode(c1: Chunk, c2: Chunk, c3: Chunk, c4: Chunk, f: Chunk, b: nat, inner: seq<nat>)
    requires NestedParts(c1, c2, c3, c4, f, b, inner)
    ensures var m := |c2.code|;
            && |f.code| == m + 4 && c2.consts <= f.consts
            && (forall k | 0 <= k < b + 2 :: f.code[k] == c1.code[k]) && f.code[b + 2] == OpJumpIfFalse(m + 2)
            && Patched(c2, f, b + 3, m, inner, m + 2)
            && Is(f, m, OpPop) && Is(f, m + 1, OpJump(m + 4)) && Is(f, m + 2, OpPop) && f.code[m + 3].OpJump?
  {
    hide Is;
    var m := |c2.code|;
    assert Is(f, m, OpPop) && Is(f, m + 1, OpJump(m + 4))
           && Is(f, m + 2, OpPop) by { NestedEnd(c2, c3, c4, f, [b + 2] + inner); }
    assert forall k | 0 <= k < m :: c3.code[k] == c2.code[k] && f.code[k] == c4.code[k];
  }

  lemma NestedEnd(c2: Chunk, c3: Chunk, c4: Chunk, f: Chunk, js: seq<nat>)
    requires c3.code == c2.code + [OpPop, OpJump(0)] && (forall j | j in js :: j < |c2.code|)
    requires Patched(c3, c4, 0, |c3.code|, js, |c3.code|) && |c4.code| == |c3.code|
    requires var g := c4.code + [OpPop, OpJump(0)];
             f.code == g[|c2.code| + 1 := Retarget(g[|c2.code| + 1], |g|)]
    ensures var m := |c2.code|; Is(f, m, OpPop) && Is(f, m + 1, OpJump(m + 4)) && Is(f, m + 2, OpPop)
  {
    var m := |c2.code|;
    assert m !in js && m + 1 !in js && c4.code[m] == c3.code[m] && c4.code[m + 1] == c3.code[m + 1];
  }

  lemma NestedChunks(c0: Chunk, c1: Chunk, c2: Chunk, c3: Chunk, c4: Chunk, f: Chunk, ps: seq<Pattern>, inner: seq<nat>)
    requires Extends(c0, c1) && |c1.code| == |c0.code| + 3 && Is(c1, |c0.code|, OpDup)
             && c1.code[|c0.code| + 2].OpJumpIfFalse?
    requires SpreadsLast(ps) && Is(c1, |c0.code| + 1, if EndsInSpread(ps) then OpMatchSeqLenGte(|ps| - 1)
             else OpMatchSeqLenEq(|ps|))
    requires Extends(c1, c2) && |c2.code| == |c1.code| + ElemsSize(ps)
    requires ElemsEmitted(c2, |c1.code|, ps, inner) && Within(inner, |c1.code|, |c2.code|)
    requires c3.code == c2.code + [OpPop, OpJump(0)] && c3.consts == c2.consts
    requires Patched(c3, c4, 0, |c3.code|, [|c0.code| + 2] + inner, |c3.code|) && |c4.code| == |c3.code|
    requires var g := c4.code + [OpPop, OpJump(0)];
             f.code == g[|c2.code| + 1 := Retarget(g[|c2.code| + 1], |g|)] && f.consts == c4.consts
    ensures Extends(c0, f) && |f.code| == |c0.code| + 7 + ElemsSize(ps)
            && NestedEmitted(f, |c0.code|, ps, [|f.code| - 1])
  {
    hide ElemsSize; hide ElemsEmitted; hide NestedEmitted; hide SpreadsLast; hide EndsInSpread; hide Extends;
    hide Patched; hide Within;
    var b, m := |c0.code|, |c2.code|;
    SameBefore(c0, c1);
    SameBefore(c1, c2);
    NestedCode(c1, c2, c3, c4, f, b, inner);
    hide NestedParts;
    assert forall k | 0 <= k < b :: f.code[k] == c0.code[k];
    ExtendsWhenSame(c0, f);
    NestedIsEmitted(c2, f, b, ps, inner);
  }

  // ----- programs -----

  ghost predicate ProgramSoFar(ch: Chunk, stmts: seq<Stmt>, i: nat)
    requires i <= |stmts|
  {
    forall fin | Agree(ch, fin, 0, |ch.code|) && EncodesProgram(fin, |ch.code|, stmts[i..]) ::
      EncodesProgram(fin, 0, stmts)
  }

  lemma ProgramStep(c1: Chunk, c2: Chunk, c3: Chunk, stmts: seq<Stmt>, i: nat)
    requires i < |stmts| && ProgramSoFar(c1, stmts, i)
    requires Extends(c1, c2) && |c2.code| == |c1.code| + StmtSize(stmts[i]) && StmtEmitted(c2, |c1.code|, stmts[i])
    requires Extends(c2, c3)
    requires if stmts[i].ExprStmt? then |c3.code| == |c2.code| + 1 && Is(c3, |c2.code|, OpPop) else c3 == c2
    ensures ProgramSoFar(c3, stmts, i + 1)
    ensures |c3.code| + ProgramSize(stmts[i + 1..]) == |c1.code| + ProgramSize(stmts[i..])
  {
    hide EncodesStmt; hide StmtSize;
    assert stmts[i..][0] == stmts[i] && stmts[i..][1..] == stmts[i + 1..];
    forall fin | Agree(c3, fin, 0, |c3.code|) && EncodesProgram(fin, |c3.code|, stmts[i + 1..])
      ensures EncodesProgram(fin, 0, stmts) {
      assert Agree(c1, fin, 0, |c1.code|);
      assert Agree(c2, fin, |c1.code|, |c2.code|);
      assert EncodesProgram(fin, |c1.code|, stmts[i..]);
    }
  }

  lemma ProgramDone(c: Chunk, f: Chunk, stmts: seq<Stmt>)
    requires ProgramSoFar(c, stmts, |stmts|) && f == Chunk(c.code + [OpReturn], c.consts)
    ensures EncodesProgram(f, 0, stmts)
  {
    assert stmts[|stmts|..] == [];
    assert Agree(c, f, 0, |c.code|);
  }
}
