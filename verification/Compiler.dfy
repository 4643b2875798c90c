/** The compiler as the program runs it: it appends instructions and constants to a chunk, and patches the jumps it left
    open once their targets are known. */
module CompilerClass {
  import opened Values
  import opened Syntax
  import opened Evaluator
  import opened Bytecode
  import opened Layout
  import opened Compilation
  import opened Emission

  class Compiler {
    var code: seq<Instruction>
    var consts: seq<Value>

    ghost function Ch(): Chunk reads this { Chunk(code, consts) }

    constructor ()
      ensures code == [] && consts == []
    {
      code, consts := [], [];
    }

    method Emit(ins: Instruction) returns (at: nat)
      modifies this
      ensures at == |old(code)| && code == old(code) + [ins] && consts == old(consts)
    {
      at := |code|;
      code := code + [ins];
    }

    method EmitConstant(v: Value)
      modifies this
      ensures |code| == |old(code)| + 1 && Extends(old(Ch()), Ch()) && IsConst(Ch(), |old(code)|, v)
    {
      consts := consts + [v];
      code := code + [OpConstant(|consts| - 1)];
    }

    method PatchJump(at: nat, target: nat)
      requires at < |code|
      modifies this`code
      ensures code == old(code)[at := Retarget(old(code[at]), target)]
    {
      code := code[at := Retarget(code[at], target)];
    }

    method PatchJumps(js: seq<nat>, target: nat)
      requires forall k | 0 <= k < |js| :: js[k] < |code|
      modifies this`code
      ensures |code| == |old(code)| && Patched(old(Ch()), Ch(), 0, |code|, js, target)
    {
      var i := 0;
      while i < |js|
        invariant i <= |js| && |code| == |old(code)|
        invariant Patched(old(Ch()), Ch(), 0, |code|, js[..i], target)
      {
        PatchJump(js[i], target);
        i := i + 1;
        assert js[..i] == js[..i - 1] + [js[i - 1]];
      }
      assert js[..i] == js;
    }

    // ----- expressions -----

    method CompileExpression(e: Expr) returns (ok: bool)
      modifies this
      ensures ok <==> Compiles(e)
      ensures ok ==> Extends(old(Ch()), Ch()) && |code| == |old(code)| + Size(e) && Emitted(Ch(), |old(code)|, e)
      decreases e, 1
    {
      hide Emitted; hide Encodes;
      ghost var b := |code|;
      ok := true;
      match e
      case Literal(v) => EmitConstant(v); LeafEmitted(Ch(), b, e);
      case BoolLit(x) => var _ := Emit(if x then OpTrue else OpFalse); LeafEmitted(Ch(), b, e);
      case NilLit => var _ := Emit(OpNil); LeafEmitted(Ch(), b, e);
      case Name(x) => var _ := Emit(OpGetGlobal(x)); LeafEmitted(Ch(), b, e);
      case Bind(_, _, _) => ok := CompileBind(e);
      case Assign(_, _) => ok := CompileAssign(e);
      case PrefixExpr(_, _) => ok := CompilePrefix(e);
      case Infix(_, _, _) => ok := CompileInfix(e);
      case And(_, _) => ok := CompileAnd(e);
      case Or(_, _) => ok := CompileOr(e);
      case If(_, _, _) => ok := CompileIf(e);
      case Block(_) => ok := CompileBlock(e);
      case Match(_, _) => ok := CompileMatch(e);
      case ListLit(_) => ok := CompileListLiteral(e);
      case Index(_, _) => ok := CompileIndex(e);
    }

    method CompileBind(e: Expr) returns (ok: bool)
      requires e.Bind?
      modifies this
      ensures ok <==> Compiles(e.value) && CompilesBind(e.pattern)
      ensures ok ==> Extends(old(Ch()), Ch()) && |code| == |old(code)| + Size(e.value) + BindSize(e.pattern)
      ensures ok ==> Emitted(Ch(), |old(code)|, e)
      decreases e, 0
    {
      hide Size; hide Encodes; hide Compiles; hide CompilesBind; hide BindSize; hide EncodesBind;
      ghost var b := |code|;
      ok := CompileExpression(e.value);
      if !ok { return; }
      ghost var c1 := Ch();
      ok := CompileBindPattern(e.pattern, e.asConst);
      if !ok { return; }
      BindExprEmitted(c1, Ch(), b, e);
    }

    method CompileAssign(e: Expr) returns (ok: bool)
      requires e.Assign?
      modifies this
      ensures ok <==> e.target.Name? && Compiles(e.value)
      ensures ok ==> Extends(old(Ch()), Ch()) && |code| == |old(code)| + Size(e.value) + 1
      ensures ok ==> Emitted(Ch(), |old(code)|, e)
      decreases e, 0
    {
      hide Size; hide Encodes; hide Compiles;
      ghost var b := |code|;
      if !e.target.Name? { return false; }
      ok := CompileExpression(e.value);
      if !ok { return; }
      ghost var c1 := Ch();
      var _ := Emit(OpAssignGlobal(e.target.name));
      AssignEmitted(c1, Ch(), b, e);
    }

    method CompilePrefix(e: Expr) returns (ok: bool)
      requires e.PrefixExpr?
      modifies this
      ensures ok <==> Compiles(e.operand)
      ensures ok ==> Extends(old(Ch()), Ch()) && |code| == |old(code)| + Size(e.operand) + 1
      ensures ok ==> Emitted(Ch(), |old(code)|, e)
      decreases e, 0
    {
      hide Size; hide Encodes; hide Compiles;
      ghost var b := |code|;
      ok := CompileExpression(e.operand);
      if !ok { return; }
      ghost var c1 := Ch();
      var _ := Emit(OpPrefix(e.prefix));
      PrefixEmitted(c1, Ch(), b, e);
    }

    method CompileInfix(e: Expr) returns (ok: bool)
      requires e.Infix?
      modifies this
      ensures ok <==> Compiles(Lowered(e).left) && Compiles(Lowered(e).right)
      ensures ok ==> Extends(old(Ch()), Ch())
                     && |code| == |old(code)| + Size(Lowered(e).left) + Size(Lowered(e).right) + 1
      ensures ok ==> Emitted(Ch(), |old(code)|, e)
      decreases e, 0
    {
      hide Size; hide Encodes; hide Compiles;
      ghost var b := |code|;
      var op := Lowered(e);
      ok := CompileExpression(op.left);
      if !ok { return; }
      ghost var c1 := Ch();
      ok := CompileExpression(op.right);
      if !ok { return; }
      ghost var c2 := Ch();
      var _ := Emit(OpBinary(op.op));
      InfixEmitted(c1, c2, Ch(), b, e);
    }

    method CompileIndex(e: Expr) returns (ok: bool)
      requires e.Index?
      modifies this
      ensures ok <==> Compiles(e.left) && Compiles(e.index)
      ensures ok ==> Extends(old(Ch()), Ch()) && |code| == |old(code)| + Size(e.left) + Size(e.index) + 1
      ensures ok ==> Emitted(Ch(), |old(code)|, e)
      decreases e, 0
    {
      hide Size; hide Encodes; hide Compiles;
      ghost var b := |code|;
      ok := CompileExpression(e.left);
      if !ok { return; }
      ghost var c1 := Ch();
      ok := CompileExpression(e.index);
      if !ok { return; }
      ghost var c2 := Ch();
      var _ := Emit(OpIndex);
      IndexEmitted(c1, c2, Ch(), b, e);
    }

    method CompileAnd(e: Expr) returns (ok: bool)
      requires e.And?
      modifies this
      ensures ok <==> Compiles(e.left) && Compiles(e.right)
      ensures ok ==> Extends(old(Ch()), Ch()) && |code| == |old(code)| + Size(e.left) + Size(e.right) + 3
      ensures ok ==> Emitted(Ch(), |old(code)|, e)
      decreases e, 0
    {
      hide Size; hide Encodes; hide Compiles;
      ghost var b := |code|;
      ok := CompileExpression(e.left);
      if !ok { return; }
      ghost var c1 := Ch();
      var jumpFalse := Emit(OpJumpIfFalse(0));
      ok := CompileExpression(e.right);
      if !ok { return; }
      ghost var c2 := Ch();
      var jumpEnd := Emit(OpJump(0));
      PatchJump(jumpFalse, |code|);
      var _ := Emit(OpFalse);
      PatchJump(jumpEnd, |code|);
      AndEmitted(c1, c2, Ch(), b, e);
    }

    method CompileOr(e: Expr) returns (ok: bool)
      requires e.Or?
      modifies this
      ensures ok <==> Compiles(e.left) && Compiles(e.right)
      ensures ok ==> Extends(old(Ch()), Ch()) && |code| == |old(code)| + Size(e.left) + Size(e.right) + 3
      ensures ok ==> Emitted(Ch(), |old(code)|, e)
      decreases e, 0
    {
      hide Size; hide Encodes; hide Compiles;
      ghost var b := |code|;
      ok := CompileExpression(e.left);
      if !ok { return; }
      ghost var c1 := Ch();
      var jumpFalse := Emit(OpJumpIfFalse(0));
      var _ := Emit(OpTrue);
      var jumpEnd := Emit(OpJump(0));
      PatchJump(jumpFalse, |code|);
      ok := CompileExpression(e.right);
      if !ok { return; }
      ghost var c2 := Ch();
      PatchJump(jumpEnd, |code|);
      OrEmitted(c1, c2, Ch(), b, e);
    }

    method CompileIf(e: Expr) returns (ok: bool)
      requires e.If?
      modifies this
      ensures ok <==> Compiles(e.cond) && Compiles(e.thn) && (e.els.Some? ==> Compiles(e.els.value))
      ensures ok ==>
                Extends(old(Ch()), Ch())
                && |code| == |old(code)| + Size(e.cond) + Size(e.thn) + 2
                             + (if e.els.Some? then Size(e.els.value) else 1)
      ensures ok ==> Emitted(Ch(), |old(code)|, e)
      decreases e, 0
    {
      hide Size; hide Encodes; hide Compiles; hide Emitted; hide Extends; hide Agree; hide Is;
      ghost var b, c0 := |code|, Ch();
      ok := CompileExpression(e.cond);
      if !ok { return; }
      ghost var c1 := Ch();
      var jumpIfFalse := Emit(OpJumpIfFalse(0));
      ghost var d1 := Ch();
      ok := CompileExpression(e.thn);
      if !ok { return; }
      ghost var c2 := Ch();
      ExtendsLength(d1, c2);
      var jumpToEnd := Emit(OpJump(0));
      PatchJump(jumpIfFalse, |code|);
      ghost var d2 := Ch();
      ok := CompileElse(e.els);
      if !ok { return; }
      ghost var c3 := Ch();
      ExtendsLength(d2, c3);
      PatchJump(jumpToEnd, |code|);
      IfChunks(c0, c1, d1, c2, d2, c3, Ch());
      if e.els.Some? {
        AgreesBefore(c3, Ch(), jumpToEnd + 1, |c3.code|, jumpToEnd);
      } else {
        IsBefore(c3, Ch(), jumpToEnd + 1, jumpToEnd);
      }
      IfEmitted(c1, c2, c3, Ch(), b, e);
    }

    /** The other branch of an `if`, or nil when there is none. */
    method CompileElse(els: Option<Expr>) returns (ok: bool)
      modifies this
      ensures ok <==> (els.Some? ==> Compiles(els.value))
      ensures ok ==> Extends(old(Ch()), Ch())
      ensures ok && els.Some? ==> |code| == |old(code)| + Size(els.value) && Emitted(Ch(), |old(code)|, els.value)
      ensures ok && els.None? ==> |code| == |old(code)| + 1 && Is(Ch(), |old(code)|, OpNil)
      decreases els
    {
      hide Size; hide Encodes; hide Compiles; hide Emitted;
      if els.Some? {
        ok := CompileExpression(els.value);
      } else {
        var _ := Emit(OpNil);
        ok := true;
      }
    }

    method CompileListLiteral(e: Expr) returns (ok: bool)
      requires e.ListLit?
      modifies this
      ensures ok <==> forall k | 0 <= k < |e.elems| :: Compiles(e.elems[k])
      ensures ok ==> Extends(old(Ch()), Ch()) && |code| == |old(code)| + ListSize(e.elems) + 1
      ensures ok ==> Emitted(Ch(), |old(code)|, e)
      decreases e, 0
    {
      hide Size; hide Encodes; hide Compiles; hide EncodesList;
      ghost var b, c0 := |code|, Ch();
      var es, i := e.elems, 0;
      while i < |es|
        invariant i <= |es| && forall k | 0 <= k < i :: Compiles(es[k])
        invariant Extends(c0, Ch()) && |code| + ListSize(es[i..]) == b + ListSize(es)
        invariant ListSoFar(Ch(), b, es, i)
      {
        ghost var c1 := Ch();
        ok := CompileExpression(es[i]);
        if !ok { return; }
        ListStep(c1, Ch(), b, es, i);
        i := i + 1;
      }
      ghost var c2 := Ch();
      var _ := Emit(OpArray(|es|));
      ListEmitted(c2, Ch(), b, e);
      ok := true;
    }

    // ----- statements and blocks -----

    method CompileStatement(s: Stmt) returns (ok: bool)
      modifies this
      ensures ok <==> Compiles(s.e)
      ensures ok ==> Extends(old(Ch()), Ch()) && |code| == |old(code)| + StmtSize(s)
                     && StmtEmitted(Ch(), |old(code)|, s)
      decreases s, 0
    {
      hide Size; hide Encodes; hide Compiles;
      ghost var b := |code|;
      ok := CompileExpression(s.e);
      if !ok { return; }
      ghost var c := Ch();
      if s.Return? {
        var _ := Emit(OpReturn);
      } else if s.Throw? {
        var _ := Emit(OpThrow);
      }
      StmtIsEmitted(c, Ch(), b, s);
    }

    method CompileBlock(e: Expr) returns (ok: bool)
      requires e.Block?
      modifies this
      ensures ok <==> forall k | 0 <= k < |e.stmts| :: Compiles(e.stmts[k].e)
      ensures ok ==> Extends(old(Ch()), Ch())
                     && |code| == |old(code)| + (if e.stmts == [] then 3 else StmtsSize(e.stmts) + 2)
      ensures ok ==> Emitted(Ch(), |old(code)|, e)
      decreases e, 0
    {
      hide StmtSize; hide EncodesStmts; hide Compiles; hide Encodes; hide Size; hide StmtsSize; hide StmtEmitted;
      hide StmtsSoFar;
      ghost var b := |code|;
      var _ := Emit(OpPushScope);
      if e.stmts == [] {
        var _ := Emit(OpNil);
      } else {
        ok := CompileStatements(e.stmts);
        if !ok { return; }
      }
      ghost var c := Ch();
      var _ := Emit(OpPopScope);
      BlockEmitted(c, Ch(), b, e);
      ok := true;
    }

    method CompileStatements(stmts: seq<Stmt>) returns (ok: bool)
      requires stmts != []
      modifies this
      ensures ok <==> forall k | 0 <= k < |stmts| :: Compiles(stmts[k].e)
      ensures ok ==> Extends(old(Ch()), Ch()) && |code| == |old(code)| + StmtsSize(stmts)
      ensures ok ==> StmtsSoFar(Ch(), |old(code)|, stmts, |stmts|)
      decreases stmts, 0
    {
      hide StmtSize; hide EncodesStmts; hide Compiles; hide StmtsSize; hide StmtEmitted; hide Extends;
      ghost var b, c0 := |code|, Ch();
      var i := 0;
      assert stmts[0..] == stmts && Extends(c0, c0) by { ExtendsItself(c0); }
      while i < |stmts|
        invariant i <= |stmts| && forall k | 0 <= k < i :: Compiles(stmts[k].e)
        invariant Extends(c0, Ch()) && |code| >= b && |code| + RestSize(stmts, i) == b + StmtsSize(stmts)
        invariant StmtsSoFar(Ch(), b, stmts, i)
      {
        hide StmtsSoFar; hide RestSize;
        ghost var c1 := Ch();
        ok := CompileStatement(stmts[i]);
        if !ok { return; }
        ghost var c2 := Ch();
        if i < |stmts| - 1 {
          var _ := Emit(OpPop);
        }
        ExtendsByEmit(c2, Ch());
        StmtsStep(c1, c2, Ch(), b, stmts, i);
        ExtendsTransitive(c0, c1, c2);
        ExtendsTransitive(c0, c2, Ch());
        i := i + 1;
      }
      ok := true;
    }

    // ----- match -----

    method CompileMatch(e: Expr) returns (ok: bool)
      requires e.Match?
      modifies this
      ensures ok <==> Compiles(e.subject) && e.cases != [] && forall k | 0 <= k < |e.cases| :: CompilesCase(e.cases[k])
      ensures ok ==> Extends(old(Ch()), Ch()) && |code| == |old(code)| + Size(e.subject) + CasesSize(e.cases) + 2
      ensures ok ==> Emitted(Ch(), |old(code)|, e)
      decreases e, 0
    {
      hide Size; hide Encodes; hide Compiles; hide CompilesCase; hide CaseSize; hide CasesSize; hide CasesSoFar;
      hide EncodesCases;
      hide Emitted; hide Extends; hide Patched; hide Agree;
      ghost var b, c0 := |code|, Ch();
      if e.cases == [] { return false; }
      ok := CompileExpression(e.subject);
      if !ok { return; }
      ghost var c1 := Ch();
      var endJumps;
      ok, endJumps := CompileCases(e.cases);
      if !ok { return; }
      ghost var c2 := Ch();
      var _ := Emit(OpPop);
      var _ := Emit(OpNil);
      ghost var c3 := Ch();
      PatchJumps(endJumps, |code|);
      MatchChunks(c0, c1, c2, c3, Ch(), endJumps);
      MatchEmitted(c1, c2, Ch(), b, e, endJumps);
    }

    /** All cases of a match; their jumps to its end are returned still open. */
    method CompileCases(cases: seq<Case>) returns (ok: bool, endJumps: seq<nat>)
      modifies this
      ensures ok <==> forall k | 0 <= k < |cases| :: CompilesCase(cases[k])
      ensures ok ==> Extends(old(Ch()), Ch()) && |code| == |old(code)| + CasesSize(cases)
      ensures ok ==> CasesSoFar(Ch(), |old(code)|, cases, |cases|, endJumps) && Within(endJumps, |old(code)|, |code|)
      decreases cases, 0
    {
      hide CompilesCase; hide CaseSize; hide EncodesCases; hide Extends; hide CaseEmitted; hide Patched;
      ghost var b, c0 := |code|, Ch();
      var i := 0;
      endJumps := [];
      ExtendsItself(c0);
      assert cases[0..] == cases;
      while i < |cases|
        invariant i <= |cases| && forall k | 0 <= k < i :: CompilesCase(cases[k])
        invariant Extends(c0, Ch()) && |code| >= b && |code| + CasesSize(cases[i..]) == b + CasesSize(cases)
        invariant CasesSoFar(Ch(), b, cases, i, endJumps) && Within(endJumps, b, |code|)
      {
        hide CasesSoFar; hide CasesSize;
        ghost var c1 := Ch();
        var j;
        ok, j := CompileCase(cases[i]);
        if !ok { return; }
        CasesStep(c1, Ch(), b, cases, i, endJumps, j);
        ExtendsTransitive(c0, c1, Ch());
        endJumps := endJumps + [j];
        i := i + 1;
      }
      assert cases[|cases|..] == [];
      ok := true;
    }

    method CompileCase(c: Case) returns (ok: bool, j: nat)
      modifies this
      ensures ok <==> CompilesCase(c)
      ensures ok ==> Extends(old(Ch()), Ch()) && |code| == |old(code)| + CaseSize(c)
      ensures ok ==> |old(code)| <= j < |code| && CaseEmitted(Ch(), |old(code)|, c, j)
      decreases c, 2
    {
      hide Size; hide Compiles; hide CompilesPattern; hide CaseEmitted; hide Extends; hide ScopedSize; hide GuardSize;
      hide FlatSize;
      if Scoped(Stripped(c.pattern)) {
        ok, j := CompileScopedCase(c);
      } else {
        ok, j := CompileFlatCase(c);
      }
    }

    /** A name or list pattern: a scope of its own, closed again whether or not the case is taken. */
    method CompileScopedCase(c: Case) returns (ok: bool, j: nat)
      requires Scoped(Stripped(c.pattern))
      modifies this
      ensures ok <==> CompilesPattern(Stripped(c.pattern)) && (c.guard.Some? ==> Compiles(c.guard.value))
                      && Compiles(c.body)
      ensures ok ==> Extends(old(Ch()), Ch())
      ensures ok ==> |code| == |old(code)| + 1 + WholeSize(c.pattern) + ScopedSize(Stripped(c.pattern))
                     + GuardSize(c.guard) + Size(c.body) + 3
                     + (if Stripped(c.pattern).Ident? && c.guard.None? then 0 else 1)
      ensures ok ==> |old(code)| <= j < |code| && CaseEmitted(Ch(), |old(code)|, c, j)
      decreases c, 1
    {
      hide Size; hide Compiles; hide CompilesPattern; hide ScopedSize; hide GuardSize; hide ScopedHead; hide Encodes;
      hide CaseEmitted; hide Emitted; hide Extends; hide Patched; hide WholeSize; hide Agree; hide Within;
      ghost var c0 := Ch();
      j := 0;
      var js1, js2;
      ghost var cw, c1;
      ok, js1, js2, cw, c1 := CompileScopedHead(c);
      if !ok { return; }
      ghost var c2 := Ch();
      ok := CompileBody(c.body);
      if !ok { return; }
      j := EndScopedCase(c, js1, js2, c0, cw, c1, c2);
    }

    /** After the body of such a case: `c0` to `c2` are the chunks up to it. */
    method EndScopedCase(c: Case, js1: seq<nat>, js2: seq<nat>, ghost c0: Chunk, ghost cw: Chunk, ghost c1: Chunk,
                         ghost c2: Chunk)
      returns (j: nat)
      requires ScopedHead(c0, cw, c1, c2, c, js1, js2) && Extends(c2, Ch())
      requires |code| == |c2.code| + 1 + Size(c.body) && Is(Ch(), |c2.code|, OpPop)
               && Emitted(Ch(), |c2.code| + 1, c.body)
      requires forall k | 0 <= k < |js1 + js2| :: (js1 + js2)[k] < |code|
      requires Stripped(c.pattern).Ident? && c.guard.None? ==> js1 + js2 == []
      modifies this
      ensures Extends(c0, Ch()) && CaseEmitted(Ch(), |c0.code|, c, j) && j == |old(code)| + 1
      ensures |code| == |old(code)| + 2 + (if Stripped(c.pattern).Ident? && c.guard.None? then 0 else 1)
    {
      hide Size; hide ScopedHead; hide CaseEmitted; hide Emitted; hide Extends; hide Patched; hide Stripped;
      ghost var c3 := Ch();
      ghost var c4 := Chunk(code + [OpPopScope, OpJump(0)], consts);
      j := EmitCaseEnd(js1 + js2, !(Stripped(c.pattern).Ident? && c.guard.None?));
      ScopedCaseDone(c0, cw, c1, c2, c3, c4, Ch(), c, js1, js2);
    }

    /** The scope, a name for the whole, the pattern and the guard of such a case, with the jumps of a miss. */
    method CompileScopedHead(c: Case) returns (ok: bool, js1: seq<nat>, js2: seq<nat>, ghost cw: Chunk, ghost c1: Chunk)
      requires Scoped(Stripped(c.pattern))
      modifies this
      ensures ok <==> CompilesPattern(Stripped(c.pattern)) && (c.guard.Some? ==> Compiles(c.guard.value))
      ensures ok ==> |code| == |old(code)| + 1 + WholeSize(c.pattern) + ScopedSize(Stripped(c.pattern))
                               + GuardSize(c.guard)
      ensures ok ==> ScopedHead(old(Ch()), cw, c1, Ch(), c, js1, js2)
      ensures ok ==> forall k | 0 <= k < |js1 + js2| :: (js1 + js2)[k] < |code|
      ensures ok && Stripped(c.pattern).Ident? && c.guard.None? ==> js1 + js2 == []
      decreases c, 0
    {
      hide Size; hide Compiles; hide CompilesPattern; hide ScopedSize; hide GuardSize; hide EncodesWhole;
      hide ScopedEmitted; hide GuardEmitted; hide Extends; hide WholeSize;
      js1, js2 := [], [];
      EmitWholeBinding(c.pattern);
      cw := Ch();
      c1 := Ch();
      ok, js1 := CompileScopedPattern(Stripped(c.pattern));
      if !ok { return; }
      c1 := Ch();
      ok, js2 := CompileGuard(c.guard);
    }

    /** Leave the case: with its value to the end of the match, or, on a miss, to the next case. */
    method EmitCaseEnd(fails: seq<nat>, tested: bool) returns (j: nat)
      requires forall k | 0 <= k < |fails| :: fails[k] < |code|
      requires !tested ==> fails == []
      modifies this
      ensures j == |old(code)| + 1 && |code| == |old(code)| + 2 + (if tested then 1 else 0)
      ensures var c := Chunk(old(code) + [OpPopScope, OpJump(0)], old(consts));
              Patched(c, Ch(), 0, |c.code|, fails, |c.code|)
      ensures tested ==> Is(Ch(), |old(code)| + 2, OpPopScope)
    {
      var _ := Emit(OpPopScope);
      j := Emit(OpJump(0));
      if tested {
        PatchJumps(fails, |code|);
        var _ := Emit(OpPopScope);
      }
    }

    method EmitWholeBinding(p: Pattern)
      modifies this
      ensures Extends(old(Ch()), Ch()) && |code| == |old(code)| + 1 + WholeSize(p)
      ensures Is(Ch(), |old(code)|, OpPushScope) && EncodesWhole(Ch(), |old(code)| + 1, p)
    {
      var _ := Emit(OpPushScope);
      if p.As? {
        var _ := Emit(OpDup);
        var _ := Emit(OpSetGlobal(p.name, true));
        var _ := Emit(OpPop);
      }
    }

    method CompileBody(e: Expr) returns (ok: bool)
      modifies this
      ensures ok <==> Compiles(e)
      ensures ok ==> Extends(old(Ch()), Ch()) && |code| == |old(code)| + 1 + Size(e)
      ensures ok ==> Is(Ch(), |old(code)|, OpPop) && Emitted(Ch(), |old(code)| + 1, e)
      decreases e, 2
    {
      hide Size; hide Compiles; hide Emitted;
      var _ := Emit(OpPop);
      ok := CompileExpression(e);
    }

    method CompileGuard(g: Option<Expr>) returns (ok: bool, js: seq<nat>)
      modifies this
      ensures ok <==> (g.Some? ==> Compiles(g.value))
      ensures ok ==> Extends(old(Ch()), Ch()) && |code| == |old(code)| + GuardSize(g)
      ensures ok ==> GuardEmitted(Ch(), |old(code)|, g, js) && Within(js, |old(code)|, |code|) && (g.None? ==> js == [])
      decreases g, 0
    {
      hide Size; hide Encodes; hide Compiles; hide Emitted;
      ghost var b := |code|;
      js := [];
      if g.None? { return true, []; }
      ok := CompileExpression(g.value);
      if !ok { return; }
      ghost var c := Ch();
      var jf := Emit(OpJumpIfFalse(0));
      js := [jf];
      GuardIsEmitted(c, Ch(), b, g.value);
    }

    /** The pattern of a case with a scope; its fail jumps are returned still open. */
    method CompileScopedPattern(p: Pattern) returns (ok: bool, js: seq<nat>)
      requires Scoped(p)
      modifies this
      ensures ok <==> CompilesPattern(p)
      ensures ok ==> Extends(old(Ch()), Ch()) && |code| == |old(code)| + ScopedSize(p)
      ensures ok ==> ScopedEmitted(Ch(), |old(code)|, p, js) && Within(js, |old(code)|, |code|)
                     && (p.Ident? ==> js == [])
      decreases p, 3
    {
      hide ElemsSize; hide ElemsEmitted; hide ScopedEmitted; hide CompilesElem;
      ghost var b := |code|;
      js := [];
      if p.Ident? {
        var _ := Emit(OpDup);
        var _ := Emit(OpSetGlobal(p.name, true));
        var _ := Emit(OpPop);
        NameEmitted(Ch(), b, p);
        return true, [];
      }
      ok := CheckSpreads(p.elems);
      if !ok { return; }
      var jf := EmitLengthTest(p.elems);
      ok, js := CompileElems(p.elems);
      if !ok { return; }
      ListPatEmitted(Ch(), b, p, js);
      js := [jf] + js;
    }

    /** A spread may only be the final element. */
    method CheckSpreads(ps: seq<Pattern>) returns (ok: bool)
      ensures ok <==> SpreadsLast(ps)
    {
      var i := 0;
      while i < |ps|
        invariant i <= |ps| && forall k | 0 <= k < i && k < |ps| - 1 :: !ps[k].Spread?
      {
        if ps[i].Spread? && i != |ps| - 1 { return false; }
        i := i + 1;
      }
      ok := true;
    }

    method EmitLengthTest(ps: seq<Pattern>) returns (jf: nat)
      modifies this
      ensures Extends(old(Ch()), Ch()) && |code| == |old(code)| + 3 && jf == |old(code)| + 2 && code[jf].OpJumpIfFalse?
      ensures Is(Ch(), |old(code)|, OpDup)
      ensures Is(Ch(), |old(code)| + 1, if EndsInSpread(ps) then OpMatchSeqLenGte(|ps| - 1) else OpMatchSeqLenEq(|ps|))
    {
      var _ := Emit(OpDup);
      var _ := Emit(if EndsInSpread(ps) then OpMatchSeqLenGte(|ps| - 1) else OpMatchSeqLenEq(|ps|));
      jf := Emit(OpJumpIfFalse(0));
    }

    method CompileElems(ps: seq<Pattern>) returns (ok: bool, js: seq<nat>)
      modifies this
      ensures ok <==> forall k | 0 <= k < |ps| :: CompilesElem(ps[k])
      ensures ok ==> Extends(old(Ch()), Ch()) && |code| == |old(code)| + ElemsSize(ps)
      ensures ok ==> ElemsEmitted(Ch(), |old(code)|, ps, js) && Within(js, |old(code)|, |code|)
      decreases ps, 0
    {
      hide CompilesElem; hide ElemSize; hide EncodesElems; hide Extends; hide ElemEmitted; hide ElemsEmitted;
      hide Patched;
      ghost var b, c0 := |code|, Ch();
      var i := 0;
      js := [];
      ExtendsItself(c0);
      assert ps[0..] == ps;
      while i < |ps|
        invariant i <= |ps| && forall k | 0 <= k < i :: CompilesElem(ps[k])
        invariant Extends(c0, Ch()) && |code| >= b && |code| + ElemsSize(ps[i..]) == b + ElemsSize(ps)
        invariant ElemsSoFar(Ch(), b, ps, i, js) && Within(js, b, |code|)
      {
        hide ElemsSoFar; hide ElemsSize;
        ghost var c1 := Ch();
        var js1;
        ok, js1 := CompileElem(ps[i], i);
        if !ok { return; }
        ElemsStep(c1, Ch(), b, ps, i, js, js1);
        ExtendsTransitive(c0, c1, Ch());
        js := js + js1;
        i := i + 1;
      }
      assert ps[|ps|..] == [];
      ElemsAreEmitted(Ch(), b, ps, js);
      ok := true;
    }

    method CompileElem(p: Pattern, i: nat) returns (ok: bool, js: seq<nat>)
      modifies this
      ensures ok <==> CompilesElem(p)
      ensures ok ==> Extends(old(Ch()), Ch()) && |code| == |old(code)| + ElemSize(p)
      ensures ok ==> ElemEmitted(Ch(), |old(code)|, p, i, js) && Within(js, |old(code)|, |code|)
      decreases p, 3
    {
      hide ElemsSize; hide OperandSize; hide NestedEmitted; hide TestEmitted; hide Compiles; hide EncodesFetch;
      ghost var b := |code|;
      ok, js := true, [];
      if p.Wildcard? || p == Spread(None) {
        return;
      }
      if p.Spread? {
        var _ := Emit(OpDup);
        var _ := Emit(OpMatchSeqTail(i));
        var _ := Emit(OpSetGlobal(p.rest.value, true));
        var _ := Emit(OpPop);
        ElemSpreadEmitted(Ch(), b, p.rest.value, i);
        return;
      }
      EmitFetch(i);
      ghost var c := Ch();
      if p.Ident? {
        var _ := Emit(OpSetGlobal(p.name, true));
        var _ := Emit(OpPop);
        FetchKept(c, Ch(), b, i);
        ElemIdentEmitted(Ch(), b, p.name, i);
      } else if p.ListPat? {
        ok, js := CompileListPatternFromValue(p.elems);
        if !ok { return; }
        FetchKept(c, Ch(), b, i);
        ElemListEmitted(Ch(), b, p, i, js);
      } else {
        ok, js := CompileTest(p);
        if !ok { return; }
        FetchKept(c, Ch(), b, i);
        ElemTestEmitted(Ch(), b, p, i, js);
      }
    }

    /** Compare the value on top of the stack with that of a literal or pinned pattern. */
    method CompileTest(p: Pattern) returns (ok: bool, js: seq<nat>)
      modifies this
      ensures ok <==> CompilesOperand(p)
      ensures ok ==> Extends(old(Ch()), Ch()) && |code| == |old(code)| + OperandSize(p) + 2
      ensures ok ==> TestEmitted(Ch(), |old(code)|, p, js) && js == [|old(code)| + OperandSize(p) + 1]
      ensures ok ==> code[|old(code)| + OperandSize(p) + 1].OpJumpIfFalse?
      decreases p, 1
    {
      hide OperandSize; hide OperandEmitted; hide CompilesOperand; hide TestEmitted;
      ghost var b := |code|;
      js := [];
      ok := CompilePatternValue(p);
      if !ok { return; }
      ghost var c := Ch();
      var _ := Emit(OpBinary(Eq));
      var jf := Emit(OpJumpIfFalse(0));
      js := [jf];
      TestIsEmitted(c, Ch(), b, p);
    }

    method CompilePatternValue(p: Pattern) returns (ok: bool)
      modifies this
      ensures ok <==> CompilesOperand(p)
      ensures ok ==> Extends(old(Ch()), Ch()) && |code| == |old(code)| + OperandSize(p)
                     && OperandEmitted(Ch(), |old(code)|, p)
      decreases p, 0
    {
      hide Size; hide Compiles; hide Emitted; hide OperandEmitted;
      ghost var b := |code|;
      match p
      case LiteralPat(e) =>
        ok := CompileExpression(e);
        if !ok { return; }
        OperandIsEmitted(Ch(), b, p);
      case Pinned(x) =>
        var _ := Emit(OpGetGlobal(x));
        OperandIsEmitted(Ch(), b, p);
        ok := true;
      case _ => ok := false;
    }

    /** A list pattern inside a list pattern: a miss drops the inner value before it goes on to fail. */
    method CompileListPatternFromValue(ps: seq<Pattern>) returns (ok: bool, js: seq<nat>)
      modifies this
      ensures ok <==> SpreadsLast(ps) && forall k | 0 <= k < |ps| :: CompilesElem(ps[k])
      ensures ok ==> Extends(old(Ch()), Ch()) && |code| == |old(code)| + 7 + ElemsSize(ps)
      ensures ok ==> NestedEmitted(Ch(), |old(code)|, ps, js) && Within(js, |old(code)|, |code|)
      decreases ps, 1
    {
      hide ElemsSize; hide ElemsEmitted; hide NestedEmitted; hide CompilesElem; hide SpreadsLast; hide Extends;
      hide Patched; hide EndsInSpread;
      js := [];
      ok := CheckSpreads(ps);
      if !ok { return; }
      ghost var c0 := Ch();
      var jf := EmitLengthTest(ps);
      ghost var c1 := Ch();
      var inner;
      ok, inner := CompileElems(ps);
      if !ok { return; }
      ghost var c2 := Ch();
      var _ := Emit(OpPop);
      var doneJump := Emit(OpJump(0));
      ghost var c3 := Ch();
      PatchJumps([jf] + inner, |code|);
      ghost var c4 := Ch();
      var _ := Emit(OpPop);
      var out := Emit(OpJump(0));
      PatchJump(doneJump, |code|);
      js := [out];
      NestedChunks(c0, c1, c2, c3, c4, Ch(), ps, inner);
    }

    /** A pattern that binds nothing: a wildcard, alternatives, or one value to compare with. */
    method CompileFlatCase(c: Case) returns (ok: bool, j: nat)
      requires !Scoped(Stripped(c.pattern))
      modifies this
      ensures ok <==> CompilesPattern(Stripped(c.pattern)) && (c.guard.Some? ==> Compiles(c.guard.value))
                      && Compiles(c.body)
      ensures ok ==> Extends(old(Ch()), Ch())
      ensures ok ==> |code| == |old(code)| + FlatSize(Stripped(c.pattern)) + GuardSize(c.guard) + Size(c.body) + 2
      ensures ok ==> |old(code)| <= j < |code| && CaseEmitted(Ch(), |old(code)|, c, j)
      decreases c, 1
    {
      hide Size; hide Compiles; hide CompilesPattern; hide FlatSize; hide GuardSize;
      hide CaseEmitted; hide FlatEmitted; hide GuardEmitted; hide Emitted; hide Extends; hide Patched; hide Agree;
      ghost var c0 := Ch();
      j := 0;
      var js1, js2;
      ok, js1 := CompileFlatPattern(Stripped(c.pattern));
      if !ok { return; }
      ghost var c1 := Ch();
      ok, js2 := CompileGuard(c.guard);
      if !ok { return; }
      ghost var c2 := Ch();
      ok := CompileBody(c.body);
      if !ok { return; }
      ghost var c3 := Ch();
      j := Emit(OpJump(0));
      ghost var c4 := Ch();
      ExtendsByEmit(c3, c4);
      PatchJumps(js1 + js2, |code|);
      FlatChunks(c0, c1, c2, c3, c4, Ch(), c, js1, js2, |code|);
      FlatCaseEmitted(c1, c2, c3, Ch(), |c0.code|, c, js1, js2);
    }

    method CompileFlatPattern(p: Pattern) returns (ok: bool, js: seq<nat>)
      requires !Scoped(p)
      modifies this
      ensures ok <==> CompilesPattern(p)
      ensures ok ==> Extends(old(Ch()), Ch()) && |code| == |old(code)| + FlatSize(p)
      ensures ok ==> FlatEmitted(Ch(), |old(code)|, p, js) && Within(js, |old(code)|, |code|)
      decreases p, 3
    {
      hide OperandSize; hide AltsSize; hide TestEmitted; hide Compiles; hide FlatEmitted;
      ghost var b := |code|;
      js := [];
      if p.Wildcard? {
        WildcardEmitted(Ch(), b);
        return true, [];
      }
      if p.Multi? {
        ok, js := CompileMulti(p);
        return;
      }
      var _ := Emit(OpDup);
      ghost var c := Ch();
      ok, js := CompileTest(p);
      if !ok { return; }
      assert Ch().code[b] == Ch().code[..|c.code|][b] == OpDup;
      EqualEmitted(Ch(), b, p, js);
    }

    method CompileMulti(p: Pattern) returns (ok: bool, js: seq<nat>)
      requires p.Multi?
      modifies this
      ensures ok <==> CompilesPattern(p)
      ensures ok ==> Extends(old(Ch()), Ch()) && |code| == |old(code)| + AltsSize(p.alts) + 2
      ensures ok ==> FlatEmitted(Ch(), |old(code)|, p, js) && Within(js, |old(code)|, |code|)
      decreases p, 2
    {
      hide OperandSize; hide CompilesOperand; hide EncodesAlts; hide Extends; hide Patched; hide FlatEmitted;
      hide Agree;
      js := [];
      var alts := p.alts;
      if alts == [] { return false, []; }
      ghost var b, c0 := |code|, Ch();
      var i, matched: seq<nat> := 0, [];
      ExtendsItself(c0);
      assert alts[0..] == alts;
      while i < |alts|
        invariant i <= |alts| && forall k | 0 <= k < i :: CompilesOperand(alts[k])
        invariant Extends(c0, Ch()) && |code| >= b && |code| + AltsSize(alts[i..]) == b + AltsSize(alts)
        invariant AltsSoFar(Ch(), b, alts, i, matched) && Within(matched, b, |code|)
      {
        hide AltsSoFar; hide AltsSize;
        ghost var c1 := Ch();
        var j;
        ok, j := CompileAlternative(alts, i, matched, b);
        if !ok { return; }
        ExtendsTransitive(c0, c1, Ch());
        matched := matched + [j];
        i := i + 1;
      }
      assert alts[|alts|..] == [];
      ghost var c2 := Ch();
      var _ := Emit(OpFalse);
      ghost var c3 := Ch();
      PatchJumps(matched, |code|);
      ghost var c4 := Ch();
      var jf := Emit(OpJumpIfFalse(0));
      js := [jf];
      MultiChunks(c0, c2, c3, c4, Ch(), matched);
      MultiEmitted(c2, Ch(), b, p, matched);
      ok := true;
    }

    /** One alternative: leave true and jump to where the alternatives end, or go on with the next. */
    method CompileAlternative(alts: seq<Pattern>, i: nat, ghost matched: seq<nat>, ghost b: nat)
      returns (ok: bool, j: nat)
      requires i < |alts| && b <= |code| && AltsSoFar(Ch(), b, alts, i, matched) && Within(matched, b, |code|)
      modifies this
      ensures ok <==> CompilesOperand(alts[i])
      ensures ok ==> Extends(old(Ch()), Ch()) && j == |code| - 1 >= |old(code)|
      ensures ok ==> AltsSoFar(Ch(), b, alts, i + 1, matched + [j])
      ensures ok ==> |code| + AltsSize(alts[i + 1..]) == |old(code)| + AltsSize(alts[i..])
      decreases alts, 0
    {
      hide OperandSize; hide CompilesOperand; hide AltsSoFar; hide AltsSize; hide TestEmitted;
      ghost var c1 := Ch();
      j := 0;
      var _ := Emit(OpDup);
      ghost var d := Ch();
      var js;
      ok, js := CompileTest(alts[i]);
      if !ok { return; }
      ghost var c2 := Ch();
      assert code[|c1.code|] == code[..|d.code|][|c1.code|] == OpDup;
      var _ := Emit(OpTrue);
      j := Emit(OpJump(0));
      ghost var c3 := Ch();
      PatchJump(js[0], |code|);
      AltChunks(c1, d, c2, c3, Ch(), js[0]);
      AltsStep(c1, c2, Ch(), b, alts, i, matched);
    }

    // ----- binding patterns -----

    method CompileBindPattern(p: Pattern, asConst: bool) returns (ok: bool)
      modifies this
      ensures ok <==> CompilesBind(p)
      ensures ok ==> Extends(old(Ch()), Ch()) && |code| == |old(code)| + BindSize(p)
                     && BindEmitted(Ch(), |old(code)|, p, asConst)
      decreases p, 1
    {
      ghost var b := |code|;
      match p
      case Ident(x) =>
        var _ := Emit(OpSetGlobal(x, asConst));
        BindIdentEmitted(Ch(), b, p, asConst);
        ok := true;
      case As(x, inner) =>
        var _ := Emit(OpDup);
        var _ := Emit(OpSetGlobal(x, asConst));
        var _ := Emit(OpPop);
        ok := CompileBindPattern(inner, asConst);
        if !ok { return; }
        BindAsEmitted(Ch(), b, p, asConst);
      case ListPat(ps) => ok := CompileBindList(p, asConst);
      case _ => ok := false;
    }

    method CompileBindList(p: Pattern, asConst: bool) returns (ok: bool)
      requires p.ListPat?
      modifies this
      ensures ok <==> CompilesBind(p)
      ensures ok ==> Extends(old(Ch()), Ch()) && |code| == |old(code)| + BindElemsSize(p.elems)
                     && BindEmitted(Ch(), |old(code)|, p, asConst)
      decreases p, 0
    {
      hide BindEmitted; hide BindElemEmitted; hide BindElemSize; hide EncodesBindElems; hide Extends;
      ghost var b, c0 := |code|, Ch();
      var ps, i := p.elems, 0;
      ExtendsItself(c0);
      assert ps[0..] == ps;
      while i < |ps|
        invariant i <= |ps| && forall k | 0 <= k < i :: ps[k].Wildcard? || ps[k].Spread? || CompilesBind(ps[k])
        invariant forall k | 0 <= k < i && k < |ps| - 1 :: !ps[k].Spread?
        invariant Extends(c0, Ch()) && |code| >= b && |code| + BindElemsSize(ps[i..]) == b + BindElemsSize(ps)
        invariant BindSoFar(Ch(), b, ps, i, asConst)
      {
        hide BindSoFar; hide BindElemsSize;
        ghost var c1 := Ch();
        if ps[i].Spread? && i != |ps| - 1 {
          return false;
        }
        ok := CompileBindElement(ps[i], i, asConst);
        if !ok { return; }
        BindStep(c1, Ch(), b, ps, i, asConst);
        ExtendsTransitive(c0, c1, Ch());
        i := i + 1;
      }
      assert ps[|ps|..] == [];
      BindListEmitted(Ch(), b, p, asConst);
      ok := true;
    }

    method CompileBindElement(p: Pattern, i: nat, asConst: bool) returns (ok: bool)
      modifies this
      ensures ok <==> p.Wildcard? || p.Spread? || CompilesBind(p)
      ensures ok ==> Extends(old(Ch()), Ch()) && |code| == |old(code)| + BindElemSize(p)
                     && BindElemEmitted(Ch(), |old(code)|, p, i, asConst)
      decreases p, 2
    {
      hide EncodesBind; hide BindSize; hide CompilesBind; hide EncodesBindRest;
      ghost var b := |code|;
      if p.Wildcard? {
        return true;
      }
      if p.Spread? {
        if p.rest.Some? {
          EmitRest(p.rest.value, i, asConst);
          BindRestEmitted(Ch(), b, p.rest.value, i, asConst);
        }
        return true;
      }
      EmitFetch(i);
      ok := CompileBindPattern(p, asConst);
      if !ok { return; }
      ghost var c := Ch();
      var _ := Emit(OpPop);
      BindPartEmitted(c, Ch(), b, p, i, asConst);
    }

    /** Bind a name to a slice from `i` on: not to the elements it selects. */
    method EmitRest(x: string, i: nat, asConst: bool)
      modifies this
      ensures |code| == |old(code)| + 7 && Extends(old(Ch()), Ch()) && EncodesBindRest(Ch(), |old(code)|, x, i, asConst)
    {
      var _ := Emit(OpDup);
      EmitConstant(Num(FromInt(i)));
      var _ := Emit(OpNil);
      var _ := Emit(OpNil);
      var _ := Emit(OpSlice);
      var _ := Emit(OpSetGlobal(x, asConst));
      var _ := Emit(OpPop);
    }

    /** Push element `i` of the value on top of the stack. */
    method EmitFetch(i: nat)
      modifies this
      ensures |code| == |old(code)| + 3 && Extends(old(Ch()), Ch()) && EncodesFetch(Ch(), |old(code)|, i)
    {
      var _ := Emit(OpDup);
      EmitConstant(Num(FromInt(i)));
      var _ := Emit(OpIndex);
    }

    // ----- programs -----

    method CompileProgram(stmts: seq<Stmt>) returns (ok: bool)
      requires code == []
      modifies this
      ensures ok <==> forall k | 0 <= k < |stmts| :: Compiles(stmts[k].e)
      ensures ok ==> ProgramSoFar(Ch(), stmts, |stmts|) && |code| == ProgramSize(stmts)
    {
      hide StmtSize; hide Compiles; hide StmtEmitted; hide Extends; hide EncodesProgram;
      var i := 0;
      assert stmts[0..] == stmts;
      while i < |stmts|
        invariant i <= |stmts| && forall k | 0 <= k < i :: Compiles(stmts[k].e)
        invariant |code| + ProgramSize(stmts[i..]) == ProgramSize(stmts)
        invariant ProgramSoFar(Ch(), stmts, i)
      {
        hide ProgramSoFar; hide ProgramSize;
        ghost var c1 := Ch();
        ok := CompileStatement(stmts[i]);
        if !ok { return; }
        ghost var c2 := Ch();
        if stmts[i].ExprStmt? {
          var _ := Emit(OpPop);
        }
        ExtendsByEmit(c2, Ch());
        ProgramStep(c1, c2, Ch(), stmts, i);
        i := i + 1;
      }
      assert stmts[|stmts|..] == [];
      ok := true;
    }
  }

  /** Compile a program: it fails exactly on syntax outside the language, and otherwise yields the program's code, with
      every jump patched, followed by the final return. */
  method Compile(stmts: seq<Stmt>) returns (ok: bool, ch: Chunk)
    ensures ok <==> forall k | 0 <= k < |stmts| :: Compiles(stmts[k].e)
    ensures ok ==> EncodesProgram(ch, 0, stmts) && |ch.code| == ProgramSize(stmts) + 1
  {
    hide Compiles; hide EncodesProgram; hide ProgramSize; hide ProgramSoFar;
    ch := Chunk([], []);
    var c := new Compiler();
    ok := c.CompileProgram(stmts);
    if !ok { return; }
    ghost var before := c.Ch();
    var _ := c.Emit(OpReturn);
    ch := Chunk(c.code, c.consts);
    ProgramDone(before, ch, stmts);
  }
}
