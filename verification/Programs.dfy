/** Whole programs, and where the compiled code departs from the intended meaning. */
module Programs {
  import opened Values
  import opened Syntax
  import opened Environments
  import opened Evaluator
  import opened Bytecode
  import opened Machine
  import opened Layout
  import opened Correctness
  import opened Compilation
  import Jumps

  lemma {:induction false} ProgramRuns(pr: Prims, ch: Chunk, b: nat, stmts: seq<Stmt>, env: Env, last0: Value)
    requires Forward(ch) && EncodesProgram(ch, b, stmts)
    requires forall i | 0 <= i < |stmts| :: Balanced(stmts[i].e)
    ensures Run(pr, ch, b, State([], env, last0)) == EvalProgram(pr, stmts, last0, env)
    decreases stmts
  {
    hide Run; hide EvalStmt; hide EncodesStmt; hide StmtSize; hide Balanced;
    if stmts == [] {
      RunStep(pr, ch, b, State([], env, last0));
    } else {
      var last := StmtRuns(pr, ch, b, stmts[0], State([], env, last0));
      var o := EvalStmt(pr, stmts[0], env);
      if o.Val? {
        OnlyExpressionsYieldValues(pr, stmts[0], env);
        RunPop(pr, ch, b + StmtSize(stmts[0]), [], o.v, o.env, last);
        ProgramRuns(pr, ch, b + StmtSize(stmts[0]) + 1, stmts[1..], o.env, o.v);
      }
    }
  }

  lemma OnlyExpressionsYieldValues(pr: Prims, s: Stmt, env: Env)
    requires EvalStmt(pr, s, env).Val?
    ensures s.ExprStmt?
  {
    hide Eval;
  }

  /** A compiled program, run from an empty stack, ends exactly as the program evaluates. */
  lemma CompiledProgramAgrees(pr: Prims, ch: Chunk, stmts: seq<Stmt>, env: Env)
    requires EncodesProgram(ch, 0, stmts) && |ch.code| == ProgramSize(stmts) + 1
    requires forall i | 0 <= i < |stmts| :: Balanced(stmts[i].e)
    ensures Forward(ch)
    ensures Run(pr, ch, 0, State([], env, Nil)) == EvalProgram(pr, stmts, Nil, env)
  {
    hide Run; hide EvalProgram; hide EncodesProgram; hide ProgramSize; hide Balanced;
    Jumps.ProgramForward(ch, stmts);
    ProgramRuns(pr, ch, 0, stmts, env, Nil);
  }

  // ----- a named spread in `val` and `var` patterns -----

  /** How the code of a binding pattern ends: it stops the run, or it goes on with `extra` on the stack. */
  datatype Bound = Stopped(outcome: Outcome) | Grew(extra: seq<Value>, env: Env, last: Value)

  predicate Grows(pr: Prims, ch: Chunk, b: nat, st: State, n: nat, spreads: nat, r: Bound)
    requires Forward(ch)
  {
    match r
    case Stopped(o) => o.Failed? && Run(pr, ch, b, st) == o
    case Grew(extra, env, last) =>
      |extra| == spreads && Run(pr, ch, b, st) == Run(pr, ch, n, State(st.stack + extra, env, last))
  }

  /** Unless it fails, the code of a binding pattern leaves one extra value for each named spread in it. */
  lemma {:induction false} BindGrows(pr: Prims, ch: Chunk, b: nat, p: Pattern, asConst: bool, st: State)
    returns (r: Bound)
    requires Forward(ch) && EncodesBind(ch, b, p, asConst) && st.stack != []
    ensures Grows(pr, ch, b, st, b + BindSize(p), NamedSpreads(p), r)
    decreases p, 1
  {
    hide Run; hide Grows; hide EncodesBindAs; hide EncodesBindElems; hide BindElemsSize; hide NamedSpreadsIn;
    match p
    case Ident(x) => r := SetGrows(pr, ch, b, st, x, asConst);
    case As(_, _) => r := BindAsGrows(pr, ch, b, p, asConst, st);
    case ListPat(ps) => r := BindElemsGrows(pr, ch, b, ps, 0, asConst, st);
  }

  lemma SetGrows(pr: Prims, ch: Chunk, b: nat, st: State, x: string, asConst: bool) returns (r: Bound)
    requires Forward(ch) && Is(ch, b, OpSetGlobal(x, asConst)) && st.stack != []
    ensures Grows(pr, ch, b, st, b + 1, 0, r)
  {
    hide Run;
    var s, v := st.stack[..|st.stack| - 1], st.stack[|st.stack| - 1];
    assert st.stack == Push(s, v) && st.stack + [] == st.stack;
    RunSet(pr, ch, b, s, v, st.env, st.last, x, asConst);
    var d := Define(st.env, x, v, asConst);
    r := if d.Updated? then Grew([], d.env, st.last) else Stopped(Failed(d.failure, st.env));
  }

  lemma {:induction false} BindAsGrows(pr: Prims, ch: Chunk, b: nat, p: Pattern, asConst: bool, st: State)
    returns (r: Bound)
    requires p.As? && Forward(ch) && EncodesBindAs(ch, b, p, asConst) && st.stack != []
    ensures Grows(pr, ch, b, st, b + 3 + BindSize(p.inner), NamedSpreads(p.inner), r)
    decreases p, 0
  {
    hide Run; hide EncodesBind; hide BindSize; hide NamedSpreads;
    var s, v := st.stack[..|st.stack| - 1], st.stack[|st.stack| - 1];
    assert st.stack == Push(s, v);
    RunDup(pr, ch, b, s, v, st.env, st.last);
    RunSet(pr, ch, b + 1, Push(s, v), v, st.env, st.last, p.name, asConst);
    var d := Define(st.env, p.name, v, asConst);
    if d.Updated? {
      RunPop(pr, ch, b + 2, Push(s, v), v, d.env, st.last);
      r := BindGrows(pr, ch, b + 3, p.inner, asConst, State(st.stack, d.env, v));
    } else {
      r := Stopped(Failed(d.failure, st.env));
    }
  }

  lemma {:induction false} BindElemsGrows(pr: Prims, ch: Chunk, b: nat, ps: seq<Pattern>, i: nat, asConst: bool,
                                          st: State)
    returns (r: Bound)
    requires Forward(ch) && EncodesBindElems(ch, b, ps, i, asConst) && st.stack != []
    ensures Grows(pr, ch, b, st, b + BindElemsSize(ps), NamedSpreadsIn(ps), r)
    decreases ps, 0
  {
    hide Run; hide EncodesBindElem; hide BindElemSize; hide NamedSpreads;
    assert st.stack + [] == st.stack;
    if ps == [] {
      r := Grew([], st.env, st.last);
    } else {
      r := BindElemGrows(pr, ch, b, ps[0], i, asConst, st);
      if r.Grew? {
        var e := r.extra;
        r := BindElemsGrows(pr, ch, b + BindElemSize(ps[0]), ps[1..], i + 1, asConst,
          State(st.stack + e, r.env, r.last));
        if r.Grew? {
          assert st.stack + e + r.extra == st.stack + (e + r.extra);
          r := Grew(e + r.extra, r.env, r.last);
        }
      }
    }
  }

  lemma {:induction false} BindElemGrows(pr: Prims, ch: Chunk, b: nat, p: Pattern, i: nat, asConst: bool, st: State)
    returns (r: Bound)
    requires Forward(ch) && EncodesBindElem(ch, b, p, i, asConst) && st.stack != []
    ensures Grows(pr, ch, b, st, b + BindElemSize(p), NamedSpreads(p), r)
    decreases p, 3
  {
    hide Run; hide EncodesBindPart; hide BindSize;
    assert st.stack + [] == st.stack;
    if p.Spread? && p.rest.Some? {
      r := SpreadGrows(pr, ch, b, p.rest.value, i, asConst, st);
    } else if p.Wildcard? || p.Spread? {
      r := Grew([], st.env, st.last);
    } else {
      r := BindPartGrows(pr, ch, b, p, i, asConst, st);
    }
  }

  /** The slice, not the elements it selects, is bound to the name; the duplicated value is left behind. */
  lemma SpreadGrows(pr: Prims, ch: Chunk, b: nat, x: string, i: nat, asConst: bool, st: State) returns (r: Bound)
    requires Forward(ch) && st.stack != []
    requires EncodesBindRest(ch, b, x, i, asConst)
    ensures Grows(pr, ch, b, st, b + 7, 1, r)
    ensures r.Grew? <==> Define(st.env, x, Slice(Num(FromInt(i)), Nil, Nil), asConst).Updated?
    ensures r.Grew? ==> Define(st.env, x, Slice(Num(FromInt(i)), Nil, Nil), asConst) == Updated(r.env)
    ensures r.Grew? ==> r.extra == [st.stack[|st.stack| - 1]]
  {
    hide Run; hide EncodesBindRest; hide Define;
    var v, slice := st.stack[|st.stack| - 1], Slice(Num(FromInt(i)), Nil, Nil);
    var d := Define(st.env, x, slice, asConst);
    SpreadCode(pr, ch, b, x, i, asConst, st, v);
    r := if d.Updated? then Grew([v], d.env, slice) else Stopped(Failed(d.failure, st.env));
  }

  lemma SpreadCode(pr: Prims, ch: Chunk, b: nat, x: string, i: nat, asConst: bool, st: State, v: Value)
    requires Forward(ch) && st.stack != [] && v == st.stack[|st.stack| - 1] && EncodesBindRest(ch, b, x, i, asConst)
    ensures var slice := Slice(Num(FromInt(i)), Nil, Nil);
            var d := Define(st.env, x, slice, asConst);
            Run(pr, ch, b, st) ==
            if d.Updated? then Run(pr, ch, b + 7, State(st.stack + [v], d.env, slice)) else Failed(d.failure, st.env)
  {
    hide Run; hide Define;
    var s, env, last := st.stack[..|st.stack| - 1], st.env, st.last;
    var s1, slice := Push(st.stack, v), Slice(Num(FromInt(i)), Nil, Nil);
    assert st.stack == Push(s, v) && s1 == st.stack + [v];
    RunDup(pr, ch, b, s, v, env, last);
    RunSlice(pr, ch, b + 1, s1, i, env, last);
    RunSet(pr, ch, b + 5, s1, slice, env, last, x, asConst);
    var d := Define(env, x, slice, asConst);
    if d.Updated? {
      RunPop(pr, ch, b + 6, s1, slice, d.env, last);
    }
  }

  lemma RunSlice(pr: Prims, ch: Chunk, b: nat, s: seq<Value>, i: nat, env: Env, last: Value)
    requires Forward(ch) && IsConst(ch, b, Num(FromInt(i))) && Is(ch, b + 1, OpNil) && Is(ch, b + 2, OpNil)
             && Is(ch, b + 3, OpSlice)
    ensures Run(pr, ch, b, State(s, env, last))
            == Run(pr, ch, b + 4, State(Push(s, Slice(Num(FromInt(i)), Nil, Nil)), env, last))
  {
    hide Run; hide Push;
    var s1 := Push(s, Num(FromInt(i)));
    RunPush(pr, ch, b, State(s, env, last), Num(FromInt(i)));
    RunPush(pr, ch, b + 1, State(s1, env, last), Nil);
    RunPush(pr, ch, b + 2, State(Push(s1, Nil), env, last), Nil);
    RunMakeSlice(pr, ch, b + 3, s, Num(FromInt(i)), Nil, Nil, env, last);
  }

  lemma RunMakeSlice(pr: Prims, ch: Chunk, b: nat, s: seq<Value>, v: Value, w: Value, x: Value, env: Env, last: Value)
    requires Forward(ch) && Is(ch, b, OpSlice)
    ensures Run(pr, ch, b, State(Push(Push(Push(s, v), w), x), env, last))
            == Run(pr, ch, b + 1, State(Push(s, Slice(v, w, x)), env, last))
  {
    hide Run;
    var st := State(Push(Push(Push(s, v), w), x), env, last);
    RunStep(pr, ch, b, st);
    assert st.stack[..|st.stack| - 3] == s;
  }

  lemma {:induction false} BindPartGrows(pr: Prims, ch: Chunk, b: nat, p: Pattern, i: nat, asConst: bool, st: State)
    returns (r: Bound)
    requires Forward(ch) && EncodesBindPart(ch, b, p, i, asConst) && st.stack != []
    ensures Grows(pr, ch, b, st, b + 4 + BindSize(p), NamedSpreads(p), r)
    decreases p, 2
  {
    hide Run; hide EncodesBind; hide BindSize; hide NamedSpreads; hide EncodesFetch; hide IndexValue;
    var s, v := st.stack[..|st.stack| - 1], st.stack[|st.stack| - 1];
    assert st.stack == Push(s, v);
    RunFetch(pr, ch, b, s, v, st.env, st.last, i);
    var el := IndexValue(pr, v, Num(FromInt(i)));
    if el.Err? {
      return Stopped(Failed(el.failure, st.env));
    }
    r := BindGrows(pr, ch, b + 3, p, asConst, State(Push(st.stack, el.value), st.env, st.last));
    if r.Grew? {
      var all := [el.value] + r.extra;
      var n := |all| - 1;
      ExtraOnTop(st.stack, el.value, r.extra);
      hide Push;
      RunPop(pr, ch, b + 3 + BindSize(p), st.stack + all[..n], all[n], r.env, r.last);
      r := Grew(all[..n], r.env, all[n]);
    }
  }

  lemma ExtraOnTop(s: seq<Value>, v: Value, extra: seq<Value>)
    ensures var all := [v] + extra;
            var n := |all| - 1;
            Push(s, v) + extra == Push(s + all[..n], all[n])
  {
    var all := [v] + extra;
    var n := |all| - 1;
    assert Push(s, v) + extra == s + all && all == all[..n] + [all[n]];
  }

  /** A `val` or `var` pattern that binds without failing gives the stack back as it found it if and only if no element
      of it, at any depth, is a named spread. */
  lemma BindKeepsStackIff(pr: Prims, ch: Chunk, b: nat, p: Pattern, asConst: bool, st: State) returns (r: Bound)
    requires Forward(ch) && EncodesBind(ch, b, p, asConst) && st.stack != []
    ensures Grows(pr, ch, b, st, b + BindSize(p), NamedSpreads(p), r)
    ensures r.Grew? ==> (st.stack + r.extra == st.stack <==> NamedSpreads(p) == 0)
  {
    hide Run; hide EncodesBind; hide BindSize; hide NamedSpreads;
    r := BindGrows(pr, ch, b, p, asConst, st);
    if r.Grew? {
      assert |st.stack + r.extra| == |st.stack| + |r.extra|;
    }
  }

  /** `val [...rest] = []` */
  const REST_OF_NONE := Bind(ListPat([Spread(Some("rest"))]), true, ListLit([]))

  /** `val [...rest] = []`, then `true`. */
  const REST_PROGRAM := [ExprStmt(REST_OF_NONE), ExprStmt(BoolLit(true))]

  function RestBoundTo(v: Value): Env { Root(map["rest" := Binding(v, false)]) }

  /** A program that compiles: it is meant to end with true and the empty list bound to the name; run from its own chunk
      it ends with the value left on the stack, and a slice bound to the name. */
  lemma NamedSpreadGoesWrong(pr: Prims, ch: Chunk)
    requires EncodesProgram(ch, 0, REST_PROGRAM) && |ch.code| == ProgramSize(REST_PROGRAM) + 1
    ensures forall i | 0 <= i < |REST_PROGRAM| :: Compiles(REST_PROGRAM[i].e)
    ensures Forward(ch)
    ensures Run(pr, ch, 0, State([], Root(map[]), Nil))
            == Returned(List([]), RestBoundTo(Slice(Num(FromInt(0)), Nil, Nil)))
    ensures EvalProgram(pr, REST_PROGRAM, Nil, Root(map[])) == Returned(Bool(true), RestBoundTo(List([])))
  {
    hide Run; hide EncodesProgram; hide ProgramSize; hide EvalProgram; hide Compiles; hide EncodesBindRest; hide Is;
    Jumps.ProgramForward(ch, REST_PROGRAM);
    RestCompiles();
    RestLayout(ch);
    RestRuns(pr, ch);
    RestIsMeant(pr);
  }

  lemma RestCompiles()
    ensures forall i | 0 <= i < |REST_PROGRAM| :: Compiles(REST_PROGRAM[i].e)
  {
    assert CompilesBind(ListPat([Spread(Some("rest"))]));
    assert Compiles(REST_OF_NONE);
  }

  /** One statement alone binds the wrong value, though the program ends with the right one. */
  lemma NamedSpreadBindsSlice(pr: Prims, ch: Chunk)
    requires EncodesProgram(ch, 0, [ExprStmt(REST_OF_NONE)]) && |ch.code| == ProgramSize([ExprStmt(REST_OF_NONE)]) + 1
    ensures Forward(ch)
    ensures Run(pr, ch, 0, State([], Root(map[]), Nil))
            == Returned(List([]), RestBoundTo(Slice(Num(FromInt(0)), Nil, Nil)))
    ensures EvalProgram(pr, [ExprStmt(REST_OF_NONE)], Nil, Root(map[])) == Returned(List([]), RestBoundTo(List([])))
  {
    var stmts := [ExprStmt(REST_OF_NONE)];
    Jumps.ProgramForward(ch, stmts);
    RestCode(ch);
    assert stmts[1..] == [];
    assert EncodesProgram(ch, 9, stmts[1..]);
    hide Run;
    RestIsBound(pr, ch);
    var none, slice := List([]), Slice(Num(FromInt(0)), Nil, Nil);
    RunPop(pr, ch, 8, [none], none, RestBoundTo(slice), slice);
    assert Push([], none) == [none];
    RunReturn(pr, ch, 9, [], none, RestBoundTo(slice), none);
    hide EvalProgram;
    RestValue(pr);
    assert EvalStmt(pr, stmts[0], Root(map[])) == Val(none, RestBoundTo(none));
    ProgramStep(pr, stmts, Nil, Root(map[]));
    ProgramEnd(pr, none, RestBoundTo(none));
  }

  lemma RestCode(ch: Chunk)
    ensures StmtSize(ExprStmt(REST_OF_NONE)) == 8
    ensures EncodesStmt(ch, 0, ExprStmt(REST_OF_NONE))
            ==> Is(ch, 0, OpArray(0)) && EncodesBindRest(ch, 1, "rest", 0, true)
  {
    hide EncodesBindRest;
    assert Size(REST_OF_NONE.value) == 1;
    assert BindElemsSize([Spread(Some("rest"))]) == 7;
    if EncodesStmt(ch, 0, ExprStmt(REST_OF_NONE)) {
      assert Encodes(ch, 0, REST_OF_NONE) && EncodesBindElem(ch, 1, Spread(Some("rest")), 0, true);
    }
  }

  lemma RestLayout(ch: Chunk)
    requires EncodesProgram(ch, 0, REST_PROGRAM)
    ensures Is(ch, 0, OpArray(0)) && EncodesBindRest(ch, 1, "rest", 0, true) && Is(ch, 8, OpPop)
    ensures Is(ch, 9, OpTrue) && Is(ch, 10, OpPop) && Is(ch, 11, OpReturn)
  {
    hide EncodesBindRest; hide EncodesStmt; hide StmtSize;
    RestCode(ch);
    var rest := REST_PROGRAM[1..];
    assert rest == [ExprStmt(BoolLit(true))] && rest[1..] == [];
    assert EncodesProgram(ch, 9, rest);
    assert EncodesStmt(ch, 9, rest[0]) ==> Is(ch, 9, OpTrue) && StmtSize(rest[0]) == 1 by { TrueCode(ch); }
    assert EncodesProgram(ch, 11, rest[1..]) by { TrueCode(ch); }
  }

  lemma TrueCode(ch: Chunk)
    ensures StmtSize(ExprStmt(BoolLit(true))) == 1
    ensures EncodesStmt(ch, 9, ExprStmt(BoolLit(true))) ==> Is(ch, 9, OpTrue)
  {}

  lemma RestValue(pr: Prims)
    ensures Eval(pr, REST_OF_NONE, Root(map[])) == Val(List([]), RestBoundTo(List([])))
  {
    var env, slice := Root(map[]), Slice(Num(FromInt(0)), Nil, Nil);
    assert SliceRange(pr, 0, slice) == Some(Range(0, 0, 1));
    assert IndexValue(pr, List([]), slice) == Ok(List([]));
    assert BindElem(pr, Spread(Some("rest")), 0, List([]), true, env) == Val(List([]), RestBoundTo(List([])));
  }

  lemma RestIsMeant(pr: Prims)
    ensures EvalProgram(pr, REST_PROGRAM, Nil, Root(map[])) == Returned(Bool(true), RestBoundTo(List([])))
  {
    hide Eval;
    var env1, rest := RestBoundTo(List([])), REST_PROGRAM[1..];
    RestValue(pr);
    TrueValue(pr, env1);
    assert rest == [ExprStmt(BoolLit(true))] && rest[1..] == [];
    ProgramStep(pr, REST_PROGRAM, Nil, Root(map[]));
    ProgramStep(pr, rest, List([]), env1);
    ProgramEnd(pr, Bool(true), env1);
  }

  lemma TrueValue(pr: Prims, env: Env)
    ensures Eval(pr, BoolLit(true), env) == Val(Bool(true), env)
  {}

  lemma ProgramStep(pr: Prims, stmts: seq<Stmt>, last: Value, env: Env)
    requires stmts != []
    ensures EvalProgram(pr, stmts, last, env) ==
            match EvalStmt(pr, stmts[0], env)
            case Val(v, env1) => EvalProgram(pr, stmts[1..], v, env1)
            case o => o
  {}

  lemma ProgramEnd(pr: Prims, last: Value, env: Env)
    ensures EvalProgram(pr, [], last, env) == Returned(last, env)
  {}

  /** The code of the binding leaves the list twice, and binds the slice. */
  lemma RestIsBound(pr: Prims, ch: Chunk)
    requires Is(ch, 0, OpArray(0)) && EncodesBindRest(ch, 1, "rest", 0, true) && Forward(ch)
    ensures var slice := Slice(Num(FromInt(0)), Nil, Nil);
            Run(pr, ch, 0, State([], Root(map[]), Nil)) ==
            Run(pr, ch, 8, State(Push([List([])], List([])), RestBoundTo(slice), slice))
  {
    hide Run; hide EncodesBindRest;
    var env, none, slice := Root(map[]), List([]), Slice(Num(FromInt(0)), Nil, Nil);
    var empty: seq<Value> := [];
    assert empty + empty == empty && Push(empty, none) == [none] && [none] + [none] == Push([none], none);
    RunArray(pr, ch, 0, empty, empty, env, Nil);
    SpreadCode(pr, ch, 1, "rest", 0, true, State([none], env, Nil), none);
    assert Define(env, "rest", slice, true) == Updated(RestBoundTo(slice));
  }

  lemma RestRuns(pr: Prims, ch: Chunk)
    requires Is(ch, 0, OpArray(0)) && EncodesBindRest(ch, 1, "rest", 0, true) && Is(ch, 8, OpPop) && Forward(ch)
    requires Is(ch, 9, OpTrue) && Is(ch, 10, OpPop) && Is(ch, 11, OpReturn)
    ensures Run(pr, ch, 0, State([], Root(map[]), Nil))
            == Returned(List([]), RestBoundTo(Slice(Num(FromInt(0)), Nil, Nil)))
  {
    hide Run; hide EncodesBindRest;
    var none, slice := List([]), Slice(Num(FromInt(0)), Nil, Nil);
    var env := RestBoundTo(slice);
    RestIsBound(pr, ch);
    RunPop(pr, ch, 8, [none], none, env, slice);
    RunPush(pr, ch, 9, State([none], env, none), Bool(true));
    RunPop(pr, ch, 10, [none], Bool(true), env, none);
    assert Push([], none) == [none];
    RunReturn(pr, ch, 11, [], none, env, Bool(true));
  }

  // ----- a name in front of a pattern that binds nothing -----

  /** `match "a" { n @ "a" => n }` */
  const ALIASED := Match(Literal(Str("a")), [Case(As("n", LiteralPat(Literal(Str("a")))), None, Name("n"))])

  /** The case is taken, and the name is not there: by evaluation, and so by running the compiled program. */
  lemma AliasIsMissing(pr: Prims, ch: Chunk)
    requires EncodesProgram(ch, 0, [ExprStmt(ALIASED)]) && |ch.code| == ProgramSize([ExprStmt(ALIASED)]) + 1
    ensures Compiles(ALIASED) && Forward(ch)
    ensures EvalProgram(pr, [ExprStmt(ALIASED)], Nil, Root(map[])) == Failed(IdentifierNotFound("n"), Root(map[]))
    ensures Run(pr, ch, 0, State([], Root(map[]), Nil)) == Failed(IdentifierNotFound("n"), Root(map[]))
  {
    hide EncodesProgram; hide ProgramSize; hide Run;
    AliasedFails(pr);
    AliasedIsPlain();
    CompiledProgramAgrees(pr, ch, [ExprStmt(ALIASED)], Root(map[]));
  }

  lemma AliasedFails(pr: Prims)
    ensures EvalProgram(pr, [ExprStmt(ALIASED)], Nil, Root(map[])) == Failed(IdentifierNotFound("n"), Root(map[]))
  {
    var env, c := Root(map[]), ALIASED.cases[0];
    assert MatchEqual(pr, LiteralPat(Literal(Str("a"))), Str("a"), env) == Hit(env);
    assert EvalFlatCase(pr, c, Str("a"), env) == Taken(Failed(IdentifierNotFound("n"), env));
    assert EvalCases(pr, [c], Str("a"), env) == Failed(IdentifierNotFound("n"), env);
  }

  lemma AliasedIsPlain()
    ensures Compiles(ALIASED) && Balanced(ALIASED)
  {
    assert CompilesCase(ALIASED.cases[0]) && BalancedCase(ALIASED.cases[0]);
  }

  // ----- `x + [e]` compiled as an append -----

  /** Appending one element is adding a one-element list exactly when the other operand is a list. */
  lemma AppendIsAddIff(pr: Prims, l: Value, x: Value)
    ensures AppendValue(pr, l, x) == AddValues(pr, l, List([x])) <==> l.List?
  {}

  lemma PrependIsAddIff(pr: Prims, x: Value, r: Value)
    ensures PrependValue(pr, x, r) == AddValues(pr, List([x]), r) <==> r.List?
  {}

  /** Two operands left to right, then an operator: the meaning of an infix expression before any rewriting. */
  function PlainInfix(pr: Prims, op: BinOp, l: Expr, r: Expr, env: Env): Outcome {
    match Eval(pr, l, env)
    case Val(lv, env1) =>
      (match Eval(pr, r, env1)
       case Val(rv, env2) => FromResult(Binary(pr, op, lv, rv), env2)
       case o => o)
    case o => o
  }

  /** When both operands yield values, `l + [x]` means what it says exactly when `l` yields a list. */
  lemma SpliceKeepsMeaningIff(pr: Prims, l: Expr, x: Expr, env: Env)
    requires Eval(pr, l, env).Val? && Eval(pr, x, Eval(pr, l, env).env).Val?
    ensures Eval(pr, Infix(Add, l, ListLit([x])), env) == PlainInfix(pr, Add, l, ListLit([x]), env)
            <==> Eval(pr, l, env).v.List?
  {
    hide Eval;
    var lv, env1 := Eval(pr, l, env).v, Eval(pr, l, env).env;
    var xv, env2 := Eval(pr, x, env1).v, Eval(pr, x, env1).env;
    OneElementList(pr, x, env1);
    InfixMeaning(pr, Infix(Add, l, ListLit([x])), env);
    AppendIsAddIff(pr, lv, xv);
  }

  /** The counterpart: `[x] + r`, where `r` is no one-element list itself, means what it says exactly when `r` yields a
      list. */
  lemma PrependKeepsMeaningIff(pr: Prims, x: Expr, r: Expr, env: Env)
    requires Eval(pr, x, env).Val? && Eval(pr, r, Eval(pr, x, env).env).Val? && SingleElement(r).None?
    ensures Eval(pr, Infix(Add, ListLit([x]), r), env) == PlainInfix(pr, Add, ListLit([x]), r, env)
            <==> Eval(pr, r, Eval(pr, x, env).env).v.List?
  {
    hide Eval;
    var xv, env1 := Eval(pr, x, env).v, Eval(pr, x, env).env;
    OneElementList(pr, x, env);
    InfixMeaning(pr, Infix(Add, ListLit([x]), r), env);
    PrependIsAddIff(pr, xv, Eval(pr, r, env1).v);
  }

  lemma OneElementList(pr: Prims, x: Expr, env: Env)
    requires Eval(pr, x, env).Val?
    ensures Eval(pr, ListLit([x]), env) == Val(List([Eval(pr, x, env).v]), Eval(pr, x, env).env)
  {
    var v, env1 := Eval(pr, x, env).v, Eval(pr, x, env).env;
    assert [] + [v] == [v] && [x][1..] == [];
    assert EvalList(pr, [], [v], env1) == Val(List([v]), env1);
  }

  lemma InfixMeaning(pr: Prims, e: Expr, env: Env)
    requires e.Infix?
    ensures Eval(pr, e, env) == PlainInfix(pr, Lowered(e).op, Lowered(e).left, Lowered(e).right, env)
  {}
}
