/** Running compiled code agrees with evaluating the syntax. */
module Correctness {
  import opened Values
  import opened Syntax
  import opened Environments
  import opened Evaluator
  import opened Bytecode
  import opened Machine
  import opened Layout

  // ----- what a named spread in `val [a, ...rest] = xs` must not be part of -----

  predicate Balanced(e: Expr)
    decreases e, 0
  {
    match e
    case Literal(_) => true
    case BoolLit(_) => true
    case NilLit => true
    case Name(_) => true
    case Bind(p, _, value) => Balanced(value) && NamedSpreads(p) == 0
    case Assign(_, value) => Balanced(value)
    case PrefixExpr(_, x) => Balanced(x)
    case Infix(_, _, _) => Balanced(Lowered(e).left) && Balanced(Lowered(e).right)
    case And(l, r) => Balanced(l) && Balanced(r)
    case Or(l, r) => Balanced(l) && Balanced(r)
    case If(c, t, f) => Balanced(c) && Balanced(t) && (f.Some? ==> Balanced(f.value))
    case Block(stmts) => forall i | 0 <= i < |stmts| :: Balanced(stmts[i].e)
    case Match(subject, cases) => Balanced(subject) && forall i | 0 <= i < |cases| :: BalancedCase(cases[i])
    case ListLit(es) => forall i | 0 <= i < |es| :: Balanced(es[i])
    case Index(l, i) => Balanced(l) && Balanced(i)
  }

  predicate BalancedCase(c: Case)
    decreases c, 0
  {
    BalancedPattern(c.pattern) && (c.guard.Some? ==> Balanced(c.guard.value)) && Balanced(c.body)
  }

  /** Patterns of `match` bind spreads correctly; only the expressions inside them matter. */
  predicate BalancedPattern(p: Pattern)
    decreases p, 0
  {
    match p
    case LiteralPat(e) => Balanced(e)
    case As(_, inner) => BalancedPattern(inner)
    case ListPat(ps) => forall i | 0 <= i < |ps| :: BalancedPattern(ps[i])
    case Multi(ps) => forall i | 0 <= i < |ps| :: BalancedPattern(ps[i])
    case _ => true
  }

  /** How many `...name` elements a `val` or `var` pattern has, at any depth. */
  function NamedSpreads(p: Pattern): nat
    decreases p, 0
  {
    match p
    case As(_, inner) => NamedSpreads(inner)
    case ListPat(ps) => NamedSpreadsIn(ps)
    case Spread(Some(_)) => 1
    case _ => 0
  }

  function NamedSpreadsIn(ps: seq<Pattern>): nat
    decreases ps, 0
  {
    if ps == [] then 0 else NamedSpreads(ps[0]) + NamedSpreadsIn(ps[1..])
  }

  // ----- agreement between a stretch of code and an outcome -----

  /** From address `b` the machine does what `o` says: a value ends up on top of `s` and the run goes on at `n`; any
      other outcome is the outcome of the whole run. */
  predicate Runs(pr: Prims, ch: Chunk, b: nat, st: State, n: nat, s: seq<Value>, o: Outcome, last: Value)
    requires Forward(ch)
  {
    Run(pr, ch, b, st) == if o.Val? then Run(pr, ch, n, State(Push(s, o.v), o.env, last)) else o
  }

  /** The same for matching: the stack is `s` afterwards, and a miss continues at `fail`. */
  predicate Tests(pr: Prims, ch: Chunk, b: nat, st: State, n: nat, fail: nat, s: seq<Value>, m: Matched, last: Value)
    requires Forward(ch)
  {
    Run(pr, ch, b, st) ==
    if m.Hit? then Run(pr, ch, n, State(s, m.env, last))
    else if m.Miss? then Run(pr, ch, fail, State(s, m.env, last))
    else m.outcome
  }

  // ----- one instruction at a time -----

  lemma RunStep(pr: Prims, ch: Chunk, ip: nat, st: State)
    requires Forward(ch) && ip < |ch.code|
    ensures Run(pr, ch, ip, st) ==
      var r := Step(pr, ch, ip, st);
      if r.Halt? then r.outcome else Run(pr, ch, r.ip, r.st)
  {}

  lemma RunPush(pr: Prims, ch: Chunk, ip: nat, st: State, v: Value)
    requires Forward(ch)
    requires IsConst(ch, ip, v) || (v == Nil && Is(ch, ip, OpNil))
          || (v == Bool(true) && Is(ch, ip, OpTrue)) || (v == Bool(false) && Is(ch, ip, OpFalse))
    ensures Run(pr, ch, ip, st) == Run(pr, ch, ip + 1, State(Push(st.stack, v), st.env, st.last))
    ensures Runs(pr, ch, ip, st, ip + 1, st.stack, Val(v, st.env), st.last)
  {
    hide Run;
    RunStep(pr, ch, ip, st);
    assert st.stack[..|st.stack|] == st.stack;
  }

  lemma RunGet(pr: Prims, ch: Chunk, ip: nat, st: State, x: string)
    requires Forward(ch) && Is(ch, ip, OpGetGlobal(x))
    ensures Runs(pr, ch, ip, st, ip + 1, st.stack, FromResult(Get(st.env, x), st.env), st.last)
  {
    hide Run;
    RunStep(pr, ch, ip, st);
    assert st.stack[..|st.stack|] == st.stack;
  }

  lemma RunSet(pr: Prims, ch: Chunk, ip: nat, s: seq<Value>, v: Value, env: Env, last: Value, x: string, asConst: bool)
    requires Forward(ch) && Is(ch, ip, OpSetGlobal(x, asConst))
    ensures Runs(pr, ch, ip, State(Push(s, v), env, last), ip + 1, s, FromBinding(Define(env, x, v, asConst), v, env),
            last)
  {
    hide Run;
    RunStep(pr, ch, ip, State(Push(s, v), env, last));
  }

  lemma RunAssign(pr: Prims, ch: Chunk, ip: nat, s: seq<Value>, v: Value, env: Env, last: Value, x: string)
    requires Forward(ch) && Is(ch, ip, OpAssignGlobal(x))
    ensures Runs(pr, ch, ip, State(Push(s, v), env, last), ip + 1, s, FromBinding(AssignTo(env, x, v), v, env), last)
  {
    hide Run;
    RunStep(pr, ch, ip, State(Push(s, v), env, last));
  }

  lemma RunDup(pr: Prims, ch: Chunk, ip: nat, s: seq<Value>, v: Value, env: Env, last: Value)
    requires Forward(ch) && Is(ch, ip, OpDup)
    ensures Run(pr, ch, ip, State(Push(s, v), env, last)) == Run(pr, ch, ip + 1, State(Push(Push(s, v), v), env, last))
  {
    hide Run;
    RunStep(pr, ch, ip, State(Push(s, v), env, last));
    assert Push(s, v)[..|s| + 1] == Push(s, v);
  }

  lemma RunPop(pr: Prims, ch: Chunk, ip: nat, s: seq<Value>, v: Value, env: Env, last: Value)
    requires Forward(ch) && Is(ch, ip, OpPop)
    ensures Run(pr, ch, ip, State(Push(s, v), env, last)) == Run(pr, ch, ip + 1, State(s, env, v))
  {
    hide Run;
    RunStep(pr, ch, ip, State(Push(s, v), env, last));
  }

  lemma RunPrefix(pr: Prims, ch: Chunk, ip: nat, s: seq<Value>, v: Value, env: Env, last: Value, op: PrefixOp)
    requires Forward(ch) && Is(ch, ip, OpPrefix(op))
    ensures Runs(pr, ch, ip, State(Push(s, v), env, last), ip + 1, s, FromResult(Prefix(pr, op, v), env), last)
  {
    hide Run;
    RunStep(pr, ch, ip, State(Push(s, v), env, last));
  }

  lemma RunBinary(pr: Prims, ch: Chunk, ip: nat, s: seq<Value>, l: Value, r: Value, env: Env, last: Value, op: BinOp)
    requires Forward(ch) && Is(ch, ip, OpBinary(op))
    ensures Runs(pr, ch, ip, State(Push(Push(s, l), r), env, last), ip + 1, s, FromResult(Binary(pr, op, l, r), env),
            last)
  {
    hide Run;
    RunStep(pr, ch, ip, State(Push(Push(s, l), r), env, last));
    assert Push(Push(s, l), r)[..|s|] == s;
  }

  lemma RunIndex(pr: Prims, ch: Chunk, ip: nat, s: seq<Value>, l: Value, r: Value, env: Env, last: Value)
    requires Forward(ch) && Is(ch, ip, OpIndex)
    ensures Runs(pr, ch, ip, State(Push(Push(s, l), r), env, last), ip + 1, s, FromResult(IndexValue(pr, l, r), env),
            last)
  {
    hide Run;
    RunStep(pr, ch, ip, State(Push(Push(s, l), r), env, last));
    assert Push(Push(s, l), r)[..|s|] == s;
  }

  lemma RunArray(pr: Prims, ch: Chunk, ip: nat, s: seq<Value>, vs: seq<Value>, env: Env, last: Value)
    requires Forward(ch) && Is(ch, ip, OpArray(|vs|))
    ensures Run(pr, ch, ip, State(s + vs, env, last)) == Run(pr, ch, ip + 1, State(Push(s, List(vs)), env, last))
  {
    hide Run;
    RunStep(pr, ch, ip, State(s + vs, env, last));
    assert (s + vs)[..|s|] == s && (s + vs)[|s|..] == vs;
  }

  lemma RunJump(pr: Prims, ch: Chunk, ip: nat, st: State, t: nat)
    requires Forward(ch) && Is(ch, ip, OpJump(t))
    ensures Run(pr, ch, ip, st) == Run(pr, ch, t, st)
  {
    hide Run;
    RunStep(pr, ch, ip, st);
  }

  lemma RunTest(pr: Prims, ch: Chunk, ip: nat, s: seq<Value>, v: Value, env: Env, last: Value, t: nat)
    requires Forward(ch) && Is(ch, ip, OpJumpIfFalse(t))
    ensures Run(pr, ch, ip, State(Push(s, v), env, last)) ==
      Run(pr, ch, if Truthy(v) then ip + 1 else t, State(s, env, last))
  {
    hide Run;
    RunStep(pr, ch, ip, State(Push(s, v), env, last));
  }

  lemma RunEnter(pr: Prims, ch: Chunk, ip: nat, st: State)
    requires Forward(ch) && Is(ch, ip, OpPushScope)
    ensures Run(pr, ch, ip, st) == Run(pr, ch, ip + 1, State(st.stack, Enclosed(st.env), st.last))
  {
    hide Run;
    RunStep(pr, ch, ip, st);
  }

  lemma RunLeave(pr: Prims, ch: Chunk, ip: nat, s: seq<Value>, v: Value, env: Env, last: Value)
    requires Forward(ch) && Is(ch, ip, OpPopScope) && Depth(env) > 0
    ensures Run(pr, ch, ip, State(Push(s, v), env, last)) == Run(pr, ch, ip + 1, State(Push(s, v), Leave(env), last))
  {
    hide Run;
    RunStep(pr, ch, ip, State(Push(s, v), env, last));
  }

  lemma RunReturn(pr: Prims, ch: Chunk, ip: nat, s: seq<Value>, v: Value, env: Env, last: Value)
    requires Forward(ch) && Is(ch, ip, OpReturn)
    ensures Run(pr, ch, ip, State(Push(s, v), env, last)) == Returned(v, env)
  {
    hide Run;
    RunStep(pr, ch, ip, State(Push(s, v), env, last));
  }

  lemma RunThrow(pr: Prims, ch: Chunk, ip: nat, s: seq<Value>, v: Value, env: Env, last: Value)
    requires Forward(ch) && Is(ch, ip, OpThrow)
    ensures Run(pr, ch, ip, State(Push(s, v), env, last)) == Thrown(v, env)
  {
    hide Run;
    RunStep(pr, ch, ip, State(Push(s, v), env, last));
  }

  lemma RunTail(pr: Prims, ch: Chunk, ip: nat, s: seq<Value>, v: Value, env: Env, last: Value, n: nat)
    requires Forward(ch) && Is(ch, ip, OpMatchSeqTail(n)) && SeqLen(v).Some?
    ensures Run(pr, ch, ip, State(Push(s, v), env, last))
            == Run(pr, ch, ip + 1, State(Push(s, SeqTail(v, n)), env, last))
  {
    hide Run;
    RunStep(pr, ch, ip, State(Push(s, v), env, last));
  }

  /** Push an element of the sequence on top of the stack, if it can be indexed. */
  lemma RunFetch(pr: Prims, ch: Chunk, b: nat, s: seq<Value>, v: Value, env: Env, last: Value, i: nat)
    requires Forward(ch) && EncodesFetch(ch, b, i)
    ensures Runs(pr, ch, b, State(Push(s, v), env, last), b + 3, Push(s, v),
            FromResult(IndexValue(pr, v, Num(FromInt(i))), env), last)
  {
    hide Run;
    RunDup(pr, ch, b, s, v, env, last);
    RunPush(pr, ch, b + 1, State(Push(Push(s, v), v), env, last), Num(FromInt(i)));
    RunIndex(pr, ch, b + 2, Push(s, v), v, Num(FromInt(i)), env, last);
  }

  /** The length test of a list pattern. */
  lemma RunLength(pr: Prims, ch: Chunk, b: nat, s: seq<Value>, v: Value, env: Env, last: Value, ps: seq<Pattern>,
                  fail: nat)
    requires Forward(ch) && EncodesLength(ch, b, ps, fail)
    ensures Run(pr, ch, b, State(Push(s, v), env, last)) ==
      Run(pr, ch, if LengthFits(ps, v) then b + 3 else fail, State(Push(s, v), env, last))
  {
    RunDup(pr, ch, b, s, v, env, last);
    var hit := Bool(LengthFits(ps, v));
    var st := State(Push(Push(s, v), v), env, last);
    assert Run(pr, ch, b + 1, st) == Run(pr, ch, b + 2, State(Push(Push(s, v), hit), env, last));
    RunTest(pr, ch, b + 2, Push(s, v), hit, env, last, fail);
  }

  // ----- expressions -----

  /** Running the code of an expression from any stack and environment gives the outcome of evaluating it. On a value
      the rest of the stack is untouched and the run goes on just past the code. */
  lemma {:induction false} ExprRuns(pr: Prims, ch: Chunk, b: nat, e: Expr, st: State) returns (last: Value)
    requires Forward(ch) && Encodes(ch, b, e) && Balanced(e)
    ensures Runs(pr, ch, b, st, b + Size(e), st.stack, Eval(pr, e, st.env), last)
    decreases e, 1
  {
    hide Run; hide Runs;
    hide EvalBind; hide EvalAssign; hide EvalPrefix; hide EvalInfix; hide EvalAnd; hide EvalOr;
    hide EvalIf; hide EvalBlock; hide EvalMatch; hide EvalList; hide EvalIndex;
    hide EncodesBindExpr; hide EncodesAssign; hide EncodesPrefix; hide EncodesInfix; hide EncodesAnd; hide EncodesOr;
    hide EncodesIf; hide EncodesBlock; hide EncodesMatch; hide EncodesList; hide EncodesIndex;
    hide IsConst; hide Is; hide Get; hide Lowered;
    match e
    case Literal(_) => last := LeafRuns(pr, ch, b, e, st);
    case BoolLit(_) => last := LeafRuns(pr, ch, b, e, st);
    case NilLit => last := LeafRuns(pr, ch, b, e, st);
    case Name(_) => last := LeafRuns(pr, ch, b, e, st);
    case Bind(_, _, _) => last := BindExprRuns(pr, ch, b, e, st);
    case Assign(_, _) => last := AssignRuns(pr, ch, b, e, st);
    case PrefixExpr(_, _) => last := PrefixRuns(pr, ch, b, e, st);
    case Infix(_, _, _) => last := InfixRuns(pr, ch, b, e, st);
    case And(_, _) => last := AndRuns(pr, ch, b, e, st);
    case Or(_, _) => last := OrRuns(pr, ch, b, e, st);
    case If(_, _, _) => last := IfRuns(pr, ch, b, e, st);
    case Block(_) => last := BlockRuns(pr, ch, b, e, st);
    case Match(_, _) => last := MatchRuns(pr, ch, b, e, st);
    case ListLit(_) => last := ListLitRuns(pr, ch, b, e, st);
    case Index(_, _) => last := IndexRuns(pr, ch, b, e, st);
  }

  lemma {:induction false} ListLitRuns(pr: Prims, ch: Chunk, b: nat, e: Expr, st: State) returns (last: Value)
    requires e.ListLit? && Forward(ch) && Encodes(ch, b, e) && Balanced(e)
    ensures Runs(pr, ch, b, st, b + Size(e), st.stack, EvalList(pr, e.elems, [], st.env), last)
    decreases e, 0
  {
    hide Run; hide Runs; hide EvalList; hide EncodesList;
    assert st.stack + [] == st.stack;
    last := ListRuns(pr, ch, b, e.elems, st.stack, [], st.env, st.last);
  }

  /** One instruction for a literal or a name. */
  lemma LeafRuns(pr: Prims, ch: Chunk, b: nat, e: Expr, st: State) returns (last: Value)
    requires e.Literal? || e.BoolLit? || e.NilLit? || e.Name?
    requires Forward(ch) && Encodes(ch, b, e)
    ensures Runs(pr, ch, b, st, b + Size(e), st.stack, Eval(pr, e, st.env), last)
  {
    hide Run; hide Runs; hide IsConst; hide Is; hide Get;
    last := st.last;
    match e
    case Literal(v) => RunPush(pr, ch, b, st, v);
    case BoolLit(x) => RunPush(pr, ch, b, st, Bool(x));
    case NilLit => RunPush(pr, ch, b, st, Nil);
    case Name(x) => RunGet(pr, ch, b, st, x);
  }

  lemma {:induction false} BindExprRuns(pr: Prims, ch: Chunk, b: nat, e: Expr, st: State) returns (last: Value)
    requires e.Bind? && Forward(ch) && EncodesBindExpr(ch, b, e) && Balanced(e.value) && NamedSpreads(e.pattern) == 0
    ensures Runs(pr, ch, b, st, b + Size(e.value) + BindSize(e.pattern), st.stack, EvalBind(pr, e, st.env), last)
    decreases e, 0
  {
    hide Run; hide Eval; hide Encodes; hide Size; hide Balanced;
    last := ExprRuns(pr, ch, b, e.value, st);
    var o := Eval(pr, e.value, st.env);
    if o.Val? {
      last := BindRuns(pr, ch, b + Size(e.value), e.pattern, e.asConst, st.stack, o.v, o.env, last);
    }
  }

  lemma {:induction false} AssignRuns(pr: Prims, ch: Chunk, b: nat, e: Expr, st: State) returns (last: Value)
    requires e.Assign? && Forward(ch) && EncodesAssign(ch, b, e) && Balanced(e.value)
    ensures Runs(pr, ch, b, st, b + Size(e.value) + 1, st.stack, EvalAssign(pr, e, st.env), last)
    decreases e, 0
  {
    hide Run; hide Eval; hide Encodes; hide Size; hide Balanced;
    last := ExprRuns(pr, ch, b, e.value, st);
    var o := Eval(pr, e.value, st.env);
    if o.Val? {
      RunAssign(pr, ch, b + Size(e.value), st.stack, o.v, o.env, last, e.target.name);
    }
  }

  lemma {:induction false} PrefixRuns(pr: Prims, ch: Chunk, b: nat, e: Expr, st: State) returns (last: Value)
    requires e.PrefixExpr? && Forward(ch) && EncodesPrefix(ch, b, e) && Balanced(e.operand)
    ensures Runs(pr, ch, b, st, b + Size(e.operand) + 1, st.stack, EvalPrefix(pr, e, st.env), last)
    decreases e, 0
  {
    hide Run; hide Eval; hide Encodes; hide Size; hide Balanced;
    last := ExprRuns(pr, ch, b, e.operand, st);
    var o := Eval(pr, e.operand, st.env);
    if o.Val? {
      RunPrefix(pr, ch, b + Size(e.operand), st.stack, o.v, o.env, last, e.prefix);
    }
  }

  lemma {:induction false} InfixRuns(pr: Prims, ch: Chunk, b: nat, e: Expr, st: State) returns (last: Value)
    requires e.Infix? && Forward(ch) && EncodesInfix(ch, b, e) && Balanced(Lowered(e).left)
             && Balanced(Lowered(e).right)
    ensures Runs(pr, ch, b, st, b + Size(Lowered(e).left) + Size(Lowered(e).right) + 1, st.stack,
            EvalInfix(pr, e, st.env), last)
    decreases e, 0
  {
    hide Run; hide Eval; hide Encodes; hide Size; hide Balanced;
    var op := Lowered(e);
    last := ExprRuns(pr, ch, b, op.left, st);
    var o := Eval(pr, op.left, st.env);
    if o.Val? {
      last := ExprRuns(pr, ch, b + Size(op.left), op.right, State(Push(st.stack, o.v), o.env, last));
      var o2 := Eval(pr, op.right, o.env);
      if o2.Val? {
        RunBinary(pr, ch, b + Size(op.left) + Size(op.right), st.stack, o.v, o2.v, o2.env, last, op.op);
      }
    }
  }

  lemma {:induction false} IndexRuns(pr: Prims, ch: Chunk, b: nat, e: Expr, st: State) returns (last: Value)
    requires e.Index? && Forward(ch) && EncodesIndex(ch, b, e) && Balanced(e.left) && Balanced(e.index)
    ensures Runs(pr, ch, b, st, b + Size(e.left) + Size(e.index) + 1, st.stack, EvalIndex(pr, e, st.env), last)
    decreases e, 0
  {
    hide Run; hide Eval; hide Encodes; hide Size; hide Balanced;
    last := ExprRuns(pr, ch, b, e.left, st);
    var o := Eval(pr, e.left, st.env);
    if o.Val? {
      last := ExprRuns(pr, ch, b + Size(e.left), e.index, State(Push(st.stack, o.v), o.env, last));
      var o2 := Eval(pr, e.index, o.env);
      if o2.Val? {
        RunIndex(pr, ch, b + Size(e.left) + Size(e.index), st.stack, o.v, o2.v, o2.env, last);
      }
    }
  }

  lemma {:induction false} AndRuns(pr: Prims, ch: Chunk, b: nat, e: Expr, st: State) returns (last: Value)
    requires e.And? && Forward(ch) && EncodesAnd(ch, b, e) && Balanced(e.left) && Balanced(e.right)
    ensures Runs(pr, ch, b, st, b + Size(e.left) + Size(e.right) + 3, st.stack, EvalAnd(pr, e, st.env), last)
    decreases e, 0
  {
    hide Run; hide Eval; hide Encodes; hide Size; hide Balanced;
    last := ExprRuns(pr, ch, b, e.left, st);
    var o := Eval(pr, e.left, st.env);
    if o.Val? {
      var n := b + Size(e.left);
      var m := n + 1 + Size(e.right);
      RunTest(pr, ch, n, st.stack, o.v, o.env, last, m + 1);
      if Truthy(o.v) {
        last := ExprRuns(pr, ch, n + 1, e.right, State(st.stack, o.env, last));
        var o2 := Eval(pr, e.right, o.env);
        if o2.Val? {
          RunJump(pr, ch, m, State(Push(st.stack, o2.v), o2.env, last), m + 2);
        }
      } else {
        RunPush(pr, ch, m + 1, State(st.stack, o.env, last), Bool(false));
      }
    }
  }

  lemma {:induction false} OrRuns(pr: Prims, ch: Chunk, b: nat, e: Expr, st: State) returns (last: Value)
    requires e.Or? && Forward(ch) && EncodesOr(ch, b, e) && Balanced(e.left) && Balanced(e.right)
    ensures Runs(pr, ch, b, st, b + Size(e.left) + Size(e.right) + 3, st.stack, EvalOr(pr, e, st.env), last)
    decreases e, 0
  {
    hide Run; hide Eval; hide Encodes; hide Size; hide Balanced; hide Push;
    last := ExprRuns(pr, ch, b, e.left, st);
    var o := Eval(pr, e.left, st.env);
    if o.Val? {
      var m := b + Size(e.left);
      RunTest(pr, ch, m, st.stack, o.v, o.env, last, m + 3);
      if Truthy(o.v) {
        RunPush(pr, ch, m + 1, State(st.stack, o.env, last), Bool(true));
        RunJump(pr, ch, m + 2, State(Push(st.stack, Bool(true)), o.env, last), m + 3 + Size(e.right));
      } else {
        last := ExprRuns(pr, ch, m + 3, e.right, State(st.stack, o.env, last));
      }
    }
  }

  lemma {:induction false} IfRuns(pr: Prims, ch: Chunk, b: nat, e: Expr, st: State) returns (last: Value)
    requires e.If? && Forward(ch) && EncodesIf(ch, b, e) && Balanced(e.cond) && Balanced(e.thn)
    requires e.els.Some? ==> Balanced(e.els.value)
    ensures Runs(pr, ch, b, st, b + Size(e.cond) + Size(e.thn) + 2 + (if e.els.Some? then Size(e.els.value) else 1),
            st.stack, EvalIf(pr, e, st.env), last)
    decreases e, 0
  {
    hide Run; hide Eval; hide Encodes; hide Size; hide Balanced; hide Push;
    last := ExprRuns(pr, ch, b, e.cond, st);
    var o := Eval(pr, e.cond, st.env);
    if o.Val? {
      var m := b + Size(e.cond);
      var n := m + 1 + Size(e.thn);
      RunTest(pr, ch, m, st.stack, o.v, o.env, last, n + 1);
      if Truthy(o.v) {
        last := ExprRuns(pr, ch, m + 1, e.thn, State(st.stack, o.env, last));
        var o2 := Eval(pr, e.thn, o.env);
        if o2.Val? {
          RunJump(pr, ch, n, State(Push(st.stack, o2.v), o2.env, last),
            n + 1 + (if e.els.Some? then Size(e.els.value) else 1));
        }
      } else if e.els.Some? {
        last := ExprRuns(pr, ch, n + 1, e.els.value, State(st.stack, o.env, last));
      } else {
        RunPush(pr, ch, n + 1, State(st.stack, o.env, last), Nil);
      }
    }
  }

  lemma {:induction false} ListRuns(pr: Prims, ch: Chunk, b: nat, es: seq<Expr>, s: seq<Value>, done: seq<Value>,
                                    env: Env, last0: Value)
    returns (last: Value)
    requires Forward(ch) && EncodesList(ch, b, es) && Is(ch, b + ListSize(es), OpArray(|done| + |es|))
    requires forall i | 0 <= i < |es| :: Balanced(es[i])
    ensures Runs(pr, ch, b, State(s + done, env, last0), b + ListSize(es) + 1, s, EvalList(pr, es, done, env), last)
    decreases es, 0
  {
    hide Run; hide Eval; hide Encodes; hide Size; hide Balanced;
    last := last0;
    if es == [] {
      RunArray(pr, ch, b, s, done, env, last);
    } else {
      last := ExprRuns(pr, ch, b, es[0], State(s + done, env, last));
      var o := Eval(pr, es[0], env);
      if o.Val? {
        assert Push(s + done, o.v) == s + (done + [o.v]);
        last := ListRuns(pr, ch, b + Size(es[0]), es[1..], s, done + [o.v], o.env, last);
      }
    }
  }

  // ----- blocks and statements -----

  lemma {:induction false} BlockRuns(pr: Prims, ch: Chunk, b: nat, e: Expr, st: State) returns (last: Value)
    requires e.Block? && Forward(ch) && EncodesBlock(ch, b, e)
    requires forall i | 0 <= i < |e.stmts| :: Balanced(e.stmts[i].e)
    ensures Runs(pr, ch, b, st, b + (if e.stmts == [] then 3 else StmtsSize(e.stmts) + 2), st.stack,
            EvalBlock(pr, e, st.env), last)
    decreases e, 0
  {
    hide Run; hide EvalStmts; hide EncodesStmts; hide StmtsSize; hide Balanced;
    last := st.last;
    RunEnter(pr, ch, b, st);
    var env := Enclosed(st.env);
    if e.stmts == [] {
      RunPush(pr, ch, b + 1, State(st.stack, env, last), Nil);
      RunLeave(pr, ch, b + 2, st.stack, Nil, env, last);
    } else {
      last := StmtsRuns(pr, ch, b + 1, e.stmts, State(st.stack, env, last));
      var o := EvalStmts(pr, e.stmts, env);
      if o.Val? {
        RunLeave(pr, ch, b + 1 + StmtsSize(e.stmts), st.stack, o.v, o.env, last);
      }
    }
  }

  lemma {:induction false} StmtsRuns(pr: Prims, ch: Chunk, b: nat, stmts: seq<Stmt>, st: State) returns (last: Value)
    requires stmts != [] && Forward(ch) && EncodesStmts(ch, b, stmts)
    requires forall i | 0 <= i < |stmts| :: Balanced(stmts[i].e)
    ensures Runs(pr, ch, b, st, b + StmtsSize(stmts), st.stack, EvalStmts(pr, stmts, st.env), last)
    decreases stmts, 0
  {
    hide Run; hide EvalStmt; hide EncodesStmt; hide StmtSize; hide Balanced;
    last := StmtRuns(pr, ch, b, stmts[0], st);
    var o := EvalStmt(pr, stmts[0], st.env);
    if o.Val? && |stmts| > 1 {
      RunPop(pr, ch, b + StmtSize(stmts[0]), st.stack, o.v, o.env, last);
      last := StmtsRuns(pr, ch, b + StmtSize(stmts[0]) + 1, stmts[1..], State(st.stack, o.env, o.v));
    }
  }

  lemma {:induction false} StmtRuns(pr: Prims, ch: Chunk, b: nat, stmt: Stmt, st: State) returns (last: Value)
    requires Forward(ch) && EncodesStmt(ch, b, stmt) && Balanced(stmt.e)
    ensures Runs(pr, ch, b, st, b + StmtSize(stmt), st.stack, EvalStmt(pr, stmt, st.env), last)
    decreases stmt, 0
  {
    hide Run; hide Eval; hide Encodes; hide Size; hide Balanced;
    last := ExprRuns(pr, ch, b, stmt.e, st);
    var o := Eval(pr, stmt.e, st.env);
    if o.Val? && stmt.Return? {
      RunReturn(pr, ch, b + Size(stmt.e), st.stack, o.v, o.env, last);
    } else if o.Val? && stmt.Throw? {
      RunThrow(pr, ch, b + Size(stmt.e), st.stack, o.v, o.env, last);
    }
  }

  // ----- binding patterns -----

  lemma {:induction false} BindRuns(pr: Prims, ch: Chunk, b: nat, p: Pattern, asConst: bool, s: seq<Value>, v: Value,
                                    env: Env, last0: Value)
    returns (last: Value)
    requires Forward(ch) && EncodesBind(ch, b, p, asConst) && NamedSpreads(p) == 0
    ensures Runs(pr, ch, b, State(Push(s, v), env, last0), b + BindSize(p), s, BindAll(pr, p, v, asConst, env), last)
    decreases p, 1
  {
    hide Run; hide Runs;
    hide BindAs; hide BindElems; hide EncodesBindAs; hide EncodesBindElems;
    last := last0;
    match p
    case Ident(x) => RunSet(pr, ch, b, s, v, env, last, x, asConst);
    case As(_, _) => last := BindAsRuns(pr, ch, b, p, asConst, s, v, env, last);
    case ListPat(ps) => last := BindElemsRuns(pr, ch, b, ps, 0, asConst, s, v, env, last);
  }

  lemma {:induction false} BindAsRuns(pr: Prims, ch: Chunk, b: nat, p: Pattern, asConst: bool, s: seq<Value>, v: Value,
                                      env: Env, last0: Value)
    returns (last: Value)
    requires p.As? && Forward(ch) && EncodesBindAs(ch, b, p, asConst) && NamedSpreads(p.inner) == 0
    ensures Runs(pr, ch, b, State(Push(s, v), env, last0), b + 3 + BindSize(p.inner), s,
            BindAs(pr, p, v, asConst, env), last)
    decreases p, 0
  {
    hide Run; hide BindAll; hide EncodesBind; hide BindSize; hide NamedSpreads;
    last := last0;
    RunDup(pr, ch, b, s, v, env, last);
    RunSet(pr, ch, b + 1, Push(s, v), v, env, last, p.name, asConst);
    var r := Define(env, p.name, v, asConst);
    if r.Updated? {
      RunPop(pr, ch, b + 2, Push(s, v), v, r.env, last);
      last := BindRuns(pr, ch, b + 3, p.inner, asConst, s, v, r.env, v);
    }
  }

  lemma {:induction false} BindElemsRuns(pr: Prims, ch: Chunk, b: nat, ps: seq<Pattern>, i: nat, asConst: bool,
                                         s: seq<Value>, v: Value, env: Env, last0: Value)
    returns (last: Value)
    requires Forward(ch) && EncodesBindElems(ch, b, ps, i, asConst) && NamedSpreadsIn(ps) == 0
    ensures Runs(pr, ch, b, State(Push(s, v), env, last0), b + BindElemsSize(ps), s,
            BindElems(pr, ps, i, v, asConst, env), last)
    decreases ps, 0
  {
    hide Run; hide BindElem; hide EncodesBindElem; hide BindElemSize; hide NamedSpreads;
    last := last0;
    if ps != [] {
      last := BindElemRuns(pr, ch, b, ps[0], i, asConst, s, v, env, last);
      var o := BindElem(pr, ps[0], i, v, asConst, env);
      if o.Val? {
        last := BindElemsRuns(pr, ch, b + BindElemSize(ps[0]), ps[1..], i + 1, asConst, s, v, o.env, last);
      }
    }
  }

  lemma {:induction false} BindElemRuns(pr: Prims, ch: Chunk, b: nat, p: Pattern, i: nat, asConst: bool, s: seq<Value>,
                                        v: Value, env: Env, last0: Value)
    returns (last: Value)
    requires Forward(ch) && EncodesBindElem(ch, b, p, i, asConst) && NamedSpreads(p) == 0
    ensures Runs(pr, ch, b, State(Push(s, v), env, last0), b + BindElemSize(p), s, BindElem(pr, p, i, v, asConst, env),
            last)
    decreases p, 3
  {
    hide Run; hide BindPart; hide EncodesBindPart; hide BindSize;
    last := last0;
    if !p.Wildcard? && !p.Spread? {
      last := BindPartRuns(pr, ch, b, p, i, asConst, s, v, env, last);
    }
  }

  lemma {:induction false} BindPartRuns(pr: Prims, ch: Chunk, b: nat, p: Pattern, i: nat, asConst: bool, s: seq<Value>,
                                        v: Value, env: Env, last0: Value)
    returns (last: Value)
    requires Forward(ch) && EncodesBindPart(ch, b, p, i, asConst) && NamedSpreads(p) == 0
    ensures Runs(pr, ch, b, State(Push(s, v), env, last0), b + 4 + BindSize(p), s, BindPart(pr, p, i, v, asConst, env),
            last)
    decreases p, 2
  {
    hide Run; hide BindAll; hide EncodesBind; hide BindSize; hide NamedSpreads; hide EncodesFetch; hide IndexValue;
    last := last0;
    RunFetch(pr, ch, b, s, v, env, last, i);
    var r := IndexValue(pr, v, Num(FromInt(i)));
    if r.Ok? {
      last := BindRuns(pr, ch, b + 3, p, asConst, Push(s, v), r.value, env, last);
      var o := BindAll(pr, p, r.value, asConst, env);
      if o.Val? {
        RunPop(pr, ch, b + 3 + BindSize(p), Push(s, v), o.v, o.env, last);
        last := o.v;
      }
    }
  }

  // ----- match -----

  lemma {:induction false} MatchRuns(pr: Prims, ch: Chunk, b: nat, e: Expr, st: State) returns (last: Value)
    requires e.Match? && Forward(ch) && EncodesMatch(ch, b, e)
    requires Balanced(e.subject) && forall i | 0 <= i < |e.cases| :: BalancedCase(e.cases[i])
    ensures Runs(pr, ch, b, st, b + Size(e.subject) + CasesSize(e.cases) + 2, st.stack, EvalMatch(pr, e, st.env), last)
    decreases e, 0
  {
    hide Run; hide Eval; hide Encodes; hide Size; hide Balanced; hide EvalCases; hide EncodesCases; hide CasesSize;
    hide BalancedCase;
    last := ExprRuns(pr, ch, b, e.subject, st);
    var o := Eval(pr, e.subject, st.env);
    if o.Val? {
      var m := b + Size(e.subject);
      last := CasesRuns(pr, ch, m, e.cases, m + CasesSize(e.cases) + 2, st.stack, o.v, o.env, last);
    }
  }

  lemma {:induction false} CasesRuns(pr: Prims, ch: Chunk, b: nat, cases: seq<Case>, end: nat, s: seq<Value>, v: Value,
                                     env: Env, last0: Value)
    returns (last: Value)
    requires Forward(ch) && EncodesCases(ch, b, cases, end) && end == b + CasesSize(cases) + 2
    requires Is(ch, end - 2, OpPop) && Is(ch, end - 1, OpNil)
    requires forall i | 0 <= i < |cases| :: BalancedCase(cases[i])
    ensures Runs(pr, ch, b, State(Push(s, v), env, last0), end, s, EvalCases(pr, cases, v, env), last)
    decreases cases, 0
  {
    hide Run; hide EvalCase; hide EncodesCase; hide CaseSize; hide BalancedCase;
    last := last0;
    if cases == [] {
      RunPop(pr, ch, b, s, v, env, last);
      RunPush(pr, ch, b + 1, State(s, env, v), Nil);
      last := v;
    } else {
      last := CaseRuns(pr, ch, b, cases[0], end, s, v, env, last);
      var t := EvalCase(pr, cases[0], v, env);
      if t.Skipped? {
        last := CasesRuns(pr, ch, b + CaseSize(cases[0]), cases[1..], end, s, v, t.env, last);
      }
    }
  }

  /** A case: its outcome is that of the whole match, or the next case is reached with the same stack. */
  predicate Tries(pr: Prims, ch: Chunk, b: nat, st: State, next: nat, end: nat, s: seq<Value>, v: Value, t: Tried,
                  last: Value)
    requires Forward(ch)
  {
    if t.Taken? then Runs(pr, ch, b, st, end, s, t.outcome, last)
    else Run(pr, ch, b, st) == Run(pr, ch, next, State(Push(s, v), t.env, last))
  }

  lemma {:induction false} CaseRuns(pr: Prims, ch: Chunk, b: nat, c: Case, end: nat, s: seq<Value>, v: Value, env: Env,
                                    last0: Value)
    returns (last: Value)
    requires Forward(ch) && EncodesCase(ch, b, c, end) && BalancedCase(c)
    ensures Tries(pr, ch, b, State(Push(s, v), env, last0), b + CaseSize(c), end, s, v, EvalCase(pr, c, v, env), last)
    decreases c, 2
  {
    hide Run; hide Runs; hide Tries; hide EvalScopedCase; hide EvalFlatCase; hide EncodesScopedCase;
    hide EncodesFlatCase;
    hide Size; hide GuardSize; hide FlatSize; hide ScopedSize;
    if Scoped(Stripped(c.pattern)) {
      last := ScopedCaseRuns(pr, ch, b, c, end, s, v, env, last0);
    } else {
      last := FlatCaseRuns(pr, ch, b, c, end, s, v, env, last0);
    }
  }

  lemma {:induction false} ScopedCaseRuns(pr: Prims, ch: Chunk, b: nat, c: Case, end: nat, s: seq<Value>, v: Value,
                                          env: Env, last0: Value)
    returns (last: Value)
    requires Scoped(Stripped(c.pattern)) && Forward(ch) && EncodesScopedCase(ch, b, c, end) && BalancedCase(c)
    ensures Tries(pr, ch, b, State(Push(s, v), env, last0),
                  b + 1 + WholeSize(c.pattern) + ScopedSize(Stripped(c.pattern)) + GuardSize(c.guard) + Size(c.body) + 3
                  + (if Stripped(c.pattern).Ident? && c.guard.None? then 0 else 1),
                  end, s, v, EvalScopedCase(pr, c, v, env), last)
    decreases c, 1
  {
    hide Run; hide Eval; hide Encodes; hide Size; hide Balanced; hide MatchScoped;
    hide ScopedSize; hide GuardSize; hide EncodesScoped; hide EncodesGuard; hide EncodesWhole;
    RunEnter(pr, ch, b, State(Push(s, v), env, last0));
    var env0 := Enclosed(env);
    var body := b + 1 + WholeSize(c.pattern) + ScopedSize(Stripped(c.pattern)) + GuardSize(c.guard);
    var fail := body + Size(c.body) + 3;
    last := ScopedRuns(pr, ch, b + 1, c, fail, s, v, env0, last0);
    var m := MatchScoped(pr, c, v, env0);
    if m.Hit? {
      RunPop(pr, ch, body, s, v, m.env, last);
      last := ExprRuns(pr, ch, body + 1, c.body, State(s, m.env, v));
      var o := Eval(pr, c.body, m.env);
      if o.Val? {
        RunLeave(pr, ch, fail - 2, s, o.v, o.env, last);
        RunJump(pr, ch, fail - 1, State(Push(s, o.v), Leave(o.env), last), end);
      }
    } else if m.Miss? {
      NoMissWithoutTest(pr, c, v, env0);
      RunLeave(pr, ch, fail, s, v, m.env, last);
    }
  }

  /** A bare name without a guard always matches, so it needs no code for a miss. */
  lemma NoMissWithoutTest(pr: Prims, c: Case, v: Value, env: Env)
    requires Scoped(Stripped(c.pattern)) && MatchScoped(pr, c, v, env).Miss?
    ensures !(Stripped(c.pattern).Ident? && c.guard.None?)
  {
    hide MatchList; hide Eval;
  }

  lemma {:induction false} ScopedRuns(pr: Prims, ch: Chunk, b: nat, c: Case, fail: nat, s: seq<Value>, v: Value,
                                      env: Env, last0: Value)
    returns (last: Value)
    requires Scoped(Stripped(c.pattern)) && Forward(ch) && BalancedPattern(c.pattern)
             && (c.guard.Some? ==> Balanced(c.guard.value))
    requires EncodesWhole(ch, b, c.pattern)
    requires EncodesScoped(ch, b + WholeSize(c.pattern), Stripped(c.pattern), fail)
    requires EncodesGuard(ch, b + WholeSize(c.pattern) + ScopedSize(Stripped(c.pattern)), c.guard, fail)
    ensures Tests(pr, ch, b, State(Push(s, v), env, last0),
                  b + WholeSize(c.pattern) + ScopedSize(Stripped(c.pattern)) + GuardSize(c.guard), fail, Push(s, v),
                  MatchScoped(pr, c, v, env), last)
    decreases c, 0
  {
    hide Run; hide Eval; hide Encodes; hide Size; hide Balanced; hide MatchBinding; hide EvalGuard;
    hide ScopedSize; hide GuardSize; hide EncodesScoped; hide EncodesGuard;
    last := last0;
    var m0 := if c.pattern.As? then BindOne(env, c.pattern.name, v) else Hit(env);
    if c.pattern.As? {
      last := NameRuns(pr, ch, b, s, v, env, last, c.pattern.name, fail);
    }
    if m0.Hit? {
      var b1 := b + WholeSize(c.pattern);
      last := BindingRuns(pr, ch, b1, Stripped(c.pattern), fail, s, v, m0.env, last);
      var m1 := MatchBinding(pr, Stripped(c.pattern), v, m0.env);
      if m1.Hit? {
        last := GuardRuns(pr, ch, b1 + ScopedSize(Stripped(c.pattern)), c.guard, fail, Push(s, v), m1.env, last);
      }
    }
  }

  /** Bind a copy of the value on top of the stack to a name. */
  lemma NameRuns(pr: Prims, ch: Chunk, b: nat, s: seq<Value>, v: Value, env: Env, last0: Value, x: string, fail: nat)
    returns (last: Value)
    requires Forward(ch) && Is(ch, b, OpDup) && Is(ch, b + 1, OpSetGlobal(x, true)) && Is(ch, b + 2, OpPop)
    ensures Tests(pr, ch, b, State(Push(s, v), env, last0), b + 3, fail, Push(s, v), BindOne(env, x, v), last)
  {
    hide Run;
    RunDup(pr, ch, b, s, v, env, last0);
    RunSet(pr, ch, b + 1, Push(s, v), v, env, last0, x, true);
    var r := Define(env, x, v, true);
    if r.Updated? {
      RunPop(pr, ch, b + 2, Push(s, v), v, r.env, last0);
    }
    last := v;
  }

  lemma {:induction false} BindingRuns(pr: Prims, ch: Chunk, b: nat, p: Pattern, fail: nat, s: seq<Value>, v: Value,
                                       env: Env, last0: Value)
    returns (last: Value)
    requires Scoped(p) && Forward(ch) && EncodesScoped(ch, b, p, fail) && BalancedPattern(p)
    ensures Tests(pr, ch, b, State(Push(s, v), env, last0), b + ScopedSize(p), fail, Push(s, v),
            MatchBinding(pr, p, v, env), last)
    decreases p, 3
  {
    hide Run; hide Tests; hide MatchList; hide EncodesLength; hide EncodesElems; hide ElemsSize;
    match p
    case Ident(x) => last := NameRuns(pr, ch, b, s, v, env, last0, x, fail);
    case ListPat(ps) => last := ListPatRuns(pr, ch, b, ps, fail, s, v, env, last0);
  }

  lemma {:induction false} ListPatRuns(pr: Prims, ch: Chunk, b: nat, ps: seq<Pattern>, fail: nat, s: seq<Value>,
                                       v: Value, env: Env, last0: Value)
    returns (last: Value)
    requires Forward(ch) && EncodesLength(ch, b, ps, fail) && EncodesElems(ch, b + 3, ps, 0, fail)
    requires forall i | 0 <= i < |ps| :: BalancedPattern(ps[i])
    ensures Tests(pr, ch, b, State(Push(s, v), env, last0), b + 3 + ElemsSize(ps), fail, Push(s, v),
            MatchList(pr, ps, v, env), last)
    decreases ps, 1
  {
    hide Run; hide MatchElems; hide EncodesElems; hide ElemsSize;
    last := last0;
    RunLength(pr, ch, b, s, v, env, last, ps, fail);
    if LengthFits(ps, v) {
      last := ElemsRuns(pr, ch, b + 3, ps, 0, fail, s, v, env, last);
    }
  }

  lemma {:induction false} ElemsRuns(pr: Prims, ch: Chunk, b: nat, ps: seq<Pattern>, i: nat, fail: nat, s: seq<Value>,
                                     v: Value, env: Env, last0: Value)
    returns (last: Value)
    requires Forward(ch) && EncodesElems(ch, b, ps, i, fail) && SpreadsLast(ps) && SeqLen(v).Some?
    requires ps != [] ==> i + |ps| <= SeqLen(v).value + (if EndsInSpread(ps) then 1 else 0)
    requires forall k | 0 <= k < |ps| :: BalancedPattern(ps[k])
    ensures Tests(pr, ch, b, State(Push(s, v), env, last0), b + ElemsSize(ps), fail, Push(s, v),
            MatchElems(pr, ps, i, v, env), last)
    decreases ps, 0
  {
    hide Run; hide MatchElem; hide EncodesElem; hide ElemSize;
    last := last0;
    if ps != [] {
      last := ElemRuns(pr, ch, b, ps[0], i, fail, s, v, env, last);
      var m := MatchElem(pr, ps[0], i, v, env);
      if m.Hit? {
        last := ElemsRuns(pr, ch, b + ElemSize(ps[0]), ps[1..], i + 1, fail, s, v, m.env, last);
      }
    }
  }

  lemma {:induction false} ElemRuns(pr: Prims, ch: Chunk, b: nat, p: Pattern, i: nat, fail: nat, s: seq<Value>,
                                    v: Value, env: Env, last0: Value)
    returns (last: Value)
    requires Forward(ch) && EncodesElem(ch, b, p, i, fail) && SeqLen(v).Some? && (p.Spread? || i < SeqLen(v).value)
    requires BalancedPattern(p)
    ensures Tests(pr, ch, b, State(Push(s, v), env, last0), b + ElemSize(p), fail, Push(s, v),
            MatchElem(pr, p, i, v, env), last)
    decreases p, 4
  {
    hide Run; hide Tests; hide MatchList; hide MatchEqual; hide EncodesNested; hide EncodesTest; hide ElemsSize;
    hide OperandSize;
    hide IndexValue; hide SeqAt; hide SeqTail; hide BindOne; hide EncodesFetch;
    last := last0;
    if p.Spread? && p.rest.Some? {
      last := SpreadRuns(pr, ch, b, p.rest.value, i, fail, s, v, env, last);
    } else if p.Wildcard? || p.Spread? {
      NothingRuns(pr, ch, b, fail, State(Push(s, v), env, last));
    } else {
      last := PartRuns(pr, ch, b, p, i, fail, s, v, env, last0);
    }
  }

  /** An element that is fetched: bound, matched by a nested list pattern, or compared. */
  lemma {:induction false} PartRuns(pr: Prims, ch: Chunk, b: nat, p: Pattern, i: nat, fail: nat, s: seq<Value>,
                                    v: Value, env: Env, last0: Value)
    returns (last: Value)
    requires !p.Spread? && !p.Wildcard?
    requires Forward(ch) && EncodesElem(ch, b, p, i, fail) && SeqLen(v).Some? && i < SeqLen(v).value
    requires BalancedPattern(p)
    ensures Tests(pr, ch, b, State(Push(s, v), env, last0), b + ElemSize(p), fail, Push(s, v),
            MatchElem(pr, p, i, v, env), last)
    decreases p, 3
  {
    hide Run; hide Tests; hide MatchList; hide MatchEqual; hide EncodesNested; hide EncodesTest; hide ElemsSize;
    hide OperandSize; hide Push;
    hide IndexValue; hide SeqAt; hide SeqTail; hide BindOne; hide EncodesFetch;
    last := last0;
    IndexIsSeqAt(pr, v, i);
    RunFetch(pr, ch, b, s, v, env, last, i);
    if p.Ident? {
      last := SetAndDrop(pr, ch, b + 3, Push(s, v), SeqAt(v, i), env, last, p.name, fail);
    } else if p.ListPat? {
      last := NestedRuns(pr, ch, b + 3, p.elems, fail, Push(s, v), SeqAt(v, i), env, last);
    } else {
      last := TestRuns(pr, ch, b + 3, p, fail, Push(s, v), SeqAt(v, i), env, last);
    }
    TestsFrom(pr, ch, b, State(Push(s, v), env, last0), b + 3, State(Push(Push(s, v), SeqAt(v, i)), env, last0),
              b + ElemSize(p), fail, Push(s, v), MatchElem(pr, p, i, v, env), last);
  }

  /** No instructions at all. */
  lemma NothingRuns(pr: Prims, ch: Chunk, b: nat, fail: nat, st: State)
    requires Forward(ch)
    ensures Tests(pr, ch, b, st, b, fail, st.stack, Hit(st.env), st.last)
  {
    hide Run;
  }

  /** A test that starts where another stretch of code ends. */
  lemma TestsFrom(pr: Prims, ch: Chunk, b: nat, st: State, b1: nat, st1: State, n: nat, fail: nat, s: seq<Value>,
                  m: Matched, last: Value)
    requires Forward(ch) && Run(pr, ch, b, st) == Run(pr, ch, b1, st1)
    requires Tests(pr, ch, b1, st1, n, fail, s, m, last)
    ensures Tests(pr, ch, b, st, n, fail, s, m, last)
  {
    hide Run;
  }

  lemma SpreadRuns(pr: Prims, ch: Chunk, b: nat, x: string, i: nat, fail: nat, s: seq<Value>, v: Value, env: Env,
                   last0: Value)
    returns (last: Value)
    requires Forward(ch) && SeqLen(v).Some?
    requires Is(ch, b, OpDup) && Is(ch, b + 1, OpMatchSeqTail(i)) && Is(ch, b + 2, OpSetGlobal(x, true))
             && Is(ch, b + 3, OpPop)
    ensures Tests(pr, ch, b, State(Push(s, v), env, last0), b + 4, fail, Push(s, v), BindOne(env, x, SeqTail(v, i)),
            last)
  {
    hide Run;
    RunDup(pr, ch, b, s, v, env, last0);
    RunTail(pr, ch, b + 1, Push(s, v), v, env, last0, i);
    last := SetAndDrop(pr, ch, b + 2, Push(s, v), SeqTail(v, i), env, last0, x, fail);
  }

  lemma SetAndDrop(pr: Prims, ch: Chunk, b: nat, s: seq<Value>, v: Value, env: Env, last0: Value, x: string, fail: nat)
    returns (last: Value)
    requires Forward(ch) && Is(ch, b, OpSetGlobal(x, true)) && Is(ch, b + 1, OpPop)
    ensures Tests(pr, ch, b, State(Push(s, v), env, last0), b + 2, fail, s, BindOne(env, x, v), last)
  {
    hide Run;
    RunSet(pr, ch, b, s, v, env, last0, x, true);
    var r := Define(env, x, v, true);
    if r.Updated? {
      RunPop(pr, ch, b + 1, s, v, r.env, last0);
    }
    last := v;
  }

  lemma {:induction false} NestedRuns(pr: Prims, ch: Chunk, b: nat, ps: seq<Pattern>, fail: nat, s: seq<Value>,
                                      v: Value, env: Env, last0: Value)
    returns (last: Value)
    requires Forward(ch) && EncodesNested(ch, b, ps, fail)
    requires forall i | 0 <= i < |ps| :: BalancedPattern(ps[i])
    ensures Tests(pr, ch, b, State(Push(s, v), env, last0), b + 7 + ElemsSize(ps), fail, s, MatchList(pr, ps, v, env),
            last)
    decreases ps, 2
  {
    hide Run; hide MatchList; hide EncodesElems; hide EncodesLength; hide ElemsSize;
    var m := b + 3 + ElemsSize(ps);
    last := ListPatRuns(pr, ch, b, ps, m + 2, s, v, env, last0);
    var r := MatchList(pr, ps, v, env);
    if r.Hit? {
      RunPop(pr, ch, m, s, v, r.env, last);
      RunJump(pr, ch, m + 1, State(s, r.env, v), m + 4);
    } else if r.Miss? {
      RunPop(pr, ch, m + 2, s, v, r.env, last);
      RunJump(pr, ch, m + 3, State(s, r.env, v), fail);
    }
    last := v;
  }

  lemma {:induction false} TestRuns(pr: Prims, ch: Chunk, b: nat, p: Pattern, fail: nat, s: seq<Value>, v: Value,
                                    env: Env, last0: Value)
    returns (last: Value)
    requires Forward(ch) && EncodesTest(ch, b, p, fail) && BalancedPattern(p)
    ensures Tests(pr, ch, b, State(Push(s, v), env, last0), b + OperandSize(p) + 2, fail, s, MatchEqual(pr, p, v, env),
            last)
    decreases p, 1
  {
    hide Run; hide EvalOperand; hide EncodesOperand; hide OperandSize; hide BalancedPattern; hide ObjectsEqual;
    hide Push;
    last := OperandRuns(pr, ch, b, p, State(Push(s, v), env, last0));
    var o := EvalOperand(pr, p, env);
    if o.Val? {
      RunBinary(pr, ch, b + OperandSize(p), s, v, o.v, o.env, last, Eq);
      RunTest(pr, ch, b + OperandSize(p) + 1, s, Bool(ObjectsEqual(pr, v, o.v)), o.env, last, fail);
    }
  }

  lemma {:induction false} OperandRuns(pr: Prims, ch: Chunk, b: nat, p: Pattern, st: State) returns (last: Value)
    requires Forward(ch) && EncodesOperand(ch, b, p) && BalancedPattern(p)
    ensures Runs(pr, ch, b, st, b + OperandSize(p), st.stack, EvalOperand(pr, p, st.env), last)
    decreases p, 0
  {
    hide Run; hide Runs; hide Eval; hide Encodes; hide Size; hide Balanced;
    last := st.last;
    match p
    case LiteralPat(e) => last := ExprRuns(pr, ch, b, e, st);
    case Pinned(x) => RunGet(pr, ch, b, st, x);
  }

  lemma {:induction false} GuardRuns(pr: Prims, ch: Chunk, b: nat, g: Option<Expr>, fail: nat, s: seq<Value>, env: Env,
                                     last0: Value)
    returns (last: Value)
    requires Forward(ch) && EncodesGuard(ch, b, g, fail) && (g.Some? ==> Balanced(g.value))
    ensures Tests(pr, ch, b, State(s, env, last0), b + GuardSize(g), fail, s, EvalGuard(pr, g, env), last)
    decreases g, 0
  {
    hide Run; hide Eval; hide Encodes; hide Size; hide Balanced;
    last := last0;
    if g.Some? {
      last := ExprRuns(pr, ch, b, g.value, State(s, env, last));
      var o := Eval(pr, g.value, env);
      if o.Val? {
        RunTest(pr, ch, b + Size(g.value), s, o.v, o.env, last, fail);
      }
    }
  }

  lemma {:induction false} FlatCaseRuns(pr: Prims, ch: Chunk, b: nat, c: Case, end: nat, s: seq<Value>, v: Value,
                                        env: Env, last0: Value)
    returns (last: Value)
    requires Forward(ch) && EncodesFlatCase(ch, b, c, end) && BalancedCase(c)
    ensures Tries(pr, ch, b, State(Push(s, v), env, last0),
                  b + FlatSize(Stripped(c.pattern)) + GuardSize(c.guard) + Size(c.body) + 2,
                  end, s, v, EvalFlatCase(pr, c, v, env), last)
    decreases c, 1
  {
    hide Run; hide Eval; hide Encodes; hide Size; hide Balanced; hide MatchFlat;
    hide FlatSize; hide GuardSize; hide EncodesFlat; hide EncodesGuard;
    var g := b + FlatSize(Stripped(c.pattern));
    var body := g + GuardSize(c.guard);
    var next := body + Size(c.body) + 2;
    last := FlatRuns(pr, ch, b, c, next, s, v, env, last0);
    var m := MatchFlat(pr, c, v, env);
    if m.Hit? {
      RunPop(pr, ch, body, s, v, m.env, last);
      last := ExprRuns(pr, ch, body + 1, c.body, State(s, m.env, v));
      var o := Eval(pr, c.body, m.env);
      if o.Val? {
        RunJump(pr, ch, next - 1, State(Push(s, o.v), o.env, last), end);
      }
    }
  }

  lemma {:induction false} FlatRuns(pr: Prims, ch: Chunk, b: nat, c: Case, fail: nat, s: seq<Value>, v: Value, env: Env,
                                    last0: Value)
    returns (last: Value)
    requires Forward(ch) && BalancedPattern(c.pattern) && (c.guard.Some? ==> Balanced(c.guard.value))
    requires EncodesFlat(ch, b, Stripped(c.pattern), fail)
    requires EncodesGuard(ch, b + FlatSize(Stripped(c.pattern)), c.guard, fail)
    ensures Tests(pr, ch, b, State(Push(s, v), env, last0), b + FlatSize(Stripped(c.pattern)) + GuardSize(c.guard),
            fail, Push(s, v),
                  MatchFlat(pr, c, v, env), last)
    decreases c, 0
  {
    hide Run; hide Eval; hide Encodes; hide Size; hide Balanced; hide MatchNonBinding; hide EvalGuard;
    hide FlatSize; hide GuardSize; hide EncodesFlat; hide EncodesGuard;
    last := NonBindingRuns(pr, ch, b, Stripped(c.pattern), fail, s, v, env, last0);
    var m := MatchNonBinding(pr, Stripped(c.pattern), v, env);
    if m.Hit? {
      last := GuardRuns(pr, ch, b + FlatSize(Stripped(c.pattern)), c.guard, fail, Push(s, v), m.env, last);
    }
  }

  lemma {:induction false} NonBindingRuns(pr: Prims, ch: Chunk, b: nat, p: Pattern, fail: nat, s: seq<Value>, v: Value,
                                          env: Env, last0: Value)
    returns (last: Value)
    requires Forward(ch) && EncodesFlat(ch, b, p, fail) && BalancedPattern(p)
    ensures Tests(pr, ch, b, State(Push(s, v), env, last0), b + FlatSize(p), fail, Push(s, v),
            MatchNonBinding(pr, p, v, env), last)
    decreases p, 3
  {
    hide Run; hide Tests; hide MatchAny; hide MatchEqual; hide EncodesAlts; hide EncodesEqual; hide AltsSize;
    hide OperandSize;
    if p.Wildcard? {
      NothingRuns(pr, ch, b, fail, State(Push(s, v), env, last0));
      last := last0;
    } else if p.Multi? {
      last := AltsRun(pr, ch, b, p.alts, b + AltsSize(p.alts), fail, s, v, env, last0);
    } else {
      last := EqualRuns(pr, ch, b, p, fail, s, v, env, last0);
    }
  }

  lemma {:induction false} EqualRuns(pr: Prims, ch: Chunk, b: nat, p: Pattern, fail: nat, s: seq<Value>, v: Value,
                                     env: Env, last0: Value)
    returns (last: Value)
    requires Forward(ch) && EncodesEqual(ch, b, p, fail) && BalancedPattern(p)
    ensures Tests(pr, ch, b, State(Push(s, v), env, last0), b + OperandSize(p) + 3, fail, Push(s, v),
            MatchEqual(pr, p, v, env), last)
    decreases p, 2
  {
    hide Run; hide MatchEqual; hide EncodesTest; hide OperandSize;
    RunDup(pr, ch, b, s, v, env, last0);
    last := TestRuns(pr, ch, b + 1, p, fail, Push(s, v), v, env, last0);
  }

  lemma {:induction false} AltsRun(pr: Prims, ch: Chunk, b: nat, alts: seq<Pattern>, m: nat, fail: nat, s: seq<Value>,
                                   v: Value, env: Env, last0: Value)
    returns (last: Value)
    requires Forward(ch) && EncodesAlts(ch, b, alts, m + 1) && m == b + AltsSize(alts)
    requires Is(ch, m, OpFalse) && Is(ch, m + 1, OpJumpIfFalse(fail))
    requires forall i | 0 <= i < |alts| :: BalancedPattern(alts[i])
    ensures Tests(pr, ch, b, State(Push(s, v), env, last0), m + 2, fail, Push(s, v), MatchAny(pr, alts, v, env), last)
    decreases alts, 0
  {
    hide Run; hide MatchEqual; hide EncodesTest; hide OperandSize; hide Push; hide BalancedPattern;
    last := last0;
    if alts == [] {
      RunPush(pr, ch, m, State(Push(s, v), env, last), Bool(false));
      RunTest(pr, ch, m + 1, Push(s, v), Bool(false), env, last, fail);
    } else {
      var n := b + OperandSize(alts[0]) + 5;
      RunDup(pr, ch, b, s, v, env, last);
      last := TestRuns(pr, ch, b + 1, alts[0], n, Push(s, v), v, env, last);
      var r := MatchEqual(pr, alts[0], v, env);
      if r.Hit? {
        AltMatches(pr, ch, n - 2, m, fail, State(Push(s, v), r.env, last));
      } else if r.Miss? {
        last := AltsRun(pr, ch, n, alts[1..], m, fail, s, v, r.env, last);
      }
    }
  }

  /** An alternative that matches: true is pushed and tested at the end of them all. */
  lemma AltMatches(pr: Prims, ch: Chunk, b: nat, m: nat, fail: nat, st: State)
    requires Forward(ch) && Is(ch, b, OpTrue) && Is(ch, b + 1, OpJump(m + 1)) && Is(ch, m + 1, OpJumpIfFalse(fail))
    ensures Run(pr, ch, b, st) == Run(pr, ch, m + 2, st)
  {
    hide Run;
    RunPush(pr, ch, b, st, Bool(true));
    RunJump(pr, ch, b + 1, State(Push(st.stack, Bool(true)), st.env, st.last), m + 1);
    RunTest(pr, ch, m + 1, st.stack, Bool(true), st.env, st.last, fail);
  }
}
