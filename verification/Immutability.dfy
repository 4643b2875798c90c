/** What a run cannot do to bindings: a `val` keeps its value, and every name stays what it was declared as, for as long
    as its scope is open. */
module Immutability {
  import opened Values
  import opened Environments
  import opened Bytecode
  import opened Machine

  /** The names of one scope: none goes away, none changes between `val` and `var`, and no `val` changes its value. */
  predicate Fixed(before: Table, after: Table) {
    forall x | x in before ::
      x in after && after[x].mutable == before[x].mutable && (!before[x].mutable ==> after[x].value == before[x].value)
  }

  /** The scope with so many scopes around it. */
  function AtHeight(env: Env, h: nat): Table
    requires h <= Depth(env)
  {
    if h == Depth(env) then env.vars else AtHeight(Leave(env), h)
  }

  /** All scopes of the first environment that the second still has are fixed. */
  predicate Keeps(e: Env, e1: Env) {
    forall h: nat | h <= Depth(e) && h <= Depth(e1) :: Fixed(AtHeight(e, h), AtHeight(e1, h))
  }

  lemma {:induction false} KeepsItself(env: Env)
    ensures Keeps(env, env)
  {}

  /** A declaration is refused exactly when the innermost scope has a `val` of that name; otherwise the name has the new
      value and is a `val` unless it was, or is declared as, a `var`. */
  lemma DefinedIff(env: Env, x: string, v: Value, asConst: bool)
    ensures var r := Define(env, x, v, asConst);
            && (r.Rejected? <==> x in env.vars && !env.vars[x].mutable)
            && (r.Updated? ==> x in r.env.vars && r.env.vars[x].value == v
                               && (r.env.vars[x].mutable <==> x in env.vars || !asConst))
  {}

  lemma {:induction false} DefineKeeps(env: Env, x: string, v: Value, asConst: bool)
    requires Define(env, x, v, asConst).Updated?
    ensures Keeps(env, Define(env, x, v, asConst).env)
  {
    var env1 := Define(env, x, v, asConst).env;
    forall h: nat | h <= Depth(env) && h <= Depth(env1) ensures Fixed(AtHeight(env, h), AtHeight(env1, h)) {
      if h < Depth(env) {
        assert Leave(env1) == Leave(env);
      }
    }
  }

  lemma {:induction false} AssignKeeps(env: Env, x: string, v: Value)
    requires AssignTo(env, x, v).Updated?
    ensures Keeps(env, AssignTo(env, x, v).env)
    decreases env
  {
    var env1 := AssignTo(env, x, v).env;
    if x !in env.vars {
      AssignKeeps(env.outer, x, v);
    }
    forall h: nat | h <= Depth(env) && h <= Depth(env1) ensures Fixed(AtHeight(env, h), AtHeight(env1, h)) {
      if h < Depth(env) {
        assert AtHeight(env, h) == AtHeight(Leave(env), h) && AtHeight(env1, h) == AtHeight(Leave(env1), h);
      }
    }
  }

  /** Entering and leaving a scope leaves the scopes around it alone. */
  lemma ScopeKeeps(vars: Table, outer: Env)
    ensures Keeps(outer, Scope(vars, outer)) && Keeps(Scope(vars, outer), outer)
  {
    forall h: nat | h <= Depth(outer) ensures AtHeight(Scope(vars, outer), h) == AtHeight(outer, h) {}
  }

  /** Whatever an instruction does, the scopes that are open before and after it are fixed. */
  lemma StepKeeps(pr: Prims, ch: Chunk, ip: nat, st: State)
    requires ip < |ch.code|
    ensures var r := Step(pr, ch, ip, st);
            Keeps(st.env, if r.Next? then r.st.env else r.outcome.env)
    ensures var r := Step(pr, ch, ip, st);
            r.Next? ==> Depth(st.env) <= Depth(r.st.env) + 1 && Depth(r.st.env) <= Depth(st.env) + 1
  {
    hide Compute; hide Keeps; hide Pushed;
    var ins, n := ch.code[ip], |st.stack|;
    KeepsItself(st.env);
    if n >= Operands(ins) && Rescopes(ins) {
      match ins
      case OpSetGlobal(x, asConst) =>
        if Define(st.env, x, st.stack[n - 1], asConst).Updated? { DefineKeeps(st.env, x, st.stack[n - 1], asConst); }
      case OpAssignGlobal(x) =>
        if AssignTo(st.env, x, st.stack[n - 1]).Updated? { AssignKeeps(st.env, x, st.stack[n - 1]); }
      case OpPushScope => ScopeKeeps(map[], st.env);
      case OpPopScope =>
        if st.env.Scope? { ScopeKeeps(st.env.vars, st.env.outer); }
    }
  }

  /** The run never leaves the scope at height `h`. */
  predicate StaysIn(pr: Prims, ch: Chunk, ip: nat, st: State, h: nat)
    requires Forward(ch)
    decreases |ch.code| - ip
  {
    && h <= Depth(st.env)
    && (ip < |ch.code| && Step(pr, ch, ip, st).Next? ==>
          StaysIn(pr, ch, Step(pr, ch, ip, st).ip, Step(pr, ch, ip, st).st, h))
  }

  /** Over any run that does not leave a scope, its `val`s keep their values and its names stay what they are. */
  lemma {:induction false} RunKeepsVals(pr: Prims, ch: Chunk, ip: nat, st: State, h: nat)
    requires Forward(ch) && StaysIn(pr, ch, ip, st, h)
    ensures h <= Depth(Run(pr, ch, ip, st).env)
    ensures Fixed(AtHeight(st.env, h), AtHeight(Run(pr, ch, ip, st).env, h))
    decreases |ch.code| - ip
  {
    hide Step; hide AtHeight;
    if ip < |ch.code| {
      StepKeeps(pr, ch, ip, st);
      StepGoesForward(pr, ch, ip, st);
      var r := Step(pr, ch, ip, st);
      if r.Next? {
        RunKeepsVals(pr, ch, r.ip, r.st, h);
        assert Fixed(AtHeight(st.env, h), AtHeight(r.st.env, h));
      } else {
        HaltHere(pr, ch, ip, st);
      }
    }
  }

  /** A run stops in the environment it has reached. */
  lemma HaltHere(pr: Prims, ch: Chunk, ip: nat, st: State)
    requires ip < |ch.code| && Step(pr, ch, ip, st).Halt?
    ensures Step(pr, ch, ip, st).outcome.env == st.env
  {}

  /** No run leaves the outermost scope. */
  lemma {:induction false} StaysInRoot(pr: Prims, ch: Chunk, ip: nat, st: State)
    requires Forward(ch)
    ensures StaysIn(pr, ch, ip, st, 0)
    decreases |ch.code| - ip
  {
    hide Step;
    if ip < |ch.code| {
      var r := Step(pr, ch, ip, st);
      if r.Next? {
        StepGoesForward(pr, ch, ip, st);
        StaysInRoot(pr, ch, r.ip, r.st);
      }
    }
  }

  /** Whatever program runs, the `val`s of the outermost scope keep their values. */
  lemma RootValsKept(pr: Prims, ch: Chunk, st: State)
    requires Forward(ch)
    ensures Fixed(AtHeight(st.env, 0), AtHeight(Run(pr, ch, 0, st).env, 0))
  {
    StaysInRoot(pr, ch, 0, st);
    RunKeepsVals(pr, ch, 0, st, 0);
  }
}
