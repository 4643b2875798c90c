/** The machine as the program runs it: a value stack and a current scope, updated instruction by instruction. */
module ExecutorClass {
  import opened Values
  import opened Environments
  import opened Evaluator
  import opened Bytecode
  import Machine
  import opened Scopes

  /** How a run ended; the environment is the executor's own. */
  datatype Ending = Ended(v: Value) | ByReturn(v: Value) | ByThrow(v: Value) | ByError(failure: Failure)

  function ToOutcome(e: Ending, env: Env): Outcome {
    match e
    case Ended(v) => Val(v, env)
    case ByReturn(v) => Returned(v, env)
    case ByThrow(v) => Thrown(v, env)
    case ByError(f) => Failed(f, env)
  }

  datatype Control = GoTo(ip: nat) | Quit(ending: Ending)

  class Executor {
    var env: Environment
    var stack: seq<Value>
    var last: Value

    constructor (env: Environment)
      ensures this.env == env && stack == [] && last == Nil
    {
      this.env, stack, last := env, [], Nil;
    }

    ghost function Abs(): Machine.State
      requires env.Valid()
      reads this, env.chain
    {
      Machine.State(stack, env.Abs(), last)
    }

    /** The step taken is the machine's. */
    ghost predicate Took(r: Machine.StepResult, c: Control)
      requires env.Valid()
      reads this, env.chain
    {
      match c
      case GoTo(ip) => r == Machine.Next(ip, Abs())
      case Quit(e) => r == Machine.Halt(ToOutcome(e, env.Abs()))
    }

    method Push(v: Value)
      modifies this`stack
      ensures stack == Machine.Push(old(stack), v)
    {
      stack := stack + [v];
    }

    method Pop() returns (v: Value)
      requires stack != []
      modifies this`stack
      ensures old(stack) == Machine.Push(stack, v) && stack == old(stack)[..|old(stack)| - 1]
    {
      v := stack[|stack| - 1];
      stack := stack[..|stack| - 1];
    }

    /** Take `n` values off the stack, the deepest first. */
    method PopMany(n: nat) returns (vs: seq<Value>)
      requires n <= |stack|
      modifies this`stack
      ensures old(stack) == stack + vs && |vs| == n
    {
      vs := [];
      var i := n;
      while i > 0
        invariant 0 <= i <= |stack| && |vs| == n - i
        invariant old(stack) == stack + vs
      {
        var v := Pop();
        vs := [v] + vs;
        i := i - 1;
      }
    }

    /** Instructions that replace their operands by a value: the operands are gone afterwards. */
    method Compute(pr: Prims, ins: Instruction) returns (r: Result<Value>)
      requires Machine.Computes(ins) && Machine.Operands(ins) <= |stack|
      modifies this`stack
      ensures exists args ::
        |args| == Machine.Operands(ins) && old(stack) == stack + args && r == Machine.Compute(pr, ins, args)
    {
      hide IndexValue; hide Binary; hide Prefix;
      if ins.OpArray? {
        var elems := PopMany(ins.count);
        r := Ok(List(elems));
      } else if ins.OpSlice? {
        var bounds := PopMany(3);
        r := Ok(Slice(bounds[0], bounds[1], bounds[2]));
      } else if ins.OpIndex? || ins.OpBinary? {
        var right := Pop();
        var left := Pop();
        r := if ins.OpIndex? then IndexValue(pr, left, right) else Binary(pr, ins.op, left, right);
        assert old(stack) == stack + [left, right];
      } else {
        var v := Pop();
        r := ComputeOne(pr, ins, v);
        assert old(stack) == stack + [v];
      }
    }

    method ComputeOne(pr: Prims, ins: Instruction, v: Value) returns (r: Result<Value>)
      requires ins.OpPrefix? || ins.OpMatchSeqLenEq? || ins.OpMatchSeqLenGte? || ins.OpMatchSeqTail?
      ensures r == Machine.Compute(pr, ins, [v])
    {
      hide Prefix;
      if ins.OpPrefix? {
        r := Prefix(pr, ins.prefix, v);
      } else if ins.OpMatchSeqLenEq? {
        r := Ok(Bool(SeqLen(v) == Some(ins.count)));
      } else if ins.OpMatchSeqLenGte? {
        r := Ok(Bool(SeqLen(v).Some? && SeqLen(v).value >= ins.count));
      } else {
        r := if SeqLen(v).Some? then Ok(SeqTail(v, ins.count)) else Err(BadIndex(TypeName(v)));
      }
    }

    /** The value an instruction pushes without looking at the stack. */
    method Fetch(ch: Chunk, ins: Instruction) returns (r: Result<Value>)
      requires env.Valid() && Machine.Pushes(ins)
      ensures r == Machine.Pushed(ch, ins, env.Abs())
    {
      match ins
      case OpConstant(k) => r := if k < |ch.consts| then Ok(ch.consts[k]) else Err(BadConstant);
      case OpNil => r := Ok(Nil);
      case OpTrue => r := Ok(Bool(true));
      case OpFalse => r := Ok(Bool(false));
      case OpGetGlobal(x) =>
        var b := env.GetBinding(x);
        r := if b.Some? then Ok(b.value.value) else Err(IdentifierNotFound(x));
    }

    method EnterScope()
      requires env.Valid()
      modifies this`env
      ensures env.Valid() && env.Abs() == Enclosed(old(env.Abs()))
      ensures fresh(env) && env.chain == [env] + old(env).chain
    {
      env := new Environment.Enclosed(env);
    }

    /** Leave the innermost scope, unless it is the outermost. */
    method LeaveScope() returns (left: bool)
      requires env.Valid()
      modifies this`env
      ensures env.Valid() && left == old(env.Abs()).Scope?
      ensures left ==> env.Abs() == old(env.Abs()).outer && env.chain == old(env.chain)[1..]
      ensures !left ==> env == old(env)
    {
      env.OuterIsRest();
      left := env.outer != null;
      if left {
        env := env.outer;
      }
    }

    /** Bind or assign the value on top of the stack, which stays there. */
    method Bind(ins: Instruction) returns (error: Option<Failure>)
      requires env.Valid() && stack != [] && (ins.OpSetGlobal? || ins.OpAssignGlobal?)
      modifies this`stack, env.chain
      ensures env.Valid() && (error.None? ==> stack == old(stack))
      ensures var r := if ins.OpSetGlobal?
              then Define(old(env.Abs()), ins.name, old(stack)[|old(stack)| - 1], ins.asConst)
                       else AssignTo(old(env.Abs()), ins.name, old(stack)[|old(stack)| - 1]);
              Does(error, r, old(env.Abs()), env.Abs())
    {
      hide Environments.Define; hide Environments.AssignTo;
      var v := Pop();
      if ins.OpSetGlobal? {
        error := env.Define(ins.name, v, ins.asConst);
      } else {
        error := env.Assign(ins.name, v);
      }
      if error.None? {
        Push(v);
      }
    }

    /** Instructions that bind a name, and those that open or close a scope. */
    method Rescope(ip: nat, ins: Instruction) returns (c: Control)
      requires env.Valid() && Machine.Rescopes(ins) && Machine.Operands(ins) <= |stack|
      modifies this`stack, this`env, env.chain
      ensures env.Valid() && OldOrNew(old(env.chain), env.chain)
      ensures Took(Machine.Rescope(ip, ins, old(Abs())), c)
    {
      hide Environments.Define; hide Environments.AssignTo;
      c := GoTo(ip + 1);
      if ins.OpPushScope? {
        EnterScope();
      } else if ins.OpPopScope? {
        var left := LeaveScope();
        if !left { return Quit(ByError(PopsRootScope)); }
        if stack == [] {
          Push(Nil);
        }
      } else {
        var error := Bind(ins);
        if error.Some? { return Quit(ByError(error.value)); }
      }
    }

    /** Instructions that copy or discard the top of the stack, jump, or end the run. */
    method Flow(ip: nat, ins: Instruction) returns (c: Control)
      requires env.Valid() && Machine.Operands(ins) <= |stack|
      requires !Machine.Computes(ins) && !Machine.Pushes(ins) && !Machine.Rescopes(ins)
      modifies this`stack, this`last
      ensures Took(Machine.Flow(ip, ins, old(Abs())), c)
    {
      c := GoTo(ip + 1);
      if ins.OpDup? {
        Push(stack[|stack| - 1]);
      } else if ins.OpPop? {
        last := Pop();
      } else if ins.OpJump? {
        c := GoTo(ins.target);
      } else if ins.OpJumpIfFalse? {
        var v := Pop();
        c := GoTo(if Truthy(v) then ip + 1 else ins.target);
      } else if ins.OpThrow? {
        var v := Pop();
        c := Quit(ByThrow(v));
      } else {
        if stack == [] { return Quit(ByReturn(last)); }
        var v := Pop();
        c := Quit(ByReturn(v));
      }
    }

    method Step(pr: Prims, ch: Chunk, ip: nat) returns (c: Control)
      requires env.Valid() && ip < |ch.code|
      modifies this`stack, this`last, this`env, env.chain
      ensures env.Valid() && OldOrNew(old(env.chain), env.chain)
      ensures Took(Machine.Step(pr, ch, ip, old(Abs())), c)
    {
      hide Machine.Operands; hide Machine.Computes; hide Machine.Pushes; hide Machine.Rescopes;
      hide Machine.Compute; hide Machine.Pushed; hide Machine.Rescope; hide Machine.Flow;
      var ins := ch.code[ip];
      if |stack| < Machine.Operands(ins) {
        c := Quit(ByError(StackUnderflow));
      } else if Machine.Computes(ins) {
        var r := Compute(pr, ins);
        c := Finish(ip, r);
      } else if Machine.Pushes(ins) {
        var r := Fetch(ch, ins);
        c := Finish(ip, r);
      } else if Machine.Rescopes(ins) {
        c := Rescope(ip, ins);
      } else {
        c := Flow(ip, ins);
      }
    }

    /** Push a result, or stop with its error. */
    method Finish(ip: nat, r: Result<Value>) returns (c: Control)
      requires env.Valid()
      modifies this`stack
      ensures Took(Machine.Reduce(ip, old(Abs()), 0, r), c)
    {
      assert stack[..|stack|] == stack;
      if r.Ok? {
        Push(r.value);
        c := GoTo(ip + 1);
      } else {
        c := Quit(ByError(r.failure));
      }
    }

    /** A run from the current stack and scope ends as the machine's, and leaves its environment. */
    method Run(pr: Prims, ch: Chunk) returns (e: Ending)
      requires env.Valid() && Forward(ch)
      modifies this`stack, this`last, this`env, env.chain
      ensures env.Valid()
      ensures Machine.Run(pr, ch, 0, Machine.State(old(stack), old(env.Abs()), Nil)) == ToOutcome(e, env.Abs())
    {
      hide Machine.Step;
      last := Nil;
      var ip := 0;
      ghost var st0 := Abs();
      while ip < |ch.code|
        invariant env.Valid() && OldOrNew(old(env.chain), env.chain)
        invariant Machine.Run(pr, ch, ip, Abs()) == Machine.Run(pr, ch, 0, st0)
        decreases |ch.code| - ip
      {
        Machine.StepGoesForward(pr, ch, ip, Abs());
        var c := Step(pr, ch, ip);
        if c.Quit? { return c.ending; }
        ip := c.ip;
      }
      e := Ended(if stack == [] then last else stack[|stack| - 1]);
    }
  }

  /** Every scope of the new chain is one of the old ones or has been allocated since. */
  twostate predicate OldOrNew(before: seq<Environment>, new after: seq<Environment>) {
    forall i | 0 <= i < |after| :: after[i] in before || fresh(after[i])
  }
}
