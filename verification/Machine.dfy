/** The stack machine: one instruction, and a whole run. */
module Machine {
  import opened Values
  import opened Environments
  import opened Evaluator
  import opened Bytecode

  /** `last` is the value most recently discarded by OpPop. */
  datatype State = State(stack: seq<Value>, env: Env, last: Value)

  datatype StepResult = Next(ip: nat, st: State) | Halt(outcome: Outcome)

  /** The stack grows at its end. */
  function Push(s: seq<Value>, v: Value): (r: seq<Value>)
    ensures |r| == |s| + 1 && r[|r| - 1] == v && r[..|r| - 1] == s
  {
    s + [v]
  }

  function Fail(f: Failure, st: State): StepResult { Halt(Failed(f, st.env)) }

  /** Replace the `n` topmost values by the result of an operation on them. */
  function Reduce(ip: nat, st: State, n: nat, r: Result<Value>): StepResult
    requires n <= |st.stack|
  {
    match r
    case Ok(v) => Next(ip + 1, st.(stack := Push(st.stack[..|st.stack| - n], v)))
    case Err(f) => Fail(f, st)
  }

  /** Replace the topmost value, which has been bound to a name, by itself. */
  function Rebind(ip: nat, st: State, r: EnvResult): StepResult {
    match r
    case Updated(env) => Next(ip + 1, st.(env := env))
    case Rejected(f) => Fail(f, st)
  }

  /** How many values an instruction needs on the stack. */
  function Operands(ins: Instruction): nat {
    match ins
    case OpArray(k) => k
    case OpSlice => 3
    case OpIndex => 2
    case OpBinary(_) => 2
    case OpPrefix(_) => 1
    case OpMatchSeqLenEq(_) => 1
    case OpMatchSeqLenGte(_) => 1
    case OpMatchSeqTail(_) => 1
    case OpDup => 1
    case OpSetGlobal(_, _) => 1
    case OpAssignGlobal(_) => 1
    case OpPop => 1
    case OpJumpIfFalse(_) => 1
    case OpThrow => 1
    case _ => 0
  }

  /** Instructions that replace their operands by one value. */
  predicate Computes(ins: Instruction) {
    ins.OpArray? || ins.OpSlice? || ins.OpIndex? || ins.OpBinary? || ins.OpPrefix?
    || ins.OpMatchSeqLenEq? || ins.OpMatchSeqLenGte? || ins.OpMatchSeqTail?
  }

  /** Instructions that only push a value. */
  predicate Pushes(ins: Instruction) {
    ins.OpConstant? || ins.OpNil? || ins.OpTrue? || ins.OpFalse? || ins.OpGetGlobal?
  }

  /** Instructions that change the environment. */
  predicate Rescopes(ins: Instruction) {
    ins.OpSetGlobal? || ins.OpAssignGlobal? || ins.OpPushScope? || ins.OpPopScope?
  }

  function Compute(pr: Prims, ins: Instruction, args: seq<Value>): Result<Value>
    requires Computes(ins) && |args| == Operands(ins)
  {
    match ins
    case OpArray(_) => Ok(List(args))
    case OpSlice => Ok(Slice(args[0], args[1], args[2]))
    case OpIndex => IndexValue(pr, args[0], args[1])
    case OpBinary(op) => Binary(pr, op, args[0], args[1])
    case OpPrefix(op) => Prefix(pr, op, args[0])
    case OpMatchSeqLenEq(k) => Ok(Bool(SeqLen(args[0]) == Some(k)))
    case OpMatchSeqLenGte(k) => Ok(Bool(SeqLen(args[0]).Some? && SeqLen(args[0]).value >= k))
    case OpMatchSeqTail(k) =>
      if SeqLen(args[0]).None? then Err(BadIndex(TypeName(args[0]))) else Ok(SeqTail(args[0], k))
  }

  function Pushed(ch: Chunk, ins: Instruction, env: Env): Result<Value>
    requires Pushes(ins)
  {
    match ins
    case OpConstant(k) => if k < |ch.consts| then Ok(ch.consts[k]) else Err(BadConstant)
    case OpNil => Ok(Nil)
    case OpTrue => Ok(Bool(true))
    case OpFalse => Ok(Bool(false))
    case OpGetGlobal(x) => Get(env, x)
  }

  function Rescope(ip: nat, ins: Instruction, st: State): StepResult
    requires Rescopes(ins) && Operands(ins) <= |st.stack|
  {
    var n := |st.stack|;
    match ins
    case OpSetGlobal(x, asConst) => Rebind(ip, st, Define(st.env, x, st.stack[n - 1], asConst))
    case OpAssignGlobal(x) => Rebind(ip, st, AssignTo(st.env, x, st.stack[n - 1]))
    case OpPushScope => Next(ip + 1, st.(env := Enclosed(st.env)))
    case OpPopScope =>
      match st.env
      case Root(_) => Fail(PopsRootScope, st)
      case Scope(_, outer) => Next(ip + 1, st.(env := outer, stack := if n == 0 then [Nil] else st.stack))
  }

  /** Instructions that copy or discard the top of the stack, jump, or end the run. */
  function Flow(ip: nat, ins: Instruction, st: State): StepResult
    requires !Computes(ins) && !Pushes(ins) && !Rescopes(ins) && Operands(ins) <= |st.stack|
  {
    var s, n := st.stack, |st.stack|;
    match ins
    case OpDup => Next(ip + 1, st.(stack := Push(s, s[n - 1])))
    case OpPop => Next(ip + 1, st.(stack := s[..n - 1], last := s[n - 1]))
    case OpJump(t) => Next(t, st)
    case OpJumpIfFalse(t) => Next(if Truthy(s[n - 1]) then ip + 1 else t, st.(stack := s[..n - 1]))
    case OpThrow => Halt(Thrown(s[n - 1], st.env))
    case OpReturn => Halt(Returned(if n < 1 then st.last else s[n - 1], st.env))
  }

  function Step(pr: Prims, ch: Chunk, ip: nat, st: State): StepResult
    requires ip < |ch.code|
  {
    var ins, s, n := ch.code[ip], st.stack, |st.stack|;
    var k := Operands(ins);
    if n < k then Fail(StackUnderflow, st)
    else if Computes(ins) then Reduce(ip, st, k, Compute(pr, ins, s[n - k..]))
    else if Pushes(ins) then Reduce(ip, st, 0, Pushed(ch, ins, st.env))
    else if Rescopes(ins) then Rescope(ip, ins, st)
    else Flow(ip, ins, st)
  }

  lemma StepGoesForward(pr: Prims, ch: Chunk, ip: nat, st: State)
    requires Forward(ch) && ip < |ch.code|
    ensures var r := Step(pr, ch, ip, st); r.Next? ==> ip < r.ip
  {}

  /** Run from an instruction until the chunk ends or stops. */
  function Run(pr: Prims, ch: Chunk, ip: nat, st: State): Outcome
    requires Forward(ch)
    decreases |ch.code| - ip
  {
    if ip >= |ch.code| then
      Val(if st.stack == [] then st.last else st.stack[|st.stack| - 1], st.env)
    else match Step(pr, ch, ip, st)
      case Halt(o) => o
      case Next(ip1, st1) => Run(pr, ch, ip1, st1)
  }
}
