/** Compiling a program and running it: the two halves together. */
module Interpreter {
  import opened Values
  import opened Syntax
  import opened Environments
  import Evaluator
  import Jumps
  import Machine
  import Layout
  import Correctness
  import Programs
  import opened Compilation
  import CompilerClass
  import opened Scopes
  import opened ExecutorClass
  import opened Immutability

  /** Whatever the program, the scopes it starts from and the arithmetic, compiling and running it ends the way
      evaluating its syntax does, with the same value and the same bindings, provided no `val` or `var` pattern in it
      has a named spread. And no program changes a `val` of the outermost scope. */
  method Interpret(pr: Prims, stmts: seq<Stmt>, env: Environment) returns (ok: bool, e: Ending, after: Environment)
    requires env.Valid()
    modifies env.chain
    ensures after.Valid()
    ensures ok <==> forall k | 0 <= k < |stmts| :: Compiles(stmts[k].e)
    ensures !ok ==> after == env && after.Abs() == old(env.Abs())
    ensures ok && (forall k | 0 <= k < |stmts| :: Correctness.Balanced(stmts[k].e)) ==>
      ToOutcome(e, after.Abs()) == Evaluator.EvalProgram(pr, stmts, Nil, old(env.Abs()))
    ensures Fixed(AtHeight(old(env.Abs()), 0), AtHeight(after.Abs(), 0))
  {
    hide Compiles; hide Layout.EncodesProgram; hide Layout.ProgramSize; hide Correctness.Balanced;
    hide Evaluator.EvalProgram; hide Machine.Run;
    hide AtHeight; hide Fixed;
    e, after := Ended(Nil), env;
    ghost var start := Machine.State([], env.Abs(), Nil);
    KeepsItself(start.env);
    assert Fixed(AtHeight(start.env, 0), AtHeight(start.env, 0));
    var ch;
    ok, ch := CompilerClass.Compile(stmts);
    if !ok { return; }
    Jumps.ProgramForward(ch, stmts);
    var executor := new Executor(env);
    e := executor.Run(pr, ch);
    after := executor.env;
    RootValsKept(pr, ch, start);
    if forall k | 0 <= k < |stmts| :: Correctness.Balanced(stmts[k].e) {
      Programs.CompiledProgramAgrees(pr, ch, stmts, old(env.Abs()));
    }
  }
}
