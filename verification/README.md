# Slug: verified models of the compiler, the machine and the runtime

Slug is a small expression language. Its programs are compiled to a chunk of instructions for a stack
machine; the machine runs them with lexical scopes, pattern matching, deferred functions and nurseries of
tasks; maps are persistent hash tries; numbers are decimals; functions are overloaded by signature and may
declare types. This project models these parts and proves what they are for. To verify all of it:

    dafny verify dfyconfig.toml

## What is modelled

**Compiler and machine.** `Syntax` is the language fragment: literals, names, prefix and infix operators,
short-circuit `&&` and `||`, `if`, blocks, `val`, `var` and assignment with patterns, `return`, `throw`,
list literals, indexing, and `match` on wildcards, names, literals, pinned names, alternatives, `name @
pattern` and nested list patterns with spreads and guards. `Evaluator` gives it a meaning by direct
recursion; `Meaning`, `PatternMeaning` and `ValueLaws` say what that comes to in terms of values and names alone.
`CompilerClass.Compiler` emits instructions and patches jumps in place as the source does; `Acceptance` characterises the
programs it accepts. `Layout` says what the finished code of each construct looks like; `Machine` is the step function;
`ExecutorClass.Executor` and `Scopes.Environment` are the objects that run it. `Interpreter.Interpret`
compiles a program and runs it: for every program the compiler accepts, unless a `val` or `var` pattern has a
named spread (see below), value, early return, throw, error and final scopes are those of the evaluator.

**Maps.** `Hamt.Node` objects with shared children refine finite maps for any hash function; `Maps.Map` is
the mutable map object that shares tries between clones.

**Tasks and defers.** `Nurseries` is a step system with arbitrary interleaving of task completions and
executor steps. `Defers.Unwinder` unwinds scopes of deferred functions; `Leaving` puts the two together: a call left
scope by scope while tasks go on ending. `Deferring` extends the step system by the deferred functions each call has
registered, so that what becomes of them is stated over whole runs; `Turning` shows that what a scope's entries come to
on a run is what `Defers` says. Runtime errors have an identity and their causes are kept apart from them (`Chains`,
`Linking`), since the source sets them in place. `ErrorNames` is about the name an error handler gives the error.

**Runtime types.** The parser and printer of types, the splitter, inference from values (functions included),
membership, compatibility, and one-way matching of type parameters, which `Unification` shows to find exactly the types put
in for them.

**Calls.** Signatures, the score of argument tags, overload choice, argument binding into the two call buffers, and the
call of a group as a whole.

**Decimals, printing and static unions.** Division with its scale, normalisation, fixed-point printing with
grouping, and the checker's normalised unions; `UnionBounds` says what these accept.

Files that hold the proofs for another file: `Compilation` and `Emission` (code under construction against
its final form), `Correctness` (code against meaning), `Jumps` (where jumps lead), `Immutability` and `Steadiness`
(what no run and no evaluation does to a `val`), `Programs` (whole programs and the departures below).

## Where the code departs from its documentation or from an obvious expectation

Each is modelled as the code has it; the members named say what holds instead, and when the expectation is met.

- A named spread in a `val` or `var` list pattern binds a slice object instead of the elements, and leaves one
  more value on the stack (internal/vm/compiler.go:637-649; the mini spec of match and destructuring under
  `extras/` promises the remaining elements). `BindKeepsStackIff`; `NamedSpreadGoesWrong` is a program that
  compiles and ends with another value and another binding than it should.
- Rewriting `x + [e]` to an append keeps the meaning exactly when `x` is a list (internal/vm/compiler.go:154-177).
  `AppendIsAddIff`, `PrependIsAddIff`, `SpliceKeepsMeaningIff`, `PrependKeepsMeaningIff`.
- In `match`, the name of `name @ pattern` is bound if and only if the pattern is a name or a list
  (internal/vm/compiler.go:1034-1065). `AliasIsBoundIff`; `AliasIsMissing` is a program that compiles and fails.
- Declaring with `val` a name that the same scope has as a `var` leaves it mutable
  (internal/object/environment.go:260-265). `DefinedIff` says what a declaration makes of a name.
- A machine error (`1 - "a"`, an unknown name) and an awaited error leave a function at once, without unwinding it
  (internal/vm/executor.go:112-128, 487-489 and 780-782), and the caller drops the child executor
  (internal/vm/executor.go:1904-1917): deferred functions registered there never run, although docs/_adr/ADR-003.md:53-56
  has a plain `defer` run whenever its scope is left. `AlwaysCalledIff` says over all runs which are called;
  `Deferring.CrashIsCleanIff` when such an error loses none; `MachineErrorLosesEntry` and `CalledMachineErrorLosesEntry`
  are runs that lose one. At the top level of a program the nurseries still open are left behind too:
  `Nurseries.CrashIsCleanIff`, `CrashLeavesTasks`.
- `defer onerror(err)` binds `err` in the innermost scope open where the error was met, while the handler looks it up from
  the scope it was registered in (internal/vm/executor.go:1006-1018 and 1889-1904; docs/_adr/ADR-003.md:65 has the thrown
  value bound to it). `SeesErrorIff`; registered further out, the handler `defer onerror(err) { err }` puts "identifier
  not found" in the place of the error: `EchoRecoversIff`.
- An error found at the end of a block is pushed as an ordinary value and the function goes on
  (internal/vm/executor.go:767-778). `BlockEndGoesOnIff` and `ErrorLeavesIff` say when a function goes on;
  `BlockErrorIsAValue` is a run in which it does so with an error for a value.
- `recur` at the outermost scope of a function drops that scope's deferred functions, although the comment there
  says they wait (internal/vm/executor.go:725-732). `RecurRunsAlwaysIff`; `RecurLosesEntry` loses one. At an inner
  scope whose entries turn the signal into an error, that is pushed and the scope stays open otherwise
  (internal/vm/executor.go:733-738): `RecurClosesIff`.
- A runtime error raised by a deferred function loses the cause it came with, as that is set in place on an object others
  may hold (internal/vm/executor.go:1019-1021): `OwnCauseIsLost`. So errors can be lost from the chain of causes that
  docs/_adr/ADR-003.md:141 promises, and the chain can become a circle, on which the printing of stack traces
  (internal/object/helper.go:66-68) never ends. An entry keeps the first error linked if and only if the error it raises
  is that one, or is not met on the way to it, `PreservesIff`; it closes a circle if and only if the error it raises is in
  the chain already, `CircleIffRaisedAgain`. Over a scope, a whole unwinding and the leaving of a call:
  `ErrorsStayLinkedIff`, `UnwoundStaysLinkedIff`, `LeavingStaysLinked`. Errors thrown anew lose nothing,
  `ThrownAnewStaysLinked`. `SameErrorTwice` is `defer r; defer r; throw "boom"` with an error for `r`, which a nursery
  yields as a value (`BlockErrorIsAValue`); in `LostErrorReturns` a lost error comes back.
- A machine error returned by an `always` or success entry is ignored (internal/vm/executor.go:1016-1032): without
  error handlers the result of a scope is the runtime error of the earliest registered entry that raises one, or what it
  was, `LastRaiseDecides`, `ResultStandsIff`; `MachineErrorIsIgnored` is an instance.
- Named structs, type parameters outside their scope, variadic and bare functions, and unions inside unions
  are not read back from their printed text. `RoundTripIff` gives the exact condition.
- Type compatibility is not reflexive (internal/vm/declared_type_runtime.go:713-723): a type is compatible with itself
  if and only if each of its outermost unions has `any` or a type parameter among its options, at any depth,
  `FitsItselfIff`.
  So a matched parameter need not accept its argument. For parameters without unions it does if and only if every type
  the call bound is compatible with itself, `CallSoundIff`; with union parameters, `CallSound` gives the condition for
  each parameter. `UnionIsNotSound` and `UnionParameterRefuses` are instances.
- A value need not have the type inferred from it: functions that differ in taking any number of arguments share a text,
  and a function that takes a union does not fit its own type (internal/vm/declared_type_runtime.go:457-526).
  `AcceptedIff` gives the exact condition; `VariadicNotAccepted`, `UnionParameterNotAccepted` are instances.
- The name in a struct tag plays no part in choosing an overload, since that tag is looked up as a type tag first
  (internal/vm/executor.go:1472-1477): `StructNameIsIgnored`. A list tag on a variadic parameter is checked against a
  single argument: `VariadicTag`. A call by name can select a function that does not have that name where another of the
  group has it: `NamedCallMissesOverload`; by position only a default that fails can do this, `PositionalCallIff`.
- Division applies the sign of the divisor twice (internal/dec64/dec64.go:338 and 292). `DivisionRightIff`.
- Normalisation scales a negative coefficient up without a bound (internal/dec64/dec64.go:554). `Normalise` says
  exactly when the result does not fit; `NegativeRunsOver` is an instance.
- Equal numbers have one normalised form below an exponent of sixteen, `UsualIsUnique`, and can have two from there on
  (internal/dec64/dec64.go:553-557), `UsualIsNotUnique`.

## Model

| member | source | states |
|---|---|---|
| Interpreter.Interpret | internal/vm/executor.go:82-96 | Compiling and running a program: it is accepted exactly when every statement is in the compilable syntax; then, unless a named spread occurs in a `val` or `var` pattern, the ending (value, return, throw, error) and the final scopes are those of the recursive evaluator started in the same scopes, which is what `Meaning`, `PatternMeaning` and `ValueLaws` say of each construct, pattern and operator; no program changes a `val` of the outermost scope; a rejected program changes nothing |
| Meaning.NameMeans | internal/object/environment.go:120-132 | A name stands for what the innermost scope that has it binds it to, and fails where none has |
| Meaning.BindMeans | internal/object/environment.go:229-298 | `val` and `var` give the name the value in the innermost scope and leave every other name; they fail exactly when that scope has a `val` of the name |
| Meaning.AssignMeans | internal/object/environment.go:300-342 | An assignment gives the nearest variable of the name the value and leaves every other name; it fails on a `val`, and on a name no scope has |
| Meaning.IfMeans | internal/vm/executor.go:2120-2122 | `if` takes the second branch on nil and on false, nil standing for a missing one, and the first on every other value |
| Meaning.AndMeans | internal/vm/compiler.go:939-949 | `&&` is false on nil and false, and otherwise what its right operand is |
| Meaning.OrMeans | internal/vm/compiler.go:951-960 | Short-circuit or is what its right operand is on nil and false, and otherwise true |
| Meaning.PrefixMeans | internal/vm/executor.go:783-805 | `!` is true of nil and false, and false of every other value; `-` negates numbers and fails on anything else |
| Meaning.InfixMeans | internal/vm/executor.go:1078-1256 | The left operand, then the right one in the scopes it leaves, then the operator on both values |
| Meaning.MinusMeans | internal/vm/executor.go:1129-1135 | An instance: the left operand of a subtraction is the one subtracted from |
| Meaning.IndexMeans | internal/vm/compiler.go:330-342 | The sequence, then the index in the scopes it leaves, then the element |
| Meaning.EndsEarly | internal/vm/executor.go:105-128 | An expression whose first part returns, throws or fails does so itself, whatever the rest of it is |
| Meaning.ListMeans | internal/vm/compiler.go:265-272 | Elements of a list literal are evaluated one after the other, each in the scopes the one before leaves |
| Meaning.OneMoreElement | internal/vm/compiler.go:265-272 | A literal with one more element has the values of the shorter one and that of the element at its end; the empty one is the empty list |
| Meaning.BlockMeans | internal/vm/compiler.go:464-512 | A block runs in a new empty scope and leaves it again; an empty one is nil |
| Meaning.StmtsMean | internal/vm/compiler.go:491-509 | The last statement gives the value; `return` and `throw` end what they stand in with their value |
| Meaning.ProgramMeans | internal/vm/compiler.go:25-32 | A program runs its statements in the scope it is given, and its result is the value of the last |
| Meaning.MatchMeans | internal/vm/compiler.go:1021-1468 | `match` tries its cases on the value of its subject, and is nil when none is left |
| Meaning.GuardMeans | internal/vm/compiler.go:1188-1193 | A wildcard takes every value; its guard sends nil and false on to the next case and nothing else |
| Meaning.LiteralTakes | internal/vm/compiler.go:1425-1456 | A literal takes exactly what equals it and a pinned name what equals its value; otherwise the next case is tried |
| Meaning.AlternativesTake | internal/vm/compiler.go:1376-1399 | Alternatives take exactly the values that equal one of them |
| PatternMeaning.CaseMeans | internal/vm/compiler.go:1067-1209 | A case whose pattern is a name or a list of names, literals, wildcards and such lists, with or without a rest: if the pattern takes the value and its guard holds, the body is evaluated in a scope that has exactly the names of the pattern, with their values, and that is left afterwards; otherwise the next case is tried outside it. Which values a pattern takes and what its names stand for is said of values alone |
| PatternMeaning.ListTakes | internal/vm/compiler.go:732-818 | The same for list patterns inside list patterns |
| PatternMeaning.DeclarationMeans | internal/vm/compiler.go:576-687 | `val` and `var` with a pattern of new names, named patterns, lists and rests: each name is bound to the element in its place, nil past the end, or to what is left; it fails exactly when something that cannot be indexed would have to be |
| Programs.CompiledProgramAgrees | internal/vm/compiler.go:25-32 | Running the chunk of a compiled program from an empty stack ends as evaluating the program does, for every starting scope and every program without a named spread in its `val` and `var` patterns |
| Programs.ProgramRuns | internal/vm/executor.go:105-928 | The same, under the same condition, from any place in a chunk where the code of a program stands: the last discarded value is the result |
| Correctness.ExprRuns | internal/vm/compiler.go:61-443 | For every expression without a named spread in its `val` and `var` patterns: running its code from any stack and scopes gives its outcome; on a value exactly one item is pushed, the rest of the stack is as before, the scopes are those of the evaluator, and the run goes on just past the code |
| Correctness.BindExprRuns | internal/vm/compiler.go:92-123 | `val` and `var` without named spreads: the value is bound by the pattern and left on the stack |
| Correctness.AssignRuns | internal/vm/compiler.go:140-150 | Assignment: the nearest binding changes, or the run fails, as in the meaning |
| Correctness.PrefixRuns | internal/vm/compiler.go:124-138 | A prefix operator is applied to the value of its operand |
| Correctness.InfixRuns | internal/vm/compiler.go:151-224 | Operands from left to right, then the operator; with the rewriting of one-element list additions as part of the meaning |
| Correctness.IndexRuns | internal/vm/compiler.go:330-342 | Indexing evaluates sequence, then index, then looks up |
| Correctness.AndRuns | internal/vm/compiler.go:939-949 | `&&`: the right operand is evaluated only when the left is truthy, and false stands for a falsy left operand |
| Correctness.OrRuns | internal/vm/compiler.go:951-960 | Short-circuit or: true stands for a truthy left operand, otherwise the right operand decides |
| Correctness.IfRuns | internal/vm/compiler.go:227-245 | Exactly one branch runs; without `else` the value is nil |
| Correctness.ListRuns | internal/vm/compiler.go:265-272 | A list literal collects the values of its elements in order, whatever lies below on the stack |
| Correctness.BlockRuns | internal/vm/compiler.go:464-512 | A block runs in a scope of its own, closed again on a value, and yields the value of its last statement |
| Correctness.StmtsRuns | internal/vm/compiler.go:491-509 | Statements of a block one after the other, all values but the last discarded |
| Correctness.StmtRuns | internal/vm/compiler.go:34-59 | `return` and `throw` end the run with their value; expression statements yield theirs |
| Correctness.BindRuns | internal/vm/compiler.go:576-687 | A `val` or `var` pattern without named spreads binds what the meaning binds and leaves just the value |
| Correctness.BindElemsRuns | internal/vm/compiler.go:629-668 | List patterns without named spreads bind element by element by position, skipping wildcards |
| Programs.BindGrows | internal/vm/compiler.go:576-687 | Unless it fails, the code of any binding pattern leaves one extra value for each named spread in it, at any depth |
| Programs.BindKeepsStackIff | internal/vm/compiler.go:637-649 | A binding pattern leaves the stack as it was if and only if it has no named spread |
| Programs.SpreadGrows | internal/vm/compiler.go:640-648 | A named spread binds a slice object to the name and leaves the duplicated value behind; it fails exactly when the name cannot be defined |
| Programs.NamedSpreadGoesWrong | internal/vm/compiler.go:640-648 | A program of two statements that compiles: its own chunk, run, returns the value left on the stack and binds a slice, where the program is meant to return true and bind the empty list |
| Programs.NamedSpreadBindsSlice | internal/vm/compiler.go:640-648 | The binding alone as a program: the returned value is right, the bound one is not |
| Programs.AppendIsAddIff | internal/vm/compiler.go:154-166 | Appending one element and adding a one-element list give the same result if and only if the other operand is a list |
| Programs.PrependIsAddIff | internal/vm/compiler.go:167-176 | The same for prepending |
| Programs.SpliceKeepsMeaningIff | internal/vm/compiler.go:154-166 | When both operands yield values, the rewritten `l + [x]` means what the plain addition means if and only if `l` yields a list |
| Programs.PrependKeepsMeaningIff | internal/vm/compiler.go:167-176 | The counterpart for `[x] + r`, when `r` is no one-element list literal itself |
| Steadiness.AliasIsBound | internal/vm/compiler.go:1067-1075 | In front of a name or a list pattern the name stands for the scrutinee in the body, whatever pattern and guard evaluate |
| Steadiness.AliasIsIgnored | internal/vm/compiler.go:1034-1065 | In front of a wildcard, literal, pinned name or alternatives the name is never bound: the case means what it means without it |
| Steadiness.AliasIsBoundIff | internal/vm/compiler.go:1034-1075 | When nothing else gives the name a value, it stands for the scrutinee in the body if and only if the pattern is a name or a list |
| Programs.AliasIsMissing | internal/vm/compiler.go:1425-1456 | A program that compiles, takes its case, and fails on the name in front of the literal, by evaluation and by running its chunk |
| Steadiness.EvalKeepsVals | internal/vm/executor.go:129-222 | No expression, evaluated to a value, changes a `val` in any scope around it, or what a name was declared as |
| Immutability.DefinedIff | internal/object/environment.go:229-298 | A declaration is refused if and only if the innermost scope has a `val` of that name; otherwise the name has the new value, and is a `var` if it was declared there before or is declared as one now |
| Immutability.DefineKeeps | internal/object/environment.go:229-298 | A declaration changes no `val` and no name from `val` to `var` or back, in any scope |
| Immutability.AssignKeeps | internal/object/environment.go:300-342 | Nor does an assignment |
| Immutability.StepKeeps | internal/vm/executor.go:108-923 | Whatever an instruction does, in every scope open before and after it names stay what they were declared as and `val`s keep their values |
| Immutability.RunKeepsVals | internal/vm/executor.go:105-928 | Over any run of any forward chunk, as long as a scope is not left, its `val`s keep their values |
| Immutability.RootValsKept | internal/vm/executor.go:105-928 | No run changes a `val` of the outermost scope |
| Correctness.MatchRuns | internal/vm/compiler.go:1021-1468 | A `match` yields the body of the first case that matches under the bindings of that case, or nil when none does |
| Correctness.CasesRuns | internal/vm/compiler.go:1034-1467 | The cases are tried in order with just the scrutinee on top; a miss of one reaches the next with the same stack |
| Correctness.ScopedCaseRuns | internal/vm/compiler.go:1067-1209 | A name or list case opens a scope; on a hit the body runs in it and it is closed; on a miss it is closed and exactly the scrutinee is left for the next case |
| Correctness.ScopedRuns | internal/vm/compiler.go:1108-1193 | Pattern and guard of such a case: every fail label is reached with exactly the scrutinee on top and the scope of the case still open |
| Correctness.BindingRuns | internal/vm/compiler.go:1076-1081 | The pattern part alone: a name binds the scrutinee, a list pattern its parts |
| Correctness.ListPatRuns | internal/vm/compiler.go:1131-1186 | A list pattern tests the length first, exact or at least that many before a spread, then its elements |
| Correctness.ElemsRuns | internal/vm/compiler.go:1139-1186 | Elements from left to right; a named spread as the last binds what is left of the sequence |
| Correctness.ElemRuns | internal/vm/compiler.go:1156-1185 | One element: bound, compared, or matched by a nested list pattern, with the stack restored on hit and miss |
| Correctness.NestedRuns | internal/vm/compiler.go:732-818 | A list pattern inside a list pattern: its own fail label drops the inner value before going on to the outer one, so that a miss leaves just the outer value |
| Correctness.TestRuns | internal/vm/compiler.go:787-796 | A literal or pinned element matches exactly what equals its value, and consumes it |
| Correctness.GuardRuns | internal/vm/compiler.go:1188-1193 | A falsy guard leaves for the fail label, a truthy one goes on, the stack as before |
| Correctness.FlatCaseRuns | internal/vm/compiler.go:1042-1065 | Cases that bind nothing need no scope: hit runs the body, miss reaches the next case |
| Correctness.EqualRuns | internal/vm/compiler.go:1425-1456 | A literal or pinned case compares a copy of the scrutinee |
| Correctness.AltsRun | internal/vm/compiler.go:1376-1399 | Alternatives: the test after them succeeds if and only if one alternative equals the scrutinee, tried in order |
| Correctness.OperandRuns | internal/vm/compiler.go:1589-1601 | The value of a literal or pinned pattern is pushed |
| Jumps.ProgramForward | internal/vm/compiler.go:572-574 | In the chunk of any program all patched jumps lead forward and stay within the chunk, so every run ends |
| Jumps.ExprJumps | internal/vm/compiler.go:61-443 | All jumps in the code of an expression lead forward and no further than the end of that code |
| Jumps.CasesJumps | internal/vm/compiler.go:1032-1467 | Jumps of the cases of a match stay within the match |
| Jumps.ElemsJumps | internal/vm/compiler.go:1139-1186 | Jumps of a list pattern lead no further than its fail label |
| CompilerClass.Compile | internal/vm/compiler.go:12-19 | A program is accepted if and only if its statements are in the compilable syntax, and the chunk then is exactly the code of the program |
| Acceptance.CompilesIff | internal/vm/compiler.go:61-443 | An expression is accepted if and only if each expression inside it is by itself: it assigns to names only, its `match` has a case and only supported patterns, its `val` and `var` patterns are supported |
| Acceptance.BindPatterns | internal/vm/compiler.go:576-687 | The patterns of `val` and `var`: a name, a named pattern, or a list of such, wildcards and, at its end, a spread |
| Acceptance.BalancedIff | internal/vm/compiler.go:637-649 | The condition of the correctness theorems holds of an expression if and only if no `val` or `var` inside it, at any depth, has a pattern with a named spread |
| Acceptance.NoSpreadIff | internal/vm/compiler.go:637-649 | No named spread is counted in a pattern if and only if none of the patterns inside it is one |
| CompilerClass.Compiler.Emit | internal/vm/compiler.go:567-570 | One instruction is appended; its position is returned; nothing else changes |
| CompilerClass.Compiler.EmitConstant | internal/vm/compiler.go:562-565 | A constant is added and an instruction that refers to it; old constants keep their indexes |
| CompilerClass.Compiler.PatchJump | internal/vm/compiler.go:572-574 | The target of one instruction is overwritten; all else is as before |
| CompilerClass.Compiler.PatchJumps | internal/vm/compiler.go:1203-1206 | The targets of the listed jumps, and of no other instruction, are overwritten |
| CompilerClass.Compiler.CompileProgram | internal/vm/compiler.go:25-32 | Every expression statement is followed by a discard |
| CompilerClass.Compiler.CompileStatement | internal/vm/compiler.go:34-59 | Fails exactly on expressions that do not compile; otherwise the code of the statement is appended |
| CompilerClass.Compiler.CompileExpression | internal/vm/compiler.go:61-443 | Fails exactly on what the compiler does not support; otherwise old code and constants stay, and what is appended is the code of the expression, whatever is appended later |
| CompilerClass.Compiler.CompileBind | internal/vm/compiler.go:92-123 | The value, then the pattern |
| CompilerClass.Compiler.CompileAssign | internal/vm/compiler.go:140-150 | Only a name can be assigned to |
| CompilerClass.Compiler.CompilePrefix | internal/vm/compiler.go:124-138 | Operand, then operator |
| CompilerClass.Compiler.CompileInfix | internal/vm/compiler.go:151-224 | Both operands and the operator, after rewriting one-element list additions |
| CompilerClass.Compiler.CompileAnd | internal/vm/compiler.go:939-949 | Both jumps of `&&` are patched to their final targets |
| CompilerClass.Compiler.CompileOr | internal/vm/compiler.go:951-960 | Both jumps of short-circuit or are patched to their final targets |
| CompilerClass.Compiler.CompileIf | internal/vm/compiler.go:227-245 | Both jumps of `if` are patched, and nil stands for a missing branch |
| CompilerClass.Compiler.CompileListLiteral | internal/vm/compiler.go:265-272 | The elements in order, then one instruction that collects as many |
| CompilerClass.Compiler.CompileIndex | internal/vm/compiler.go:330-342 | Sequence, index, lookup |
| CompilerClass.Compiler.CompileBlock | internal/vm/compiler.go:464-512 | The statements between opening and closing a scope; an empty block yields nil |
| CompilerClass.Compiler.CompileMatch | internal/vm/compiler.go:1021-1468 | A match needs a case; the end jumps of all cases are patched to its end |
| CompilerClass.Compiler.CompileCases | internal/vm/compiler.go:1034-1457 | The code of the cases in order; the end jumps are returned open |
| CompilerClass.Compiler.CompileScopedCase | internal/vm/compiler.go:1067-1209 | A name or list case: all its fail jumps are patched to where the scope is closed |
| CompilerClass.Compiler.CompileFlatCase | internal/vm/compiler.go:1042-1065 | A case without a scope: its fail jumps are patched to the next case |
| CompilerClass.Compiler.CompileScopedPattern | internal/vm/compiler.go:1108-1186 | The code of a name or list pattern, its fail jumps returned open |
| CompilerClass.Compiler.CheckSpreads | internal/vm/compiler.go:1109-1122 | Accepts exactly the lists whose spreads are all in last position |
| CompilerClass.Compiler.CompileElem | internal/vm/compiler.go:1156-1185 | The code of one element; the jumps still open are those of a miss |
| CompilerClass.Compiler.CompileListPatternFromValue | internal/vm/compiler.go:732-818 | The code of a nested list pattern: its local fail jumps are patched, one jump stays open |
| CompilerClass.Compiler.CompileGuard | internal/vm/compiler.go:1188-1193 | The guard and its jump |
| CompilerClass.Compiler.CompileMulti | internal/vm/compiler.go:1376-1399 | The alternatives: each hit jumps to the common test |
| CompilerClass.Compiler.CompilePatternValue | internal/vm/compiler.go:1589-1601 | Fails exactly on patterns that are neither literal nor pinned |
| CompilerClass.Compiler.CompileBindPattern | internal/vm/compiler.go:576-687 | Fails exactly on unsupported binding patterns, otherwise the code of the pattern |
| CompilerClass.Compiler.CompileBindElement | internal/vm/compiler.go:652-663 | Wildcards need no code; other elements are fetched, bound and dropped |
| CompilerClass.Compiler.EmitRest | internal/vm/compiler.go:640-648 | The code of a named spread: a slice is built and bound, never applied |
| ExecutorClass.Executor.Run | internal/vm/executor.go:105-928 | A run of the executor object from its stack and scopes ends as the step machine does, and leaves its environment |
| ExecutorClass.Executor.Step | internal/vm/executor.go:108-923 | One instruction changes stack, scopes and position as the machine step says |
| ExecutorClass.Executor.Push | internal/vm/executor.go:1540-1542 | The stack grows by one value at its end |
| ExecutorClass.Executor.Pop | internal/vm/executor.go:1544-1551 | The value pushed last is taken off, and the stack below is as it was |
| ExecutorClass.Executor.PopMany | internal/vm/executor.go:223-235 | The topmost values come off together, in the order they were pushed |
| ExecutorClass.Executor.EnterScope | internal/vm/executor.go:705-719 | A fresh empty scope around which the old scopes are unchanged |
| ExecutorClass.Executor.LeaveScope | internal/vm/executor.go:720-778 | The innermost scope is left for the one around it; the root scope cannot be left |
| ExecutorClass.Executor.Bind | internal/vm/executor.go:129-222 | Defining and assigning change the scopes as the environment does; the value stays on the stack unless it fails |
| Machine.StepGoesForward | internal/vm/executor.go:860-869 | In a chunk with forward jumps every step goes forward |
| Values.IndexIsSeqAt | internal/vm/executor.go:2254-2300 | Indexing a list or bytes by a position within its length gives the element there, so pattern elements never fail after the length test |
| ValueLaws.UntrueIff | internal/vm/executor.go:2120-2122 | Of all values exactly nil and false are untrue |
| ValueLaws.EqualIff | internal/vm/executor.go:2192-2252 | Numbers are equal when they compare so, lists when they are element by element, anything else to itself only; `==` and `!=` give that |
| ValueLaws.EqualItself | internal/vm/executor.go:2192-2252 | Every value equals itself, nested lists included, if the order of numbers is one |
| ValueLaws.EqualBothWays | internal/vm/executor.go:2192-2252 | Equality does not depend on the order of the operands |
| ValueLaws.EqualThrough | internal/vm/executor.go:2192-2252 | Values equal to the same value are equal |
| ValueLaws.ComparesIff | internal/vm/executor.go:1172-1220 | Exactly numbers, strings and symbols compare, with their like |
| ValueLaws.CompareLaws | internal/vm/executor.go:1172-1220 | `>` is `<` with the operands exchanged, and `>=` and `<=` are what `<` and `>` are not |
| ValueLaws.LessIs | internal/vm/executor.go:1172-1220 | `<` is the order of numbers, of texts and of symbol names |
| ValueLaws.AdditionIs | internal/vm/executor.go:1089-1128 | `+` adds numbers, joins lists and bytes, joins a string with the printed form of anything on either side, and fails exactly on the rest |
| ValueLaws.JoiningAssociates | internal/vm/executor.go:1089-1128 | Joining strings, lists or bytes is associative |
| ValueLaws.ArithmeticIs | internal/vm/executor.go:1129-1167 | The other arithmetic takes numbers only, but for a string times a count that is not negative |
| ValueLaws.RepeatIs | internal/vm/executor.go:1136-1152 | A string times `n` is `n` times as long and has its characters round and round |
| ValueLaws.OneMoreIs | internal/vm/executor.go:490-553 | One element goes to the end, or to the front, of a list, and a number that is a byte of bytes; other numbers are refused |
| ValueLaws.CannotAppend | internal/vm/executor.go:490-553 | Nothing else is appended or prepended to |
| ValueLaws.PrefixIs | internal/vm/executor.go:783-805 | `!` gives the opposite truth, twice the truth of the value |
| ValueLaws.TypeNames | internal/object/object.go:19-48 | The names of the types in messages |
| ValueLaws.ElementIs | internal/vm/executor.go:2254-2284 | An index counts from the front, below zero from the end, and gives nil out of range: for lists |
| ValueLaws.CharacterIs | internal/vm/executor.go:2285-2304 | For strings |
| ValueLaws.ByteIs | internal/vm/executor.go:2305-2324 | For bytes |
| ValueLaws.CannotIndex | internal/vm/executor.go:2254-2360 | Lists, strings and bytes are indexed by numbers and slices, and by nothing else |
| ValueLaws.SliceIs | internal/vm/executor.go:2131-2170 | A slice has the elements from its first bound on, every so many of them, all those below its second bound and none else; bounds count from the end below zero and are cut to the list |
| ValueLaws.SliceBounds | internal/vm/executor.go:2131-2163 | Bounds left out stand for the whole, and a step for one |
| ValueLaws.PlainSlice | internal/vm/executor.go:2254-2284 | The slice from `a` to `b`, in range, of a list and of a string |
| Scopes.Environment.GetBinding | internal/object/environment.go:120-132 | Lookup through the linked scopes finds the innermost binding of the name |
| Scopes.Environment.Define | internal/object/environment.go:229-298 | A declaration changes the innermost scope only; it fails exactly when a `val` of that name is there, and then changes nothing |
| Scopes.Environment.Assign | internal/object/environment.go:300-342 | An assignment changes the nearest binding; it fails exactly when there is none or it is a `val` |
| Hamt.Get | internal/object/hamt.go:76-94 | For any hash function, following the hash of a key finds the pair stored for it in the subtree, or nothing |
| Hamt.GetLeaf | internal/object/hamt.go:80-87 | A bucket is searched for the key |
| Hamt.Insert | internal/object/hamt.go:27-74 | The new subtree is well formed and holds what the old one held and the new pair, for every key, colliding hashes included; `replaced` tells whether the key was there; no existing node is written; repeated promotion ends |
| Hamt.PutLeaf | internal/object/hamt.go:35-46 | In a copy of the bucket the pair of the key is replaced, or appended |
| Hamt.Promote | internal/object/hamt.go:50-58 | The branch that replaces a large bucket holds the same pairs |
| Hamt.InsertBelow | internal/object/hamt.go:61-73 | Insertion into a branch, through a copy with one child changed |
| Hamt.ChildInserted | internal/object/hamt.go:63-73 | Setting the bit and the child of a segment of the hash inserts into the branch exactly what was inserted into the child and keeps bitmap and children in step |
| Hamt.Delete | internal/object/hamt.go:96-153 | The new subtree is well formed and holds what the old one held, except the key; nothing removed means the very same node; no empty node is left |
| Hamt.DeleteLeaf | internal/object/hamt.go:100-122 | Deletion from a bucket, which vanishes with its last leaf |
| Hamt.DeleteBelow | internal/object/hamt.go:124-152 | Deletion from a branch, with a bucket that becomes an only child taking its place |
| Hamt.OnlyChild | internal/object/hamt.go:142-148 | A bucket that is an only child can take the place of its parent: it is well formed there, whatever its size, and holds the same pairs |
| Hamt.ForEach | internal/object/hamt.go:155-177 | The callback is called for the leaves in order up to its first refusal; it is finished exactly when it never refuses |
| Tries.LeavesArePairs | internal/object/hamt.go:155-177 | In a well-formed tree the visited leaves have distinct keys and are exactly the pairs lookup finds |
| Tries.FoundOnPath | internal/object/hamt.go:61-62 | A key found in a subtree has a hash that leads there |
| Bits.Trailing | internal/object/hamt.go:179-181 | The position of the lowest set bit |
| Bits.RestIsWithout | internal/object/hamt.go:174-174 | Clearing the lowest set bit removes that position and no other |
| MapStorage.Put | internal/object/map_storage.go:18-26 | After a put the trie denotes the updated finite map and the counter is its number of keys |
| MapStorage.Remove | internal/object/map_storage.go:32-39 | After a removal it denotes the map without the key; `removed` tells whether it was there; the counter is right |
| MapStorage.GetPair | internal/object/map_storage.go:28-30 | Lookup agrees with the finite map |
| MapStorage.Visit | internal/object/map_storage.go:45-47 | An unstopped visit calls back for each pair exactly once; a stopped one for distinct pairs up to the first refusal |
| MapStorage.SortLeaves | internal/object/map_storage.go:56-70 | The leaves in strictly rising order of keys, none lost |
| MapStorage.KeyOrder | internal/object/map_storage.go:56-70 | The order of keys is a strict total order |
| MapStorage.KeyLessIff | internal/object/map_storage.go:65-70 | Of two keys of one type the one with the smaller value comes first; of two types the one whose name does, character by character |
| MapStorage.OrderIsUnique | internal/object/map_storage.go:50-76 | There is only one rising listing of a set of leaves |
| MapStorage.ListingIsUnique | internal/object/map_storage.go:50-76 | A listing depends on the contents of the map alone, not on the history of puts and deletes |
| MapStorage.StablePairs | internal/object/map_storage.go:50-76 | The pairs of the map in the order of their keys |
| Maps.Map.EnsureStorage | internal/object/object.go:950-961 | The pairs a map started with move into a trie, in whatever order, without changing its contents |
| Maps.Map.PutPair | internal/object/object.go:903-909 | The map has the new pair and is otherwise as before |
| Maps.Map.DeleteKey | internal/object/object.go:910-917 | The map lacks the key and is otherwise as before |
| Maps.Map.GetPair | internal/object/object.go:923-926 | Lookup answers from the contents and does not change them |
| Maps.Map.Len | internal/object/object.go:928-930 | The number of keys |
| Maps.Map.Entries | internal/object/object.go:932-934 | The pairs in the order of their keys |
| Maps.Map.Clone | internal/object/object.go:940-948 | A new map with the same contents; as nothing reachable is written later, the two never affect each other |
| Maps.StdPut | internal/foreign/slug_std.go:228-249 | The library `put`: a new map with the pair; the old map keeps its contents though the two share a trie |
| Maps.StdRemove | internal/foreign/slug_std.go:252-273 | The library `remove`: a new map without the key; the old map keeps its contents |
| Maps.CopyWith | internal/vm/executor.go:347-353 | Copying with changes: the pairs of both maps, the changes winning; both sources keep theirs |
| Tasks.TaskHandle.Complete | internal/vm/task.go:36-45 | A handle is settled by its first result, which it then holds; later ones are ignored |
| Tasks.TaskHandle.Cancel | internal/vm/task.go:47-54 | Cancelling settles a handle, unless it has settled, with a runtime error that holds the reason |
| Tasks.ErrorIff | internal/vm/executor.go:1041-1048 | Machine errors and runtime errors are errors; values, returned values and the signal of `recur` are not |
| Nurseries.JoinIsDeterministic | internal/vm/executor.go:1037-1065 | For every interleaving: when all tasks of a scope have been waited for, the result is the error of the earliest-spawned task whose body failed, or the result of the block when it is an error already or no task failed; cancellation of later siblings and timing make no difference; all its tasks have settled |
| Nurseries.OwnByRun | internal/vm/task.go:36-54 | At any moment of any run a settled task holds what its body ended with or the notice of a cancellation by fail-fast, with the reason given there |
| Nurseries.FailFast | internal/vm/executor.go:1052-1061 | When the tasks of a scope have been waited for and one failed: those up to the first that failed hold what their bodies ended with, the later ones that or the notice of their cancellation |
| Nurseries.SiblingsCancelled | internal/vm/executor.go:1045-1062 | When the task waited for has failed and the result so far is neither an error nor returned, it becomes the result and every later task of the scope that is still running is cancelled at once; in no other case does waiting settle a task |
| Nurseries.CallEnds | internal/vm/executor.go:1904-1917 | A call that ends leaves its caller as it was; one that fails, by a machine error included, leaves the caller to be left too, unless it was called for a deferred function |
| Nurseries.OwnedUntilSettled | internal/vm/executor.go:460-469 | At any moment of any run: a task spawned inside a nursery is recorded in exactly one scope, that nursery, and once that nursery is left the task has settled; across nested blocks and called functions |
| Nurseries.SpawnIsRecorded | internal/vm/executor.go:460-469 | A spawned task is recorded in the innermost nursery, after those spawned there before, and nowhere else; with no nursery open it is recorded nowhere |
| Nurseries.SettledOnce | internal/vm/task.go:36-54 | Over any run a settled task keeps its first result and a spawned task its owner |
| Nurseries.BlockEndGoesOnIff | internal/vm/executor.go:767-778 | When the tasks of a scope have been waited for, what the scope comes to is kept, error or not, and the function goes on if and only if it was not being left |
| Nurseries.ErrorLeavesIff | internal/vm/executor.go:767-778 | An error at the end of a scope stops the function if and only if it was being left already or there is no such error: the block ended in none and no task failed, or the block ended in an explicit return |
| Nurseries.BlockErrorIsAValue | internal/vm/executor.go:767-778 | A run in which the only task of a nursery fails, its error is the value of the block, and the function goes on |
| Nurseries.NothingOutlivesTheProgram | internal/vm/executor.go:939-952 | When the program ends by return, throw, block end or a failed call, every task spawned in a nursery has settled |
| Nurseries.CrashIsCleanIff | internal/vm/executor.go:779-782 | After a machine error outside any call all tasks of nurseries have settled if and only if those of the nurseries still open had |
| Nurseries.CrashLeavesTasks | internal/vm/executor.go:779-782 | A concrete run in which such an error leaves a task of an open nursery running |
| Nurseries.JoinGoesOn | internal/vm/executor.go:1045-1050 | Waiting is never stuck: the task waited for has settled, or settles when its body ends |
| Nurseries.StepKeeps | internal/vm/executor.go:705-778 | Every step (spawn, block start and end, call, leaving, unwinding, machine error, joining, a task ending) keeps the invariant of scopes, owners and joins |
| Nurseries.RunKeeps | internal/vm/executor.go:105-928 | The invariant holds on every run |
| Nurseries.Nearest | internal/vm/executor.go:460-466 | The search from the end finds the innermost nursery, or that there is none |
| Defers.Unwinder.Defer | internal/vm/executor.go:686-704 | A deferred function is registered after all others; outside every scope one is opened for it |
| Defers.Unwinder.ExecuteEntries | internal/vm/executor.go:977-1035 | The loop executes the entries last to first, each on the result the later ones left |
| Defers.Unwinder.ExecuteCurrentScope | internal/vm/executor.go:930-937 | The innermost scope is taken off before its entries run, so none can run again |
| Defers.Unwinder.EndOnRecur | internal/vm/executor.go:725-766 | On `recur` the innermost scope is taken off; what runs and what becomes of the signal are those of the functions beside it, and the task scope is closed exactly when the signal is still there afterwards |
| Defers.RecurRunsAlwaysIff | internal/vm/executor.go:725-732 | On `recur` all `always` entries of the scope left run if and only if it is not the outermost of the function, or has none |
| Defers.RecurLosesEntry | internal/vm/executor.go:725-732 | An entry of the outermost scope that is dropped without running, though it would run when the scope is left otherwise |
| Defers.RecurClosesIff | internal/vm/executor.go:733-758 | On `recur` the scope left is closed if and only if it is the outermost of the function, or none of its entries raises a runtime error in its turn; otherwise what they made of the signal is the value of the block |
| Defers.Unwinder.UnwindAll | internal/vm/executor.go:939-952 | Unwinding ends with no deferred functions and only the scopes of the caller left, the tasks of each scope joined before its entries run |
| Defers.RanBackwards | internal/vm/executor.go:979-979 | Entries of a scope run in reverse order of registration, each at most once |
| Defers.UnwoundBackwards | internal/vm/executor.go:939-952 | Over all scopes: innermost first and last registered first, none twice |
| Defers.AlwaysRuns | internal/vm/executor.go:939-952 | When the scopes of a call are unwound, every `always` entry of every scope runs, whatever the tasks joined and the other entries come to |
| Defers.RunsByResultThen | internal/vm/executor.go:993-1003 | An `always` entry runs; a success entry runs if and only if the later entries left neither a machine error nor a runtime error, an error entry if and only if they left one |
| Defers.OneEntry | internal/vm/executor.go:993-1032 | What one entry makes of a result: nothing when its mode does not fit; the runtime error it raises takes the place of the result, with a runtime error for its cause; a value or a machine error does only as that of an error handler, a returned value unwrapped |
| Defers.UnwoundRunsIff | internal/vm/executor.go:939-952 | Over all scopes a call leaves: an entry runs if and only if it is an `always` entry, or a success entry and what was left to it is no error, or an error entry and it is one |
| Defers.JoinedFirst | internal/vm/executor.go:939-952 | The tasks of a scope are waited for before its entries run, and the scopes are left from the innermost one |
| Defers.SplitExecution | internal/vm/executor.go:977-1035 | Executing entries is executing the later ones and then the earlier ones on what they leave |
| Defers.ScopesDoNotMatter | internal/vm/executor.go:939-952 | Without tasks, unwinding scopes is executing all entries as if registered in one |
| Defers.OnlyHandlersRecover | internal/vm/executor.go:1024-1031 | A machine error or a runtime error gives way to a value if and only if an entry registered with `onerror` ran and gave neither |
| Defers.LastRaiseDecides | internal/vm/executor.go:1016-1032 | Without error handlers the result of a scope is the runtime error of the earliest registered entry that raises one in its turn, or what it was; values and machine errors they return are ignored |
| Defers.ResultStandsIff | internal/vm/executor.go:1016-1032 | Without error handlers the result of a scope stands if and only if no entry raises a runtime error in its turn, or the last to raise gives the very error object the scope failed with |
| Defers.MachineErrorIsIgnored | internal/vm/executor.go:1016-1032 | A success entry that returns a machine error: the scope yields its value all the same |
| Defers.OwnCauseIsLost | internal/vm/executor.go:1019-1021 | When a raised error that has a cause replaces another, it keeps that cause if and only if it is the error replaced |
| Chains.CauseReplaced | internal/vm/executor.go:1019-1021 | Overwriting the cause of an error object: its chain then contains an error if and only if it is that error, or the chain of its new cause comes to it without coming to the object first |
| Chains.CircleIff | internal/vm/executor.go:1019-1021 | Overwriting a cause where chains end: some chain becomes a circle if and only if the object was in the chain of its new cause already |
| Linking.PreservesIff | internal/vm/executor.go:1016-1032 | An entry that runs on a runtime error leaves a given error in the chain if and only if the error it raises is that one or is not met before it in the chain of the error replaced, or it raises none, is no error handler, and the links still hold |
| Linking.ThrownTakesOver | internal/vm/executor.go:1019-1021 | An error that has no cause yet takes over the whole chain of the error it replaces |
| Linking.CircleIffRaisedAgain | internal/vm/executor.go:1019-1021 | The chain is a circle afterwards if and only if the error raised was in the chain of the one it replaces |
| Linking.ErrorsStayLinked | internal/vm/executor.go:977-1035 | If each entry of a scope preserves the first error in its turn, it is in the chain of the final error |
| Linking.ErrorsStayLinkedIff | internal/vm/executor.go:977-1035 | And only then, where no entry brings a lost error back in its turn |
| Linking.ThrownAnewStaysLinked | internal/vm/executor.go:977-1035 | When entries only add causes, error handlers raise, and every error raised has no cause yet, no error is lost |
| Linking.ReturnsOnlyIf | internal/vm/executor.go:1016-1022 | An entry that sets no causes brings a lost error back only by raising it, or, on a value, by raising one that is linked to it |
| Linking.SameErrorTwice | internal/vm/executor.go:1019-1021 | Two entries that give the same error object: it becomes its own cause, the error thrown is in no chain, and chains have a circle |
| Linking.LostErrorReturns | internal/vm/executor.go:1016-1032 | A lost error is in the chain of the final one again: an entry raised another in its place, a handler recovered, and that other is raised once more |
| Linking.UnwoundStaysLinked | internal/vm/executor.go:939-952 | The same over all scopes a call leaves, with tasks joined in between |
| Linking.UnwoundStaysLinkedIff | internal/vm/executor.go:939-952 | Where neither a task nor an entry brings a lost error back: it is in the chain of the final error if and only if every entry of every scope preserves it in its turn |
| ErrorNames.SeesErrorIff | internal/vm/executor.go:1006-1018 | A handler sees the error under its name if and only if it was registered in the innermost scope open where the error was met, or the name stood for that very value before |
| ErrorNames.EchoRecoversIff | internal/vm/executor.go:1006-1032 | The handler that returns the error under its name recovers with it if and only if it sees it; registered further out, for a name not bound there, it puts identifier not found in the place of the error thrown |
| Leaving.WaitedIs | internal/vm/executor.go:1037-1065 | While a call is left: waiting for a scope, whatever ends when, gives the error of its earliest-spawned task that failed, or what was there before, and touches no other scope |
| Leaving.LeavingGives | internal/vm/executor.go:939-952 | Leaving a whole call from any reachable state, with any timing of the tasks, a program with deferred functions at its top level included: the result and the causes are those of the unwinding in which each scope is joined in the order of spawning |
| Leaving.LeavingIsDeterministic | internal/vm/executor.go:939-952 | Two runs that leave the same call with their own timing end with the same result if the same tasks were waited for, and they were unless a deferred function spawned one in a scope still open |
| Leaving.LeavingStaysLinked | internal/vm/executor.go:939-952 | The error a call is left with is in the chain of the error it ends with, whatever tasks fail meanwhile, if each entry preserves it in its turn, and only then where nothing brings a lost error back |
| Leaving.TopLevelDefer | internal/vm/executor.go:695-697 | A function deferred at the top level of a program, outside every task scope, runs when the program returns or throws |
| Deferring.StepKeeps | internal/vm/executor.go:686-1035 | Every step of executor, tasks and deferred functions keeps each registered function in one place: waiting in the call that registered it, had its turn, or lost in a call that crashed |
| Deferring.RunKeeps | internal/vm/executor.go:105-928 | So does every run |
| Deferring.RunsOnBase | internal/vm/executor.go:105-928 | Every run, seen without its deferred functions, is a run of scopes and tasks: what holds on every run of those holds here |
| Deferring.OneTurnIff | internal/vm/executor.go:686-1035 | At any moment of any run a registered function has had exactly one turn if and only if it is neither waiting nor lost; it waits in an open call only, and is lost only by a crash of the call that registered it |
| Deferring.AlwaysCalledIff | internal/vm/executor.go:686-1035 | A plain deferred function has been called if and only if it is neither waiting nor lost; once its call is over, if and only if no crash of that call lost it, and always when that call did not crash |
| Deferring.CalledIfFits | internal/vm/executor.go:993-1003 | On every run, of the entries that have had their turn: the `always` entries have been called, the success entries if and only if the result then was neither a machine error nor a runtime error, the error entries if and only if it was one |
| Deferring.HandedOn | internal/vm/executor.go:1904-1955 | A call that has been left gives its error, or its value or a runtime error in its place; its caller goes on as it was or is left with that error |
| Deferring.CausesSet | internal/vm/executor.go:1016-1022 | Over whole runs a cause is set only when a deferred function fails with a runtime error where there was one already, which then is the cause of the new one |
| Deferring.CleanEnd | internal/vm/executor.go:939-952 | When a program has ended and no call of it crashed, every plain deferred function has been called |
| Deferring.NeverStuck | internal/vm/executor.go:939-1035 | Until the program is over some step of every reachable state is enabled: a scope can be left, an entry can have its turn, a call can end, or a task that is waited for can end |
| Deferring.CrashIsCleanIff | internal/vm/executor.go:1904-1917 | After a machine error every plain deferred function that the call registered has been called if and only if none of them was waiting |
| Deferring.MachineErrorLosesEntry | internal/vm/executor.go:780-782 | A run that defers a function at the top level and meets a machine error: the program is over and the function has not been called |
| Deferring.CalledMachineErrorLosesEntry | internal/vm/executor.go:1904-1917 | The same in a function that is called: the caller is left with the error, the function has not been called |
| Deferring.ThrowCallsEntry | internal/vm/executor.go:895-914 | With a throw in place of the machine error it is called |
| Turning.TurnStarts | internal/vm/executor.go:767-770 | The entries of a scope get their turn when its tasks are done with, starting from what these made of the result, and are no longer registered then |
| Turning.TurnIsExecuted | internal/vm/executor.go:930-1035 | On every run, when the entries of a scope have all had their turn, the result and the causes are what executing them gives, with handlers that give what the functions called gave, whatever calls and tasks ran in between |
| Types.SplitTopLevel | internal/vm/declared_type_runtime.go:158-193 | The single pass with three counters cuts a text exactly at the separators outside all brackets and trims the parts |
| TypeText.PrintCloses | internal/vm/declared_type_runtime.go:761-801 | Printed types have their brackets in pairs, and outside brackets no separator but the bars of a union |
| TypeText.SplitList | internal/vm/declared_type_runtime.go:158-193 | Splitting the joined texts of types at commas gives the texts back |
| TypeText.SplitUnion | internal/vm/declared_type_runtime.go:158-193 | Splitting the text of a union at bars gives the texts of its flattened options |
| TypeText.ReadBack | internal/vm/declared_type_runtime.go:27-156 | What parsing the printed text of any type gives, however types are nested |
| TypeText.RoundTripIff | internal/vm/declared_type_runtime.go:27-156 | Parsing the printed text of a type gives the type back if and only if, at every depth, functions have a return type and are not variadic, structs are anonymous, type parameters are in scope and no keywords, and unions are flat with two or more options |
| TypeText.TextsTellApart | internal/vm/declared_type_runtime.go:761-801 | Types that can be read back and have the same text are the same |
| TypeText.NamesParse | internal/vm/declared_type_runtime.go:118-155 | Which name is read as which type: the fifteen names of the language, whatever the type parameters; any other identifier is a type parameter in scope or else a struct |
| TypeText.AnglesParse | internal/vm/declared_type_runtime.go:61-117 | Lists, channels, tasks and structs written with angle brackets around any text that closes its own brackets |
| TypeText.OnePartParses | internal/vm/declared_type_runtime.go:70-116 | A map written with one part is any map; a function written with one part returns that and has no parameters |
| TypeText.SpacesDoNotMatter | internal/vm/declared_type_runtime.go:27-32 | Blanks, tabs and line ends around a type make no difference |
| TypeText.Written | internal/vm/declared_type_runtime.go:27-156 | Texts of a map, a tuple, a function and a union, and what they are read as |
| TypeInference.InferredAccepts | internal/vm/declared_type_runtime.go:382-526 | Every value without functions and structs, however nested, is accepted by the type inferred from it |
| TypeInference.OnlyLikeAccepted | internal/vm/declared_type_runtime.go:382-526 | The type inferred from a value accepts nothing unlike it: only values of its kind, whose elements, keys and values are like some of its own, at any depth |
| TypeInference.ListTypes | internal/vm/declared_type_runtime.go:457-476 | The type of a list of data: any list when it is empty, the common type of its elements, a place for each of up to four that differ, or else a union of exactly their types |
| TypeInference.NamesAccept | internal/vm/declared_type_runtime.go:118-155 | Which values have the type that a name stands for: those of its kind, and all for `any` |
| TypeInference.AcceptedIff | internal/vm/declared_type_runtime.go:382-526 | For any value in which values with the same text of type have the same type: it is accepted by the type inferred from it if and only if the functions in it have types compatible with themselves, where in longer unlike lists and in maps each value may instead have the type of another |
| TypeInference.FitFunctionsAccepted | internal/vm/declared_type_runtime.go:382-526 | So it is when all the functions in it have such types |
| TypeInference.VariadicNotAccepted | internal/vm/declared_type_runtime.go:528-539 | A list of two functions that differ in being variadic has a type that it is not accepted by |
| TypeInference.UnionParameterNotAccepted | internal/vm/declared_type_runtime.go:713-723 | A function that takes a union is not accepted by its own type |
| TypeInference.MergedCovers | internal/vm/declared_type_runtime.go:500-526 | Merging types by their texts loses none: each is the merged type or one of its options |
| TypeInference.MergeTypes | internal/vm/declared_type_runtime.go:500-526 | The table from texts to types, its keys sorted, gives the merged type |
| TypeInference.MergeIgnoresOrder | internal/vm/declared_type_runtime.go:500-526 | The merged type does not depend on the order or number in which types come |
| TypeInference.InferredProper | internal/vm/declared_type_runtime.go:457-498 | The type inferred from a value without functions and structs is never a union at its top and can be read back from its text |
| Ordering.AscendingIsUnique | internal/vm/declared_type_runtime.go:516-520 | Sorting texts has one result |
| Ordering.TextLessIff | internal/vm/declared_type_runtime.go:516-520 | A text comes before another if and only if that goes on after it, or has the greater character where they first differ |
| TypeMatching.Matcher.Infer | internal/vm/declared_type_runtime.go:541-604 | Matching with bindings changed in place agrees with its specification, bindings of failed union options undone; what matches and what is bound then is characterised by `Unification` |
| Unification.MatchComplete | internal/vm/declared_type_runtime.go:541-604 | An expected type without unions matches what comes of putting types that fit themselves in for its type parameters, and binds its type parameters to exactly those |
| Unification.MatchIff | internal/vm/declared_type_runtime.go:541-604 | For types that leave nothing open but type parameters: matching succeeds if and only if some types put in for the parameters make the expected type the actual one, and binds those |
| Unification.MatchExact | internal/vm/declared_type_runtime.go:541-604 | After any earlier bindings: if such a match succeeds, the expected type with the bindings put in is the actual type, whatever is bound later, and every type parameter in it is bound |
| Unification.LaterOccurrence | internal/vm/declared_type_runtime.go:545-548 | Where a type parameter is bound already, a type matches if and only if the two fit each other: for types that leave nothing open, if it is the very type bound; the binding stays |
| Unification.FirstOption | internal/vm/declared_type_runtime.go:555-564 | A union matches if and only if one of its options does, with the bindings of the first that does, and binds nothing otherwise |
| Unification.OpenMatches | internal/vm/declared_type_runtime.go:552-601 | Where a type is open: matching takes an actual type parameter for anything, `any` for `any` only, and a struct without a name on either side; a result that one function does not give is not looked at |
| Unification.ConcreteFitsIff | internal/vm/declared_type_runtime.go:703-759 | Between types that leave nothing open compatibility is equality |
| Unification.OpenFits | internal/vm/declared_type_runtime.go:703-759 | `any` and type parameters fit and are fitted by everything, a bare function by every function, a struct by one without a name |
| TypeMatching.MatchExtends | internal/vm/declared_type_runtime.go:541-604 | Bindings once made are never changed, whether or not matching succeeds |
| TypeMatching.MatchSound | internal/vm/declared_type_runtime.go:541-660 | For all types, unions included: after a successful match, and whatever is bound later, the actual type fits the expected type with the bindings put in if and only if the unions fit and every type bound outside them is compatible with itself |
| TypeMatching.MatchSoundIff | internal/vm/declared_type_runtime.go:541-660 | For an expected type without unions and any actual type: if and only if every newly bound type is compatible with itself |
| TypeMatching.BindingsFromCall | internal/vm/declared_type_runtime.go:678-701 | Parameters and arguments are matched pair by pair from the left; what a call binds is characterised by `Unification` |
| Unification.CallComplete | internal/vm/declared_type_runtime.go:678-701 | A call whose arguments have the types of its parameters with types put in for the type parameters: every parameter matches, and the type parameters are bound to exactly those |
| Unification.CallSkips | internal/vm/declared_type_runtime.go:678-701 | A parameter that does not match, or whose type or argument is unknown, leaves the bindings to the others |
| Unification.MapBinds | internal/vm/declared_type_runtime.go:584-585 | An instance: a map of strings to numbers given for `map<K, V>` binds both type parameters |
| TypeMatching.CallExtends | internal/vm/declared_type_runtime.go:678-701 | Over a whole call bindings are only added |
| TypeMatching.CallSound | internal/vm/declared_type_runtime.go:678-701 | For any parameters and arguments: each parameter that matched accepts the type of its argument under the final bindings if and only if its unions fit and every type it bound outside them is compatible with itself |
| TypeMatching.CallSoundIff | internal/vm/declared_type_runtime.go:678-701 | For parameters without unions and any arguments: all that matched accept their arguments if and only if every type the call bound is compatible with itself |
| TypeMatching.CallSoundWithoutUnions | internal/vm/declared_type_runtime.go:678-701 | Without unions on either side every parameter that matched accepts its argument |
| TypeMatching.UnionIsNotSound | internal/vm/declared_type_runtime.go:713-723 | A concrete call with a list of a union for which this fails |
| TypeMatching.UnionParameterRefuses | internal/vm/declared_type_runtime.go:713-723 | Concrete union parameters, with and without a type parameter, that match a number and do not accept it |
| TypeMatching.UnionSound | internal/vm/declared_type_runtime.go:713-723 | With the bindings put in, an expected union accepts an actual type if and only if that is `any`, or a union while the expected one has an option, at any depth, that is `any`, an unbound type parameter, or one bound to such a type |
| TypeMatching.UnionFitsIff | internal/vm/declared_type_runtime.go:713-723 | A union is compatible with a type if and only if that is `any`, a type parameter, or a union with such an option at any depth |
| TypeMatching.FitsItselfIff | internal/vm/declared_type_runtime.go:703-759 | A type is compatible with itself if and only if each outermost union in it has `any` or a type parameter among its options, at any depth |
| TypeMatching.CompatibleItself | internal/vm/declared_type_runtime.go:703-759 | Without unions compatibility is reflexive |
| Signatures.GenerateSignature | internal/parser/parser.go:1742-1779 | Min is the least count after which every remaining fixed parameter has a default; Max is the number of parameters, or the largest integer with a variadic one |
| Signatures.LeastCountIsUnique | internal/parser/parser.go:1742-1779 | There is one such Min |
| Signatures.TagsText | internal/vm/executor.go:1403-1411 | The tags of a signature are those of its parameters as printed, a bar after each parameter |
| TagScores.EvaluateTagMatch | internal/vm/executor.go:1464-1514 | The loops over parameters and tags: minus one when some parameter given an argument has a first type tag that does not take it, otherwise the number of parameters with an argument and a type tag |
| TagScores.NegativeIff | internal/vm/executor.go:1464-1530 | A function is out if and only if some argument given has a type that the first type tag of its parameter does not take |
| TagScores.ScoreIs | internal/vm/executor.go:1464-1514 | The score is negative if and only if some argument does not suit the type tag of its parameter, and otherwise the number of parameters that have both an argument and a type tag |
| TagScores.TakesIff | internal/object/object.go:54-66 | The eleven type tags, and the types of objects each takes besides nil |
| TagScores.FirstTypeTag | internal/vm/executor.go:1471-1477 | The first type tag of a parameter decides for it |
| TagScores.GivenIs | internal/vm/executor.go:1517-1530 | What a tag is checked against: the argument of that name before the one in that position, though named arguments shift the positional ones when they are bound |
| TagScores.StructNameIsIgnored | internal/vm/executor.go:1472-1477 | The struct tag is a type tag: it takes exactly struct values and nil, whatever name it asks for, and no schemas |
| TagScores.VariadicTag | internal/vm/executor.go:1517-1530 | A list tag on a variadic parameter refuses a call if and only if an argument stands in its position that is neither a list nor nil |
| Overloads.SelectFromGroup | internal/vm/executor.go:1422-1462 | The loop, scoring each function of fitting arity, returns the best of the eligible functions, or none exactly when none is eligible |
| Overloads.BestIsUnique | internal/vm/executor.go:1430-1457 | Whatever order the group is looked at in, the choice is the same |
| Overloads.BetterOrder | internal/vm/executor.go:1445-1449 | Better is a strict total order on functions with different signatures, so that there is one best function |
| Overloads.BestIff | internal/vm/executor.go:1430-1457 | What the function selected is: one that takes the arguments and, next to every other that does, has no greater Max; at equal Max no fewer parameters that have both an argument and a type tag; at an equal number of those no shorter tags; and then the smaller signature text |
| Overloads.TaggedWins | internal/vm/executor.go:1446-1446 | Of a function tagged for numbers and an untagged one a number selects the tagged one and a string the other |
| Overloads.KeyText | internal/vm/executor.go:1536-1538 | The text of a signature, in full |
| Overloads.KeysTellApart | internal/vm/executor.go:1536-1538 | Signatures with the same text are the same |
| Calls.BindArguments | internal/vm/executor.go:1974-2096 | The buffers are filled if and only if names fit, positional arguments have room, and every other parameter has a usable default; then every parameter has the value it is due; otherwise the error is one that applies |
| Calls.ErrorMeans | internal/vm/executor.go:1994-2095 | What each error of a call says: a name no parameter has, a variadic parameter given something else than a list, an argument too many, a parameter left out that has no default, or whose default fails; a call with such an error does not bind |
| Calls.FirstLeftOut | internal/vm/executor.go:2065-2095 | In a call by position the parameter such an error is about is the first after the arguments whose default gives no value |
| Calls.BindNamed | internal/vm/executor.go:1994-2019 | Named arguments reach their parameters; unknown names and non-lists for a variadic parameter are errors, whatever order the names come in |
| Calls.BindPositional | internal/vm/executor.go:2021-2058 | Positional arguments fill the parameters not given by name in order; a variadic one takes exactly the rest |
| Calls.FillFixed | internal/vm/executor.go:2023-2033 | The loop over the fixed parameters |
| Calls.BindDefaults | internal/vm/executor.go:2065-2095 | Defaults for what is left, stopping at the first parameter that has none or whose default fails |
| Calls.PositionalBindsIff | internal/vm/executor.go:1974-2096 | A call by position binds if and only if its number of arguments lies between Min and Max of the signature and the defaults it needs give values |
| Calls.PositionsKept | internal/vm/executor.go:2021-2058 | Reading the positional arguments back from the bound parameters gives them all, in order, none lost or repeated |
| Calls.NamesKept | internal/vm/executor.go:2003-2018 | Every named argument is the value of the parameter it names |
| Calls.PositionalValues | internal/vm/executor.go:2021-2095 | In a call by position each parameter has the argument in its place, or the value of its default where there is none, and a variadic one the list of the rest |
| Calls.NamedBindsIff | internal/vm/executor.go:1994-2095 | A call by name binds if and only if every name is that of a parameter, a variadic one is given a list, and each other parameter left out has a default that gives a value |
| Calls.NamedValues | internal/vm/executor.go:1994-2095 | It gives each parameter the argument of its name, a variadic one left out the empty list, and any other left out the value of its default |
| GroupCalls.CallGroup | internal/vm/executor.go:1596-1614 | Calling a group: no function is chosen exactly when none is eligible; otherwise the best one, and its parameters get the values they are due, or the error is one that applies |
| GroupCalls.PositionalCallIff | internal/vm/executor.go:1596-1614 | A call by position selects a function whenever some function of the group binds the arguments and refuses none by its tags; the one selected binds them if and only if the defaults it needs give values |
| GroupCalls.NamedCallMissesOverload | internal/vm/executor.go:1422-1462 | A call by name for which the function selected does not bind the argument while another of the group would |
| Decimals.ScaleForDiv | internal/dec64/dec64.go:332-376 | The scale is the largest, up to the one asked for, at which the dividend fits 64 bits and the quotient a coefficient |
| Decimals.DivideRounded | internal/dec64/dec64.go:292-322 | The quotient of the scaled dividend is its exact value rounded in the given mode |
| Decimals.Divide | internal/dec64/dec64.go:278-325 | Not a number exactly for a zero divisor; otherwise the magnitude is the exact quotient at the chosen scale, rounded; the sign is that of the dividend whenever something is scaled |
| Decimals.RoundedIsUnique | internal/dec64/dec64.go:295-322 | There is one way to round in each mode |
| Decimals.RoundedIff | internal/dec64/dec64.go:295-322 | What rounding a number with a fraction gives in each of the four modes: which of its two neighbours, halves included |
| Decimals.ScaleOfOne | internal/dec64/dec64.go:332-376 | The scales of one by three and of one by a million: the limits of a coefficient and of a machine integer in digits |
| Decimals.DivisionRightIff | internal/dec64/dec64.go:338-338 | The sign of the quotient is right if and only if the divisor is positive, the dividend is zero, no digits are asked for, or the quotient vanishes at the precision asked for |
| Decimals.TenByMinusTwo | internal/dec64/dec64.go:338-338 | Ten by minus two comes out as plus five |
| Normalisation.Normalise | internal/dec64/dec64.go:524-561 | Not a number exactly when shrinking cannot make the coefficient fit; otherwise the number after shrinking is unchanged, has the sign it had, and is in its usual form: no zero at the end of a fraction, a small positive exponent given away as far as the coefficient can grow; the coefficient fits if and only if it is not a negative one that the up-scaling loop drives beyond the range |
| Normalisation.UsualIsUnique | internal/dec64/dec64.go:524-561 | Below an exponent of sixteen a number has one usual form: equal numbers are normalised to the same coefficient and exponent |
| Normalisation.UsualIsNotUnique | internal/dec64/dec64.go:554-557 | From sixteen on it can have two, which normalisation leaves as they are |
| Normalisation.DivideNumbers | internal/dec64/dec64.go:278-325 | Division as a whole: the rounded quotient of the scaled dividend, with the exponent that makes up for the scale, normalised, in its usual form; the sign is that of the dividend whenever something is scaled; not a number for a zero divisor or when the quotient cannot be made to fit |
| Normalisation.ShrunkTruncates | internal/dec64/dec64.go:530-533 | Shrinking drops digits: the sign is kept, less than one unit of the last digit kept is lost, and none is dropped that would fit |
| Normalisation.StripFraction | internal/dec64/dec64.go:549-552 | A fraction loses its trailing zeros, the number unchanged, up to exponent zero |
| Normalisation.GrowCoefficient | internal/dec64/dec64.go:554-557 | The up-scaling loop keeps the number; a negative coefficient ends at exponent zero, within range if and only if it fits there |
| Normalisation.NegativeRunsOver | internal/dec64/dec64.go:554-557 | A concrete negative number that leaves the range |
| Formatting.FormatFixed | internal/foreign/slug_std_fmt.go:258-344 | For every number and precision: the text shows the value rounded half to even at that many digits, with a minus exactly for a negative rounded value, grouped on request |
| Formatting.PrintedDenotes | internal/foreign/slug_std_fmt.go:320-344 | The digits of such a text are those of the rounded number, minus zero is never shown, and as many digits follow the point as were asked for, grouped or not |
| Formatting.PrintedIsUnique | internal/foreign/slug_std_fmt.go:320-344 | A rounded number has exactly one text for each count of fraction digits, grouped or not |
| Formatting.Printed | internal/foreign/slug_std_fmt.go:320-344 | The texts of two numbers |
| Formatting.RoundCoefficient | internal/foreign/slug_std_fmt.go:271-296 | Surplus digits are rounded half to even; a shift of more than eighteen digits gives zero, rightly |
| Formatting.PlacePoint | internal/foreign/slug_std_fmt.go:302-328 | Digits before and after the point denote the number, padded with zeros, without a superfluous leading zero |
| Formatting.GroupDigits | internal/foreign/slug_std_fmt.go:368-384 | The loop from the front groups in threes from the end |
| Formatting.AddGrouping | internal/foreign/slug_std_fmt.go:359-389 | A leading minus is kept apart from the groups |
| Formatting.GroupAddsCommas | internal/foreign/slug_std_fmt.go:359-389 | Removing the commas gives the ungrouped text back |
| Formatting.GroupLength | internal/foreign/slug_std_fmt.go:375-384 | There is one comma for every three digits after the first group |
| Formatting.CommaAt | internal/foreign/slug_std_fmt.go:368-384 | Counted from the end, every fourth character is a comma and no other is |
| Numerals.NumberOfDigits | internal/foreign/slug_std_fmt.go:302-302 | The decimal digits of a number denote it |
| StaticTypes.SameSignature | internal/semantic/typecheck.go:3143-3190 | Types with the same signature text are the same |
| Unions.AddOptionsIs | internal/semantic/typecheck.go:575-615 | Flattening collects exactly the options of all inputs, however deep unions are nested, each once; `never` is dropped and `any` absorbs the rest |
| Unions.NormalizeOptions | internal/semantic/typecheck.go:632-661 | `any` stands for everything; otherwise the first type of each signature is kept, `never` dropped, and lists and maps are merged |
| Unions.KeptSame | internal/semantic/typecheck.go:644-657 | Options that are already distinct are all kept in order: the second pass over flattened options changes nothing |
| Unions.Collector.Add | internal/semantic/typecheck.go:578-609 | The collector changed in place agrees with flattening |
| Unions.MergeFamilies | internal/semantic/typecheck.go:663-706 | The merging loop joins the element types of all lists and the key and value types of all maps |
| Unions.UnionTypes | internal/semantic/typecheck.go:573-630 | The procedure computes the specified union, and ends |
| Unions.UnionCovers | internal/semantic/typecheck.go:573-630 | The union accepts every value that one of its inputs accepts |
| Unions.UnionIsNormal | internal/semantic/typecheck.go:573-630 | The result is one type that is not a union and not `never`, or two to eight types that are neither unions nor `any` nor `never`, have distinct signatures, and include at most one list and one map |
| Unions.UnionExact | internal/semantic/typecheck.go:573-630 | When nothing has to be merged or widened, the union accepts exactly the values its inputs accept |
| UnionBounds.UnionComposed | internal/semantic/typecheck.go:573-706 | Where no `any` arises, the union accepts only what is composed of what its inputs accept: what one of their options accepts, or lists whose elements the element types of their lists accept, and maps likewise, at any depth |
| UnionBounds.SharpInputs | internal/semantic/typecheck.go:573-706 | A union without `any`, at any depth of lists and maps, has inputs without it |
| UnionBounds.EightAtMost | internal/semantic/typecheck.go:38-38 | Different types with nothing to merge are a union up to eight of them, and `any` beyond |
| UnionBounds.NothingToJoin | internal/semantic/typecheck.go:617-630 | The union of nothing, or of `never` alone, is not determined |
| UnionBounds.TwoLists | internal/semantic/typecheck.go:663-706 | Two lists become the list of what either holds |
| UnionBounds.TwoMaps | internal/semantic/typecheck.go:663-706 | Two maps become the map of the keys of both to the values of both, even where they differ in one part only |
| UnionBounds.ListThenMap | internal/semantic/typecheck.go:697-706 | A list comes after the other options and a map last, whatever their order was |
| Unions.MergeKeepsOptions | internal/semantic/typecheck.go:663-706 | Merging keeps options distinct and leaves at most one list and one map |
| Unions.MergeCovers | internal/semantic/typecheck.go:663-706 | Merging loses no value |

## Left out

The compiler and machine model:

- Struct, map and select patterns, `select`, function literals, calls, tail calls, `recur`, overload merging on
  `val`, tags, documentation strings, map literals, struct schemas, slices written in source, dot lookup and bit
  operations: more cases of the same kind. A map pattern inside a list pattern leaves its map on the stack on a
  miss, so the balance shown here would not hold for it.
- Decimal arithmetic, the printed form of values and the order of strings are parameters of the machine; the
  arithmetic itself is modelled apart. Constants for positions are exact, as they are below ten to the sixteen.
- Slice values are compared by their parts; the source compares slice objects by identity.
- Branches of `if` are expressions; in the source they are blocks, which are expressions too.
- Nursery limits, imports, module bindings and stack traces.
- Correctness.ExprRuns: assumes no named spread in the `val` and `var` patterns inside, because there the code departs from the meaning; what it does then is stated by BindGrows and SpreadGrows.
- Correctness.BindExprRuns: the same condition.
- Correctness.BindRuns: the same condition.
- Correctness.BindElemsRuns: the same condition.
- Programs.ProgramRuns: the same condition.
- Programs.CompiledProgramAgrees: the same condition; NamedSpreadGoesWrong is a program outside it for which the statement fails.
- Interpreter.Interpret: makes its statement about the ending under the same condition; calls, tasks and deferred functions are not part of its syntax.
- Meaning.InfixMeans: leaves out additions with a list literal of one element; SpliceKeepsMeaningIff and PrependKeepsMeaningIff are about those.
- PatternMeaning.CaseMeans: for literals that are values, and without pinned names inside lists; LiteralTakes and AlternativesTake are about pinned names and alternatives as cases of their own, Steadiness.AliasIsBound about a name in front.
- ExecutorClass.Executor.Run: task scopes and deferred functions are not part of this object; they are modelled in `Nurseries`, `Defers` and `Leaving`.
- ExecutorClass.Executor.Step: the same.
- ExecutorClass.Executor.EnterScope: only the environment is opened here; the scopes of tasks, deferred functions and limits are modelled apart.
- ExecutorClass.Executor.Bind: merging a function into a binding that already holds one is left out.
- Scopes.Environment.Define: the merging of functions, imported names and names declared before they have a value are left out.
- Scopes.Environment.Assign: assigning functions into groups is left out.
- Immutability.DefinedIff: the same cases of declarations are left out.
- Immutability.RunKeepsVals: for the instructions of the model; functions that share a scope with their caller are not part of it.
- ExecutorClass.Executor.LeaveScope: the joining of tasks and the deferred functions of a scope are modelled in `Nurseries` and `Defers`.

Maps:

- Tags on maps. The hash function is an arbitrary parameter; the one in use is an instance.
- Hamt.Insert: the values in the trie are compared by key only, as in the source; hashing of language values to keys is not modelled.
- MapStorage.SortLeaves: sorting is modelled as insertion with the contract of the library's sort.
- Maps.Map.Clone: tags and the map that does not exist are left out.
- Maps.CopyWith: tags and the copying of structs are left out.

Tasks and defers:

- Channels, `select`, `await` outside joins, limits on the number of running tasks, and `recur` inside nurseries.
- The result of a task's body is a fixed function of the task; what a deferred function gives is a function of
  the entry and the result so far. Locks are modelled by making each locked method one step.
- Nurseries.NothingOutlivesTheProgram: not claimed after a machine error outside any call, where it is false; CrashIsCleanIff says when it holds.
- Tasks.TaskHandle.Cancel: the notice a cancelled task ends with is its reason; the source wraps it in a map.
- Defers.Unwinder.UnwindAll: takes what waiting makes of a result as a function; LeavingGives puts the joins of the step system in its place.
- Defers.ScopesDoNotMatter: where tasks are joined between scopes, the result can differ.
- Leaving.LeavingGives: what a deferred function gives is a function of the entry and the result so far; the steps it takes are only required to come back to the same scopes.
- Defers.Unwinder.EndOnRecur: the task handles carried over to the next round are not modelled; environment and limit of a scope are closed with its task scope.
- Deferring.RunKeeps: a tail `recur` is no step of this system, RecurRunsAlwaysIff says what it does to entries; a task's own executor is not part of it, its body being a function of the task.
- Linking.UnwoundStaysLinked: causes that a task sets on a shared error while it is waited for are part of what waiting gives; Leaving.LeavingStaysLinked takes waiting to set none.
- ErrorNames.SeesErrorIff: for errors whose payload is a value of the language.

Types and calls:

- TypeText.RoundTripIff: trimming knows blanks, tabs and line ends only, and identifiers are ASCII.
- TypeInference.InferredAccepts: for values without functions and structs; AcceptedIff covers those.
- TypeInference.AcceptedIff: where types are compared by their texts, it assumes that values with the same text have the same type; VariadicNotAccepted shows what happens otherwise.
- Overloads.SelectFromGroup: functions of other kinds in a group, and the call that is tried when none is chosen, are left out; arguments are known by their types.
- Calls.BindArguments: what a default evaluates to is given with the parameter.
- Calls.BindDefaults: the same.

Decimals and unions:

- Integers are unbounded and exponents are in range where they are needed; the wrap-around of 64-bit coefficients
  and 8-bit exponents is not modelled. Addition, multiplication, roots, conversion from text and floating point,
  widths and percentages are left out.
- Decimals.Divide: gives the quotient before it is normalised; DivideNumbers adds that.
- Normalisation.DivideNumbers: for exponents that stay in range, where the source lets them wrap around.
- Normalisation.GrowCoefficient: for unbounded integers; the wrap-around of a coefficient of 64 bits is not modelled.
- Normalisation.Normalise: says that a coefficient leaves the range, not what the packed number then is.
- Formatting.FormatFixed: for precisions up to 127; beyond 128 the 8-bit target exponent wraps around, which is not modelled. The exponent -128 marks what is not a number and is printed apart.
- Unions.UnionCovers: a type not determined yet accepts every value; function types, type parameters and the constraint solver are left out.
- UnionBounds.UnionComposed: says nothing of a union in which `any` arises, which accepts every value.
- Unification.MatchComplete: for expected types without unions; FirstOption says when a union matches.
- Unification.MatchIff: for types that leave nothing open but type parameters; OpenMatches says what the others do.
- Unions.UnionExact: in one case it is weaker by design, as merging two lists or two maps, or more than eight options, widens the union.

The language server, the command line, files, network, databases, processes, time, randomness, the lexer and the
parser other than signatures are not part of this model.
