/** Leaving a function call: the tasks of each of its scopes are waited for, then its deferred functions run, while
    tasks go on ending in any order. */
module Leaving {
  import opened Values
  import opened Tasks
  import Nurseries
  import opened Defers
  import Linking

  /** What happens while one scope is left: the tasks are waited for, and then the deferred functions run. */
  datatype Leg = Leg(waiting: seq<Nurseries.Action>, deferred: seq<Nurseries.Action>)

  /** Where the call has got to: `left` are the entries that have not had their turn, by scope, and `awaited` has, for
      each scope left, the tasks it was waited for. */
  datatype Progress = Progress(state: Nurseries.State, left: seq<seq<Entry>>, held: Held, awaited: map<nat, seq<nat>>)

  function DropLast(ds: seq<seq<Entry>>): seq<seq<Entry>> {
    if ds == [] then ds else ds[..|ds| - 1]
  }

  function ExecutedLast(h: Handlers, ds: seq<seq<Entry>>, w: Held): Held {
    if ds == [] then w else Executed(h, ds[|ds| - 1], w)
  }

  /** The state in which the tasks of the innermost scope have all been waited for. */
  function Waited(bodies: nat -> Outcome, s: Nurseries.State, w: Held, leg: Leg): Option<Nurseries.State> {
    if !Nurseries.Enabled(s, Nurseries.Unwind(w.result)) || Nurseries.JoinEnd in leg.waiting then None
    else
      var r := Nurseries.Run(bodies, Nurseries.Step(bodies, s, Nurseries.Unwind(w.result)), leg.waiting);
      if r.Some? && Nurseries.Enabled(r.value, Nurseries.JoinEnd) then r else None
  }

  /** The state in which the deferred functions called from `s` have come back; they may have spawned tasks. */
  function Back(bodies: nat -> Outcome, s: Nurseries.State, leg: Leg): Option<Nurseries.State> {
    var r := Nurseries.Run(bodies, s, leg.deferred);
    if r.Some? && r.value.join.Idle? && r.value.frames == s.frames && |r.value.scopes| == |s.scopes| then r else None
  }

  /** The call on top is being left and none of its own task scopes is open any more. */
  predicate AtBase(s: Nurseries.State) {
    s.join.Idle? && s.frames != [] && Nurseries.Top(s).unwinding && |s.scopes| == Nurseries.Top(s).base
  }

  /** One scope left, `ds` being the entries registered in each: where no task scope is left there are no tasks to wait
      for. A `defer` at the top level of a program is registered outside every task scope. */
  function LeaveOne(bodies: nat -> Outcome, h: Handlers, s: Nurseries.State, ds: seq<seq<Entry>>, w: Held, leg: Leg):
    Option<Progress>
  {
    var waited := if AtBase(s) then None else Waited(bodies, s, w, leg);
    var back := if AtBase(s) then Back(bodies, s, leg)
                else if waited.None? then None
                else Back(bodies, Nurseries.Step(bodies, waited.value, Nurseries.JoinEnd), leg);
    if back.None? || (AtBase(s) && (ds == [] || leg.waiting != [])) then None
    else if AtBase(s) then Some(Progress(back.value, DropLast(ds), ExecutedLast(h, ds, w), map[]))
    else
      var j := waited.value.join;
      Some(Progress(back.value, DropLast(ds), ExecutedLast(h, ds, Held(j.current, w.causes)),
                    map[|back.value.scopes| := j.scope.handles]))
  }

  /** Scopes left one after the other, innermost first. */
  function Leave(bodies: nat -> Outcome, h: Handlers, s: Nurseries.State, ds: seq<seq<Entry>>, w: Held,
                 legs: seq<Leg>): Option<Progress>
    decreases |legs|
  {
    if legs == [] then Some(Progress(s, ds, w, map[]))
    else
      var one := LeaveOne(bodies, h, s, ds, w, legs[0]);
      if one.None? then None
      else
        var rest := Leave(bodies, h, one.value.state, one.value.left, one.value.held, legs[1..]);
        if rest.None? then None
        else Some(rest.value.(awaited := rest.value.awaited + one.value.awaited))
  }

  /** What waiting makes of a result, when the scope at each depth has these tasks. */
  function Joining(bodies: nat -> Outcome, tasks: map<nat, seq<nat>>): Joins {
    (d: nat, w: Held) => Held(Nurseries.Joined(bodies, if d in tasks then tasks[d] else [], w.result), w.causes)
  }

  /** The tasks of each open scope. */
  function TasksOf(scopes: seq<Nurseries.Scope>): map<nat, seq<nat>> {
    map d: nat | d < |scopes| :: scopes[d].handles
  }

  lemma JoiningKeepsErrors(bodies: nat -> Outcome, tasks: map<nat, seq<nat>>)
    ensures Linking.KeepsErrors(Joining(bodies, tasks))
  {}

  /** While a scope is being joined, nothing but the handles and the progress of the join changes. */
  lemma {:induction false} WaitingChanges(bodies: nat -> Outcome, s: Nurseries.State, run: seq<Nurseries.Action>)
    requires s.join.Joining? && Nurseries.JoinEnd !in run && Nurseries.Run(bodies, s, run).Some?
    ensures var s1 := Nurseries.Run(bodies, s, run).value;
            && s1.join.Joining? && s1.join.scope == s.join.scope && s1.join.start == s.join.start
            && s1.scopes == s.scopes && s1.frames == s.frames
    decreases |run|
  {
    if run != [] {
      var s1 := Nurseries.Step(bodies, s, run[0]);
      assert run[0] in run && run[0] != Nurseries.JoinEnd;
      assert forall a | a in run[1..] :: a in run;
      OneChanges(bodies, s, run[0]);
      WaitingChanges(bodies, s1, run[1..]);
    }
  }

  lemma OneChanges(bodies: nat -> Outcome, s: Nurseries.State, a: Nurseries.Action)
    requires s.join.Joining? && a != Nurseries.JoinEnd && Nurseries.Enabled(s, a)
    ensures var s1 := Nurseries.Step(bodies, s, a);
            && s1.join.Joining? && s1.join.scope == s.join.scope && s1.join.start == s.join.start
            && s1.scopes == s.scopes && s1.frames == s.frames
  {}

  /** Waiting for one scope gives the error of its earliest-spawned task that failed, or what was there before. */
  lemma WaitedIs(bodies: nat -> Outcome, s: Nurseries.State, w: Held, leg: Leg)
    requires Nurseries.Inv(bodies, s) && Waited(bodies, s, w, leg).Some?
    ensures s.frames != [] && |s.scopes| > Nurseries.Top(s).base
    ensures var s1, n := Waited(bodies, s, w, leg).value, |s.scopes| - 1;
            && Nurseries.Inv(bodies, s1) && s1.scopes == s.scopes[..n] && s1.frames == s.frames
            && Nurseries.Enabled(s1, Nurseries.JoinEnd) && s1.join.scope == s.scopes[n]
            && s1.join.current == Nurseries.Joined(bodies, s.scopes[n].handles, w.result)
  {
    hide Nurseries.Inv;
    var u := Nurseries.Unwind(w.result);
    var s1 := Nurseries.Step(bodies, s, u);
    Nurseries.StepKeeps(bodies, s, u);
    Nurseries.RunKeeps(bodies, s1, leg.waiting);
    WaitingChanges(bodies, s1, leg.waiting);
    Nurseries.JoinedAtEnd(bodies, Waited(bodies, s, w, leg).value);
  }

  lemma BackKeeps(bodies: nat -> Outcome, s: Nurseries.State, leg: Leg)
    requires Nurseries.Inv(bodies, s) && Back(bodies, s, leg).Some?
    ensures Nurseries.Inv(bodies, Back(bodies, s, leg).value)
  {
    hide Nurseries.Inv;
    Nurseries.RunKeeps(bodies, s, leg.deferred);
  }

  /** What leaving one scope comes to: the tasks waited for are those it had, and the result is what they and its
      deferred functions make of it. */
  lemma LeaveOneIs(bodies: nat -> Outcome, h: Handlers, s: Nurseries.State, ds: seq<seq<Entry>>, w: Held, leg: Leg)
    requires Nurseries.Inv(bodies, s) && LeaveOne(bodies, h, s, ds, w, leg).Some?
    ensures s.frames != [] && Nurseries.Top(s).base <= |s.scopes|
    ensures var p, n, base := LeaveOne(bodies, h, s, ds, w, leg).value, |s.scopes| - 1, Nurseries.Top(s).base;
            && Nurseries.Inv(bodies, p.state) && p.state.frames == s.frames && p.left == DropLast(ds)
            && (if |s.scopes| == base then
                  ds != [] && |p.state.scopes| == base && p.held == ExecutedLast(h, ds, w) && p.awaited == map[]
                else
                  && |p.state.scopes| == n && p.awaited == map[n := s.scopes[n].handles]
                  && p.held == ExecutedLast(h, ds,
                       Held(Nurseries.Joined(bodies, s.scopes[n].handles, w.result), w.causes)))
  {
    hide Nurseries.Inv; hide Nurseries.Joined; hide Waited; hide Back; hide ExecutedLast; hide DropLast;
    if AtBase(s) {
      BackKeeps(bodies, s, leg);
      BackStands(bodies, s, leg);
    } else {
      WaitedIs(bodies, s, w, leg);
      var s1 := Waited(bodies, s, w, leg).value;
      var s2 := Nurseries.Step(bodies, s1, Nurseries.JoinEnd);
      Nurseries.StepKeeps(bodies, s1, Nurseries.JoinEnd);
      BackKeeps(bodies, s2, leg);
      BackStands(bodies, s2, leg);
    }
  }

  lemma BackStands(bodies: nat -> Outcome, s: Nurseries.State, leg: Leg)
    requires Back(bodies, s, leg).Some?
    ensures var r := Back(bodies, s, leg).value; r.frames == s.frames && |r.scopes| == |s.scopes|
  {}

  /** No deferred function spawns a task in the scopes that are still open. */
  predicate Quiet(bodies: nat -> Outcome, h: Handlers, s: Nurseries.State, ds: seq<seq<Entry>>, w: Held,
                  legs: seq<Leg>)
    requires Leave(bodies, h, s, ds, w, legs).Some?
    decreases |legs|
  {
    legs == [] ||
    var p := LeaveOne(bodies, h, s, ds, w, legs[0]).value;
    && p.state.scopes <= s.scopes && Quiet(bodies, h, p.state, p.left, p.held, legs[1..])
  }

  /** The scopes waited for are those that have been left, down to those of the caller at most. */
  lemma {:induction false} LeaveCounts(bodies: nat -> Outcome, h: Handlers, s: Nurseries.State, ds: seq<seq<Entry>>,
                                       w: Held, legs: seq<Leg>)
    requires Nurseries.Inv(bodies, s) && s.frames != [] && Leave(bodies, h, s, ds, w, legs).Some?
    requires Nurseries.Top(s).base <= |s.scopes|
    ensures var p := Leave(bodies, h, s, ds, w, legs).value;
            && Nurseries.Top(s).base <= |p.state.scopes| <= |s.scopes| && p.state.frames == s.frames
            && (forall d :: d in p.awaited <==> |p.state.scopes| <= d < |s.scopes|)
            && (Quiet(bodies, h, s, ds, w, legs)
                ==> forall d | d in p.awaited :: p.awaited[d] == s.scopes[d].handles)
    decreases |legs|
  {
    hide Nurseries.Inv; hide Nurseries.Joined; hide ExecutedLast; hide LeaveOne;
    if legs != [] {
      var one := LeaveOne(bodies, h, s, ds, w, legs[0]).value;
      LeaveOneIs(bodies, h, s, ds, w, legs[0]);
      LeaveCounts(bodies, h, one.state, one.left, one.held, legs[1..]);
    }
  }

  /** Leaving scopes, whatever tasks end when: what is left to do for the scopes still open is what the unwinding as a
      whole comes to, each scope being joined as its tasks end on their own. */
  lemma {:induction false} LeaveIs(bodies: nat -> Outcome, h: Handlers, s: Nurseries.State, ds: seq<seq<Entry>>,
                                   w: Held, legs: seq<Leg>, tasks: map<nat, seq<nat>>)
    requires Nurseries.Inv(bodies, s) && s.frames != [] && Leave(bodies, h, s, ds, w, legs).Some?
    requires Nurseries.Top(s).base <= |s.scopes|
    requires var p := Leave(bodies, h, s, ds, w, legs).value;
             forall d | d in p.awaited :: d in tasks && tasks[d] == p.awaited[d]
    ensures var p, base := Leave(bodies, h, s, ds, w, legs).value, Nurseries.Top(s).base;
            && base <= |p.state.scopes|
            && Unwound(h, Joining(bodies, tasks), ds, |s.scopes|, base, w)
               == Unwound(h, Joining(bodies, tasks), p.left, |p.state.scopes|, base, p.held)
    decreases |legs|
  {
    hide Nurseries.Inv; hide Nurseries.Joined; hide Unwound; hide ExecutedLast; hide LeaveOne;
    if legs != [] {
      var one := LeaveOne(bodies, h, s, ds, w, legs[0]).value;
      LeaveOneIs(bodies, h, s, ds, w, legs[0]);
      LeaveCounts(bodies, h, one.state, one.left, one.held, legs[1..]);
      LeaveIs(bodies, h, one.state, one.left, one.held, legs[1..], tasks);
      UnwoundStep(h, Joining(bodies, tasks), ds, |s.scopes|, Nurseries.Top(s).base, w);
    }
  }

  lemma UnwoundStep(h: Handlers, join: Joins, ds: seq<seq<Entry>>, n: nat, borrowed: nat, w: Held)
    requires n >= borrowed && (n > borrowed || ds != [])
    ensures Unwound(h, join, ds, n, borrowed, w)
            == if n > borrowed then Unwound(h, join, DropLast(ds), n - 1, borrowed, ExecutedLast(h, ds, join(n - 1, w)))
               else Unwound(h, join, DropLast(ds), n, borrowed, ExecutedLast(h, ds, w))
  {
    hide Executed;
  }

  /** A whole call left from a state: every scope of it, its own scopes being those above its base, and every entry. */
  ghost predicate LeavesCall(bodies: nat -> Outcome, h: Handlers, s: Nurseries.State, ds: seq<seq<Entry>>, w: Held,
                             legs: seq<Leg>)
  {
    && s.frames != [] && Leave(bodies, h, s, ds, w, legs).Some?
    && var p := Leave(bodies, h, s, ds, w, legs).value;
       p.left == [] && |p.state.scopes| == Nurseries.Top(s).base
  }

  lemma Reachable(bodies: nat -> Outcome, run: seq<Nurseries.Action>, s: Nurseries.State)
    requires Nurseries.Run(bodies, Nurseries.INITIAL, run) == Some(s)
    ensures Nurseries.Inv(bodies, s) && (s.frames != [] ==> Nurseries.Top(s).base <= |s.scopes|)
  {
    hide Nurseries.Run;
    Nurseries.InitialHolds(bodies);
    Nurseries.RunKeeps(bodies, Nurseries.INITIAL, run);
  }

  /** The result of leaving a call is that of the unwinding, with each scope joined in the order of spawning; the timing
      of the tasks has no part in it. */
  lemma LeavingGives(bodies: nat -> Outcome, h: Handlers, run: seq<Nurseries.Action>, s: Nurseries.State,
                     ds: seq<seq<Entry>>, w: Held, legs: seq<Leg>)
    requires Nurseries.Run(bodies, Nurseries.INITIAL, run) == Some(s) && LeavesCall(bodies, h, s, ds, w, legs)
    ensures Nurseries.Top(s).base <= |s.scopes|
    ensures var p, base := Leave(bodies, h, s, ds, w, legs).value, Nurseries.Top(s).base;
            && p.held == Unwound(h, Joining(bodies, p.awaited), ds, |s.scopes|, base, w)
            && (Quiet(bodies, h, s, ds, w, legs)
                ==> p.held == Unwound(h, Joining(bodies, TasksOf(s.scopes)), ds, |s.scopes|, base, w))
  {
    hide Nurseries.Run; hide Leave; hide Nurseries.Inv; hide Quiet; hide Joining;
    Reachable(bodies, run, s);
    var p := Leave(bodies, h, s, ds, w, legs).value;
    LeaveCounts(bodies, h, s, ds, w, legs);
    LeaveIs(bodies, h, s, ds, w, legs, p.awaited);
    if Quiet(bodies, h, s, ds, w, legs) {
      LeaveIs(bodies, h, s, ds, w, legs, TasksOf(s.scopes));
    }
  }

  /** Two ways of leaving the same call, each with its own timing, give the same result, as long as the same tasks were
      waited for; and the same were when no deferred function spawned one in a scope still open. */
  lemma LeavingIsDeterministic(bodies: nat -> Outcome, h: Handlers, run: seq<Nurseries.Action>, s: Nurseries.State,
                               ds: seq<seq<Entry>>, w: Held, legs: seq<Leg>, legs1: seq<Leg>)
    requires Nurseries.Run(bodies, Nurseries.INITIAL, run) == Some(s)
    requires LeavesCall(bodies, h, s, ds, w, legs) && LeavesCall(bodies, h, s, ds, w, legs1)
    ensures var p, p1 := Leave(bodies, h, s, ds, w, legs).value, Leave(bodies, h, s, ds, w, legs1).value;
            && (p.awaited == p1.awaited ==> p.held == p1.held)
            && (Quiet(bodies, h, s, ds, w, legs) && Quiet(bodies, h, s, ds, w, legs1)
                ==> p.awaited == p1.awaited)
  {
    hide Nurseries.Run; hide Leave; hide Nurseries.Inv; hide Quiet;
    Reachable(bodies, run, s);
    LeavingGives(bodies, h, run, s, ds, w, legs);
    LeavingGives(bodies, h, run, s, ds, w, legs1);
    LeaveCounts(bodies, h, s, ds, w, legs);
    LeaveCounts(bodies, h, s, ds, w, legs1);
  }

  /** An error with which a call is left is in the chain of the one it ends with, whatever tasks fail meanwhile, as long
      as each entry preserves it in its turn; and only then, where nothing brings it back. */
  lemma LeavingStaysLinked(bodies: nat -> Outcome, h: Handlers, run: seq<Nurseries.Action>, s: Nurseries.State,
                           ds: seq<seq<Entry>>, w: Held, legs: seq<Leg>, first: RuntimeError)
    requires Nurseries.Run(bodies, Nurseries.INITIAL, run) == Some(s) && LeavesCall(bodies, h, s, ds, w, legs)
    requires Linking.Holds(w, first)
    ensures Nurseries.Top(s).base <= |s.scopes|
    ensures var p, base := Leave(bodies, h, s, ds, w, legs).value, Nurseries.Top(s).base;
            var join := Joining(bodies, p.awaited);
            var preserved := Linking.AllScopesPreserve(h, join, ds, |s.scopes|, base, w, first);
            && (preserved ==> Linking.Holds(p.held, first))
            && (Linking.NothingReturns(h, join, ds, |s.scopes|, base, w, first)
                ==> (Linking.Holds(p.held, first) <==> preserved))
  {
    hide Nurseries.Run; hide Leave; hide Joining; hide Unwound; hide Linking.AllScopesPreserve;
    hide Linking.NothingReturns; hide Linking.Holds;
    var p, base := Leave(bodies, h, s, ds, w, legs).value, Nurseries.Top(s).base;
    var join := Joining(bodies, p.awaited);
    LeavingGives(bodies, h, run, s, ds, w, legs);
    JoiningKeepsErrors(bodies, p.awaited);
    if Linking.AllScopesPreserve(h, join, ds, |s.scopes|, base, w, first) {
      Linking.UnwoundStaysLinked(h, join, ds, |s.scopes|, base, w, first);
    }
    if Linking.NothingReturns(h, join, ds, |s.scopes|, base, w, first) {
      Linking.UnwoundStaysLinkedIff(h, join, ds, |s.scopes|, base, w, first);
    }
  }

  /** A `defer` at the top level of a program, outside every block, runs when the program returns or throws. */
  lemma TopLevelDefer(bodies: nat -> Outcome, h: Handlers, e: Entry, w: Held) returns (s: Nurseries.State)
    ensures Nurseries.Run(bodies, Nurseries.INITIAL, [Nurseries.Leave]) == Some(s)
    ensures LeavesCall(bodies, h, s, [[e]], w, [Leg([], [])])
    ensures Leave(bodies, h, s, [[e]], w, [Leg([], [])]).value.held == Executed(h, [e], w)
  {
    s := Nurseries.Step(bodies, Nurseries.INITIAL, Nurseries.Leave);
    Nurseries.RunOne(bodies, Nurseries.INITIAL, Nurseries.Leave, []);
    assert AtBase(s) && Back(bodies, s, Leg([], [])) == Some(s);
    assert LeaveOne(bodies, h, s, [[e]], w, Leg([], [])) == Some(Progress(s, [], Executed(h, [e], w), map[]));
  }
}
