/** The scopes of one executor and the tasks spawned in them, as a step system: at any moment either the executor takes
    its next step or some task ends. */
module Nurseries {
  import opened Values
  import opened Tasks

  /** A lexical scope; only a nursery records tasks. Serial numbers tell scopes apart. */
  datatype Scope = Scope(id: nat, nursery: bool, handles: seq<nat>)

  /** A function call sharing the caller's scopes from `base` down; `deferred` when run as a defer. */
  datatype Frame = Frame(base: nat, unwinding: bool, deferred: bool)

  datatype Join = Idle | Joining(scope: Scope, at: nat, start: Outcome, current: Outcome)

  /** Tasks are numbered in the order they are spawned. `owners` records, for each, the nearest nursery at that time.
      `last` is what the scope closed last came to: the value of the block, or what is handed on. */
  datatype State = State(
    handles: seq<Option<Outcome>>,
    owners: seq<Option<nat>>,
    scopes: seq<Scope>,
    frames: seq<Frame>,
    join: Join,
    serial: nat,
    last: Outcome,
    crashed: bool)

  datatype Action =
    | Finish(task: nat)                         // a task's body ends
    | Spawn
    | Push(nursery: bool)
    | Pop(result: Outcome)                       // the end of a block with this result
    | Call(deferred: bool)
    | Leave                                     // return, throw, or a call that failed
    | Unwind(result: Outcome)                    // leave the innermost scope of a frame being left
    | Done(failed: bool)                        // a frame has been unwound; it may hand on an error
    | Crash                                     // a machine error: the frame ends without unwinding
    | JoinNext
    | JoinEnd

  const INITIAL := State([], [], [], [Frame(0, false, false)], Idle, 0, Plain(Nil), false)

  /** The innermost nursery: the highest index. */
  function Nearest(scopes: seq<Scope>): (r: Option<nat>)
    ensures r.Some? ==> r.value < |scopes| && scopes[r.value].nursery && forall j | r.value < j < |scopes| ::
            !scopes[j].nursery
    ensures r.None? ==> forall j | 0 <= j < |scopes| :: !scopes[j].nursery
  {
    if scopes == [] then None
    else if scopes[|scopes| - 1].nursery then Some(|scopes| - 1)
    else Nearest(scopes[..|scopes| - 1])
  }

  /** A result that a failing task does not replace. */
  predicate Keeps(r: Outcome) { IsError(r) || r.Wrapped? }

  /** Cancel the tasks `hs`: settle those that have not settled. */
  function CancelAll(handles: seq<Option<Outcome>>, hs: seq<nat>): (r: seq<Option<Outcome>>)
    ensures |r| == |handles|
    ensures forall t | 0 <= t < |r| ::
            r[t] == if t in hs then Settle(handles[t], Notice(t, FAIL_FAST)) else handles[t]
  {
    seq(|handles|, t requires 0 <= t < |handles| =>
          if t in hs then Settle(handles[t], Notice(t, FAIL_FAST)) else handles[t])
  }

  function Top(s: State): Frame
    requires s.frames != []
  {
    s.frames[|s.frames| - 1]
  }

  /** The executor is between instructions of the function on top. */
  predicate Running(s: State) { s.join.Idle? && s.frames != [] && !Top(s).unwinding }

  predicate Enabled(s: State, a: Action) {
    match a
    case Finish(t) => t < |s.handles|
    case Spawn => Running(s)
    case Push(_) => Running(s)
    case Pop(_) => Running(s) && |s.scopes| > Top(s).base
    case Call(_) => s.join.Idle? && s.frames != [] && (Top(s).unwinding ==> a.deferred)
    case Leave => Running(s)
    case Unwind(_) => s.join.Idle? && s.frames != [] && Top(s).unwinding && |s.scopes| > Top(s).base
    case Done(_) => s.join.Idle? && s.frames != [] && Top(s).unwinding && |s.scopes| == Top(s).base
    case Crash => Running(s)
    case JoinNext => s.join.Joining? && s.join.at < |s.join.scope.handles|
                     && s.join.scope.handles[s.join.at] < |s.handles|
                       && s.handles[s.join.scope.handles[s.join.at]].Some?
    case JoinEnd => s.join.Joining? && s.join.at == |s.join.scope.handles|
  }

  function SpawnTask(s: State): State {
    var t, o := |s.handles|, Nearest(s.scopes);
    var s1 := s.(handles := s.handles + [None]);
    if o.None? then s1.(owners := s.owners + [None])
    else
      var sc := s.scopes[o.value];
      s1.(owners := s.owners + [Some(sc.id)], scopes := s.scopes[o.value := sc.(handles := sc.handles + [t])])
  }

  /** Take the innermost scope off and wait for its tasks. */
  function StartJoin(s: State, r: Outcome): State
    requires s.scopes != []
  {
    var n := |s.scopes| - 1;
    s.(scopes := s.scopes[..n], join := Joining(s.scopes[n], 0, r, r))
  }

  /** The awaited task has settled: its error is taken over when there is none yet, and the later tasks are cancelled.
      */
  function JoinTask(s: State): State
    requires Enabled(s, JoinNext)
  {
    var j := s.join;
    var res := s.handles[j.scope.handles[j.at]].value;
    if IsError(res) && !Keeps(j.current) then
      s.(handles := CancelAll(s.handles, j.scope.handles[j.at + 1..]), join := j.(at := j.at + 1, current := res))
    else
      s.(join := j.(at := j.at + 1))
  }

  /** The frame on top is gone; when it was called and failed, its caller is left too. */
  function EndFrame(s: State, failed: bool): State
    requires s.frames != []
  {
    var n := |s.frames| - 1;
    var rest := s.frames[..n];
    if n == 0 || !failed || s.frames[n].deferred then s.(frames := rest)
    else s.(frames := rest[n - 1 := rest[n - 1].(unwinding := true)])
  }

  function Step(bodies: nat -> Outcome, s: State, a: Action): State
    requires Enabled(s, a)
  {
    match a
    case Finish(t) => s.(handles := s.handles[t := Settle(s.handles[t], bodies(t))])
    case Spawn => SpawnTask(s)
    case Push(nursery) => s.(scopes := s.scopes + [Scope(s.serial, nursery, [])], serial := s.serial + 1)
    case Pop(r) => StartJoin(s, r)
    case Call(deferred) => s.(frames := s.frames + [Frame(|s.scopes|, false, deferred)])
    case Leave => s.(frames := s.frames[|s.frames| - 1 := Top(s).(unwinding := true)])
    case Unwind(r) => StartJoin(s, r)
    case Done(failed) => EndFrame(s, failed)
    case Crash => EndFrame(s, true).(crashed := s.crashed || |s.frames| == 1)
    case JoinNext => JoinTask(s)
    case JoinEnd => s.(join := Idle, last := s.join.current)
  }

  /** The state after a run, when every step of it is enabled. */
  function Run(bodies: nat -> Outcome, s: State, run: seq<Action>): Option<State>
    decreases |run|
  {
    if run == [] then Some(s)
    else if Enabled(s, run[0]) then Run(bodies, Step(bodies, s, run[0]), run[1..])
    else None
  }

  // ----- what joining a scope must give -----

  /** The position of the first task whose body ended in an error, or the number of tasks. */
  function FirstError(bodies: nat -> Outcome, hs: seq<nat>): (e: nat)
    ensures e <= |hs| && forall k | 0 <= k < e :: !IsError(bodies(hs[k]))
    ensures e < |hs| ==> IsError(bodies(hs[e]))
  {
    if hs == [] then 0 else if IsError(bodies(hs[0])) then 0 else 1 + FirstError(bodies, hs[1..])
  }

  /** The error of the earliest-spawned task that failed, unless the body's own result stands. */
  function Joined(bodies: nat -> Outcome, hs: seq<nat>, start: Outcome): Outcome {
    var e := FirstError(bodies, hs);
    if Keeps(start) || e == |hs| then start else bodies(hs[e])
  }

  // ----- the invariant -----

  /** In the order of spawning, and each once. */
  predicate Rising(hs: seq<nat>) {
    forall i, j | 0 <= i < j < |hs| :: hs[i] < hs[j]
  }

  type Handles = seq<Option<Outcome>>

  predicate Settled(handles: Handles, t: nat) { t < |handles| && handles[t].Some? }

  /** Not settled yet, or settled by the end of its body. */
  predicate Untouched(bodies: nat -> Outcome, handles: Handles, t: nat) {
    t < |handles| && (handles[t].None? || handles[t] == Some(bodies(t)))
  }

  /** The records of a scope: tasks spawned when it was the nearest nursery, each once. */
  predicate Records(owners: seq<Option<nat>>, sc: Scope) {
    && Rising(sc.handles) && (sc.handles != [] ==> sc.nursery)
    && forall t | t in sc.handles :: t < |owners| && owners[t] == Some(sc.id)
  }

  /** Open scopes have rising numbers, record their own tasks, and nobody has cancelled one. */
  ghost predicate ScopesHold(bodies: nat -> Outcome, handles: Handles, owners: seq<Option<nat>>, scopes: seq<Scope>) {
    && (forall i | 0 <= i < |scopes| :: Records(owners, scopes[i]))
    && (forall i, j | 0 <= i < j < |scopes| :: scopes[i].id < scopes[j].id)
    && (forall i, t | 0 <= i < |scopes| && t in scopes[i].handles :: Untouched(bodies, handles, t))
  }

  /** The scope being joined is closed, and so far the result is what the tasks waited for make it. */
  ghost predicate JoinHolds(bodies: nat -> Outcome, handles: Handles, owners: seq<Option<nat>>, j: Join) {
    j.Joining? ==>
      var hs, e := j.scope.handles, FirstError(bodies, j.scope.handles);
      && Records(owners, j.scope) && j.at <= |hs|
      && (forall k | 0 <= k < j.at :: Settled(handles, hs[k]))
      && if Keeps(j.start) || j.at <= e
         then j.current == j.start && forall k | 0 <= k < |hs| :: Untouched(bodies, handles, hs[k])
         else && j.current == bodies(hs[e])
              && (forall k | 0 <= k <= e :: Untouched(bodies, handles, hs[k]))
              && forall k | e < k < |hs| :: Settled(handles, hs[k])
  }

  /** The task is among those of the open scope `o`, or of the one being joined. */
  ghost predicate Recorded(scopes: seq<Scope>, j: Join, t: nat, o: nat) {
    || (exists i :: 0 <= i < |scopes| && scopes[i].id == o && t in scopes[i].handles)
    || (j.Joining? && j.scope.id == o && t in j.scope.handles)
  }

  /** A task with an owner is recorded there until it has settled. */
  ghost predicate OwnersHold(handles: Handles, owners: seq<Option<nat>>, scopes: seq<Scope>, j: Join) {
    forall t, o | 0 <= t < |owners| && owners[t] == Some(o) :: Recorded(scopes, j, t, o) || Settled(handles, t)
  }

  ghost predicate FramesHold(s: State) {
    && (forall i | 0 <= i < |s.frames| :: s.frames[i].base <= |s.scopes|)
    && (forall i, j | 0 <= i < j < |s.frames| :: s.frames[i].base <= s.frames[j].base)
    && (s.frames != [] ==> s.frames[0].base == 0)
    && (s.frames == [] && !s.crashed ==> s.scopes == [] && s.join.Idle?)
    && (s.join.Joining? ==> s.frames != [])
  }

  /** Scope numbers are below the next one, and a scope being joined is no longer open. */
  predicate SerialsHold(s: State) {
    && |s.owners| == |s.handles|
    && (forall i | 0 <= i < |s.scopes| :: s.scopes[i].id < s.serial)
    && (s.join.Joining? ==> s.join.scope.id < s.serial && forall i | 0 <= i < |s.scopes| ::
      s.scopes[i].id != s.join.scope.id)
  }

  ghost predicate Inv(bodies: nat -> Outcome, s: State) {
    && SerialsHold(s) && FramesHold(s)
    && ScopesHold(bodies, s.handles, s.owners, s.scopes)
    && JoinHolds(bodies, s.handles, s.owners, s.join)
    && OwnersHold(s.handles, s.owners, s.scopes, s.join)
  }

  // ----- every step keeps the invariant -----

  lemma FinishKeeps(bodies: nat -> Outcome, s: State, t: nat)
    requires Inv(bodies, s) && t < |s.handles|
    ensures Inv(bodies, Step(bodies, s, Finish(t)))
  {
    hide FirstError; hide Records; hide Recorded;
    var h1 := Step(bodies, s, Finish(t)).handles;
    assert forall u | Untouched(bodies, s.handles, u) :: Untouched(bodies, h1, u);
    assert forall u | Settled(s.handles, u) :: Settled(h1, u);
  }

  lemma SpawnKeeps(bodies: nat -> Outcome, s: State)
    requires Inv(bodies, s) && Running(s)
    ensures Inv(bodies, SpawnTask(s))
  {
    SpawnScopes(bodies, s);
    SpawnOwners(bodies, s);
  }

  lemma SpawnScopes(bodies: nat -> Outcome, s: State)
    requires Inv(bodies, s) && Running(s)
    ensures var s1 := SpawnTask(s); ScopesHold(bodies, s1.handles, s1.owners, s1.scopes)
  {
    hide FirstError; hide Recorded;
    var s1, n, o := SpawnTask(s), |s.handles|, Nearest(s.scopes);
    assert forall u | Untouched(bodies, s.handles, u) :: Untouched(bodies, s1.handles, u);
    assert Untouched(bodies, s1.handles, n);
    forall i | 0 <= i < |s.scopes| ensures Records(s1.owners, s1.scopes[i]) {
      RecordsMore(s.owners, s1.owners[n], s.scopes[i]);
    }
    forall i, t | 0 <= i < |s.scopes| && t in s1.scopes[i].handles ensures Untouched(bodies, s1.handles, t) {
      if t != n { assert t in s.scopes[i].handles; }
    }
  }

  lemma RecordsMore(owners: seq<Option<nat>>, o: Option<nat>, sc: Scope)
    requires Records(owners, sc)
    ensures Records(owners + [o], sc)
    ensures sc.nursery && o == Some(sc.id) ==> Records(owners + [o], sc.(handles := sc.handles + [|owners|]))
  {
    assert forall i | 0 <= i < |sc.handles| :: sc.handles[i] in sc.handles;
  }

  lemma SpawnOwners(bodies: nat -> Outcome, s: State)
    requires Inv(bodies, s) && Running(s)
    ensures var s1 := SpawnTask(s); OwnersHold(s1.handles, s1.owners, s1.scopes, s1.join)
  {
    hide FirstError; hide Records;
    var s1, n, o := SpawnTask(s), |s.handles|, Nearest(s.scopes);
    forall u, w | 0 <= u < |s1.owners| && s1.owners[u] == Some(w)
      ensures Recorded(s1.scopes, s1.join, u, w) || Settled(s1.handles, u)
    {
      if u == n {
        assert s1.scopes[o.value].id == w;
      } else if Recorded(s.scopes, s.join, u, w) {
        var i :| 0 <= i < |s.scopes| && s.scopes[i].id == w && u in s.scopes[i].handles;
        assert s1.scopes[i].id == w && u in s1.scopes[i].handles;
      } else {
        assert Settled(s.handles, u);
      }
    }
  }

  lemma PushKeeps(bodies: nat -> Outcome, s: State, nursery: bool)
    requires Inv(bodies, s) && Running(s)
    ensures Inv(bodies, Step(bodies, s, Push(nursery)))
  {
    hide FirstError;
    var s1 := Step(bodies, s, Push(nursery));
    assert forall i | 0 <= i < |s.scopes| :: s1.scopes[i] == s.scopes[i];
    forall u, o | Recorded(s.scopes, s.join, u, o) ensures Recorded(s1.scopes, s1.join, u, o) {
      var i :| 0 <= i < |s.scopes| && s.scopes[i].id == o && u in s.scopes[i].handles;
      assert s1.scopes[i].id == o;
    }
  }

  lemma StartKeeps(bodies: nat -> Outcome, s: State, r: Outcome)
    requires Inv(bodies, s) && s.join.Idle? && s.frames != [] && |s.scopes| > Top(s).base
    ensures Inv(bodies, StartJoin(s, r))
  {
    hide FirstError; hide Records; hide Untouched;
    var s1, n := StartJoin(s, r), |s.scopes| - 1;
    var hs := s.scopes[n].handles;
    assert forall k | 0 <= k < |hs| :: hs[k] in hs;
    forall u, o | Recorded(s.scopes, s.join, u, o) ensures Recorded(s1.scopes, s1.join, u, o) {
      var i :| 0 <= i < |s.scopes| && s.scopes[i].id == o && u in s.scopes[i].handles;
      assert i < n ==> s1.scopes[i].id == o;
    }
  }

  lemma JoinKeeps(bodies: nat -> Outcome, s: State)
    requires Inv(bodies, s) && Enabled(s, JoinNext)
    ensures Inv(bodies, JoinTask(s))
  {
    hide ScopesHold; hide OwnersHold; hide JoinHolds; hide JoinTask; hide CancelAll;
    var s1 := JoinTask(s);
    JoinTaskShape(s);
    JoinAdvances(bodies, s.handles, s.owners, s.join, s1.handles, s1.join);
    forall i | 0 <= i < |s.scopes| ensures Unmoved(s.handles, s1.handles, s.scopes[i]) {
      JoinTouches(bodies, s, i);
    }
    JoinScopes(bodies, s.handles, s1.handles, s.owners, s.scopes);
    JoinOwners(s.handles, s1.handles, s.owners, s.scopes, s.join, s1.join);
  }

  lemma JoinTaskShape(s: State)
    requires Enabled(s, JoinNext)
    ensures var s1 := JoinTask(s);
            && s1 == s.(handles := s1.handles, join := s1.join) && |s1.handles| == |s.handles|
            && s1.join == s.join.(at := s1.join.at, current := s1.join.current)
            && (forall t | 0 <= t < |s.handles| && s.handles[t].Some? :: s1.handles[t] == s.handles[t])
            && var res := s.handles[s.join.scope.handles[s.join.at]].value;
               if IsError(res) && !Keeps(s.join.current)
               then s1.handles == CancelAll(s.handles, s.join.scope.handles[s.join.at + 1..])
                 && s1.join == s.join.(at := s.join.at + 1, current := res)
               else s1.handles == s.handles && s1.join == s.join.(at := s.join.at + 1)
  {}

  ghost predicate Unmoved(handles: Handles, handles1: Handles, sc: Scope) {
    forall t | t in sc.handles :: t < |handles| && t < |handles1| && handles1[t] == handles[t]
  }

  /** Waiting changes only the handles of the scope being joined. */
  lemma JoinTouches(bodies: nat -> Outcome, s: State, i: nat)
    requires Inv(bodies, s) && Enabled(s, JoinNext) && i < |s.scopes|
    ensures Unmoved(s.handles, JoinTask(s).handles, s.scopes[i])
  {
    hide FirstError; hide Records; hide Untouched; hide JoinHolds; hide OwnersHold; hide FramesHold;
    JoinRecords(bodies, s);
    forall t | t in s.scopes[i].handles ensures t < |s.handles| && t !in s.join.scope.handles {
      Apart(s.owners, s.scopes[i], s.join.scope, t);
    }
    assert forall u | u in s.join.scope.handles[s.join.at + 1..] :: u in s.join.scope.handles;
  }

  lemma JoinRecords(bodies: nat -> Outcome, s: State)
    requires Inv(bodies, s) && s.join.Joining?
    ensures Records(s.owners, s.join.scope)
  {}

  lemma Apart(owners: seq<Option<nat>>, a: Scope, b: Scope, t: nat)
    requires Records(owners, a) && Records(owners, b) && a.id != b.id && t in a.handles
    ensures t !in b.handles && t < |owners|
  {}

  lemma JoinScopes(bodies: nat -> Outcome, handles: Handles, handles1: Handles, owners: seq<Option<nat>>,
                   scopes: seq<Scope>)
    requires ScopesHold(bodies, handles, owners, scopes)
    requires forall i | 0 <= i < |scopes| :: Unmoved(handles, handles1, scopes[i])
    ensures ScopesHold(bodies, handles1, owners, scopes)
  {
    hide Records;
    forall i, t | 0 <= i < |scopes| && t in scopes[i].handles ensures Untouched(bodies, handles1, t) {
      assert Unmoved(handles, handles1, scopes[i]) && Untouched(bodies, handles, t);
    }
  }

  lemma JoinOwners(handles: Handles, handles1: Handles, owners: seq<Option<nat>>, scopes: seq<Scope>, j: Join, j1: Join)
    requires OwnersHold(handles, owners, scopes, j) && |handles| == |handles1|
    requires j.Joining? && j1.Joining? && j.scope == j1.scope
    requires forall t | 0 <= t < |handles| && handles[t].Some? :: handles1[t].Some?
    ensures OwnersHold(handles1, owners, scopes, j1)
  {
    forall t, o | 0 <= t < |owners| && owners[t] == Some(o) ensures Recorded(scopes, j1, t, o) || Settled(handles1, t) {
      assert Recorded(scopes, j, t, o) ==> Recorded(scopes, j1, t, o);
    }
  }

  /** One more task has been waited for. */
  lemma JoinAdvances(bodies: nat -> Outcome, handles: Handles, owners: seq<Option<nat>>, j: Join, handles1: Handles,
                     j1: Join)
    requires j.Joining? && JoinHolds(bodies, handles, owners, j) && j.at < |j.scope.handles|
             && Settled(handles, j.scope.handles[j.at])
    requires var hs := j.scope.handles;
             var res := handles[hs[j.at]].value;
             if IsError(res) && !Keeps(j.current)
             then handles1 == CancelAll(handles, hs[j.at + 1..]) && j1 == j.(at := j.at + 1, current := res)
             else handles1 == handles && j1 == j.(at := j.at + 1)
    ensures JoinHolds(bodies, handles1, owners, j1)
  {
    var hs, e := j.scope.handles, FirstError(bodies, j.scope.handles);
    if Keeps(j.start) || j.at > e {
      assert Keeps(j.current);
    } else {
      assert Untouched(bodies, handles, hs[j.at]);
      if j.at == e {
        CancelRest(bodies, handles, hs, e);
      }
    }
  }

  lemma CancelRest(bodies: nat -> Outcome, handles: Handles, hs: seq<nat>, e: nat)
    requires e < |hs| && Rising(hs) && forall k | 0 <= k < |hs| :: Untouched(bodies, handles, hs[k])
    ensures var handles1 := CancelAll(handles, hs[e + 1..]);
            && (forall k | 0 <= k <= e :: Untouched(bodies, handles1, hs[k]) && handles1[hs[k]] == handles[hs[k]])
            && forall k | e < k < |hs| :: Settled(handles1, hs[k])
  {
    assert forall k | e < k < |hs| :: hs[k] == hs[e + 1..][k - e - 1];
    assert forall k | 0 <= k <= e :: hs[k] !in hs[e + 1..];
  }

  lemma JoinEndKeeps(bodies: nat -> Outcome, s: State)
    requires Inv(bodies, s) && Enabled(s, JoinEnd)
    ensures Inv(bodies, Step(bodies, s, JoinEnd))
  {
    hide Records; hide FirstError; hide Untouched;
    var s1, hs := Step(bodies, s, JoinEnd), s.join.scope.handles;
    forall u, o | 0 <= u < |s.owners| && s.owners[u] == Some(o)
      ensures Recorded(s1.scopes, s1.join, u, o) || Settled(s1.handles, u)
    {
      if Recorded(s.scopes, s.join, u, o) && u in hs {
        var k :| 0 <= k < |hs| && hs[k] == u;
        assert Settled(s.handles, hs[k]);
      }
    }
  }

  lemma FrameKeeps(bodies: nat -> Outcome, s: State, a: Action)
    requires Inv(bodies, s) && Enabled(s, a) && (a.Call? || a.Leave? || a.Done? || a.Crash?)
    ensures Inv(bodies, Step(bodies, s, a))
  {
    hide ScopesHold; hide JoinHolds; hide OwnersHold;
  }

  lemma StepKeeps(bodies: nat -> Outcome, s: State, a: Action)
    requires Inv(bodies, s) && Enabled(s, a)
    ensures Inv(bodies, Step(bodies, s, a))
  {
    hide Inv;
    match a
    case Finish(t) => FinishKeeps(bodies, s, t);
    case Spawn => SpawnKeeps(bodies, s);
    case Push(nursery) => PushKeeps(bodies, s, nursery);
    case Pop(r) => StartKeeps(bodies, s, r);
    case Unwind(r) => StartKeeps(bodies, s, r);
    case JoinNext => JoinKeeps(bodies, s);
    case JoinEnd => JoinEndKeeps(bodies, s);
    case Call(_) => FrameKeeps(bodies, s, a);
    case Leave => FrameKeeps(bodies, s, a);
    case Done(_) => FrameKeeps(bodies, s, a);
    case Crash => FrameKeeps(bodies, s, a);
  }

  lemma {:induction false} RunKeeps(bodies: nat -> Outcome, s: State, run: seq<Action>)
    requires Inv(bodies, s) && Run(bodies, s, run).Some?
    ensures Inv(bodies, Run(bodies, s, run).value)
    decreases |run|
  {
    hide Inv; hide Enabled; hide Step;
    if run != [] {
      StepKeeps(bodies, s, run[0]);
      RunKeeps(bodies, Step(bodies, s, run[0]), run[1..]);
    }
  }

  // ----- what holds on every run -----

  lemma InitialHolds(bodies: nat -> Outcome)
    ensures Inv(bodies, INITIAL)
  {}

  lemma JoinedAtEnd(bodies: nat -> Outcome, s: State)
    requires Inv(bodies, s) && Enabled(s, JoinEnd)
    ensures s.join.current == Joined(bodies, s.join.scope.handles, s.join.start)
  {}

  /** Whatever the interleaving, a scope whose tasks have all been waited for gives the error of the earliest-spawned
      task that failed, or the body's own result; and all its tasks have settled. */
  lemma JoinIsDeterministic(bodies: nat -> Outcome, run: seq<Action>, s: State)
    requires Run(bodies, INITIAL, run) == Some(s) && Enabled(s, JoinEnd)
    ensures s.join.current == Joined(bodies, s.join.scope.handles, s.join.start)
    ensures var hs, start, r := s.join.scope.handles, s.join.start, s.join.current;
            if start.Problem? || start.Raised? || start.Wrapped?
               || forall k | 0 <= k < |hs| :: !bodies(hs[k]).Problem? && !bodies(hs[k]).Raised?
            then r == start
            else exists e :: 0 <= e < |hs| && r == bodies(hs[e]) && (r.Problem? || r.Raised?)
                             && forall k | 0 <= k < e :: !bodies(hs[k]).Problem? && !bodies(hs[k]).Raised?
    ensures Rising(s.join.scope.handles)
    ensures forall t | t in s.join.scope.handles :: t < |s.handles| && s.handles[t].Some?
  {
    hide Run;
    InitialHolds(bodies);
    RunKeeps(bodies, INITIAL, run);
  }

  /** Every settled task holds what its body ended with, or the notice that it was cancelled. */
  ghost predicate OwnOrNotice(bodies: nat -> Outcome, handles: Handles) {
    forall t | 0 <= t < |handles| && handles[t].Some? ::
      handles[t].value == bodies(t)
        || handles[t].value == Raised(RuntimeError(t, Cancelled("sibling cancelled due to fail-fast")))
  }

  lemma OwnByStep(bodies: nat -> Outcome, s: State, a: Action)
    requires Enabled(s, a) && OwnOrNotice(bodies, s.handles)
    ensures OwnOrNotice(bodies, Step(bodies, s, a).handles)
  {
    hide FirstError;
  }

  lemma {:induction false} OwnByRun(bodies: nat -> Outcome, s: State, run: seq<Action>)
    requires Run(bodies, s, run).Some? && OwnOrNotice(bodies, s.handles)
    ensures OwnOrNotice(bodies, Run(bodies, s, run).value.handles)
    decreases |run|
  {
    hide Enabled; hide Step; hide OwnOrNotice;
    if run != [] {
      OwnByStep(bodies, s, run[0]);
      OwnByRun(bodies, Step(bodies, s, run[0]), run[1..]);
    }
  }

  /** A call that ends leaves its caller as it was, except that a failed one leaves the caller to be left too, unless it
      was called for a deferred function; a machine error does the same at once. */
  lemma CallEnds(bodies: nat -> Outcome, s: State, failed: bool, i: nat)
    requires Enabled(s, Done(failed)) || (failed && Enabled(s, Crash))
    ensures var s1 := Step(bodies, s, if Enabled(s, Done(failed)) then Done(failed) else Crash);
            var n := |s.frames| - 1;
            && |s1.frames| == n && s1.scopes == s.scopes && s1.handles == s.handles
            && (i < n ==> s1.frames[i].base == s.frames[i].base && s1.frames[i].deferred == s.frames[i].deferred)
            && (i < n ==> (s1.frames[i].unwinding
                           <==> s.frames[i].unwinding || (i == n - 1 && failed && !s.frames[n].deferred)))
  {}

  /** When the task waited for has failed, the scope has a result that a failure replaces, and later tasks are still
      running, those are cancelled at once; in no other case does waiting settle a task. */
  lemma SiblingsCancelled(bodies: nat -> Outcome, s: State, t: nat)
    requires Enabled(s, JoinNext) && t < |s.handles|
    ensures var hs, at, s1 := s.join.scope.handles, s.join.at, Step(bodies, s, JoinNext);
            var res, current := s.handles[hs[at]].value, s.join.current;
            var fails := (res.Problem? || res.Raised?) && !current.Problem? && !current.Raised? && !current.Wrapped?;
            && |s1.handles| == |s.handles| && s1.join.Joining? && s1.join.current == (if fails then res else current)
            && s1.handles[t] == if fails && s.handles[t].None? && (exists k :: at < k < |hs| && hs[k] == t)
                                then Some(Raised(RuntimeError(t, Cancelled("sibling cancelled due to fail-fast"))))
                                else s.handles[t]
  {
    var hs, at := s.join.scope.handles, s.join.at;
    assert t in hs[at + 1..] <==> exists k :: at < k < |hs| && hs[k] == t by {
      assert forall k | at < k < |hs| :: hs[k] == hs[at + 1..][k - at - 1];
    }
  }

  /** Fail-fast: when the tasks of a scope have been waited for and one has failed, those up to the first that failed
      hold what their bodies ended with, and each later one holds that or was cancelled. */
  lemma FailFast(bodies: nat -> Outcome, run: seq<Action>, s: State, e: nat)
    requires Run(bodies, INITIAL, run) == Some(s) && Enabled(s, JoinEnd) && e < |s.join.scope.handles|
    requires !s.join.start.Problem? && !s.join.start.Raised? && !s.join.start.Wrapped?
    requires var hs := s.join.scope.handles;
             && (bodies(hs[e]).Problem? || bodies(hs[e]).Raised?)
             && forall k | 0 <= k < e :: !bodies(hs[k]).Problem? && !bodies(hs[k]).Raised?
    ensures var hs := s.join.scope.handles;
            && (forall k | 0 <= k <= e :: hs[k] < |s.handles| && s.handles[hs[k]] == Some(bodies(hs[k])))
            && forall k | e < k < |hs| ::
                 hs[k] < |s.handles| && (s.handles[hs[k]] == Some(bodies(hs[k]))
                   || s.handles[hs[k]] == Some(Raised(RuntimeError(hs[k],
                     Cancelled("sibling cancelled due to fail-fast")))))
  {
    OwnByRun(bodies, INITIAL, run);
    hide Run;
    InitialHolds(bodies);
    RunKeeps(bodies, INITIAL, run);
    var hs := s.join.scope.handles;
    assert FirstError(bodies, hs) == e;
    assert JoinHolds(bodies, s.handles, s.owners, s.join);
    forall k | 0 <= k < |hs| ensures Settled(s.handles, hs[k]) {}
  }

  /** What the end of a scope comes to is kept whatever it is, an error too, and decides nothing about how the function
      goes on: it does exactly when it was not being left already. */
  lemma BlockEndGoesOnIff(bodies: nat -> Outcome, run: seq<Action>, s: State)
    requires Run(bodies, INITIAL, run) == Some(s) && Enabled(s, JoinEnd)
    ensures var s1 := Step(bodies, s, JoinEnd);
            && s1.last == Joined(bodies, s.join.scope.handles, s.join.start)
            && s.frames != [] && (Running(s1) <==> !Top(s).unwinding)
  {
    JoinIsDeterministic(bodies, run, s);
    hide Run;
    InitialHolds(bodies);
    RunKeeps(bodies, INITIAL, run);
  }

  /** Leaving the function on an error found at the end of a scope would take more: it is left when the scope closes on
      an error exactly when it was being left, or there is no such error. */
  lemma ErrorLeavesIff(bodies: nat -> Outcome, run: seq<Action>, s: State)
    requires Run(bodies, INITIAL, run) == Some(s) && Enabled(s, JoinEnd)
    ensures var s1, start, hs := Step(bodies, s, JoinEnd), s.join.start, s.join.scope.handles;
            (IsError(s1.last) ==> !Running(s1))
            <==> s.frames != [] && (Top(s).unwinding
                   || (!IsError(start) && (start.Wrapped? || forall t | t in hs :: !IsError(bodies(t)))))
  {
    BlockEndGoesOnIff(bodies, run, s);
    hide Run; hide Step;
    var hs, e := s.join.scope.handles, FirstError(bodies, s.join.scope.handles);
    if e < |hs| {
      assert hs[e] in hs;
    }
  }

  /** A nursery whose only task has failed, when its block ends. */
  function FailedNursery(r: Outcome): State {
    State([Some(r)], [Some(0)], [Scope(0, true, [0])], [Frame(0, false, false)], Idle, 1, Plain(Nil), false)
  }

  lemma NurseryFails(bodies: nat -> Outcome)
    ensures Run(bodies, INITIAL, [Push(true), Spawn, Finish(0)]) == Some(FailedNursery(bodies(0)))
  {
    var s1 := Step(bodies, INITIAL, Push(true));
    var s2 := Step(bodies, s1, Spawn);
    var s3 := Step(bodies, s2, Finish(0));
    assert s1.scopes == [Scope(0, true, [])] && Nearest(s1.scopes) == Some(0);
    assert s2.scopes[0].handles == [0] && s2.scopes == [Scope(0, true, [0])];
    assert s2.handles == [None] && s2.owners == [Some(0)] && s3.handles == [Some(bodies(0))];
    RunOne(bodies, INITIAL, Push(true), [Spawn, Finish(0)]);
    RunOne(bodies, s1, Spawn, [Finish(0)]);
    RunOne(bodies, s2, Finish(0), []);
  }

  lemma BlockEnds(bodies: nat -> Outcome, r: Outcome) returns (s: State)
    requires IsError(r)
    ensures Run(bodies, FailedNursery(r), [Pop(Plain(Nil)), JoinNext, JoinEnd]) == Some(s) && s.last == r && Running(s)
  {
    var s3 := FailedNursery(r);
    var s4 := Step(bodies, s3, Pop(Plain(Nil)));
    assert s4.join.scope.handles == [0];
    var s5 := Step(bodies, s4, JoinNext);
    s := Step(bodies, s5, JoinEnd);
    RunOne(bodies, s3, Pop(Plain(Nil)), [JoinNext, JoinEnd]);
    RunOne(bodies, s4, JoinNext, [JoinEnd]);
    RunOne(bodies, s5, JoinEnd, []);
  }

  lemma {:induction false} RunParts(bodies: nat -> Outcome, s: State, a: seq<Action>, b: seq<Action>)
    requires Run(bodies, s, a).Some?
    ensures Run(bodies, s, a + b) == Run(bodies, Run(bodies, s, a).value, b)
    decreases |a|
  {
    hide Step; hide Enabled;
    if a == [] {
      assert a + b == b;
    } else {
      assert (a + b)[1..] == a[1..] + b;
      RunParts(bodies, Step(bodies, s, a[0]), a[1..], b);
    }
  }

  /** A nursery whose only task fails: its error is the value of the block, and the function goes on. */
  lemma BlockErrorIsAValue(bodies: nat -> Outcome) returns (s: State)
    requires IsError(bodies(0))
    ensures Run(bodies, INITIAL, [Push(true), Spawn, Finish(0), Pop(Plain(Nil)), JoinNext, JoinEnd]) == Some(s)
    ensures s.last == bodies(0) && Running(s)
  {
    hide Run; hide Step;
    var a, b := [Push(true), Spawn, Finish(0)], [Pop(Plain(Nil)), JoinNext, JoinEnd];
    NurseryFails(bodies);
    s := BlockEnds(bodies, bodies(0));
    RunParts(bodies, INITIAL, a, b);
    assert a + b == [Push(true), Spawn, Finish(0), Pop(Plain(Nil)), JoinNext, JoinEnd];
  }

  /** The scope is open, or its tasks are being waited for. */
  predicate Open(s: State, id: nat) {
    (exists i :: 0 <= i < |s.scopes| && s.scopes[i].id == id) || (s.join.Joining? && s.join.scope.id == id)
  }

  /** At any moment of any run a task spawned inside a nursery is recorded once, in that nursery, or that nursery has
      been left and the task has settled; other tasks are recorded nowhere. */
  lemma OwnedUntilSettled(bodies: nat -> Outcome, run: seq<Action>, s: State, t: nat)
    requires Run(bodies, INITIAL, run) == Some(s) && t < |s.owners|
    ensures forall i | 0 <= i < |s.scopes| && t in s.scopes[i].handles ::
            s.scopes[i].nursery && s.owners[t] == Some(s.scopes[i].id)
    ensures forall i, j | 0 <= i < j < |s.scopes| :: s.scopes[i].id != s.scopes[j].id && Rising(s.scopes[i].handles)
    ensures s.owners[t].Some? && !Open(s, s.owners[t].value) ==> t < |s.handles| && s.handles[t].Some?
    ensures s.owners[t].Some? ==>
      Recorded(s.scopes, s.join, t, s.owners[t].value) || (t < |s.handles| && s.handles[t].Some?)
  {
    hide Run;
    InitialHolds(bodies);
    RunKeeps(bodies, INITIAL, run);
    assert ScopesHold(bodies, s.handles, s.owners, s.scopes);
    forall i | 0 <= i < |s.scopes| && t in s.scopes[i].handles
      ensures s.scopes[i].nursery && s.owners[t] == Some(s.scopes[i].id) {
      assert Records(s.owners, s.scopes[i]);
    }
  }

  /** When the program has ended, other than by a machine error outside any call, every task spawned in a nursery has
      settled. */
  lemma NothingOutlivesTheProgram(bodies: nat -> Outcome, run: seq<Action>, s: State)
    requires Run(bodies, INITIAL, run) == Some(s) && s.frames == [] && !s.crashed
    ensures forall t | 0 <= t < |s.owners| && s.owners[t].Some? :: t < |s.handles| && s.handles[t].Some?
  {
    hide Run;
    InitialHolds(bodies);
    RunKeeps(bodies, INITIAL, run);
    forall t | 0 <= t < |s.owners| && s.owners[t].Some? ensures Settled(s.handles, t) {
      assert !Recorded(s.scopes, s.join, t, s.owners[t].value);
    }
  }

  /** A machine error outside any call ends the program without waiting for anyone: all tasks spawned in nurseries have
      settled then exactly when those of the nurseries still open have. */
  lemma CrashIsCleanIff(bodies: nat -> Outcome, run: seq<Action>, s: State)
    requires Run(bodies, INITIAL, run) == Some(s) && Enabled(s, Crash) && |s.frames| == 1
    ensures var s1 := Step(bodies, s, Crash);
            && s1.frames == [] && s1.crashed
            && ((forall t | 0 <= t < |s1.owners| && s1.owners[t].Some? :: t < |s1.handles| && s1.handles[t].Some?)
                <==> forall i, t | 0 <= i < |s.scopes| && t in s.scopes[i].handles ::
                       t < |s.handles| && s.handles[t].Some?)
  {
    hide Run;
    InitialHolds(bodies);
    RunKeeps(bodies, INITIAL, run);
    forall i, t | 0 <= i < |s.scopes| && t in s.scopes[i].handles ensures t < |s.owners| && s.owners[t].Some? {
      assert Records(s.owners, s.scopes[i]);
    }
    forall t | 0 <= t < |s.owners| && s.owners[t].Some? && !Settled(s.handles, t)
      ensures exists i :: 0 <= i < |s.scopes| && t in s.scopes[i].handles
    {
      assert Recorded(s.scopes, s.join, t, s.owners[t].value);
    }
  }

  /** A task that has settled keeps its result, and a task that was spawned keeps its owner. */
  lemma {:induction false} SettledOnce(bodies: nat -> Outcome, s: State, run: seq<Action>)
    requires Run(bodies, s, run).Some?
    ensures var s1 := Run(bodies, s, run).value;
            && (forall t: nat | t < |s.handles| && s.handles[t].Some? ::
              t < |s1.handles| && s1.handles[t] == s.handles[t])
            && s.owners <= s1.owners
    decreases |run|
  {
    if run != [] {
      var s2 := Step(bodies, s, run[0]);
      SettledOnceByStep(bodies, s, run[0]);
      hide Step; hide Enabled;
      SettledOnce(bodies, s2, run[1..]);
    }
  }

  lemma SettledOnceByStep(bodies: nat -> Outcome, s: State, a: Action)
    requires Enabled(s, a)
    ensures var s1 := Step(bodies, s, a);
            && (forall t: nat | t < |s.handles| && s.handles[t].Some? ::
              t < |s1.handles| && s1.handles[t] == s.handles[t])
            && s.owners <= s1.owners
  {
    hide FirstError;
  }

  /** A task is recorded where it is spawned: in the innermost nursery, after those spawned there before. */
  lemma SpawnIsRecorded(s: State)
    requires Running(s)
    ensures var s1, t := SpawnTask(s), |s.handles|;
            && |s1.owners| == |s.owners| + 1 && t < |s1.handles| && s1.handles[t].None?
            && (s1.owners[|s.owners|].None? <==> forall i | 0 <= i < |s.scopes| :: !s.scopes[i].nursery)
            && forall i | 0 <= i < |s.scopes| ::
                 s1.scopes[i].handles ==
                 if s.scopes[i].nursery && (forall j | i < j < |s.scopes| :: !s.scopes[j].nursery)
                 then s.scopes[i].handles + [t] else s.scopes[i].handles
  {
    var o := Nearest(s.scopes);
  }

  /** Waiting is never stuck: it is over, or the task waited for has settled or settles when its body ends. */
  lemma JoinGoesOn(bodies: nat -> Outcome, run: seq<Action>, s: State)
    requires Run(bodies, INITIAL, run) == Some(s) && s.join.Joining?
    ensures s.join.at <= |s.join.scope.handles|
    ensures s.join.at == |s.join.scope.handles| ==> Enabled(s, JoinEnd)
    ensures s.join.at < |s.join.scope.handles| ==>
      var t := s.join.scope.handles[s.join.at];
      Enabled(s, Finish(t)) && Enabled(Step(bodies, s, Finish(t)), JoinNext)
  {
    hide Run;
    InitialHolds(bodies);
    RunKeeps(bodies, INITIAL, run);
    var hs := s.join.scope.handles;
    if s.join.at < |hs| {
      assert hs[s.join.at] in hs;
    }
  }

  /** A machine error outside any call ends the program with its nurseries still open: a nursery, a task in it, and then
      such an error. */
  lemma CrashLeavesTasks(bodies: nat -> Outcome) returns (s: State)
    ensures Run(bodies, INITIAL, [Push(true), Spawn, Crash]) == Some(s)
    ensures s.frames == [] && s.crashed && s.owners == [Some(0)] && s.handles == [None]
  {
    var s1 := Step(bodies, INITIAL, Push(true));
    var s2 := Step(bodies, s1, Spawn);
    s := Step(bodies, s2, Crash);
    RunOne(bodies, INITIAL, Push(true), [Spawn, Crash]);
    RunOne(bodies, s1, Spawn, [Crash]);
    RunOne(bodies, s2, Crash, []);
  }

  lemma RunOne(bodies: nat -> Outcome, s: State, a: Action, run: seq<Action>)
    requires Enabled(s, a)
    ensures Run(bodies, s, [a] + run) == Run(bodies, Step(bodies, s, a), run)
  {
    assert ([a] + run)[1..] == run;
  }
}
