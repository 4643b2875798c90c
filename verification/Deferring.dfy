/** Deferred functions over whole runs of one executor: the step system of its scopes and tasks, with the deferred
    functions each call has registered. */
module Deferring {
  import opened Values
  import opened Tasks
  import opened Chains
  import opened Defers
  import N = Nurseries

  /** How a scope's turn has gone: its entries, the result it started with, what each function called has given, by the
      entry's number, and the causes after the last of them. */
  datatype History = History(entries: seq<Entry>, start: Held, gave: map<nat, Held>, causes: Causes)

  /** The deferred functions of a function call: `entry` is the one it was called for, if any, `scopes` those
      registered, by scope, and `turn` those of a scope being closed that have not had their turn yet. `result` is what
      the scope being closed, or the call being left, comes to so far. */
  datatype Call = Call(
    frame: nat, entry: Option<Entry>, scopes: seq<seq<Entry>>, turn: seq<Entry>, result: Outcome, history: History)

  /** A deferred function has had its turn: it was called, or its kind did not fit the result then. */
  datatype Turn = Turn(entry: Entry, result: Outcome, called: bool)

  /** `calls` go with the frames of `base`. Calls and registered functions are numbered; `owners` are the calls in which
      functions were registered. `lost` are those dropped without a turn, `crashed` the calls ended by a machine error.
      */
  datatype State = State(
    base: N.State,
    calls: seq<Call>,
    causes: Causes,
    serial: nat,
    registered: seq<Entry>,
    owners: seq<nat>,
    turns: seq<Turn>,
    lost: seq<Entry>,
    crashed: set<nat>)

  datatype Action =
    | Finish(task: nat)                          // a task's body ends
    | Spawn
    | Push(nursery: bool)
    | Pop(result: Outcome)                        // the end of a block with this result
    | Enter                                      // a function call
    | Register(mode: Mode, errorName: string)
    | Leave(result: Outcome)                      // return, throw, or a call that failed
    | Unwind                                     // leave the innermost task scope of a call being left
    | JoinNext
    | JoinEnd                                    // the tasks are done with: the scope's entries get their turn
    | Drain                                      // entries outside every task scope get their turn
    | Skip                                       // the next entry's kind does not fit
    | Invoke                                     // the next entry's function is called
    | Done(given: Outcome)                        // the call has been unwound, and gives this
    | Crash(given: Outcome)                       // a machine error, or an awaited one: no unwinding

  const INITIAL := State(N.INITIAL, [NewCall(0, None, map[])], map[], 1, [], [], [], [], {})

  /** No entry has its turn, and the result is this. */
  function NoTurn(result: Outcome, causes: Causes): History { History([], Held(result, causes), map[], causes) }

  function NewCall(frame: nat, entry: Option<Entry>, causes: Causes): Call {
    Call(frame, entry, [], [], Plain(Nil), NoTurn(Plain(Nil), causes))
  }

  /** The call has a new result, and no entry of it has its turn. */
  function WithResult(c: Call, result: Outcome, causes: Causes): Call {
    c.(result := result, history := NoTurn(result, causes))
  }

  function Top(s: State): Call
    requires s.calls != []
  {
    s.calls[|s.calls| - 1]
  }

  /** The call on top is not in the middle of closing a scope. */
  predicate Idle(s: State) { s.calls != [] && Top(s).turn == [] }

  predicate Busy(s: State) { s.base.join.Idle? && s.calls != [] && Top(s).turn != [] }

  /** The entry whose turn is next: the one registered last. */
  function NextUp(s: State): Entry
    requires s.calls != [] && Top(s).turn != []
  {
    Top(s).turn[|Top(s).turn| - 1]
  }

  /** A call gives its result, or an error when that is a value of the wrong type. */
  predicate Gives(result: Outcome, given: Outcome) {
    given == result || (!IsError(result) && given.Raised?)
  }

  /** The step of the scopes and tasks that goes with an action, if any. */
  function Base(s: State, a: Action): Option<N.Action> {
    match a
    case Finish(t) => Some(N.Finish(t))
    case Spawn => Some(N.Spawn)
    case Push(nursery) => Some(N.Push(nursery))
    case Pop(r) => Some(N.Pop(r))
    case Enter => Some(N.Call(false))
    case Register(_, _) => None
    case Leave(_) => Some(N.Leave)
    case Unwind => if s.calls == [] then None else Some(N.Unwind(Top(s).result))
    case JoinNext => Some(N.JoinNext)
    case JoinEnd => Some(N.JoinEnd)
    case Drain => None
    case Skip => None
    case Invoke => Some(N.Call(true))
    case Done(given) => Some(N.Done(IsError(given)))
    case Crash(_) => Some(N.Crash)
  }

  predicate Enabled(s: State, a: Action) {
    && (Base(s, a).Some? ==> N.Enabled(s.base, Base(s, a).value))
    && match a
       case Finish(_) => true
       case JoinNext => true
       case JoinEnd => Idle(s)
       case Register(_, _) => Idle(s) && N.Running(s.base)
       case Drain => Idle(s) && Top(s).scopes != [] && N.Enabled(s.base, N.Done(false))
       case Skip => Busy(s) && !Runs(NextUp(s), Top(s).result)
       case Invoke => Busy(s) && Runs(NextUp(s), Top(s).result)
       case Done(given) => Idle(s) && Top(s).scopes == [] && Gives(Top(s).result, given)
       case Crash(given) => Idle(s) && IsError(given)
       case _ => Idle(s)
  }

  function WithTop(s: State, c: Call): State
    requires s.calls != []
  {
    s.(calls := s.calls[|s.calls| - 1 := c])
  }

  function Added(scopes: seq<seq<Entry>>, e: Entry): seq<seq<Entry>> {
    if scopes == [] then [[e]] else scopes[|scopes| - 1 := scopes[|scopes| - 1] + [e]]
  }

  /** The entries of the innermost scope get their turn. */
  function TakeTurn(c: Call, causes: Causes): Call {
    if c.scopes == [] then c
    else
      var n := |c.scopes| - 1;
      c.(scopes := c.scopes[..n], turn := c.scopes[n],
         history := History(c.scopes[n], Held(c.result, causes), map[], causes))
  }

  /** A function called for `e` has given `given`. */
  function Took(c: Call, e: Entry, given: Outcome, causes: Causes): Call {
    var w := After(e, Held(c.result, causes), Held(given, causes));
    c.(result := w.result,
       history := c.history.(gave := c.history.gave[e.id := Held(given, causes)], causes := w.causes))
  }

  /** The entry whose turn is next has had it. */
  function HadTurn(s: State, called: bool): State
    requires s.calls != [] && Top(s).turn != []
  {
    var c := Top(s);
    WithTop(s, c.(turn := c.turn[..|c.turn| - 1])).(turns := s.turns + [Turn(NextUp(s), c.result, called)])
  }

  /** The call on top has ended with `given`. The scope it was deferred in takes that over as it does, and a caller
      takes over an error, to be left with it. */
  function EndCall(s: State, given: Outcome): State
    requires s.calls != []
  {
    var n := |s.calls| - 1;
    var c, rest := s.calls[n], s.calls[..n];
    if n == 0 then s.(calls := rest)
    else if c.entry.Some? then
      var c1 := Took(rest[n - 1], c.entry.value, given, s.causes);
      s.(calls := rest[n - 1 := c1], causes := c1.history.causes)
    else if IsError(given) then s.(calls := rest[n - 1 := WithResult(rest[n - 1], given, s.causes)])
    else s.(calls := rest)
  }

  function Own(s: State, a: Action): State
    requires Enabled(s, a)
  {
    match a
    case Push(_) => WithTop(s, Top(s).(scopes := Top(s).scopes + [[]]))
    case Enter => s.(calls := s.calls + [NewCall(s.serial, None, s.causes)], serial := s.serial + 1)
    case Register(mode, name) =>
      var e := Entry(|s.registered|, mode, name);
      WithTop(s, Top(s).(scopes := Added(Top(s).scopes, e)))
        .(registered := s.registered + [e], owners := s.owners + [Top(s).frame])
    case Leave(r) => WithTop(s, WithResult(Top(s), r, s.causes))
    case JoinEnd => WithTop(s, TakeTurn(WithResult(Top(s), s.base.join.current, s.causes), s.causes))
    case Drain => WithTop(s, TakeTurn(Top(s), s.causes))
    case Skip => HadTurn(s, false)
    case Invoke =>
      var s1 := HadTurn(s, true);
      s1.(calls := s1.calls + [NewCall(s.serial, Some(NextUp(s)), s.causes)], serial := s.serial + 1)
    case Done(given) => EndCall(s, given)
    case Crash(given) =>
      EndCall(s, given).(lost := s.lost + Waiting(Top(s)), crashed := s.crashed + {Top(s).frame})
    case _ => s
  }

  function Step(bodies: nat -> Outcome, s: State, a: Action): State
    requires Enabled(s, a)
  {
    var base := Base(s, a);
    Own(s, a).(base := if base.Some? then N.Step(bodies, s.base, base.value) else s.base)
  }

  function Run(bodies: nat -> Outcome, s: State, run: seq<Action>): Option<State>
    decreases |run|
  {
    if run == [] then Some(s)
    else if Enabled(s, run[0]) then Run(bodies, Step(bodies, s, run[0]), run[1..])
    else None
  }

  /** A call gives the error it was left with, and its value or else a runtime error in its place; its caller goes on as
      it was, or is left with that error. */
  lemma HandedOn(bodies: nat -> Outcome, s: State, given: Outcome)
    requires Enabled(s, Done(given)) && |s.calls| > 1 && Top(s).entry.None?
    ensures var result, caller, caller1 := Top(s).result, s.calls[|s.calls| - 2], Top(Step(bodies, s, Done(given)));
            && (result.Problem? || result.Raised? ==> given == result)
            && (given == result || given.Raised?)
            && (given.Problem? || given.Raised? ==> caller1.result == given && caller1.scopes == caller.scopes)
            && (!given.Problem? && !given.Raised? ==> caller1 == caller)
  {}

  /** A cause is set when a deferred function fails with a runtime error where there was one already, and at no other
      time: the new error gets the one it replaces. */
  lemma CausesSet(bodies: nat -> Outcome, s: State, a: Action)
    requires Enabled(s, a)
    ensures var s1, n := Step(bodies, s, a), |s.calls|;
            var ends := (a.Done? || a.Crash?) && n > 1 && Top(s).entry.Some?;
            s1.causes == if ends && a.given.Raised? && s.calls[n - 2].result.Raised?
                         then s.causes[a.given.err := s.calls[n - 2].result.err] else s.causes
  {}

  // ----- what happens to scopes and tasks meanwhile -----

  /** The steps that the scopes and tasks take in a run. */
  function BaseRun(bodies: nat -> Outcome, s: State, run: seq<Action>): seq<N.Action>
    requires Run(bodies, s, run).Some?
    decreases |run|
  {
    if run == [] then []
    else
      var rest := BaseRun(bodies, Step(bodies, s, run[0]), run[1..]);
      if Base(s, run[0]).Some? then [Base(s, run[0]).value] + rest else rest
  }

  /** Every run is a run of the scopes and tasks: all that holds on every run of those holds here. */
  lemma {:induction false} RunsOnBase(bodies: nat -> Outcome, s: State, run: seq<Action>)
    requires Run(bodies, s, run).Some?
    ensures N.Run(bodies, s.base, BaseRun(bodies, s, run)) == Some(Run(bodies, s, run).value.base)
    decreases |run|
  {
    hide N.Step; hide N.Enabled; hide Own;
    if run != [] {
      var s1 := Step(bodies, s, run[0]);
      RunsOnBase(bodies, s1, run[1..]);
      if Base(s, run[0]).Some? {
        N.RunOne(bodies, s.base, Base(s, run[0]).value, BaseRun(bodies, s1, run[1..]));
      }
    }
  }

  // ----- the invariant -----

  /** The functions a call has registered that have not had their turn. */
  function Waiting(c: Call): seq<Entry> { AllEntries(c.scopes) + c.turn }

  function AllWaiting(calls: seq<Call>): multiset<Entry> {
    if calls == [] then multiset{}
    else AllWaiting(calls[..|calls| - 1]) + multiset(Waiting(calls[|calls| - 1]))
  }

  function HadTurns(turns: seq<Turn>): seq<Entry> {
    seq(|turns|, i requires 0 <= i < |turns| => turns[i].entry)
  }

  /** Entries are numbered as they are registered, and each is waiting, has had its turn, or is lost: once. */
  predicate Counted(registered: seq<Entry>, waiting: multiset<Entry>, turns: seq<Turn>, lost: seq<Entry>) {
    && (forall i | 0 <= i < |registered| :: registered[i].id == i)
    && multiset(registered) == waiting + multiset(HadTurns(turns)) + multiset(lost)
  }

  /** Open calls have rising numbers, and none of them has crashed. */
  predicate Numbered(calls: seq<Call>, serial: nat, crashed: set<nat>) {
    && (forall i | 0 <= i < |calls| :: calls[i].frame < serial && calls[i].frame !in crashed)
    && (forall i, j | 0 <= i < j < |calls| :: calls[i].frame < calls[j].frame)
    && (forall f | f in crashed :: f < serial)
  }

  predicate OwnedBy(owners: seq<nat>, c: Call) {
    forall e | e in Waiting(c) :: e.id < |owners| && owners[e.id] == c.frame
  }

  /** A function waits in the call that registered it. */
  predicate Owned(calls: seq<Call>, owners: seq<nat>) {
    forall i | 0 <= i < |calls| :: OwnedBy(owners, calls[i])
  }

  predicate LostHold(lost: seq<Entry>, owners: seq<nat>, crashed: set<nat>) {
    forall e | e in lost :: e.id < |owners| && owners[e.id] in crashed
  }

  predicate TurnsHold(turns: seq<Turn>) {
    forall i | 0 <= i < |turns| :: turns[i].called <==> Runs(turns[i].entry, turns[i].result)
  }

  predicate FramesAgree(base: N.State, calls: seq<Call>) {
    && |calls| == |base.frames|
    && forall i | 0 <= i < |calls| :: calls[i].entry.Some? <==> base.frames[i].deferred
  }

  /** The part of the invariant about deferred functions. */
  predicate EntriesHold(s: State) {
    && |s.owners| == |s.registered| && Counted(s.registered, AllWaiting(s.calls), s.turns, s.lost)
    && Numbered(s.calls, s.serial, s.crashed) && Owned(s.calls, s.owners)
    && LostHold(s.lost, s.owners, s.crashed) && TurnsHold(s.turns)
  }

  /** Tasks are waited for before the entries of their scope get their turn. */
  predicate JoinsFirst(s: State) { s.base.join.Joining? ==> Idle(s) }

  predicate Inv(s: State) { EntriesHold(s) && FramesAgree(s.base, s.calls) && JoinsFirst(s) }

  lemma TopWaiting(calls: seq<Call>, c: Call)
    requires calls != []
    ensures var n := |calls| - 1;
            && AllWaiting(calls) == AllWaiting(calls[..n]) + multiset(Waiting(calls[n]))
            && AllWaiting(calls[n := c]) == AllWaiting(calls[..n]) + multiset(Waiting(c))
            && AllWaiting(calls + [c]) == AllWaiting(calls) + multiset(Waiting(c))
  {
    var n := |calls| - 1;
    assert calls[n := c][..n] == calls[..n] && (calls + [c])[..n + 1] == calls;
  }

  lemma AddedWaits(c: Call, e: Entry)
    ensures multiset(Waiting(c.(scopes := Added(c.scopes, e)))) == multiset(Waiting(c)) + multiset{e}
  {
    if c.scopes == [] {
      assert AllEntries([[e]]) == [e] by { assert [[e]][..0] == []; }
    } else {
      AppendToLast(c.scopes, e);
    }
  }

  lemma PushedWaits(c: Call)
    ensures Waiting(c.(scopes := c.scopes + [[]])) == Waiting(c)
  {
    assert (c.scopes + [[]])[..|c.scopes|] == c.scopes;
  }

  lemma TurnWaits(c: Call, causes: Causes)
    requires c.turn == []
    ensures Waiting(TakeTurn(c, causes)) == Waiting(c)
  {}

  lemma LastTurnWaits(c: Call)
    requires c.turn != []
    ensures var n := |c.turn| - 1;
            multiset(Waiting(c)) == multiset(Waiting(c.(turn := c.turn[..n]))) + multiset{c.turn[n]}
  {
    var n := |c.turn| - 1;
    assert c.turn == c.turn[..n] + [c.turn[n]];
  }

  lemma OneMoreTurn(turns: seq<Turn>, t: Turn)
    ensures HadTurns(turns + [t]) == HadTurns(turns) + [t.entry]
  {}

  lemma NumberedTop(calls: seq<Call>, c: Call, serial: nat, crashed: set<nat>)
    requires calls != [] && Numbered(calls, serial, crashed) && c.frame == calls[|calls| - 1].frame
    ensures Numbered(calls[|calls| - 1 := c], serial, crashed)
  {}

  lemma NumberedMore(calls: seq<Call>, c: Call, serial: nat, crashed: set<nat>)
    requires Numbered(calls, serial, crashed) && c.frame == serial
    ensures Numbered(calls + [c], serial + 1, crashed)
  {}

  lemma OwnedTop(calls: seq<Call>, c: Call, owners: seq<nat>)
    requires calls != [] && Owned(calls, owners) && OwnedBy(owners, c)
    ensures Owned(calls[|calls| - 1 := c], owners)
  {
    hide OwnedBy;
  }

  lemma OwnedMore(calls: seq<Call>, owners: seq<nat>, f: nat)
    requires Owned(calls, owners)
    ensures Owned(calls, owners + [f])
  {
    hide Waiting;
    forall i | 0 <= i < |calls| ensures OwnedBy(owners + [f], calls[i]) {
      assert OwnedBy(owners, calls[i]);
    }
  }

  /** A call whose entries are among those of another, or new. */
  lemma OwnedSome(owners: seq<nat>, c: Call, c1: Call)
    requires OwnedBy(owners, c) && c1.frame == c.frame
    requires forall e | e in multiset(Waiting(c1)) ::
             e in multiset(Waiting(c)) || (e.id < |owners| && owners[e.id] == c.frame)
    ensures OwnedBy(owners, c1)
  {
    hide Waiting;
    forall e | e in Waiting(c1) ensures e.id < |owners| && owners[e.id] == c.frame {
      assert e in multiset(Waiting(c1));
    }
  }

  /** A call on top that has the same entries waiting. */
  lemma TopKeeps(s: State, c: Call)
    requires EntriesHold(s) && s.calls != []
    requires c.frame == Top(s).frame && multiset(Waiting(c)) == multiset(Waiting(Top(s)))
    ensures EntriesHold(WithTop(s, c))
  {
    hide Waiting; hide AllWaiting; hide Numbered; hide OwnedBy; hide LostHold; hide TurnsHold; hide Counted;
    TopWaiting(s.calls, c);
    NumberedTop(s.calls, c, s.serial, s.crashed);
    OwnedSome(s.owners, Top(s), c);
    OwnedTop(s.calls, c, s.owners);
  }

  lemma RegisterKeeps(s: State, a: Action)
    requires EntriesHold(s) && a.Register? && Enabled(s, a)
    ensures EntriesHold(Own(s, a))
  {
    hide Waiting; hide AllWaiting; hide Numbered; hide Owned; hide TurnsHold; hide Counted;
    var e, owners := Entry(|s.registered|, a.mode, a.errorName), s.owners + [Top(s).frame];
    var c1 := Top(s).(scopes := Added(Top(s).scopes, e));
    AddedWaits(Top(s), e);
    TopWaiting(s.calls, c1);
    NumberedTop(s.calls, c1, s.serial, s.crashed);
    OwnedMore(s.calls, s.owners, Top(s).frame);
    TopOwned(s.calls, owners);
    OwnedSome(owners, Top(s), c1);
    OwnedTop(s.calls, c1, owners);
    OneMoreCounted(s.registered, e, AllWaiting(s.calls), AllWaiting(s.calls[|s.calls| - 1 := c1]), s.turns, s.lost);
  }

  lemma TopOwned(calls: seq<Call>, owners: seq<nat>)
    requires calls != [] && Owned(calls, owners)
    ensures OwnedBy(owners, calls[|calls| - 1])
  {}

  lemma OneMoreCounted(registered: seq<Entry>, e: Entry, waiting: multiset<Entry>, waiting1: multiset<Entry>,
                       turns: seq<Turn>, lost: seq<Entry>)
    requires Counted(registered, waiting, turns, lost) && e.id == |registered| && waiting1 == waiting + multiset{e}
    ensures Counted(registered + [e], waiting1, turns, lost)
  {}

  lemma HadTurnKeeps(s: State, called: bool)
    requires EntriesHold(s) && s.calls != [] && Top(s).turn != []
    requires called <==> Runs(NextUp(s), Top(s).result)
    ensures EntriesHold(HadTurn(s, called))
  {
    hide Waiting; hide AllWaiting; hide Numbered; hide Owned; hide LostHold; hide Runs; hide HadTurns;
    var c, n := Top(s), |Top(s).turn| - 1;
    var c1 := c.(turn := c.turn[..n]);
    LastTurnWaits(c);
    TopWaiting(s.calls, c1);
    OneMoreTurn(s.turns, Turn(NextUp(s), c.result, called));
    NumberedTop(s.calls, c1, s.serial, s.crashed);
    TopOwned(s.calls, s.owners);
    OwnedSome(s.owners, c, c1);
    OwnedTop(s.calls, c1, s.owners);
  }

  lemma EnterKeeps(s: State, entry: Option<Entry>)
    requires EntriesHold(s)
    ensures EntriesHold(s.(calls := s.calls + [NewCall(s.serial, entry, s.causes)], serial := s.serial + 1))
  {
    hide AllWaiting; hide Numbered; hide OwnedBy; hide LostHold; hide TurnsHold; hide Counted;
    var c := NewCall(s.serial, entry, s.causes);
    TopWaiting(s.calls + [c], c);
    assert (s.calls + [c])[..|s.calls|] == s.calls;
    NumberedMore(s.calls, c, s.serial, s.crashed);
    NothingOwned(s.owners, c);
    NoneWaiting(c);
    assert AllWaiting(s.calls + [c]) == AllWaiting(s.calls);
  }

  lemma NothingOwned(owners: seq<nat>, c: Call)
    requires Waiting(c) == []
    ensures OwnedBy(owners, c)
  {}

  /** A call that ends leaves the calls below as they were, but for the result of one. */
  lemma EndCallShape(s: State, given: Outcome)
    requires s.calls != []
    ensures var n, s1 := |s.calls| - 1, EndCall(s, given);
            && s1 == s.(calls := s1.calls, causes := s1.causes)
            && if n == 0 then s1.calls == []
               else |s1.calls| == n && Same(s1.calls[n - 1], s.calls[n - 1])
                    && s1.calls == s.calls[..n][n - 1 := s1.calls[n - 1]]
  {
    hide After;
  }

  /** With the call on top ended, what it had waiting is gone from what waits. */
  lemma EndCallWaits(s: State, given: Outcome)
    requires s.calls != [] && Numbered(s.calls, s.serial, s.crashed) && Owned(s.calls, s.owners)
    ensures var s1 := EndCall(s, given);
            && AllWaiting(s.calls) == AllWaiting(s1.calls) + multiset(Waiting(Top(s)))
            && Numbered(s1.calls, s.serial, s.crashed + {Top(s).frame}) && Numbered(s1.calls, s.serial, s.crashed)
            && Owned(s1.calls, s.owners)
  {
    hide EndCall; hide AllWaiting; hide Waiting; hide OwnedBy;
    var n, s1 := |s.calls| - 1, EndCall(s, given);
    EndCallShape(s, given);
    TopWaiting(s.calls, Top(s));
    if n == 0 {
      assert s.calls[..0] == [] == s1.calls;
    } else {
      var c1 := s1.calls[n - 1];
      SameWaiting(s.calls[n - 1], c1);
      TopWaiting(s.calls[..n], c1);
      SameOwned(s.owners, s.calls[n - 1], c1);
    }
  }

  /** Two states of a call with the same entries in it. */
  predicate Same(c: Call, c1: Call) {
    c.frame == c1.frame && c.entry == c1.entry && c.scopes == c1.scopes && c.turn == c1.turn
  }

  lemma SameWaiting(c: Call, c1: Call)
    requires Same(c, c1)
    ensures Waiting(c) == Waiting(c1)
  {}

  lemma SameOwned(owners: seq<nat>, c: Call, c1: Call)
    requires Same(c, c1)
    ensures OwnedBy(owners, c) <==> OwnedBy(owners, c1)
  {}

  lemma DoneKeeps(s: State, given: Outcome)
    requires EntriesHold(s) && s.calls != [] && Waiting(Top(s)) == []
    ensures EntriesHold(EndCall(s, given))
  {
    hide EndCall; hide AllWaiting; hide Numbered; hide Owned; hide LostHold; hide TurnsHold; hide Counted;
    hide Waiting;
    EndCallShape(s, given);
    EndCallWaits(s, given);
    assert AllWaiting(s.calls) == AllWaiting(EndCall(s, given).calls);
  }

  lemma CrashKeeps(s: State, given: Outcome)
    requires EntriesHold(s) && s.calls != []
    ensures EntriesHold(EndCall(s, given).(lost := s.lost + Waiting(Top(s)), crashed := s.crashed + {Top(s).frame}))
  {
    hide EndCall; hide AllWaiting; hide Numbered; hide Owned; hide TurnsHold; hide Waiting;
    EndCallShape(s, given);
    EndCallWaits(s, given);
    TopOwned(s.calls, s.owners);
  }

  /** What an action does to the deferred functions keeps each of them somewhere. */
  lemma OwnKeeps(s: State, a: Action)
    requires EntriesHold(s) && Enabled(s, a)
    ensures EntriesHold(Own(s, a))
  {
    hide EntriesHold; hide EndCall; hide HadTurn; hide Waiting;
    match a
    case Push(_) =>
      PushedWaits(Top(s));
      TopKeeps(s, Top(s).(scopes := Top(s).scopes + [[]]));
    case Enter => EnterKeeps(s, None);
    case Register(_, _) => RegisterKeeps(s, a);
    case Leave(r) =>
      SameWaiting(Top(s), WithResult(Top(s), r, s.causes));
      TopKeeps(s, WithResult(Top(s), r, s.causes));
    case JoinEnd =>
      var c := WithResult(Top(s), s.base.join.current, s.causes);
      SameWaiting(Top(s), c);
      TurnWaits(c, s.causes);
      TopKeeps(s, TakeTurn(c, s.causes));
    case Drain =>
      TurnWaits(Top(s), s.causes);
      TopKeeps(s, TakeTurn(Top(s), s.causes));
    case Skip => HadTurnKeeps(s, false);
    case Invoke =>
      HadTurnKeeps(s, true);
      HadTurnCalls(s, true);
      EnterKeeps(HadTurn(s, true), Some(NextUp(s)));
    case Done(given) =>
      NoneWaiting(Top(s));
      DoneKeeps(s, given);
    case Crash(given) => CrashKeeps(s, given);
    case _ =>
  }

  lemma NoneWaiting(c: Call)
    requires c.scopes == [] && c.turn == []
    ensures Waiting(c) == []
  {}

  lemma HadTurnCalls(s: State, called: bool)
    requires s.calls != [] && Top(s).turn != []
    ensures var s1 := HadTurn(s, called); s1.calls != [] && s1.serial == s.serial && s1.causes == s.causes
  {}

  /** The frames of a state after a step of the scopes and tasks. */
  lemma FramesAfter(bodies: nat -> Outcome, s: N.State, a: N.Action)
    requires N.Enabled(s, a)
    ensures var f, f1, n := s.frames, N.Step(bodies, s, a).frames, |s.frames| - 1;
            match a
            case Call(deferred) => |f1| == |f| + 1 && f1[|f|].deferred == deferred && f1[..|f|] == f
            case Done(_) => f != [] && |f1| == n && forall i | 0 <= i < n :: f1[i].deferred == f[i].deferred
            case Crash => f != [] && |f1| == n && forall i | 0 <= i < n :: f1[i].deferred == f[i].deferred
            case _ => |f1| == |f| && forall i | 0 <= i < |f| :: f1[i].deferred == f[i].deferred
  {}

  lemma CallsAfter(s: State, a: Action)
    requires Enabled(s, a)
    ensures var c, c1, n := s.calls, Own(s, a).calls, |s.calls| - 1;
            match a
            case Enter => |c1| == |c| + 1 && c1[|c|].entry.None? && c1[..|c|] == c
            case Invoke => |c1| == |c| + 1 && c1[|c|].entry.Some? && forall i | 0 <= i < |c| ::
              c1[i].entry == c[i].entry
            case Done(_) => c != [] && |c1| == n && forall i | 0 <= i < n :: c1[i].entry == c[i].entry
            case Crash(_) => c != [] && |c1| == n && forall i | 0 <= i < n :: c1[i].entry == c[i].entry
            case _ => |c1| == |c| && forall i | 0 <= i < |c| :: c1[i].entry == c[i].entry
  {
    hide N.Enabled; hide After; hide Runs; hide EndCall; hide Waiting;
    if a.Done? || a.Crash? {
      EndCallShape(s, a.given);
    }
  }

  lemma FramesKeep(bodies: nat -> Outcome, s: State, a: Action)
    requires FramesAgree(s.base, s.calls) && Enabled(s, a)
    ensures var s1 := Step(bodies, s, a); FramesAgree(s1.base, s1.calls)
  {
    hide N.Step; hide N.Enabled; hide Own;
    CallsAfter(s, a);
    if Base(s, a).Some? {
      FramesAfter(bodies, s.base, Base(s, a).value);
    }
  }

  lemma JoinsKeep(bodies: nat -> Outcome, s: State, a: Action)
    requires JoinsFirst(s) && Enabled(s, a)
    ensures JoinsFirst(Step(bodies, s, a))
  {
    hide After; hide Runs; hide EndCall; hide HadTurn; hide Waiting; hide N.SpawnTask; hide N.EndFrame;
    if Base(s, a).Some? {
      JoinAfter(bodies, s.base, Base(s, a).value);
    }
    hide N.Step; hide N.Enabled;
  }

  /** A join is started at the end of a scope only, and goes on until it has ended. */
  lemma JoinAfter(bodies: nat -> Outcome, s: N.State, a: N.Action)
    requires N.Enabled(s, a)
    ensures N.Step(bodies, s, a).join.Joining? ==>
      a.Pop? || a.Unwind? || (s.join.Joining? && (a.Finish? || a.JoinNext?))
  {}

  lemma StepKeeps(bodies: nat -> Outcome, s: State, a: Action)
    requires Inv(s) && Enabled(s, a)
    ensures Inv(Step(bodies, s, a))
  {
    hide Own; hide N.Step; hide FramesAgree; hide JoinsFirst;
    hide Counted; hide Numbered; hide Owned; hide LostHold; hide TurnsHold; hide AllWaiting;
    OwnKeeps(s, a);
    FramesKeep(bodies, s, a);
    JoinsKeep(bodies, s, a);
  }

  lemma {:induction false} RunKeeps(bodies: nat -> Outcome, s: State, run: seq<Action>)
    requires Inv(s) && Run(bodies, s, run).Some?
    ensures Inv(Run(bodies, s, run).value)
    decreases |run|
  {
    hide Inv; hide Enabled; hide Step;
    if run != [] {
      StepKeeps(bodies, s, run[0]);
      RunKeeps(bodies, Step(bodies, s, run[0]), run[1..]);
    }
  }

  lemma InitialHolds()
    ensures Inv(INITIAL)
  {
    assert AllWaiting(INITIAL.calls) == multiset{} by {
      assert INITIAL.calls[..0] == [];
    }
  }

  lemma Reachable(bodies: nat -> Outcome, run: seq<Action>, s: State)
    requires Run(bodies, INITIAL, run) == Some(s)
    ensures Inv(s)
  {
    hide Run;
    InitialHolds();
    RunKeeps(bodies, INITIAL, run);
  }

  // ----- what holds on every run -----

  predicate Waits(s: State, e: Entry) {
    exists i :: 0 <= i < |s.calls| && e in Waiting(s.calls[i])
  }

  /** The entry's function has been called. */
  predicate WasCalled(s: State, e: Entry) {
    exists i :: 0 <= i < |s.turns| && s.turns[i].entry == e && s.turns[i].called
  }

  /** The call is under way, or being left. */
  predicate Open(s: State, frame: nat) {
    exists i :: 0 <= i < |s.calls| && s.calls[i].frame == frame
  }

  lemma {:induction false} WaitsCounts(calls: seq<Call>, e: Entry)
    ensures e in AllWaiting(calls) <==> exists i :: 0 <= i < |calls| && e in Waiting(calls[i])
    decreases |calls|
  {
    hide Waiting;
    if calls != [] {
      var n := |calls| - 1;
      WaitsCounts(calls[..n], e);
      assert e in multiset(Waiting(calls[n])) <==> e in Waiting(calls[n]);
      if i :| 0 <= i < |calls| && e in Waiting(calls[i]) {
        assert i < n ==> calls[..n][i] == calls[i];
      }
    }
  }

  lemma CountedOnce(registered: seq<Entry>, e: Entry)
    requires (forall i | 0 <= i < |registered| :: registered[i].id == i) && e in registered
    ensures multiset(registered)[e] == 1
  {
    var i := e.id;
    assert registered == registered[..i] + [e] + registered[i + 1..];
    assert e !in registered[..i] && e !in registered[i + 1..];
  }

  /** At any moment of any run a registered function is waiting in the call that registered it, or is lost, that call
      having crashed, or has had one turn: one of these, and only one. */
  lemma OneTurnIff(bodies: nat -> Outcome, run: seq<Action>, s: State, e: Entry)
    requires Run(bodies, INITIAL, run) == Some(s) && e in s.registered
    ensures multiset(HadTurns(s.turns))[e] == if Waits(s, e) || e in s.lost then 0 else 1
    ensures !(Waits(s, e) && e in s.lost)
    ensures e.id < |s.owners| && (Waits(s, e) ==> Open(s, s.owners[e.id]))
    ensures e in s.lost ==> s.owners[e.id] in s.crashed && !Open(s, s.owners[e.id])
  {
    hide Run; hide Waiting; hide HadTurns; hide AllWaiting;
    Reachable(bodies, run, s);
    CountedOnce(s.registered, e);
    WaitsCounts(s.calls, e);
    assert e in s.lost <==> e in multiset(s.lost);
    if Waits(s, e) {
      var i :| 0 <= i < |s.calls| && e in Waiting(s.calls[i]);
      assert OwnedBy(s.owners, s.calls[i]);
    }
  }

  lemma TurnFound(turns: seq<Turn>, e: Entry)
    requires TurnsHold(turns) && multiset(HadTurns(turns))[e] == 1 && e.mode.Always?
    ensures exists i :: 0 <= i < |turns| && turns[i].entry == e && turns[i].called
  {
    assert e in HadTurns(turns);
    var i :| 0 <= i < |HadTurns(turns)| && HadTurns(turns)[i] == e;
    assert turns[i].entry == e && turns[i].called;
  }

  lemma TurnsCount(turns: seq<Turn>, e: Entry)
    requires exists i :: 0 <= i < |turns| && turns[i].entry == e
    ensures multiset(HadTurns(turns))[e] >= 1
  {
    var i :| 0 <= i < |turns| && turns[i].entry == e;
    assert HadTurns(turns)[i] == e;
    assert e in multiset(HadTurns(turns));
  }

  /** An `Always` function has been called exactly when it neither waits nor is lost: once its call is over, exactly
      when a crash of that call did not lose it; so always when the call did not crash. */
  lemma AlwaysCalledIff(bodies: nat -> Outcome, run: seq<Action>, s: State, e: Entry)
    requires Run(bodies, INITIAL, run) == Some(s) && e in s.registered && e.mode.Always?
    ensures WasCalled(s, e) <==> !Waits(s, e) && e !in s.lost
    ensures e.id < |s.owners|
    ensures !Open(s, s.owners[e.id]) ==>
      (WasCalled(s, e) <==> e !in s.lost) && (s.owners[e.id] !in s.crashed ==> WasCalled(s, e))
  {
    hide Run; hide Waiting; hide HadTurns; hide AllWaiting; hide Waits; hide Open;
    Reachable(bodies, run, s);
    OneTurnIff(bodies, run, s, e);
    if Waits(s, e) || e in s.lost {
      if WasCalled(s, e) { TurnsCount(s.turns, e); }
    } else {
      TurnFound(s.turns, e);
    }
  }

  /** An entry that has its turn is called when its kind fits the result then, and only then: an `Always` function
      always, a success handler on anything but an error, an error handler on a machine error or a runtime error. */
  lemma CalledIfFits(bodies: nat -> Outcome, run: seq<Action>, s: State, i: nat)
    requires Run(bodies, INITIAL, run) == Some(s) && i < |s.turns|
    ensures var result := s.turns[i].result;
            s.turns[i].called
            <==> match s.turns[i].entry.mode
                 case Always => true
                 case OnSuccess => !result.Problem? && !result.Raised?
                 case OnError => result.Problem? || result.Raised?
  {
    hide Run;
    Reachable(bodies, run, s);
  }

  /** When a program has ended without a machine error or a failed `await` anywhere, every `Always` function of it has
      been called. */
  lemma CleanEnd(bodies: nat -> Outcome, run: seq<Action>, s: State)
    requires Run(bodies, INITIAL, run) == Some(s) && s.calls == [] && s.crashed == {}
    ensures forall e | e in s.registered && e.mode.Always? :: WasCalled(s, e)
  {
    hide Run;
    forall e | e in s.registered && e.mode.Always? ensures WasCalled(s, e) {
      AlwaysCalledIff(bodies, run, s, e);
    }
  }

  lemma {:induction false} RunSnoc(bodies: nat -> Outcome, s: State, run: seq<Action>, a: Action)
    requires Run(bodies, s, run).Some? && Enabled(Run(bodies, s, run).value, a)
    ensures Run(bodies, s, run + [a]) == Some(Step(bodies, Run(bodies, s, run).value, a))
    decreases |run|
  {
    hide Step; hide Enabled;
    if run == [] {
      assert ([] + [a])[1..] == [];
    } else {
      assert (run + [a])[1..] == run[1..] + [a];
      RunSnoc(bodies, Step(bodies, s, run[0]), run[1..], a);
    }
  }

  /** Nothing is ever in the way of a program: until it is over some step is enabled, be it the end of a task that is
      waited for. */
  lemma NeverStuck(bodies: nat -> Outcome, run: seq<Action>, s: State) returns (a: Action)
    requires Run(bodies, INITIAL, run) == Some(s) && s.calls != []
    ensures Enabled(s, a)
  {
    hide Run;
    Reachable(bodies, run, s);
    RunsOnBase(bodies, INITIAL, run);
    hide EntriesHold; hide BaseRun; hide N.Run; hide Enabled;
    var onBase := BaseRun(bodies, INITIAL, run);
    assert s.base.frames != [];
    if s.base.join.Joining? {
      a := JoinStep(bodies, onBase, s);
    } else if Top(s).turn != [] {
      a := TurnStep(s);
    } else {
      BaseHolds(bodies, onBase, s.base);
      a := OwnStep(s);
    }
  }

  lemma TurnStep(s: State) returns (a: Action)
    requires Busy(s) && s.base.frames != []
    ensures Enabled(s, a)
  {
    hide Runs;
    a := if Runs(NextUp(s), Top(s).result) then Invoke else Skip;
  }

  lemma OwnStep(s: State) returns (a: Action)
    requires Idle(s) && s.base.join.Idle? && s.base.frames != [] && N.Top(s.base).base <= |s.base.scopes|
    ensures Enabled(s, a)
  {
    if !N.Top(s.base).unwinding {
      a := Leave(Plain(Nil));
    } else if |s.base.scopes| > N.Top(s.base).base {
      a := Unwind;
    } else {
      a := if Top(s).scopes != [] then Drain else Done(Top(s).result);
    }
  }

  lemma JoinStep(bodies: nat -> Outcome, onBase: seq<N.Action>, s: State) returns (a: Action)
    requires N.Run(bodies, N.INITIAL, onBase) == Some(s.base) && s.base.join.Joining? && Idle(s)
    ensures Enabled(s, a)
  {
    hide N.Run;
    N.JoinGoesOn(bodies, onBase, s.base);
    var hs := s.base.join.scope.handles;
    if s.base.join.at == |hs| {
      a := JoinEnd;
    } else {
      a := Finish(hs[s.base.join.at]);
    }
  }

  lemma BaseHolds(bodies: nat -> Outcome, onBase: seq<N.Action>, s: N.State)
    requires N.Run(bodies, N.INITIAL, onBase) == Some(s) && s.frames != []
    ensures N.Top(s).base <= |s.scopes|
  {
    hide N.Run;
    N.InitialHolds(bodies);
    N.RunKeeps(bodies, N.INITIAL, onBase);
  }

  /** A machine error loses exactly what waits in the call: after it every `Always` function the call has registered has
      been called exactly when none of them was waiting. */
  lemma CrashIsCleanIff(bodies: nat -> Outcome, run: seq<Action>, s: State, given: Outcome)
    requires Run(bodies, INITIAL, run) == Some(s) && Enabled(s, Crash(given))
    ensures var s1, f := Step(bodies, s, Crash(given)), Top(s).frame;
            && !Open(s1, f) && |s1.owners| == |s1.registered|
            && ((forall e | e in s1.registered && e.id < |s1.owners| && s1.owners[e.id] == f && e.mode.Always? ::
                   WasCalled(s1, e))
                <==> forall e | e in Waiting(Top(s)) :: !e.mode.Always?)
  {
    hide Run; hide Waits; hide WasCalled; hide Waiting; hide Step;
    var s1, f := Step(bodies, s, Crash(given)), Top(s).frame;
    RunSnoc(bodies, INITIAL, run, Crash(given));
    var run1 := run + [Crash(given)];
    Reachable(bodies, run, s);
    Reachable(bodies, run1, s1);
    CrashShape(bodies, s, given);
    forall e | e in s1.registered && e.id < |s1.owners| && s1.owners[e.id] == f && e.mode.Always?
      ensures WasCalled(s1, e) <==> e !in Waiting(Top(s))
    {
      AlwaysCalledIff(bodies, run1, s1, e);
    }
    forall e | e in Waiting(Top(s)) ensures e in s1.registered && e.id < |s1.owners| && s1.owners[e.id] == f {
      TopOwned(s.calls, s.owners);
      LostRegistered(s1, e);
    }
  }

  lemma LostRegistered(s: State, e: Entry)
    requires Inv(s) && e in s.lost
    ensures e in s.registered
  {
    assert e in multiset(s.lost);
    assert e in multiset(s.registered);
  }

  lemma CrashShape(bodies: nat -> Outcome, s: State, given: Outcome)
    requires Inv(s) && Enabled(s, Crash(given))
    ensures var s1 := Step(bodies, s, Crash(given));
            && s1.lost == s.lost + Waiting(Top(s)) && s1.registered == s.registered && s1.owners == s.owners
            && !Open(s1, Top(s).frame)
            && forall e | e in s.lost :: e.id < |s.owners| && s.owners[e.id] != Top(s).frame
  {
    hide N.Step; hide N.Enabled; hide EndCall; hide Waiting;
    EndCallShape(s, given);
  }

  // ----- inputs -----

  const CLEANUP := Entry(0, Always, "")

  /** An `Always` entry has been registered at the top level of a program. */
  const AT_TOP := State(N.INITIAL, [NewCall(0, None, map[]).(scopes := [[CLEANUP]])], map[], 1, [CLEANUP], [0], [], [],
    {})

  lemma RegisterAtTop(bodies: nat -> Outcome)
    ensures Run(bodies, INITIAL, [Register(Always, "")]) == Some(AT_TOP)
  {
    var a := Register(Always, "");
    assert Enabled(INITIAL, a) && Step(bodies, INITIAL, a) == AT_TOP;
    RunSnoc(bodies, INITIAL, [], a);
    assert [] + [a] == [a];
  }

  lemma CleanupWaits()
    ensures AllEntries([[CLEANUP]]) == [CLEANUP]
  {
    assert [[CLEANUP]][..0] == [];
  }

  /** `defer f(); 1 - "a"` at the top level of a program: the entry is never called. */
  lemma MachineErrorLosesEntry(bodies: nat -> Outcome, message: string) returns (s: State)
    ensures Run(bodies, INITIAL, [Register(Always, ""), Crash(Problem(message))]) == Some(s)
    ensures s.calls == [] && s.registered == [CLEANUP] && s.lost == [CLEANUP] && !WasCalled(s, CLEANUP)
  {
    var a, crash := Register(Always, ""), Crash(Problem(message));
    RegisterAtTop(bodies);
    CleanupWaits();
    assert Enabled(AT_TOP, crash);
    s := Step(bodies, AT_TOP, crash);
    hide Run; hide Step;
    RunSnoc(bodies, INITIAL, [a], crash);
    assert [a] + [crash] == [a, crash];
  }

  /** A function has been called, and its block entered. */
  const IN_CALL := State(
    N.State([], [], [N.Scope(0, false, [])], [N.Frame(0, false, false), N.Frame(0, false, false)], N.Idle, 1,
      Plain(Nil),
            false),
    [NewCall(0, None, map[]), NewCall(1, None, map[]).(scopes := [[]])], map[], 2, [], [], [], [], {})

  lemma EnterCall(bodies: nat -> Outcome)
    ensures Run(bodies, INITIAL, [Enter, Push(false)]) == Some(IN_CALL)
  {
    var s1 := Step(bodies, INITIAL, Enter);
    assert s1.base.frames == [N.Frame(0, false, false), N.Frame(0, false, false)] && s1.base.scopes == [];
    assert s1.calls == [NewCall(0, None, map[]), NewCall(1, None, map[])];
    assert Enabled(s1, Push(false));
    var s2 := Step(bodies, s1, Push(false));
    assert s2.base.scopes == [N.Scope(0, false, [])] && s2.calls[1].scopes == [[]];
    assert s2.calls == IN_CALL.calls;
    assert s2 == IN_CALL;
    RunSnoc(bodies, INITIAL, [], Enter);
    assert [] + [Enter] == [Enter];
    hide Step; hide Run;
    RunSnoc(bodies, INITIAL, [Enter], Push(false));
    assert [Enter] + [Push(false)] == [Enter, Push(false)];
  }

  /** An `Always` entry has been registered in it. */
  const REGISTERED :=
    IN_CALL.(calls := [NewCall(0, None, map[]), NewCall(1, None, map[]).(scopes := [[CLEANUP]])],
             registered := [CLEANUP], owners := [1])

  lemma AddedFirst(e: Entry)
    ensures Added([[]], e) == [[e]]
  {
    var none: seq<seq<Entry>> := [[]];
    assert none[0] + [e] == [e] && none[0 := [e]] == [[e]];
  }

  lemma RegisterInCall(bodies: nat -> Outcome)
    ensures Run(bodies, INITIAL, [Enter, Push(false), Register(Always, "")]) == Some(REGISTERED)
  {
    var a := Register(Always, "");
    EnterCall(bodies);
    AddedFirst(CLEANUP);
    assert Own(IN_CALL, a).calls == REGISTERED.calls;
    assert Step(bodies, IN_CALL, a) == REGISTERED;
    hide Step; hide Run;
    RunSnoc(bodies, INITIAL, [Enter, Push(false)], a);
    assert [Enter, Push(false)] + [a] == [Enter, Push(false), a];
  }

  lemma CrashInCall(bodies: nat -> Outcome, message: string) returns (s: State)
    ensures var crash := Crash(Problem(message)); Enabled(REGISTERED, crash) && Step(bodies, REGISTERED, crash) == s
    ensures |s.calls| == 1 && s.calls[0].result == Problem(message)
    ensures s.base.frames == [N.Frame(0, true, false)]
    ensures s.registered == [CLEANUP] && s.lost == [CLEANUP] && s.turns == []
  {
    CleanupWaits();
    s := Step(bodies, REGISTERED, Crash(Problem(message)));
  }

  /** The same in a function that is called: the error goes on to the caller, the entry has not run. */
  lemma CalledMachineErrorLosesEntry(bodies: nat -> Outcome, message: string) returns (s: State)
    ensures Run(bodies, INITIAL, [Enter, Push(false), Register(Always, ""), Crash(Problem(message))]) == Some(s)
    ensures |s.calls| == 1 && s.calls[0].result == Problem(message)
    ensures s.base.frames == [N.Frame(0, true, false)]
    ensures s.registered == [CLEANUP] && s.lost == [CLEANUP] && !WasCalled(s, CLEANUP)
  {
    var a, crash := Register(Always, ""), Crash(Problem(message));
    RegisterInCall(bodies);
    s := CrashInCall(bodies, message);
    hide Run; hide Step; hide Enabled;
    RunSnoc(bodies, INITIAL, [Enter, Push(false), a], crash);
    assert [Enter, Push(false), a] + [crash] == [Enter, Push(false), a, crash];
  }

  /** An error has been thrown there, and then the entry gets its turn. */
  function Thrown(err: RuntimeError): State {
    AT_TOP.(base := N.INITIAL.(frames := [N.Frame(0, true, false)]),
            calls := [WithResult(AT_TOP.calls[0], Raised(err), map[])])
  }

  function Drained(err: RuntimeError): State {
    Thrown(err).(calls := [TakeTurn(Thrown(err).calls[0], map[])])
  }

  lemma ThrowSteps(bodies: nat -> Outcome, err: RuntimeError)
    ensures Enabled(AT_TOP, Leave(Raised(err))) && Step(bodies, AT_TOP, Leave(Raised(err))) == Thrown(err)
  {
    var s1 := Step(bodies, AT_TOP, Leave(Raised(err)));
    assert s1.base.frames == Thrown(err).base.frames && s1.calls == Thrown(err).calls;
  }

  lemma DrainSteps(bodies: nat -> Outcome, err: RuntimeError)
    ensures Enabled(Thrown(err), Drain) && Step(bodies, Thrown(err), Drain) == Drained(err)
    ensures Enabled(Drained(err), Invoke)
  {
    assert Step(bodies, Thrown(err), Drain).calls == Drained(err).calls;
  }

  /** With a `throw` in place of the machine error it is called. */
  lemma ThrowCallsEntry(bodies: nat -> Outcome, err: RuntimeError) returns (s: State)
    ensures Run(bodies, INITIAL, [Register(Always, ""), Leave(Raised(err)), Drain, Invoke]) == Some(s)
    ensures s.registered == [CLEANUP] && WasCalled(s, CLEANUP)
  {
    var a, leave := Register(Always, ""), Leave(Raised(err));
    RegisterAtTop(bodies);
    ThrowSteps(bodies, err);
    DrainSteps(bodies, err);
    s := Step(bodies, Drained(err), Invoke);
    assert s.turns[0] == Turn(CLEANUP, Raised(err), true);
    hide Run; hide Step; hide Enabled;
    RunSnoc(bodies, INITIAL, [a], leave);
    assert [a] + [leave] == [a, leave];
    RunSnoc(bodies, INITIAL, [a, leave], Drain);
    assert [a, leave] + [Drain] == [a, leave, Drain];
    RunSnoc(bodies, INITIAL, [a, leave, Drain], Invoke);
    assert [a, leave, Drain] + [Invoke] == [a, leave, Drain, Invoke];
  }
}
