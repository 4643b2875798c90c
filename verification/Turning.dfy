/** A scope's entries having their turn, on every run: one after the other, with other calls in between, and what comes
    of it is what executing the entries gives. */
module Turning {
  import opened Values
  import opened Tasks
  import opened Chains
  import opened Defers
  import opened Deferring
  import N = Nurseries

  /** Handlers that give what the functions called have given. */
  function Gave(gave: map<nat, Held>): Handlers {
    (e: Entry, w: Held) => if e.id in gave then gave[e.id] else w
  }

  /** The entries that have had their turn, executed on the result the turn started with, give the result so far;
      `called` is the entry whose function has been called and has not ended. */
  ghost predicate InTurn(c: Call, called: Option<Entry>) {
    var hi, k := c.history, |c.turn| + if called.Some? then 1 else 0;
    && Registered(AllEntries(c.scopes)) && Registered(hi.entries) && k <= |hi.entries|
    && c.turn == hi.entries[..|c.turn|]
    && (called.Some? ==> hi.entries[k - 1] == called.value && Runs(called.value, c.result))
    && Executed(Gave(hi.gave), hi.entries[k..], hi.start) == Held(c.result, hi.causes)
  }

  /** A call and the one above it: called for an entry, or by the function while no entry has its turn. */
  ghost predicate Link(c: Call, above: Call) {
    InTurn(c, above.entry) && (above.entry.None? ==> c.turn == [])
  }

  ghost predicate TurnsAgree(calls: seq<Call>) {
    && (forall i | 0 <= i < |calls| - 1 :: Link(calls[i], calls[i + 1]))
    && (calls != [] ==> InTurn(calls[|calls| - 1], None))
  }

  lemma NewInTurn(frame: nat, entry: Option<Entry>, causes: Causes)
    ensures InTurn(NewCall(frame, entry, causes), None)
  {}

  lemma PushInTurn(c: Call)
    requires InTurn(c, None)
    ensures InTurn(c.(scopes := c.scopes + [[]]), None)
  {
    hide Executed;
    assert (c.scopes + [[]])[..|c.scopes|] == c.scopes;
  }

  lemma RegisterInTurn(c: Call, e: Entry)
    requires InTurn(c, None) && forall x | x in Waiting(c) :: x.id < e.id
    ensures InTurn(c.(scopes := Added(c.scopes, e)), None)
  {
    hide Executed;
    if c.scopes == [] {
      assert AllEntries([[e]]) == [e] by { assert [[e]][..0] == []; }
    } else {
      AppendToLast(c.scopes, e);
      assert forall x | x in AllEntries(c.scopes) :: x in Waiting(c);
    }
  }

  lemma ResultInTurn(c: Call, result: Outcome, causes: Causes)
    requires InTurn(c, None) && c.turn == []
    ensures InTurn(WithResult(c, result, causes), None)
  {}

  lemma TakeInTurn(c: Call, causes: Causes)
    requires InTurn(c, None) && c.turn == []
    ensures InTurn(TakeTurn(c, causes), None)
  {
    if c.scopes != [] {
      var n := |c.scopes| - 1;
      RegisteredParts(AllEntries(c.scopes[..n]), c.scopes[n]);
      assert c.scopes[n][|c.scopes[n]|..] == [];
    }
  }

  /** The entry before those that have had their turn. */
  lemma OneEarlier(h: Handlers, entries: seq<Entry>, k: nat, w: Held)
    requires 0 < k <= |entries|
    ensures Executed(h, entries[k - 1..], w) == Next(h, entries[k - 1], Executed(h, entries[k..], w))
  {
    hide Next;
    var late := entries[k - 1..];
    SplitExecution(h, late, 1, w);
    assert late[1..] == entries[k..] && late[..1] == [entries[k - 1]] && late[..1][..0] == [];
    var mid := Executed(h, entries[k..], w);
    assert Executed(h, late[..1], mid) == Executed(h, late[..1][..0], Next(h, entries[k - 1], mid));
  }

  lemma SkipInTurn(c: Call)
    requires InTurn(c, None) && c.turn != [] && !Runs(c.turn[|c.turn| - 1], c.result)
    ensures InTurn(c.(turn := c.turn[..|c.turn| - 1]), None)
  {
    hide Executed; hide Registered; hide AllEntries;
    var hi, k := c.history, |c.turn|;
    OneEarlier(Gave(hi.gave), hi.entries, k, hi.start);
  }

  lemma InvokeInTurn(c: Call)
    requires InTurn(c, None) && c.turn != [] && Runs(c.turn[|c.turn| - 1], c.result)
    ensures InTurn(c.(turn := c.turn[..|c.turn| - 1]), Some(c.turn[|c.turn| - 1]))
  {
    hide Executed; hide Registered; hide AllEntries;
  }

  /** Entries are executed as the handlers say for them, whatever they say for others. */
  lemma {:induction false} SameExecution(h: Handlers, h1: Handlers, entries: seq<Entry>, w: Held)
    requires forall e, w: Held | e in entries :: h(e, w) == h1(e, w)
    ensures Executed(h, entries, w) == Executed(h1, entries, w)
    decreases |entries|
  {
    if entries != [] {
      var n := |entries| - 1;
      assert entries[n] in entries && forall e | e in entries[..n] :: e in entries;
      SameExecution(h, h1, entries[..n], Next(h, entries[n], w));
    }
  }

  lemma TookInTurn(c: Call, e: Entry, given: Outcome, causes: Causes)
    requires InTurn(c, Some(e))
    ensures InTurn(Took(c, e, given, causes), None)
  {
    hide Executed; hide AllEntries;
    var hi, k := c.history, |c.turn| + 1;
    var gave1 := hi.gave[e.id := Held(given, causes)];
    forall x, w: Held | x in hi.entries[k..] ensures Gave(hi.gave)(x, w) == Gave(gave1)(x, w) {
      var j :| k <= j < |hi.entries| && hi.entries[j] == x;
      assert hi.entries[k - 1].id < hi.entries[j].id;
    }
    SameExecution(Gave(hi.gave), Gave(gave1), hi.entries[k..], hi.start);
    OneEarlier(Gave(gave1), hi.entries, k, hi.start);
    assert Gave(gave1)(e, Held(c.result, hi.causes)) == Held(given, causes);
  }

  // ----- every step keeps it -----

  lemma TopAgrees(calls: seq<Call>, c: Call)
    requires calls != [] && TurnsAgree(calls) && InTurn(c, None) && c.entry == calls[|calls| - 1].entry
    ensures TurnsAgree(calls[|calls| - 1 := c])
  {
    hide InTurn;
    var n, calls1 := |calls| - 1, calls[|calls| - 1 := c];
    forall i | 0 <= i < n ensures Link(calls1[i], calls1[i + 1]) {
      assert Link(calls[i], calls[i + 1]);
    }
  }

  lemma PushedAgrees(calls: seq<Call>, c: Call, above: Call)
    requires calls != [] && TurnsAgree(calls) && c.entry == calls[|calls| - 1].entry
    requires Link(c, above) && InTurn(above, None)
    ensures TurnsAgree(calls[|calls| - 1 := c] + [above])
  {
    hide InTurn;
    var n, calls1 := |calls| - 1, calls[|calls| - 1 := c] + [above];
    forall i | 0 <= i < n + 1 ensures Link(calls1[i], calls1[i + 1]) {
      if i < n { assert Link(calls[i], calls[i + 1]); }
    }
  }

  lemma EndedAgrees(s: State, given: Outcome)
    requires s.calls != [] && TurnsAgree(s.calls)
    ensures TurnsAgree(EndCall(s, given).calls)
  {
    hide InTurn; hide Took;
    var n := |s.calls| - 1;
    if n > 0 {
      var c, rest := s.calls[n], s.calls[..n];
      assert Link(s.calls[n - 1], c);
      BelowAgrees(s.calls);
      if c.entry.Some? {
        TookInTurn(rest[n - 1], c.entry.value, given, s.causes);
        TookEntry(rest[n - 1], c.entry.value, given, s.causes);
        ReplacedAgrees(rest, Took(rest[n - 1], c.entry.value, given, s.causes));
      } else if IsError(given) {
        ResultInTurn(rest[n - 1], given, s.causes);
        ReplacedAgrees(rest, WithResult(rest[n - 1], given, s.causes));
      } else {
        ReplacedAgrees(rest, rest[n - 1]);
        assert rest[n - 1 := rest[n - 1]] == rest;
      }
    }
  }

  lemma TookEntry(c: Call, e: Entry, given: Outcome, causes: Causes)
    ensures Took(c, e, given, causes).entry == c.entry
  {}

  ghost predicate BelowTop(calls: seq<Call>) {
    forall i | 0 <= i < |calls| - 1 :: Link(calls[i], calls[i + 1])
  }

  lemma BelowAgrees(calls: seq<Call>)
    requires calls != [] && TurnsAgree(calls)
    ensures BelowTop(calls[..|calls| - 1])
  {
    hide Link;
  }

  lemma ReplacedAgrees(calls: seq<Call>, c: Call)
    requires calls != [] && BelowTop(calls) && InTurn(c, None) && c.entry == calls[|calls| - 1].entry
    ensures TurnsAgree(calls[|calls| - 1 := c])
  {
    hide InTurn;
    var n, calls1 := |calls| - 1, calls[|calls| - 1 := c];
    forall i | 0 <= i < n ensures Link(calls1[i], calls1[i + 1]) {
      assert Link(calls[i], calls[i + 1]);
    }
  }

  lemma OwnAgrees(s: State, a: Action)
    requires EntriesHold(s) && TurnsAgree(s.calls) && Enabled(s, a)
    ensures TurnsAgree(Own(s, a).calls)
  {
    hide EntriesHold; hide TurnsAgree; hide InTurn; hide EndCall; hide Waiting;
    if s.calls != [] {
      var c := Top(s);
      TopInTurn(s);
      match a
      case Push(_) =>
        PushInTurn(c);
        TopAgrees(s.calls, c.(scopes := c.scopes + [[]]));
      case Enter =>
        NewInTurn(s.serial, None, s.causes);
        PushedAgrees(s.calls, c, NewCall(s.serial, None, s.causes));
        assert s.calls[|s.calls| - 1 := c] == s.calls;
      case Register(mode, name) =>
        var e := Entry(|s.registered|, mode, name);
        WaitingIds(s);
        RegisterInTurn(c, e);
        TopAgrees(s.calls, c.(scopes := Added(c.scopes, e)));
      case Leave(r) =>
        ResultInTurn(c, r, s.causes);
        TopAgrees(s.calls, WithResult(c, r, s.causes));
      case JoinEnd =>
        var c1 := WithResult(c, s.base.join.current, s.causes);
        ResultInTurn(c, s.base.join.current, s.causes);
        TakeInTurn(c1, s.causes);
        TopAgrees(s.calls, TakeTurn(c1, s.causes));
      case Drain =>
        TakeInTurn(c, s.causes);
        TopAgrees(s.calls, TakeTurn(c, s.causes));
      case Skip =>
        SkipInTurn(c);
        TopAgrees(s.calls, c.(turn := c.turn[..|c.turn| - 1]));
      case Invoke =>
        InvokeInTurn(c);
        NewInTurn(s.serial, Some(NextUp(s)), s.causes);
        PushedAgrees(s.calls, c.(turn := c.turn[..|c.turn| - 1]), NewCall(s.serial, Some(NextUp(s)), s.causes));
      case Done(given) => EndedAgrees(s, given);
      case Crash(given) =>
        EndedAgrees(s, given);
      case _ =>
    }
  }

  lemma TopInTurn(s: State)
    requires s.calls != [] && TurnsAgree(s.calls)
    ensures InTurn(Top(s), None)
  {}

  lemma WaitingIds(s: State)
    requires EntriesHold(s) && s.calls != []
    ensures forall x | x in Waiting(Top(s)) :: x.id < |s.registered|
  {
    TopOwned(s.calls, s.owners);
  }

  lemma StepAgrees(bodies: nat -> Outcome, s: State, a: Action)
    requires Inv(s) && TurnsAgree(s.calls) && Enabled(s, a)
    ensures Inv(Step(bodies, s, a)) && TurnsAgree(Step(bodies, s, a).calls)
  {
    hide TurnsAgree; hide EntriesHold; hide FramesAgree; hide Own; hide Enabled;
    StepKeeps(bodies, s, a);
    OwnAgrees(s, a);
  }

  lemma {:induction false} RunAgrees(bodies: nat -> Outcome, s: State, run: seq<Action>)
    requires Inv(s) && TurnsAgree(s.calls) && Run(bodies, s, run).Some?
    ensures Inv(Run(bodies, s, run).value) && TurnsAgree(Run(bodies, s, run).value.calls)
    decreases |run|
  {
    hide Inv; hide Enabled; hide Step; hide TurnsAgree;
    if run != [] {
      StepAgrees(bodies, s, run[0]);
      RunAgrees(bodies, Step(bodies, s, run[0]), run[1..]);
    }
  }

  lemma InitialAgrees()
    ensures TurnsAgree(INITIAL.calls)
  {
    NewInTurn(0, None, map[]);
    hide InTurn;
  }

  /** The turn of a scope's entries starts when its tasks are done with, on what these have made of the result; that of
      entries outside every task scope, on the result there is. */
  lemma TurnStarts(bodies: nat -> Outcome, s: State, a: Action)
    requires Enabled(s, a) && (a.JoinEnd? || a.Drain?) && Top(s).scopes != []
    ensures var s1, n := Step(bodies, s, a), |Top(s).scopes| - 1;
            && s1.calls != [] && Top(s1).scopes == Top(s).scopes[..n]
            && Top(s1).turn == Top(s).scopes[n] == Top(s1).history.entries
            && Top(s1).history.start == Held(if a.JoinEnd? then s.base.join.current else Top(s).result, s.causes)
  {
    hide N.Step; hide N.Enabled; hide Runs;
  }

  /** Whatever the run, when the entries of a scope have all had their turn, the result and the causes are what
      executing them on the result before gives, with handlers that give what the functions called gave. */
  lemma TurnIsExecuted(bodies: nat -> Outcome, run: seq<Action>, s: State)
    requires Run(bodies, INITIAL, run) == Some(s) && Idle(s)
    ensures var c, hi := Top(s), Top(s).history;
            && Registered(hi.entries)
            && Held(c.result, hi.causes) == Executed(Gave(hi.gave), hi.entries, hi.start)
  {
    hide Run;
    InitialHolds();
    InitialAgrees();
    RunAgrees(bodies, INITIAL, run);
    TopInTurn(s);
    hide Executed;
    assert Top(s).history.entries[0..] == Top(s).history.entries;
  }
}
