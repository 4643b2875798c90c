/** Deferred functions: which run when a scope is left, in what order, and what they make of its result. */
module Defers {
  import opened Values
  import opened Tasks
  import opened Chains

  datatype Mode = Always | OnSuccess | OnError

  /** A registered function: `id` tells entries apart, `errorName` is what it calls the error. */
  datatype Entry = Entry(id: nat, mode: Mode, errorName: string)

  /** The result of a scope so far, and the causes that errors have been given so far. */
  datatype Held = Held(result: Outcome, causes: Causes)

  /** What calling an entry's function gives, and the causes afterwards. */
  type Handlers = (Entry, Held) -> Held

  /** What waiting for the tasks of the scope at a depth makes of the result. */
  type Joins = (nat, Held) -> Held

  predicate Runs(e: Entry, current: Outcome) {
    match e.mode
    case Always => true
    case OnSuccess => !IsError(current)
    case OnError => IsError(current)
  }

  /** The scope's result after an entry has run. A runtime error of its own replaces it; when that replaces another, the
      error object is given that one as its cause, whatever cause it had. Only an error handler can replace an error by
      a value. */
  function After(e: Entry, w: Held, r: Held): Held {
    if r.result.Raised? then
      Held(r.result, if w.result.Raised? then r.causes[r.result.err := w.result.err] else r.causes)
    else if IsError(w.result) && e.mode.OnError? then
      Held(if r.result.Wrapped? then Plain(r.result.v) else r.result, r.causes)
    else Held(w.result, r.causes)
  }

  /** The scope's result after an entry has had its turn. */
  function Next(h: Handlers, e: Entry, w: Held): Held {
    if Runs(e, w.result) then After(e, w, h(e, w)) else w
  }

  /** The result when the entries have been executed, last registered first. */
  function Executed(h: Handlers, entries: seq<Entry>, w: Held): Held {
    if entries == [] then w
    else
      var n := |entries| - 1;
      Executed(h, entries[..n], Next(h, entries[n], w))
  }

  /** The entries that run, in the order they run. */
  function Ran(h: Handlers, entries: seq<Entry>, w: Held): seq<Entry> {
    if entries == [] then []
    else
      var n := |entries| - 1;
      var e := entries[n];
      var rest := Ran(h, entries[..n], Next(h, e, w));
      if Runs(e, w.result) then [e] + rest else rest
  }

  /** The deferred functions and task scopes of a function call under way. */
  class Unwinder {
    var deferScopes: seq<seq<Entry>>
    var taskScopes: nat               // how many task scopes are open
    const borrowed: nat               // how many of them are the caller's
    var causes: Causes                // the causes that errors have been given so far
    ghost var log: seq<Entry>         // the entries run so far

    constructor (borrowed: nat, causes: Causes)
      ensures this.borrowed == borrowed && taskScopes == borrowed && deferScopes == [] && log == []
      ensures this.causes == causes
    {
      this.borrowed, taskScopes, deferScopes, log, this.causes := borrowed, borrowed, [], [], causes;
    }

    /** Register a function in the innermost scope; outside every scope one is opened for it. */
    method Defer(e: Entry)
      modifies this
      ensures taskScopes == old(taskScopes) && log == old(log) && causes == old(causes)
      ensures AllEntries(deferScopes) == AllEntries(old(deferScopes)) + [e]
      ensures |deferScopes| == if old(deferScopes) == [] then 1 else |old(deferScopes)|
    {
      if deferScopes == [] {
        deferScopes := [[]];
      }
      var idx := |deferScopes| - 1;
      AppendToLast(deferScopes, e);
      deferScopes := deferScopes[idx := deferScopes[idx] + [e]];
    }

    method ExecuteEntries(h: Handlers, entries: seq<Entry>, current: Outcome) returns (result: Outcome)
      modifies this`log, this`causes
      ensures Held(result, causes) == Executed(h, entries, Held(current, old(causes)))
      ensures log == old(log) + Ran(h, entries, Held(current, old(causes)))
    {
      result := current;
      var i := |entries|;
      ghost var w0 := Held(current, causes);
      assert entries[..i] == entries;
      assert log + Ran(h, entries, w0) == old(log) + Ran(h, entries, w0);
      while i > 0
        invariant 0 <= i <= |entries|
        invariant Executed(h, entries[..i], Held(result, causes)) == Executed(h, entries, w0)
        invariant log + Ran(h, entries[..i], Held(result, causes)) == old(log) + Ran(h, entries, w0)
      {
        i := i - 1;
        var e := entries[i];
        var w := Held(result, causes);
        assert entries[..i + 1][..i] == entries[..i];
        if Runs(e, result) {
          var r := h(e, w);
          ghost var later := Ran(h, entries[..i], After(e, w, r));
          assert log + ([e] + later) == (log + [e]) + later;
          causes := r.causes;
          if r.result.Raised? {
            if result.Raised? {
              causes := causes[r.result.err := result.err];
            }
            result := r.result;
          } else if IsError(result) && e.mode.OnError? {
            result := if r.result.Wrapped? then Plain(r.result.v) else r.result;
          }
          log := log + [e];
        }
      }
    }

    method ExecuteCurrentScope(h: Handlers, current: Outcome) returns (result: Outcome)
      modifies this
      ensures taskScopes == old(taskScopes)
      ensures var w := Held(current, old(causes));
              if old(deferScopes) == [] then deferScopes == [] && Held(result, causes) == w && log == old(log)
              else var n := |old(deferScopes)| - 1;
                   deferScopes == old(deferScopes)[..n]
                   && Held(result, causes) == Executed(h, old(deferScopes)[n], w)
                   && log == old(log) + Ran(h, old(deferScopes)[n], w)
    {
      if deferScopes == [] { return current; }
      var n := |deferScopes| - 1;
      var entries := deferScopes[n];
      deferScopes := deferScopes[..n];
      result := ExecuteEntries(h, entries, current);
    }

    /** The end of a scope that a tail `recur` leaves. The entries of the function's outermost scope are dropped without
        running, though they are meant to wait for the end of the function. When an inner scope's entries make something
        else of the signal, that becomes the value of the block, and nothing of the scope but its entries is closed. */
    method EndOnRecur(h: Handlers, outermost: bool) returns (result: Outcome)
      modifies this
      ensures old(deferScopes) == [] ==> deferScopes == []
      ensures old(deferScopes) != [] ==> deferScopes == old(deferScopes)[..|old(deferScopes)| - 1]
      ensures Held(result, causes) == AfterRecur(h, old(deferScopes), Held(Recur, old(causes)), outermost)
      ensures log == old(log) + RecurRan(h, old(deferScopes), Held(Recur, old(causes)), outermost)
      ensures taskScopes == if result.Recur? && old(taskScopes) > 0 then old(taskScopes) - 1 else old(taskScopes)
    {
      result := Recur;
      if outermost {
        if deferScopes != [] {
          deferScopes := deferScopes[..|deferScopes| - 1];
        }
      } else {
        result := ExecuteCurrentScope(h, Recur);
        if !result.Recur? { return; }
      }
      if taskScopes > 0 {
        taskScopes := taskScopes - 1;
      }
    }

    /** Leave every scope of this call, innermost first: wait for its tasks, then run its deferred functions. */
    method UnwindAll(h: Handlers, join: Joins, current: Outcome) returns (result: Outcome)
      requires taskScopes >= borrowed
      modifies this
      ensures deferScopes == [] && taskScopes == borrowed
      ensures var w := Held(current, old(causes));
              && Held(result, causes) == Unwound(h, join, old(deferScopes), old(taskScopes), borrowed, w)
              && log == old(log) + UnwoundRan(h, join, old(deferScopes), old(taskScopes), borrowed, w)
    {
      result := current;
      ghost var w0 := Held(current, causes);
      while deferScopes != [] || taskScopes > borrowed
        invariant taskScopes >= borrowed
        invariant Unwound(h, join, deferScopes, taskScopes, borrowed, Held(result, causes))
                  == Unwound(h, join, old(deferScopes), old(taskScopes), borrowed, w0)
        invariant log + UnwoundRan(h, join, deferScopes, taskScopes, borrowed, Held(result, causes))
                  == old(log) + UnwoundRan(h, join, old(deferScopes), old(taskScopes), borrowed, w0)
        decreases |deferScopes| + taskScopes
      {
        result := UnwindScope(h, join, result);
      }
    }

    /** One turn of it: the innermost scope is left. */
    method UnwindScope(h: Handlers, join: Joins, current: Outcome) returns (result: Outcome)
      requires taskScopes >= borrowed && (deferScopes != [] || taskScopes > borrowed)
      modifies this
      ensures taskScopes >= borrowed && |deferScopes| + taskScopes < |old(deferScopes)| + old(taskScopes)
      ensures var w := Held(current, old(causes));
              && Unwound(h, join, deferScopes, taskScopes, borrowed, Held(result, causes))
                 == Unwound(h, join, old(deferScopes), old(taskScopes), borrowed, w)
              && log + UnwoundRan(h, join, deferScopes, taskScopes, borrowed, Held(result, causes))
                 == old(log) + UnwoundRan(h, join, old(deferScopes), old(taskScopes), borrowed, w)
    {
      hide Executed; hide Ran;
      result := current;
      UnwindOne(h, join, deferScopes, taskScopes, borrowed, Held(result, causes), log);
      if taskScopes > borrowed {
        taskScopes := taskScopes - 1;
        var w := join(taskScopes, Held(result, causes));
        result, causes := w.result, w.causes;
      }
      if deferScopes != [] {
        result := ExecuteCurrentScope(h, result);
      }
    }
  }

  /** What a tail `recur` runs, and what it makes of the result, when it leaves the innermost of the scopes. */
  function RecurRan(h: Handlers, scopes: seq<seq<Entry>>, w: Held, outermost: bool): seq<Entry> {
    if outermost || scopes == [] then [] else Ran(h, scopes[|scopes| - 1], w)
  }

  function AfterRecur(h: Handlers, scopes: seq<seq<Entry>>, w: Held, outermost: bool): Held {
    if outermost || scopes == [] then w else Executed(h, scopes[|scopes| - 1], w)
  }

  function AllEntries(scopes: seq<seq<Entry>>): seq<Entry> {
    if scopes == [] then [] else AllEntries(scopes[..|scopes| - 1]) + scopes[|scopes| - 1]
  }

  lemma AppendToLast(scopes: seq<seq<Entry>>, e: Entry)
    requires scopes != []
    ensures var n := |scopes| - 1;
            AllEntries(scopes[n := scopes[n] + [e]]) == AllEntries(scopes) + [e]
  {
    var n := |scopes| - 1;
    assert scopes[n := scopes[n] + [e]][..n] == scopes[..n];
  }

  /** What leaving a scope makes of the result, up to the deferred functions. */
  function Waited(join: Joins, tasks: nat, borrowed: nat, w: Held): Held {
    if tasks > borrowed then join(tasks - 1, w) else w
  }

  function Unwound(h: Handlers, join: Joins, scopes: seq<seq<Entry>>, tasks: nat, borrowed: nat,
                   w: Held): Held
    requires tasks >= borrowed
    decreases |scopes| + tasks
  {
    if scopes == [] && tasks == borrowed then w
    else
      var n, c := |scopes| - 1, Waited(join, tasks, borrowed, w);
      var tasks1 := if tasks > borrowed then tasks - 1 else tasks;
      if scopes == [] then Unwound(h, join, scopes, tasks1, borrowed, c)
      else Unwound(h, join, scopes[..n], tasks1, borrowed, Executed(h, scopes[n], c))
  }

  function UnwoundRan(h: Handlers, join: Joins, scopes: seq<seq<Entry>>, tasks: nat, borrowed: nat,
                      w: Held): seq<Entry>
    requires tasks >= borrowed
    decreases |scopes| + tasks
  {
    if scopes == [] then []
    else
      var n, c := |scopes| - 1, Waited(join, tasks, borrowed, w);
      var tasks1 := if tasks > borrowed then tasks - 1 else tasks;
      Ran(h, scopes[n], c) + UnwoundRan(h, join, scopes[..n], tasks1, borrowed, Executed(h, scopes[n], c))
  }

  lemma UnwindOne(h: Handlers, join: Joins, scopes: seq<seq<Entry>>, tasks: nat, borrowed: nat,
                  w: Held, log: seq<Entry>)
    requires tasks >= borrowed && (scopes != [] || tasks > borrowed)
    ensures var n, c := |scopes| - 1, Waited(join, tasks, borrowed, w);
            var tasks1 := if tasks > borrowed then tasks - 1 else tasks;
            var ran := UnwoundRan(h, join, scopes, tasks, borrowed, w);
            if scopes == [] then
              && Unwound(h, join, scopes, tasks, borrowed, w) == Unwound(h, join, scopes, tasks1, borrowed, c)
              && ran == [] == UnwoundRan(h, join, scopes, tasks1, borrowed, c)
            else
              && Unwound(h, join, scopes, tasks, borrowed, w)
                == Unwound(h, join, scopes[..n], tasks1, borrowed, Executed(h, scopes[n], c))
              && log + ran == (log + Ran(h, scopes[n], c))
                + UnwoundRan(h, join, scopes[..n], tasks1, borrowed, Executed(h, scopes[n], c))
  {
    hide Executed; hide Ran;
  }

  // ----- order -----

  /** Entries are numbered as they are registered. */
  predicate Registered(es: seq<Entry>) {
    forall i, j | 0 <= i < j < |es| :: es[i].id < es[j].id
  }

  predicate Falling(es: seq<Entry>) {
    forall i, j | 0 <= i < j < |es| :: es[i].id > es[j].id
  }

  lemma {:induction false} RanBackwards(h: Handlers, entries: seq<Entry>, w: Held)
    requires Registered(entries)
    ensures Falling(Ran(h, entries, w))
    ensures forall e | e in Ran(h, entries, w) :: e in entries
    decreases |entries|
  {
    if entries != [] {
      var n := |entries| - 1;
      var e := entries[n];
      RanBackwards(h, entries[..n], Next(h, e, w));
      assert forall x | x in entries[..n] :: x.id < e.id;
    }
  }

  /** Over all the scopes left, later registrations run first, and none runs twice. */
  lemma {:induction false} UnwoundBackwards(h: Handlers, join: Joins, scopes: seq<seq<Entry>>,
                                            tasks: nat, borrowed: nat, w: Held)
    requires tasks >= borrowed && Registered(AllEntries(scopes))
    ensures Falling(UnwoundRan(h, join, scopes, tasks, borrowed, w))
    ensures forall e | e in UnwoundRan(h, join, scopes, tasks, borrowed, w) :: e in AllEntries(scopes)
    decreases |scopes|
  {
    hide Ran; hide Executed;
    if scopes != [] {
      var n, c := |scopes| - 1, Waited(join, tasks, borrowed, w);
      var tasks1 := if tasks > borrowed then tasks - 1 else tasks;
      var outer, inner := AllEntries(scopes[..n]), scopes[n];
      assert AllEntries(scopes) == outer + inner;
      RegisteredParts(outer, inner);
      RanBackwards(h, inner, c);
      UnwoundBackwards(h, join, scopes[..n], tasks1, borrowed, Executed(h, inner, c));
      FallingConcat(Ran(h, inner, c), UnwoundRan(h, join, scopes[..n], tasks1, borrowed, Executed(h, inner, c)));
    }
  }

  lemma RegisteredParts(a: seq<Entry>, b: seq<Entry>)
    requires Registered(a + b)
    ensures Registered(a) && Registered(b) && forall x, y | x in a && y in b :: x.id < y.id
  {
    var c := a + b;
    assert forall i | 0 <= i < |a| :: c[i] == a[i];
    assert forall i | 0 <= i < |b| :: c[|a| + i] == b[i];
  }

  lemma FallingConcat(a: seq<Entry>, b: seq<Entry>)
    requires Falling(a) && Falling(b) && forall x, y | x in a && y in b :: x.id > y.id
    ensures Falling(a + b)
  {
    var c := a + b;
    forall i, j | 0 <= i < j < |c| ensures c[i].id > c[j].id {
      if i < |a| <= j {
        assert c[i] in a && c[j] in b;
      }
    }
  }

  // ----- which entries run -----

  /** Executing entries is executing the later ones, then the earlier ones on the result they leave. */
  lemma {:induction false} SplitExecution(h: Handlers, entries: seq<Entry>, i: nat, w: Held)
    requires i <= |entries|
    ensures Executed(h, entries, w) == Executed(h, entries[..i], Executed(h, entries[i..], w))
    ensures Ran(h, entries, w)
            == Ran(h, entries[i..], w) + Ran(h, entries[..i], Executed(h, entries[i..], w))
    decreases |entries|
  {
    hide Next;
    if i == |entries| {
      assert entries[..i] == entries;
    } else {
      var n := |entries| - 1;
      var e := entries[n];
      var next := Next(h, e, w);
      assert entries[i..][..n - i] == entries[..n][i..] && entries[..n][..i] == entries[..i];
      SplitExecution(h, entries[..n], i, next);
      assert Executed(h, entries[i..], w) == Executed(h, entries[..n][i..], next);
    }
  }

  lemma LastRuns(h: Handlers, entries: seq<Entry>, w: Held)
    requires entries != [] && Registered(entries)
    ensures entries[|entries| - 1] in Ran(h, entries, w) <==> Runs(entries[|entries| - 1], w.result)
  {
    var n := |entries| - 1;
    var e := entries[n];
    RanBackwards(h, entries[..n], Next(h, e, w));
    assert forall x | x in entries[..n] :: x.id < e.id;
  }

  /** An entry runs exactly when its kind fits the result the entries after it have left: an `Always` entry always, a
      success entry on anything but an error, an error entry on a machine error or a runtime error. */
  lemma RunsByResultThen(h: Handlers, entries: seq<Entry>, i: nat, w: Held)
    requires i < |entries| && Registered(entries)
    ensures var left := Executed(h, entries[i + 1..], w).result;
            entries[i] in Ran(h, entries, w)
            <==> match entries[i].mode
                 case Always => true
                 case OnSuccess => !left.Problem? && !left.Raised?
                 case OnError => left.Problem? || left.Raised?
  {
    hide Ran; hide Executed;
    SplitExecution(h, entries, i + 1, w);
    LastRuns(h, entries[..i + 1], Executed(h, entries[i + 1..], w));
    RanBackwards(h, entries[i + 1..], w);
    assert entries[i] !in entries[i + 1..];
  }

  /** What one entry makes of a result: it does not run, or the runtime error it raises takes the place of the result
      and has a runtime error for its cause, or, as an error handler, its value does, a returned one unwrapped, or its
      machine error; anything else it gives is ignored. */
  lemma OneEntry(h: Handlers, e: Entry, w: Held)
    ensures var o, r, failed := Executed(h, [e], w), h(e, w), w.result.Problem? || w.result.Raised?;
            if e.mode != Always && failed != e.mode.OnError? then o == w && Ran(h, [e], w) == []
            else && Ran(h, [e], w) == [e]
                 && o.causes == (if r.result.Raised? && w.result.Raised? then r.causes[r.result.err := w.result.err]
                                 else r.causes)
                 && o.result == if r.result.Raised? then r.result
                                else if !failed || !e.mode.OnError? then w.result
                                else if r.result.Wrapped? then Plain(r.result.v) else r.result
  {
    assert [e][..0] == [];
    assert Executed(h, [e], w) == Executed(h, [], Next(h, e, w));
    assert Ran(h, [], Next(h, e, w)) == [];
  }

  /** What the scope at a depth has come to when its entries get their turn: the tasks of the scopes further in, their
      entries, and its own tasks are done with. */
  function AtTurn(h: Handlers, join: Joins, scopes: seq<seq<Entry>>, tasks: nat, borrowed: nat, w: Held, d: nat): Held
    requires tasks >= borrowed && d < |scopes|
    decreases |scopes|
  {
    var n, c := |scopes| - 1, Waited(join, tasks, borrowed, w);
    var tasks1 := if tasks > borrowed then tasks - 1 else tasks;
    if d == n then c else AtTurn(h, join, scopes[..n], tasks1, borrowed, Executed(h, scopes[n], c), d)
  }

  /** Over all the scopes a call leaves. */
  lemma {:induction false} UnwoundRunsIff(h: Handlers, join: Joins, scopes: seq<seq<Entry>>, tasks: nat, borrowed: nat,
                                          w: Held, d: nat, i: nat)
    requires tasks >= borrowed && Registered(AllEntries(scopes)) && d < |scopes| && i < |scopes[d]|
    ensures var left := Executed(h, scopes[d][i + 1..], AtTurn(h, join, scopes, tasks, borrowed, w, d)).result;
            scopes[d][i] in UnwoundRan(h, join, scopes, tasks, borrowed, w)
            <==> match scopes[d][i].mode
                 case Always => true
                 case OnSuccess => !left.Problem? && !left.Raised?
                 case OnError => left.Problem? || left.Raised?
    decreases |scopes|
  {
    hide Ran; hide Executed;
    var n, c := |scopes| - 1, Waited(join, tasks, borrowed, w);
    var tasks1 := if tasks > borrowed then tasks - 1 else tasks;
    var outer, inner := AllEntries(scopes[..n]), scopes[n];
    var next := Executed(h, inner, c);
    RegisteredParts(outer, inner);
    UnwoundBackwards(h, join, scopes[..n], tasks1, borrowed, next);
    RanBackwards(h, inner, c);
    if d == n {
      RunsByResultThen(h, inner, i, c);
      assert inner[i] in inner;
    } else {
      UnwoundRunsIff(h, join, scopes[..n], tasks1, borrowed, next, d, i);
      InOuter(scopes, d, i);
    }
  }

  lemma {:induction false} InOuter(scopes: seq<seq<Entry>>, d: nat, i: nat)
    requires d < |scopes| - 1 && i < |scopes[d]|
    ensures scopes[d][i] in AllEntries(scopes[..|scopes| - 1])
    decreases |scopes|
  {
    var outer := scopes[..|scopes| - 1];
    if d < |outer| - 1 { InOuter(outer, d, i); }
  }

  /** The tasks of a scope are waited for before its entries run, and the scopes are left from the innermost one. */
  lemma JoinedFirst(h: Handlers, join: Joins, inner: seq<Entry>, outer: seq<Entry>, n: nat, w: Held)
    ensures Unwound(h, join, [outer, inner], n + 2, n, w)
            == Executed(h, outer, join(n, Executed(h, inner, join(n + 1, w))))
    ensures UnwoundRan(h, join, [outer, inner], n + 2, n, w)
            == Ran(h, inner, join(n + 1, w)) + Ran(h, outer, join(n, Executed(h, inner, join(n + 1, w))))
  {
    hide Executed; hide Ran;
    var w1 := Executed(h, inner, join(n + 1, w));
    var w2 := Executed(h, outer, join(n, w1));
    assert [outer, inner][..1] == [outer] && [outer][..0] == [];
    assert Unwound(h, join, [outer], n + 1, n, w1) == Unwound(h, join, [], n, n, w2) == w2;
    assert UnwoundRan(h, join, [outer], n + 1, n, w1) == Ran(h, outer, join(n, w1)) + UnwoundRan(h, join, [], n, n, w2);
  }

  /** When the scopes of a call are unwound, every `Always` entry of every scope runs, whatever fails on the way. */
  lemma {:induction false} AlwaysRuns(h: Handlers, join: Joins, scopes: seq<seq<Entry>>, tasks: nat,
                                      borrowed: nat, w: Held, e: Entry)
    requires tasks >= borrowed && Registered(AllEntries(scopes)) && e in AllEntries(scopes) && e.mode.Always?
    ensures e in UnwoundRan(h, join, scopes, tasks, borrowed, w)
    decreases |scopes|
  {
    hide Ran; hide Executed;
    var n, c := |scopes| - 1, Waited(join, tasks, borrowed, w);
    var tasks1 := if tasks > borrowed then tasks - 1 else tasks;
    var outer, inner := AllEntries(scopes[..n]), scopes[n];
    RegisteredParts(outer, inner);
    if e in inner {
      var i :| 0 <= i < |inner| && inner[i] == e;
      RunsByResultThen(h, inner, i, c);
    } else {
      AlwaysRuns(h, join, scopes[..n], tasks1, borrowed, Executed(h, inner, c), e);
    }
  }

  /** On a tail `recur` the scope it leaves gets all its `Always` entries run exactly when it is not the outermost of
      the function, or has none. */
  lemma RecurRunsAlwaysIff(h: Handlers, scopes: seq<seq<Entry>>, w: Held, outermost: bool)
    requires scopes != [] && Registered(scopes[|scopes| - 1])
    ensures var entries, ran := scopes[|scopes| - 1], RecurRan(h, scopes, w, outermost);
            (forall e | e in entries && e.mode.Always? :: e in ran)
            <==> !outermost || forall e | e in entries :: !e.mode.Always?
  {
    hide Ran; hide Executed;
    var entries := scopes[|scopes| - 1];
    forall e | e in entries && e.mode.Always? ensures e in Ran(h, entries, w) {
      var i :| 0 <= i < |entries| && entries[i] == e;
      RunsByResultThen(h, entries, i, w);
    }
  }

  /** A function that registers one `Always` entry and ends in `recur`: the entry is gone and has not run. */
  lemma RecurLosesEntry(h: Handlers, w: Held)
    ensures var scopes := [[Entry(0, Always, "")]];
            && RecurRan(h, scopes, w, true) == [] && AllEntries(scopes) == [Entry(0, Always, "")]
            && Ran(h, scopes[0], w) == [Entry(0, Always, "")]
  {
    var scopes := [[Entry(0, Always, "")]];
    assert scopes[..0] == [];
    assert AllEntries(scopes) == AllEntries(scopes[..0]) + scopes[0];
    assert Ran(h, scopes[0], w)
           == [scopes[0][0]] + Ran(h, [], After(scopes[0][0], w, h(scopes[0][0], w)));
  }

  /** Where no scope has tasks, it makes no difference how the entries are spread over scopes. */
  lemma {:induction false} ScopesDoNotMatter(h: Handlers, join: Joins, scopes: seq<seq<Entry>>,
                                             tasks: nat, w: Held)
    ensures Unwound(h, join, scopes, tasks, tasks, w) == Executed(h, AllEntries(scopes), w)
    ensures UnwoundRan(h, join, scopes, tasks, tasks, w) == Ran(h, AllEntries(scopes), w)
    decreases |scopes|
  {
    if scopes != [] {
      var n := |scopes| - 1;
      var all, k := AllEntries(scopes), |AllEntries(scopes[..n])|;
      assert all[..k] == AllEntries(scopes[..n]) && all[k..] == scopes[n];
      SplitExecution(h, all, k, w);
      ScopesDoNotMatter(h, join, scopes[..n], tasks, Executed(h, scopes[n], w));
    }
  }

  // ----- errors -----

  /** An error gives way to a value exactly when it is an error handler that ran and did not fail. */
  lemma OnlyHandlersRecover(e: Entry, w: Held, r: Held)
    requires (w.result.Problem? || w.result.Raised?) && !e.mode.OnSuccess?
    ensures var o := After(e, w, r).result;
            !o.Problem? && !o.Raised? <==> e.mode.OnError? && !r.result.Problem? && !r.result.Raised?
  {}

  /** The error an entry raises in place of another loses the cause it came with, unless that is the one replaced. */
  lemma OwnCauseIsLost(e: Entry, w: Held, r: Held)
    requires w.result.Raised? && r.result.Raised? && r.result.err in r.causes && Runs(e, w.result)
    ensures var c := After(e, w, r).causes;
            r.result.err in c && (c[r.result.err] == r.causes[r.result.err] <==> r.causes[r.result.err] == w.result.err)
  {}

  /** What the entries registered after entry `k` have left when its turn comes. */
  function LeftTo(h: Handlers, entries: seq<Entry>, k: nat, w: Held): Held
    requires k < |entries|
  {
    Executed(h, entries[k + 1..], w)
  }

  lemma LeftToEarlier(h: Handlers, entries: seq<Entry>, k: nat, w: Held)
    requires k < |entries|
    ensures var n := |entries| - 1;
            LeftTo(h, entries, k, w) == if k == n then w else LeftTo(h, entries[..n], k, Next(h, entries[n], w))
  {
    hide Next;
    var n := |entries| - 1;
    if k < n {
      var later := entries[k + 1..];
      assert later[..|later| - 1] == entries[..n][k + 1..] && later[|later| - 1] == entries[n];
    }
  }

  lemma LeftToAllEarlier(h: Handlers, entries: seq<Entry>, w: Held)
    requires entries != []
    ensures var n := |entries| - 1;
            LeftTo(h, entries, n, w) == w && forall k: nat | k < n ::
              LeftTo(h, entries, k, w) == LeftTo(h, entries[..n], k, Next(h, entries[n], w))
              && entries[..n][k] == entries[k]
  {
    hide LeftTo; hide Next;
    var n := |entries| - 1;
    LeftToEarlier(h, entries, n, w);
    forall k: nat | k < n
      ensures LeftTo(h, entries, k, w) == LeftTo(h, entries[..n], k, Next(h, entries[n], w))
    {
      LeftToEarlier(h, entries, k, w);
    }
  }

  /** Entry `k` runs in its turn and raises a runtime error. */
  predicate RaisesInTurn(h: Handlers, entries: seq<Entry>, k: nat, w: Held)
    requires k < |entries|
  {
    var left := LeftTo(h, entries, k, w);
    Runs(entries[k], left.result) && h(entries[k], left).result.Raised?
  }

  /** The entry that has the last word: the earliest registered one that raises in its turn, if any. */
  function LastRaise(h: Handlers, entries: seq<Entry>, w: Held, k: nat): (r: nat)
    requires k <= |entries|
    ensures k <= r <= |entries|
    ensures forall j | k <= j < r :: !RaisesInTurn(h, entries, j, w)
    ensures r < |entries| ==> RaisesInTurn(h, entries, r, w)
    decreases |entries| - k
  {
    if k == |entries| || RaisesInTurn(h, entries, k, w) then k else LastRaise(h, entries, w, k + 1)
  }

  lemma RaisesEarlier(h: Handlers, entries: seq<Entry>, w: Held)
    requires entries != []
    ensures var n, next := |entries| - 1, Next(h, entries[|entries| - 1], w);
            && (RaisesInTurn(h, entries, n, w) <==> Runs(entries[n], w.result) && h(entries[n], w).result.Raised?)
            && (forall k: nat | k < n :: RaisesInTurn(h, entries, k, w) <==> RaisesInTurn(h, entries[..n], k, next))
            && forall k: nat | k < n ::
                 h(entries[k], LeftTo(h, entries, k, w)) == h(entries[..n][k], LeftTo(h, entries[..n], k, next))
  {
    hide LeftTo;
    LeftToAllEarlier(h, entries, w);
  }

  /** Without error handlers, what `Always` and success entries return is ignored, machine errors too, and the result is
      the runtime error of the earliest registered entry that raises one, or what it was. */
  lemma {:induction false} LastRaiseDecides(h: Handlers, entries: seq<Entry>, w: Held)
    requires forall e | e in entries :: !e.mode.OnError?
    ensures var k := LastRaise(h, entries, w, 0);
            Executed(h, entries, w).result
            == if k == |entries| then w.result else h(entries[k], LeftTo(h, entries, k, w)).result
    decreases |entries|
  {
    hide LeftTo; hide RaisesInTurn;
    if entries != [] {
      var n := |entries| - 1;
      var next := Next(h, entries[n], w);
      RaisesEarlier(h, entries, w);
      LeftToEarlier(h, entries, n, w);
      assert entries[n] in entries && forall e | e in entries[..n] :: e in entries;
      LastRaiseDecides(h, entries[..n], next);
      var k, k1 := LastRaise(h, entries, w, 0), LastRaise(h, entries[..n], next, 0);
      assert if k1 < n then k == k1 else k >= n;
    }
  }

  /** So it stands exactly when no entry raises, or the last to raise gives the very error the scope had. */
  lemma ResultStandsIff(h: Handlers, entries: seq<Entry>, w: Held)
    requires forall e | e in entries :: !e.mode.OnError?
    ensures Executed(h, entries, w).result == w.result
            <==> forall k: nat | k < |entries| && RaisesInTurn(h, entries, k, w) ::
                   (exists j: nat :: j < k && RaisesInTurn(h, entries, j, w))
                   || h(entries[k], LeftTo(h, entries, k, w)).result == w.result
  {
    hide RaisesInTurn; hide LeftTo; hide Executed;
    LastRaiseDecides(h, entries, w);
    var k := LastRaise(h, entries, w, 0);
    if k < |entries| {
      assert RaisesInTurn(h, entries, k, w);
    }
  }

  /** A machine error returned by a success entry: the scope yields its value as if nothing had gone wrong. */
  lemma MachineErrorIsIgnored(h: Handlers, v: Value, causes: Causes, message: string)
    requires h(Entry(0, OnSuccess, ""), Held(Plain(v), causes)).result == Problem(message)
    ensures Executed(h, [Entry(0, OnSuccess, "")], Held(Plain(v), causes)).result == Plain(v)
  {
    var es, w := [Entry(0, OnSuccess, "")], Held(Plain(v), causes);
    LeftToEarlier(h, es, 0, w);
    LastRaiseDecides(h, es, w);
  }

  /** A call goes on with a tail `recur` of its own: it never ends in its signal. */
  ghost predicate NoSignals(h: Handlers) {
    forall e, w :: !h(e, w).result.Recur?
  }

  /** A tail `recur` closes the scope it leaves exactly when that is the function's outermost, or none of the entries
      that run raises. */
  lemma RecurClosesIff(h: Handlers, scopes: seq<seq<Entry>>, causes: Causes, outermost: bool)
    requires scopes != [] && NoSignals(h)
    ensures var w, entries := Held(Recur, causes), scopes[|scopes| - 1];
            AfterRecur(h, scopes, w, outermost).result.Recur?
            <==> outermost || forall k: nat | k < |entries| :: !RaisesInTurn(h, entries, k, w)
  {
    hide RaisesInTurn; hide Executed;
    if !outermost {
      SignalStandsIff(h, scopes[|scopes| - 1], Held(Recur, causes));
    }
  }

  lemma {:induction false} SignalIsGone(h: Handlers, entries: seq<Entry>, w: Held)
    requires NoSignals(h) && !w.result.Recur?
    ensures !Executed(h, entries, w).result.Recur?
    decreases |entries|
  {
    if entries != [] {
      var n := |entries| - 1;
      assert !h(entries[n], w).result.Recur?;
      SignalIsGone(h, entries[..n], Next(h, entries[n], w));
    }
  }

  lemma {:induction false} SignalStandsIff(h: Handlers, entries: seq<Entry>, w: Held)
    requires NoSignals(h) && w.result.Recur?
    ensures Executed(h, entries, w).result.Recur?
            <==> forall k: nat | k < |entries| :: !RaisesInTurn(h, entries, k, w)
    decreases |entries|
  {
    hide LeftTo; hide RaisesInTurn;
    if entries != [] {
      var n := |entries| - 1;
      var next := Next(h, entries[n], w);
      RaisesEarlier(h, entries, w);
      if RaisesInTurn(h, entries, n, w) {
        SignalIsGone(h, entries[..n], next);
      } else {
        SignalStandsIff(h, entries[..n], next);
      }
    }
  }
}
