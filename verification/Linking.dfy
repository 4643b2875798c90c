/** Errors replaced by errors while a scope is left: whether the first one can still be found in the chain of causes of
    the last. */
module Linking {
  import opened Values
  import opened Tasks
  import opened Chains
  import opened Defers

  /** The scope fails with an error whose chain of causes contains `first`. */
  ghost predicate Holds(w: Held, first: RuntimeError) {
    w.result.Raised? && Linked(w.causes, w.result.err, first)
  }

  /** An entry that has run and given `r` leaves `first` in the chain: an error it raises is `first`, or the chain of
      the error it replaces comes to `first` before it comes to the new one; if it raises none, the links still hold and
      it is no error handler. */
  ghost predicate Preserves(e: Entry, w: Held, r: Held, first: RuntimeError)
    requires w.result.Raised?
  {
    if r.result.Raised? then r.result.err == first || LinkedWithout(r.causes, w.result.err, first, r.result.err)
    else !e.mode.OnError? && Linked(r.causes, w.result.err, first)
  }

  /** What an entry leaves in the chain when the scope failed with a runtime error before, exactly. */
  lemma PreservesIff(e: Entry, w: Held, r: Held, first: RuntimeError)
    requires w.result.Raised? && Runs(e, w.result)
    ensures Holds(After(e, w, r), first) <==> Preserves(e, w, r, first)
  {
    if r.result.Raised? {
      CauseReplaced(r.causes, r.result.err, w.result.err, first);
    }
  }

  /** An error without a cause of its own, as each `throw` makes one, always takes over the chain. */
  lemma ThrownTakesOver(e: Entry, w: Held, r: Held, first: RuntimeError)
    requires w.result.Raised? && r.result.Raised? && r.result.err !in r.causes
    requires Linked(r.causes, w.result.err, first)
    ensures Preserves(e, w, r, first)
  {
    NotOnTheWay(r.causes, w.result.err, first, r.result.err);
  }

  /** The chain is circular afterwards exactly when the error raised was in the chain of the one it replaces. */
  lemma CircleIffRaisedAgain(e: Entry, w: Held, r: Held)
    requires w.result.Raised? && r.result.Raised? && Acyclic(r.causes)
    ensures Acyclic(After(e, w, r).causes) <==> !Linked(r.causes, w.result.err, r.result.err)
  {
    CircleIff(r.causes, r.result.err, w.result.err);
  }

  // ----- over the entries of a scope -----

  /** Every entry that runs leaves `first` in the chain in its turn. */
  ghost predicate AllPreserve(h: Handlers, entries: seq<Entry>, w: Held, first: RuntimeError) {
    forall k: nat | k < |entries| :: PreservesInTurn(h, entries, k, w, first)
  }

  ghost predicate PreservesInTurn(h: Handlers, entries: seq<Entry>, k: nat, w: Held, first: RuntimeError)
    requires k < |entries|
  {
    var left := LeftTo(h, entries, k, w);
    Runs(entries[k], left.result) ==>
      left.result.Raised? && Preserves(entries[k], left, h(entries[k], left), first)
  }

  lemma AllPreserveLast(h: Handlers, entries: seq<Entry>, w: Held, first: RuntimeError)
    requires entries != []
    ensures var n := |entries| - 1;
            AllPreserve(h, entries, w, first)
            <==> (Runs(entries[n], w.result)
                  ==> w.result.Raised? && Preserves(entries[n], w, h(entries[n], w), first))
                 && AllPreserve(h, entries[..n], Next(h, entries[n], w), first)
  {
    hide LeftTo; hide Next; hide Preserves; hide Runs;
    var n := |entries| - 1;
    LeftToAllEarlier(h, entries, w);
    forall k: nat | k < n
      ensures PreservesInTurn(h, entries, k, w, first)
              <==> PreservesInTurn(h, entries[..n], k, Next(h, entries[n], w), first) {}
    assert PreservesInTurn(h, entries, n, w, first)
           <==> (Runs(entries[n], w.result)
                 ==> w.result.Raised? && Preserves(entries[n], w, h(entries[n], w), first));
  }

  /** As long as each entry preserves it in its turn, the first error is in the chain of the last. */
  lemma {:induction false} ErrorsStayLinked(h: Handlers, entries: seq<Entry>, w: Held, first: RuntimeError)
    requires Holds(w, first) && AllPreserve(h, entries, w, first)
    ensures Holds(Executed(h, entries, w), first)
    decreases |entries|
  {
    if entries != [] {
      hide AllPreserve; hide Preserves; hide Linked;
      var n := |entries| - 1;
      AllPreserveLast(h, entries, w, first);
      if Runs(entries[n], w.result) {
        PreservesIff(entries[n], w, h(entries[n], w), first);
      }
      ErrorsStayLinked(h, entries[..n], Next(h, entries[n], w), first);
    }
  }

  /** Where the first error has been lost, no entry brings it back in its turn. */
  ghost predicate NoneReturns(h: Handlers, entries: seq<Entry>, w: Held, first: RuntimeError) {
    forall k: nat | k < |entries| :: StaysLostInTurn(h, entries, k, w, first)
  }

  ghost predicate StaysLostInTurn(h: Handlers, entries: seq<Entry>, k: nat, w: Held, first: RuntimeError)
    requires k < |entries|
  {
    var left := LeftTo(h, entries, k, w);
    !Holds(left, first) ==> !Holds(Next(h, entries[k], left), first)
  }

  lemma NoneReturnsLast(h: Handlers, entries: seq<Entry>, w: Held, first: RuntimeError)
    requires entries != [] && NoneReturns(h, entries, w, first)
    ensures var n := |entries| - 1;
            && (!Holds(w, first) ==> !Holds(Next(h, entries[n], w), first))
            && NoneReturns(h, entries[..n], Next(h, entries[n], w), first)
  {
    hide LeftTo; hide Next; hide Holds;
    var n := |entries| - 1;
    LeftToAllEarlier(h, entries, w);
    forall k: nat | k < n
      ensures StaysLostInTurn(h, entries[..n], k, Next(h, entries[n], w), first)
    {
      assert StaysLostInTurn(h, entries, k, w, first);
    }
    assert StaysLostInTurn(h, entries, n, w, first);
  }

  lemma {:induction false} StaysLost(h: Handlers, entries: seq<Entry>, w: Held, first: RuntimeError)
    requires !Holds(w, first) && NoneReturns(h, entries, w, first)
    ensures !Holds(Executed(h, entries, w), first)
    decreases |entries|
  {
    if entries != [] {
      hide Holds; hide Next; hide NoneReturns;
      var n := |entries| - 1;
      NoneReturnsLast(h, entries, w, first);
      StaysLost(h, entries[..n], Next(h, entries[n], w), first);
    }
  }

  /** And only then, for an error that no entry brings back. */
  lemma {:induction false} ErrorsStayLinkedIff(h: Handlers, entries: seq<Entry>, w: Held, first: RuntimeError)
    requires Holds(w, first) && NoneReturns(h, entries, w, first)
    ensures Holds(Executed(h, entries, w), first) <==> AllPreserve(h, entries, w, first)
    decreases |entries|
  {
    if entries != [] {
      hide AllPreserve; hide Preserves; hide Linked; hide NoneReturns;
      var n := |entries| - 1;
      AllPreserveLast(h, entries, w, first);
      NoneReturnsLast(h, entries, w, first);
      if Runs(entries[n], w.result) {
        PreservesIff(entries[n], w, h(entries[n], w), first);
      }
      if Holds(Next(h, entries[n], w), first) {
        ErrorsStayLinkedIff(h, entries[..n], Next(h, entries[n], w), first);
      } else {
        StaysLost(h, entries[..n], Next(h, entries[n], w), first);
      }
    }
  }

  /** An entry that sets no causes brings back no error unless it raises one that is or was linked to it. */
  lemma ReturnsOnlyIf(e: Entry, w: Held, r: Held, first: RuntimeError)
    requires !Holds(w, first) && Runs(e, w.result) && r.causes == w.causes
    ensures Holds(After(e, w, r), first)
            ==> r.result.Raised?
                && (r.result.err == first || (!w.result.Raised? && Linked(w.causes, r.result.err, first)))
  {
    if r.result.Raised? && w.result.Raised? {
      CauseReplaced(r.causes, r.result.err, w.result.err, first);
    }
  }

  /** When every entry only adds causes, error handlers raise, and each error raised has no cause yet, no error is lost,
      whatever else goes wrong. */
  ghost predicate ThrowsAnew(h: Handlers, entries: seq<Entry>) {
    forall e: Entry, w: Held | e in entries && Runs(e, w.result) ::
      var r := h(e, w);
      && (forall x | x in w.causes :: x in r.causes && r.causes[x] == w.causes[x])
      && (e.mode.OnError? ==> r.result.Raised?) && (r.result.Raised? ==> r.result.err !in r.causes)
  }

  lemma {:induction false} ThrownAnewStaysLinked(h: Handlers, entries: seq<Entry>, w: Held, first: RuntimeError)
    requires Holds(w, first) && ThrowsAnew(h, entries)
    ensures Holds(Executed(h, entries, w), first)
    decreases |entries|
  {
    if entries != [] {
      var n := |entries| - 1;
      var e, r := entries[n], h(entries[n], w);
      assert e in entries && forall x | x in entries[..n] :: x in entries;
      if Runs(e, w.result) {
        var m: nat :| Follow(w.causes, w.result.err, m) == Some(first);
        MoreCauses(w.causes, r.causes, w.result.err, m);
        assert Linked(r.causes, w.result.err, first);
        if r.result.Raised? {
          ThrownTakesOver(e, w, r, first);
        }
        PreservesIff(e, w, r, first);
      }
      ThrownAnewStaysLinked(h, entries[..n], Next(h, e, w), first);
    }
  }

  // ----- inputs that lose the first error -----

  /** Every entry gives the same error object. */
  function Same(r: RuntimeError): Handlers {
    (e: Entry, w: Held) => Held(Raised(r), w.causes)
  }

  const TWICE := [Entry(0, Always, ""), Entry(1, Always, "")]

  /** Two entries that give the same error object, as `defer r; defer r` with an error for `r`: that error becomes its
      own cause, the one that was thrown is in no chain, and what walks down the chain never ends. */
  lemma SameErrorTwice(first: RuntimeError, r: RuntimeError, causes: Causes)
    requires r != first
    ensures var w := Executed(Same(r), TWICE, Held(Raised(first), causes));
            && w.result == Raised(r) && r in w.causes && w.causes[r] == r
            && !Holds(w, first) && !Acyclic(w.causes)
  {
    var w0, h := Held(Raised(first), causes), Same(r);
    var w1 := Next(h, TWICE[1], w0);
    var w2 := Next(h, TWICE[0], w1);
    assert TWICE[..1] == [TWICE[0]] && TWICE[..1][..0] == [];
    assert Executed(h, TWICE, w0) == Executed(h, TWICE[..1], w1) == Executed(h, [], w2) == w2;
    assert w2.causes[r] == r && Follow(w2.causes, r, 1) == Some(r);
    if Holds(w2, first) {
      var n: nat :| Follow(w2.causes, r, n) == Some(first);
      OwnCause(w2.causes, r, n);
    }
  }

  lemma {:induction false} OwnCause(c: Causes, r: RuntimeError, n: nat)
    requires r in c && c[r] == r
    ensures Follow(c, r, n) == Some(r)
    decreases n
  {
    if n > 0 {
      OwnCause(c, r, n - 1);
    }
  }

  /** `Always` entries give `r`, an error handler recovers with `v`. */
  function SameOrRecover(r: RuntimeError, v: Value): Handlers {
    (e: Entry, w: Held) => Held(if e.mode.OnError? then Plain(v) else Raised(r), w.causes)
  }

  const RECOVERED := [Entry(0, Always, ""), Entry(1, OnError, ""), Entry(2, Always, "")]

  /** A lost error can come back: `r` replaces `first`, a handler recovers, and `r` is given once more, still linked. */
  lemma LostErrorReturns(first: RuntimeError, r: RuntimeError, v: Value, causes: Causes)
    requires r != first
    ensures var h, w0 := SameOrRecover(r, v), Held(Raised(first), causes);
            && Holds(Executed(h, RECOVERED, w0), first) && !AllPreserve(h, RECOVERED, w0, first)
  {
    var w0, h := Held(Raised(first), causes), SameOrRecover(r, v);
    var w1 := Next(h, RECOVERED[2], w0);
    var w2 := Next(h, RECOVERED[1], w1);
    var w3 := Next(h, RECOVERED[0], w2);
    assert w1 == Held(Raised(r), causes[r := first]) && w2 == Held(Plain(v), w1.causes) && w3 == w1;
    var two := RECOVERED[..2];
    assert two[..1] == [RECOVERED[0]] && two[..1][..0] == [] && two[1] == RECOVERED[1];
    assert Executed(h, RECOVERED, w0) == Executed(h, two, w1) == Executed(h, two[..1], w2) == Executed(h, [], w3);
    assert Follow(w3.causes, r, 1) == Some(first);
    LeftToEarlier(h, RECOVERED, 1, w0);
    LeftToEarlier(h, two, 1, w1);
    assert !PreservesInTurn(h, RECOVERED, 1, w0, first);
  }

  // ----- over all the scopes of a call -----

  /** The same over all the scopes a call leaves, with what waiting for their tasks makes of the result. */
  ghost predicate AllScopesPreserve(h: Handlers, join: Joins, scopes: seq<seq<Entry>>, tasks: nat, borrowed: nat,
                                    w: Held, first: RuntimeError)
    requires tasks >= borrowed
    decreases |scopes|
  {
    scopes == [] ||
    var n, c := |scopes| - 1, Waited(join, tasks, borrowed, w);
    var tasks1 := if tasks > borrowed then tasks - 1 else tasks;
    AllPreserve(h, scopes[n], c, first)
    && AllScopesPreserve(h, join, scopes[..n], tasks1, borrowed, Executed(h, scopes[n], c), first)
  }

  /** Waiting for tasks does not replace an error. */
  ghost predicate KeepsErrors(join: Joins) {
    forall d, w: Held | IsError(w.result) :: join(d, w) == w
  }

  lemma WaitedKeeps(join: Joins, tasks: nat, borrowed: nat, w: Held)
    requires KeepsErrors(join) && w.result.Raised?
    ensures Waited(join, tasks, borrowed, w) == w
  {}

  /** Over a whole unwinding, tasks joined in between. */
  lemma {:induction false} UnwoundStaysLinked(h: Handlers, join: Joins, scopes: seq<seq<Entry>>, tasks: nat,
                                              borrowed: nat, w: Held, first: RuntimeError)
    requires tasks >= borrowed && KeepsErrors(join)
    requires Holds(w, first) && AllScopesPreserve(h, join, scopes, tasks, borrowed, w, first)
    ensures Holds(Unwound(h, join, scopes, tasks, borrowed, w), first)
    decreases |scopes| + tasks
  {
    hide Executed; hide AllPreserve; hide KeepsErrors;
    var n := |scopes| - 1;
    var tasks1 := if tasks > borrowed then tasks - 1 else tasks;
    WaitedKeeps(join, tasks, borrowed, w);
    if scopes != [] {
      ErrorsStayLinked(h, scopes[n], w, first);
      UnwoundStaysLinked(h, join, scopes[..n], tasks1, borrowed, Executed(h, scopes[n], w), first);
    } else if tasks > borrowed {
      UnwoundStaysLinked(h, join, scopes, tasks1, borrowed, w, first);
    }
  }

  /** Where the first error has been lost, neither a task that failed nor an entry brings it back. */
  ghost predicate NothingReturns(h: Handlers, join: Joins, scopes: seq<seq<Entry>>, tasks: nat, borrowed: nat, w: Held,
                                 first: RuntimeError)
    requires tasks >= borrowed
    decreases |scopes| + tasks
  {
    (scopes == [] && tasks == borrowed) ||
    var n, c := |scopes| - 1, Waited(join, tasks, borrowed, w);
    var tasks1 := if tasks > borrowed then tasks - 1 else tasks;
    && (!Holds(w, first) ==> !Holds(c, first))
    && (if scopes == [] then NothingReturns(h, join, scopes, tasks1, borrowed, c, first)
        else NoneReturns(h, scopes[n], c, first)
             && NothingReturns(h, join, scopes[..n], tasks1, borrowed, Executed(h, scopes[n], c), first))
  }

  /** Over a whole unwinding too, for an error that neither an entry nor a task brings back. */
  lemma {:induction false} UnwoundStaysLinkedIff(h: Handlers, join: Joins, scopes: seq<seq<Entry>>, tasks: nat,
                                                 borrowed: nat, w: Held, first: RuntimeError)
    requires tasks >= borrowed && KeepsErrors(join)
    requires Holds(w, first) && NothingReturns(h, join, scopes, tasks, borrowed, w, first)
    ensures Holds(Unwound(h, join, scopes, tasks, borrowed, w), first)
            <==> AllScopesPreserve(h, join, scopes, tasks, borrowed, w, first)
    decreases |scopes| + tasks
  {
    hide Executed; hide AllPreserve; hide KeepsErrors; hide NoneReturns;
    var n := |scopes| - 1;
    var tasks1 := if tasks > borrowed then tasks - 1 else tasks;
    WaitedKeeps(join, tasks, borrowed, w);
    if scopes != [] {
      var next := Executed(h, scopes[n], w);
      ErrorsStayLinkedIff(h, scopes[n], w, first);
      if Holds(next, first) {
        UnwoundStaysLinkedIff(h, join, scopes[..n], tasks1, borrowed, next, first);
      } else {
        StaysLostUnwound(h, join, scopes[..n], tasks1, borrowed, next, first);
      }
    } else if tasks > borrowed {
      UnwoundStaysLinkedIff(h, join, scopes, tasks1, borrowed, w, first);
    }
  }

  lemma {:induction false} StaysLostUnwound(h: Handlers, join: Joins, scopes: seq<seq<Entry>>, tasks: nat,
                                            borrowed: nat, w: Held, first: RuntimeError)
    requires tasks >= borrowed
    requires !Holds(w, first) && NothingReturns(h, join, scopes, tasks, borrowed, w, first)
    ensures !Holds(Unwound(h, join, scopes, tasks, borrowed, w), first)
    decreases |scopes| + tasks
  {
    hide Executed; hide Holds; hide NoneReturns;
    var n, c := |scopes| - 1, Waited(join, tasks, borrowed, w);
    var tasks1 := if tasks > borrowed then tasks - 1 else tasks;
    if scopes != [] {
      StaysLost(h, scopes[n], c, first);
      StaysLostUnwound(h, join, scopes[..n], tasks1, borrowed, Executed(h, scopes[n], c), first);
    } else if tasks > borrowed {
      StaysLostUnwound(h, join, scopes, tasks1, borrowed, c, first);
    }
  }
}
