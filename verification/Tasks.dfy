/** What a task or a function ends with, and the handle that publishes a task's result once. */
module Tasks {
  import opened Values

  /** What was thrown, or the notice a cancelled task ends with. */
  datatype Payload = Payload(v: Value) | Cancelled(reason: string)

  /** A runtime error is an object: `id` tells it from others with the same payload. Which error caused it is recorded
      apart, since that is set in place. */
  datatype RuntimeError = RuntimeError(id: nat, payload: Payload)

  /** A result: a value, a value wrapped by an explicit return, the signal of a tail `recur`, a machine error, or a
      runtime error. */
  datatype Outcome =
    | Plain(v: Value)
    | Wrapped(v: Value)
    | Recur
    | Problem(message: string)
    | Raised(err: RuntimeError)

  predicate IsError(r: Outcome) { r.Problem? || r.Raised? }

  /** The error a task is cancelled with: each cancellation makes one. */
  function Notice(t: nat, reason: string): Outcome {
    Raised(RuntimeError(t, Cancelled(reason)))
  }

  const FAIL_FAST := "sibling cancelled due to fail-fast"

  /** An error is a machine error or a runtime error, and nothing else. */
  lemma ErrorIff(r: Outcome, v: Value, message: string, err: RuntimeError)
    ensures IsError(Problem(message)) && IsError(Raised(err))
    ensures !IsError(Plain(v)) && !IsError(Wrapped(v)) && !IsError(Recur)
  {}

  /** The content of a handle after one more attempt to settle it. */
  function Settle(h: Option<Outcome>, r: Outcome): Option<Outcome> {
    if h.Some? then h else Some(r)
  }

  class TaskHandle {
    var closed: bool
    var result: Option<Outcome>

    ghost predicate Valid()
      reads this
    {
      closed <==> result.Some?
    }

    constructor ()
      ensures Valid() && !closed
    {
      closed, result := false, None;
    }

    /** Only the first result counts. */
    method Complete(r: Outcome)
      requires Valid()
      modifies this
      ensures Valid() && closed && result == Settle(old(result), r)
      ensures result == if old(result).Some? then old(result) else Some(r)
    {
      if closed { return; }
      result, closed := Some(r), true;
    }

    /** `id` tells the error made here from every other. */
    method Cancel(id: nat, reason: string)
      requires Valid()
      modifies this
      ensures Valid() && closed && result == Settle(old(result), Notice(id, reason))
      ensures result == if old(result).Some? then old(result) else Some(Raised(RuntimeError(id, Cancelled(reason))))
    {
      Complete(Notice(id, reason));
    }
  }
}
