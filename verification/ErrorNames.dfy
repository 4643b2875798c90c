/** The name a deferred function gives to the error: it is bound where the error was met, and looked up where the
    function was registered. */
module ErrorNames {
  import opened Values
  import opened Tasks
  import opened Environments
  import Defers
  import opened Chains

  /** The scope `d` levels out. */
  function Around(env: Env, d: nat): Env
    requires d <= Depth(env)
  {
    if d == 0 then env else Around(Environments.Leave(env), d - 1)
  }

  /** The error gets its name in the innermost scope open, whatever had that name there; leaving scopes does not take
      them off. */
  function BindError(env: Env, name: string, payload: Value): Env {
    env.(vars := env.vars[name := Binding(payload, false)])
  }

  /** What the name stands for in the body of a function registered `d` levels out: a call of it gets a scope of its own
      within the one it was registered in. */
  function SeenAs(env: Env, d: nat, name: string): Result<Value>
    requires d <= Depth(env)
  {
    Get(Enclosed(Around(env, d)), name)
  }

  /** Binding the error changes no scope further out. */
  lemma BindsInnermost(env: Env, d: nat, name: string, payload: Value)
    requires d <= Depth(env)
    ensures Depth(BindError(env, name, payload)) == Depth(env)
    ensures d > 0 ==> Around(BindError(env, name, payload), d) == Around(env, d)
  {}

  /** The function sees the error under its name exactly when it was registered in the innermost scope open where the
      error was met, or the name stood for that very value before. */
  lemma SeesErrorIff(env: Env, d: nat, name: string, payload: Value)
    requires d <= Depth(env)
    ensures Depth(BindError(env, name, payload)) == Depth(env)
    ensures SeenAs(BindError(env, name, payload), d, name) == Ok(payload)
            <==> d == 0 || SeenAs(env, d, name) == Ok(payload)
    ensures Lookup(BindError(env, name, payload), name) == Some(Binding(payload, false))
  {
    BindsInnermost(env, d, name, payload);
    var env1 := BindError(env, name, payload);
    assert Lookup(env1, name) == Some(Binding(payload, false));
    assert Lookup(Enclosed(Around(env1, d)), name) == Lookup(Around(env1, d), name);
  }

  /** The handler `defer onerror(name) { name }`, registered `d` levels out of where errors are met. */
  function Echo(env: Env, d: nat): Defers.Handlers
    requires d <= Depth(env)
  {
    (e: Defers.Entry, w: Defers.Held) =>
      if w.result.Raised? && w.result.err.payload.Payload? then
        var env1 := BindError(env, e.errorName, w.result.err.payload.v);
        BindsInnermost(env, d, e.errorName, w.result.err.payload.v);
        match SeenAs(env1, d, e.errorName)
        case Ok(v) => Defers.Held(Plain(v), w.causes)
        case Err(_) => Defers.Held(Problem("identifier not found: " + e.errorName), w.causes)
      else w
  }

  /** It recovers with the error's payload exactly when it sees the error: registered further out, for a name not bound
      there, it replaces the error thrown by "identifier not found". */
  lemma EchoRecoversIff(env: Env, d: nat, name: string, id: nat, v: Value, causes: Causes)
    requires d <= Depth(env)
    ensures var e := Defers.Entry(0, Defers.OnError, name);
            var thrown := Defers.Held(Raised(RuntimeError(id, Payload(v))), causes);
            var r := Defers.Executed(Echo(env, d), [e], thrown).result;
            && (r == Plain(v) <==> d == 0 || SeenAs(env, d, name) == Ok(v))
            && (d > 0 && SeenAs(env, d, name).Err? ==> r == Problem("identifier not found: " + name))
  {
    var e, h := Defers.Entry(0, Defers.OnError, name), Echo(env, d);
    var thrown := Defers.Held(Raised(RuntimeError(id, Payload(v))), causes);
    SeesErrorIff(env, d, name, v);
    BindsInnermost(env, d, name, v);
    assert [e][..0] == [];
    assert Defers.Executed(h, [e], thrown) == Defers.Executed(h, [], Defers.Next(h, e, thrown));
  }
}
