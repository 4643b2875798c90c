/** Scopes as the program keeps them: linked objects whose binding tables are updated in place. */
module Scopes {
  import opened Values
  import opened Environments

  class Environment {
    var bindings: Table
    const outer: Environment?
    /** This scope and those around it, outwards. */
    ghost const chain: seq<Environment>

    ghost predicate Valid() {
      chain != [] && chain[0] == this && forall i | 0 <= i < |chain| :: Linked(chain, i)
    }

    /** The environment this object stands for. */
    ghost function Abs(): Env
      requires Valid()
      reads chain
    {
      Tables(chain)
    }

    constructor Root()
      ensures Valid() && chain == [this] && Abs() == Env.Root(map[])
    {
      bindings, outer := map[], null;
      chain := [this];
    }

    constructor Enclosed(around: Environment)
      requires around.Valid()
      ensures Valid() && outer == around && chain == [this] + around.chain
      ensures Abs() == Environments.Enclosed(around.Abs())
    {
      bindings, outer := map[], around;
      chain := [this] + around.chain;
      new;
      assert chain[1..] == around.chain && chain[0..] == chain;
      forall i | 0 <= i < |chain| ensures Linked(chain, i) {
        if i > 0 {
          assert Linked(around.chain, i - 1);
          assert chain[i] == around.chain[i - 1] && chain[i..] == around.chain[i - 1..];
        }
      }
    }

    /** The scope around this one owns the rest of the chain, which does not contain this scope. */
    lemma OuterIsRest()
      requires Valid()
      ensures outer != null <==> |chain| > 1
      ensures outer != null ==> outer.Valid() && outer.chain == chain[1..] && this !in outer.chain
    {
      assert Linked(chain, 0) && chain[0..] == chain;
      if |chain| > 1 {
        var rest := chain[1..];
        assert Linked(chain, 1) && rest[0] == outer && outer.chain == rest;
        forall i | 0 <= i < |rest| ensures Linked(rest, i) && rest[i] != this {
          assert Linked(chain, i + 1);
          assert rest[i] == chain[i + 1] && rest[i..] == chain[i + 1..];
        }
      }
    }

    method GetBinding(name: string) returns (b: Option<Binding>)
      requires Valid()
      ensures b == Lookup(Abs(), name)
      decreases |chain|
    {
      OuterIsRest();
      if name in bindings {
        b := Some(bindings[name]);
      } else if outer == null {
        b := None;
      } else {
        b := outer.GetBinding(name);
      }
    }

    /** A declaration changes this scope only, and only when it succeeds. */
    method Define(name: string, v: Value, asConst: bool) returns (error: Option<Failure>)
      requires Valid()
      modifies this
      ensures Does(error, Environments.Define(old(Abs()), name, v, asConst), old(Abs()), Abs())
    {
      OuterIsRest();
      if name in bindings && !bindings[name].mutable {
        return Some(AlreadyDefined(name, asConst));
      }
      var mutable := if name in bindings then bindings[name].mutable else !asConst;
      bindings := bindings[name := Binding(v, mutable)];
      error := None;
    }

    /** An assignment changes the nearest scope that has the name. */
    method Assign(name: string, v: Value) returns (error: Option<Failure>)
      requires Valid()
      modifies chain
      ensures Does(error, AssignTo(old(Abs()), name, v), old(Abs()), Abs())
      decreases |chain|
    {
      OuterIsRest();
      if name in bindings {
        if !bindings[name].mutable {
          return Some(AssignToVal(name));
        }
        bindings := bindings[name := bindings[name].(value := v)];
        error := None;
      } else if outer == null {
        error := Some(AssignUndefined(name));
      } else {
        error := outer.Assign(name, v);
      }
    }
  }

  ghost predicate Linked(chain: seq<Environment>, i: nat)
    requires i < |chain|
  {
    && chain[i].chain == chain[i..]
    && (if i + 1 < |chain| then chain[i].outer == chain[i + 1] else chain[i].outer == null)
  }

  /** The error, if any, and the new environment are those of the result `r`. */
  predicate Does(error: Option<Failure>, r: EnvResult, before: Env, after: Env) {
    match r
    case Updated(env) => error == None && after == env
    case Rejected(f) => error == Some(f) && after == before
  }

  ghost function Tables(chain: seq<Environment>): Env
    requires chain != []
    reads chain
  {
    if |chain| == 1 then Env.Root(chain[0].bindings) else Scope(chain[0].bindings, Tables(chain[1..]))
  }
}
