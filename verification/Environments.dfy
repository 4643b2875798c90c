/** Lexical scopes: a chain of binding tables, as values and as linked objects. */
module Environments {
  import opened Values

  datatype Binding = Binding(value: Value, mutable: bool)

  type Table = map<string, Binding>

  datatype Env = Root(vars: Table) | Scope(vars: Table, outer: Env)

  function Enclosed(env: Env): Env { Scope(map[], env) }

  /** The environment outside the innermost scope. */
  function Leave(env: Env): Env {
    match env
    case Root(_) => env
    case Scope(_, outer) => outer
  }

  function Depth(env: Env): nat {
    match env
    case Root(_) => 0
    case Scope(_, outer) => 1 + Depth(outer)
  }

  function Lookup(env: Env, x: string): Option<Binding> {
    if x in env.vars then Some(env.vars[x])
    else match env
      case Root(_) => None
      case Scope(_, outer) => Lookup(outer, x)
  }

  function Get(env: Env, x: string): Result<Value> {
    match Lookup(env, x)
    case Some(b) => Ok(b.value)
    case None => Err(IdentifierNotFound(x))
  }

  /** A declaration touches the innermost table only. A `var` already there keeps its mutability even when it is
      declared again with `val`. */
  function DefineIn(vars: Table, x: string, v: Value, mutable: bool): Option<Table> {
    if x in vars && !vars[x].mutable then None
    else Some(vars[x := Binding(v, if x in vars then vars[x].mutable else mutable)])
  }

  datatype EnvResult = Updated(env: Env) | Rejected(failure: Failure)

  function Define(env: Env, x: string, v: Value, asConst: bool): (r: EnvResult)
    ensures r.Updated? ==> Depth(r.env) == Depth(env) && Leave(r.env) == (if env.Root? then r.env else Leave(env))
  {
    match DefineIn(env.vars, x, v, !asConst)
    case None => Rejected(AlreadyDefined(x, asConst))
    case Some(vars) => Updated(env.(vars := vars))
  }

  /** An assignment changes the nearest binding of the name, which must be a `var`. */
  function AssignTo(env: Env, x: string, v: Value): (r: EnvResult)
    ensures r.Updated? ==> Depth(r.env) == Depth(env)
  {
    if x in env.vars then
      if env.vars[x].mutable then Updated(env.(vars := env.vars[x := env.vars[x].(value := v)]))
      else Rejected(AssignToVal(x))
    else match env
      case Root(_) => Rejected(AssignUndefined(x))
      case Scope(vars, outer) =>
        match AssignTo(outer, x, v)
        case Updated(o) => Updated(Scope(vars, o))
        case Rejected(f) => Rejected(f)
  }
}
