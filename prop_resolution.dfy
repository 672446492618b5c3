/**
 * Response.ResolvePropertyInstances (InertiaCore/Response.cs:146-167): every key is camel-cased,
 * delegates, tasks and prop wrappers are replaced by their results, and a result that is a
 * dictionary is resolved the same way. `ToDictionary` throws when two keys camel-case alike.
 *
 * `Calls` is the invocation log: the ids of the delegates a resolution runs.
 */
module PropResolution {
  import opened Wrappers
  import opened Platform
  import opened Props

  /**
   * The value switch, with the wrapper kinds invoked through their own `Invoke()`.
   * A `Func<Task<object?>>` is also a `Func<object?>`, and its task is awaited.
   */
  function Dispatch(v: Value): (r: Value)
    ensures v.IsDelegate() ==> r == v.fn.result
    ensures v.TaskOf? ==> r == v.awaited
    ensures v.Prop? ==> r == v.prop.Invoke()
    ensures !v.IsDelegate() && !v.TaskOf? && !v.Prop? ==> r == v
  {
    match v
    case SyncFn(f) => f.result
    case AsyncFn(f) => f.result
    case TaskOf(t) => t
    case Prop(p) => p.Invoke()
    case _ => v
  }

  /**
   * The value switch as written: only InvokableProp subclasses are invoked, so an AlwaysProp or
   * an OptionalProp, which do not derive from InvokableProp, falls to the default arm unchanged.
   */
  function DispatchAsWritten(v: Value): (r: Value)
    ensures v.Prop? && !v.prop.IsInvokable() ==> r == v
    ensures !(v.Prop? && !v.prop.IsInvokable()) ==> r == Dispatch(v)
  {
    match v
    case SyncFn(f) => f.result
    case AsyncFn(f) => f.result
    case TaskOf(t) => t
    case Prop(p) => if p.IsInvokable() then InvokeInvokable(p.inner) else v
    case _ => v
  }

  /** Resolves one value: dispatch, then resolve a dictionary result. */
  function ResolveValue(lib: Library, v: Value): (r: Result<Value, Exception>)
    ensures v.IsDelegate() && !v.fn.result.Dict? ==> r == Success(v.fn.result)
    ensures v.TaskOf? && !v.awaited.Dict? ==> r == Success(v.awaited)
    ensures v.Prop? && !v.prop.Invoke().Dict? ==> r == Success(v.prop.Invoke())
    ensures !v.IsDelegate() && !v.TaskOf? && !v.Prop? && !v.Dict? ==> r == Success(v)
    ensures r.Success? && Dispatch(v).Dict? ==> r.value.Dict? && r.value.entries.Keys == CamelImage(lib, Dispatch(v).entries.Keys)
    decreases v, 1
  {
    var d := Dispatch(v);
    if d.Dict? then
      match ResolvePropertyInstances(lib, d.entries)
      case Success(m) => Success(Dict(m))
      case Failure(e) => Failure(e)
    else Success(d)
  }

  /** ResolvePropertyInstances over one dictionary. */
  function ResolvePropertyInstances(lib: Library, props: map<string, Value>): (r: Result<map<string, Value>, Exception>)
    ensures r.Success? <==> CamelInjective(lib, props.Keys) && forall k :: k in props ==> ResolveValue(lib, props[k]).Success?
    ensures r.Success? ==> r.value.Keys == CamelImage(lib, props.Keys)
    ensures r.Success? ==> forall k :: k in props ==> r.value[lib.camelCase(k)] == ResolveValue(lib, props[k]).value
    decreases Dict(props), 0
  {
    if exists k :: k in props && ResolveValue(lib, props[k]).Failure? then Failure(DuplicateKey)
    else if !CamelInjective(lib, props.Keys) then Failure(DuplicateKey)
    else Success(map k | k in props :: lib.camelCase(k) := ResolveValue(lib, props[k]).value)
  }

  /**
   * A dictionary result is resolved in turn: each of its values is resolved, at any depth, and
   * sent under its camel-cased key.
   */
  lemma ResolveValueNested(lib: Library, v: Value)
    requires ResolveValue(lib, v).Success? && Dispatch(v).Dict?
    ensures ResolveValue(lib, v).value.Dict?
    ensures forall k :: k in Dispatch(v).entries ==>
      && ResolveValue(lib, Dispatch(v).entries[k]).Success?
      && ResolveValue(lib, v).value.entries[lib.camelCase(k)] == ResolveValue(lib, Dispatch(v).entries[k]).value
  {
    var d := Dispatch(v);
    assert ResolveValue(lib, v).value == Dict(ResolvePropertyInstances(lib, d.entries).value);
  }

  /**
   * Every dictionary resolution reaches, through dispatch and nested dictionaries, has keys that
   * camel-case to distinct names.
   */
  predicate WellNamed(lib: Library, v: Value)
    decreases v, 1
  {
    var d := Dispatch(v);
    d.Dict? ==> WellNamedMap(lib, d.entries)
  }

  /** The dictionary's own keys camel-case to distinct names, and so do those reached from each value. */
  predicate WellNamedMap(lib: Library, props: map<string, Value>)
    decreases Dict(props), 0
  {
    CamelInjective(lib, props.Keys) && forall k :: k in props ==> WellNamed(lib, props[k])
  }

  /** Resolution throws exactly when some dictionary it reaches has two keys that camel-case alike. */
  lemma {:induction false} ResolveValueSucceeds(lib: Library, v: Value)
    ensures ResolveValue(lib, v).Success? <==> WellNamed(lib, v)
    decreases v, 1
  {
    var d := Dispatch(v);
    if d.Dict? {
      ResolvePropertyInstancesSucceeds(lib, d.entries);
    }
  }

  lemma {:induction false} ResolvePropertyInstancesSucceeds(lib: Library, props: map<string, Value>)
    ensures ResolvePropertyInstances(lib, props).Success? <==> WellNamedMap(lib, props)
    decreases Dict(props), 0
  {
    forall k | k in props
      ensures ResolveValue(lib, props[k]).Success? <==> WellNamed(lib, props[k])
    {
      ResolveValueSucceeds(lib, props[k]);
    }
  }

  /** Two keys that camel-case to the same name make resolution throw. */
  lemma CollidingKeysFail(lib: Library, props: map<string, Value>, a: string, b: string)
    requires a in props && b in props && a != b && lib.camelCase(a) == lib.camelCase(b)
    ensures ResolvePropertyInstances(lib, props).Failure?
  {
  }

  /** The delegates the dispatch step itself runs. */
  ghost function DispatchCalls(v: Value): set<nat> {
    match v
    case SyncFn(f) => {f.id}
    case AsyncFn(f) => {f.id}
    case Prop(p) => if p.inner.IsDelegate() then {p.inner.fn.id} else {}
    case _ => {}
  }

  /** The delegates resolving `v` runs, nested dictionaries included. */
  ghost function Calls(v: Value): set<nat>
    decreases v, 1
  {
    var d := Dispatch(v);
    DispatchCalls(v) + (if d.Dict? then CallsOfMap(d.entries) else {})
  }

  /** The delegates resolving a dictionary runs: those of each of its values. */
  ghost function CallsOfMap(props: map<string, Value>): set<nat>
    decreases Dict(props), 0
  {
    set k, id | k in props && id in Calls(props[k]) :: id
  }
}
