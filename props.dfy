/**
 * Prop values and the prop wrapper kinds (InertiaCore/Props, InertiaCore/Utils/Mergeable.cs).
 *
 * A page prop is an `object?` at run time; `Value` names the cases the core tells apart.
 * Delegates are opaque: a `Callback` carries an id (what an invocation log records) and the
 * value invoking it yields, awaited when the delegate is asynchronous.
 */
module Props {

  /** A delegate supplied by the application: invoking it yields `result`. */
  datatype Callback = Callback(id: nat, result: Value)

  datatype Value =
    | Null                               // null
    | Text(text: string)                 // a string
    | Opaque(handle: nat)                // any other object: numbers, records, lists, ...
    | Dict(entries: map<string, Value>)  // Dictionary<string, object?>
    | SyncFn(fn: Callback)               // Func<object?> (also Func<string> by covariance)
    | AsyncFn(fn: Callback)              // Func<Task<object?>>: `fn.result` is the awaited value
    | TaskOf(awaited: Value)             // an already started Task<object?>
    | Prop(prop: PropValue)              // one of the wrapper kinds below
  {
    predicate IsDelegate() { SyncFn? || AsyncFn? }

    /** `value is AlwaysProp` */
    predicate IsAlways() { Prop? && prop.kind.Always? }

    /** Dropped on a first (non-partial) load. */
    predicate IsSuppressedOnFirstLoad() { Prop? && prop.SuppressOnFirstLoad() }
  }

  /** Which wrapper class a prop is; a Defer prop carries its group. */
  datatype PropKind = Always | Lazy | Optional | Defer(group: string) | Merge

  /**
   * One wrapper object: its kind, the wrapped value or delegate, and the `merge` flag of the
   * Mergeable kinds (always false for the others).
   */
  datatype PropValue = PropValue(kind: PropKind, inner: Value, merge: bool) {

    /** The classes deriving from InvokableProp (LazyProp, DeferProp, MergeProp). */
    predicate IsInvokable() { kind.Lazy? || kind.Defer? || kind.Merge? }

    /**
     * The classes that declare IIgnoresFirstLoad: OptionalProp and DeferProp only.
     * LazyProp does not, although the tests expect lazy props to be left out of a first load.
     */
    predicate IgnoresFirstLoadAsWritten() { kind.Optional? || kind.Defer? }

    /** First-load suppression as the tests expect it: Lazy, Optional and Defer props. */
    predicate SuppressOnFirstLoad() { kind.Lazy? || kind.Optional? || kind.Defer? }

    /**
     * The prop's own `Invoke()`: AlwaysProp and OptionalProp run their delegate switch,
     * the InvokableProp kinds run InvokableProp's.
     */
    function Invoke(): (r: Value)
      ensures inner.IsDelegate() ==> r == inner.fn.result
      ensures inner.TaskOf? ==> r == if IsInvokable() then inner.awaited else inner
      ensures !inner.IsDelegate() && !inner.TaskOf? ==> r == inner
    {
      if IsInvokable() then InvokeInvokable(inner) else InvokeDelegate(inner)
    }
  }

  /**
   * InvokableProp.Invoke, awaited. The async case is tested before the sync one, so an async
   * delegate yields its awaited result, never the Task itself.
   */
  function InvokeInvokable(v: Value): (r: Value)
    ensures v.AsyncFn? ==> r == v.fn.result
    ensures v.SyncFn? ==> r == v.fn.result
    ensures v.TaskOf? ==> r == v.awaited
    ensures !v.IsDelegate() && !v.TaskOf? ==> r == v
  {
    match v
    case AsyncFn(f) => f.result
    case SyncFn(f) => f.result
    case TaskOf(t) => t
    case _ => v
  }

  /** AlwaysProp.Invoke and OptionalProp.Invoke: delegates are run, anything else (a Task too) is returned as is. */
  function InvokeDelegate(v: Value): (r: Value)
    ensures v.AsyncFn? ==> r == v.fn.result
    ensures v.SyncFn? ==> r == v.fn.result
    ensures !v.IsDelegate() ==> r == v
  {
    match v
    case AsyncFn(f) => f.result
    case SyncFn(f) => f.result
    case _ => v
  }

  /** The two delegate types the Lazy and Optional constructors accept. */
  datatype Callable = SyncCallable(fn: Callback) | AsyncCallable(fn: Callback) {
    function AsValue(): (v: Value)
      ensures v.IsDelegate() && v.fn == fn
    {
      match this
      case SyncCallable(f) => SyncFn(f)
      case AsyncCallable(f) => AsyncFn(f)
    }
  }

  /** `new AlwaysProp(value)`: never suppressed, invoking runs a delegate and returns anything else unchanged. */
  function AlwaysProp(value: Value): (p: PropValue)
    ensures p.kind.Always? && p.inner == value && !p.merge
    ensures !p.SuppressOnFirstLoad() && !p.IgnoresFirstLoadAsWritten() && !p.IsInvokable()
    ensures p.Invoke() == if value.IsDelegate() then value.fn.result else value
  {
    PropValue(Always, value, false)
  }

  /** `new LazyProp(callback)`: an InvokableProp over a sync or async callback. */
  function LazyProp(callback: Callable): (p: PropValue)
    ensures p.kind.Lazy? && p.IsInvokable() && p.SuppressOnFirstLoad() && !p.merge
    ensures p.Invoke() == callback.fn.result
  {
    PropValue(Lazy, callback.AsValue(), false)
  }

  /** `new OptionalProp(callback)`: IIgnoresFirstLoad over a sync or async callback. */
  function OptionalProp(callback: Callable): (p: PropValue)
    ensures p.kind.Optional? && !p.IsInvokable() && !p.merge
    ensures p.SuppressOnFirstLoad() && p.IgnoresFirstLoadAsWritten()
    ensures p.Invoke() == callback.fn.result
  {
    PropValue(Optional, callback.AsValue(), false)
  }
}
