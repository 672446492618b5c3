/**
 * Three places where the wrapper classes (InertiaCore/Props) disagree with how the pipeline in
 * InertiaCore/Response.cs treats them and with what the repository's tests expect. Each pair shows
 * the behaviour as written and proves the intended one about the corrected definitions the rest
 * of the model uses (`Dispatch`, `FirstLoadFilter`).
 */
module Findings {
  import opened Wrappers
  import opened Platform
  import opened Props
  import opened Extensions
  import opened Http
  import opened PartialReload
  import opened PropResolution
  import opened Response

  /** A callback whose result needs no further resolution. */
  predicate PlainResult(c: Callable) {
    c.fn.result.Null? || c.fn.result.Text? || c.fn.result.Opaque?
  }

  /**
   * As written, AlwaysProp is not an InvokableProp, so resolution passes the wrapper through
   * instead of its callback's result.
   */
  lemma AlwaysUnresolvedAsWritten(c: Callable)
    requires PlainResult(c)
    ensures DispatchAsWritten(Prop(AlwaysProp(c.AsValue()))) == Prop(AlwaysProp(c.AsValue()))
    ensures Dispatch(Prop(AlwaysProp(c.AsValue()))) == c.fn.result
    ensures DispatchAsWritten(Prop(AlwaysProp(c.AsValue()))) != Dispatch(Prop(AlwaysProp(c.AsValue())))
  {
  }

  /** As written, OptionalProp is not an InvokableProp either: a requested optional prop is sent as the wrapper. */
  lemma OptionalUnresolvedAsWritten(c: Callable)
    requires PlainResult(c)
    ensures DispatchAsWritten(Prop(OptionalProp(c))) == Prop(OptionalProp(c))
    ensures Dispatch(Prop(OptionalProp(c))) == c.fn.result
    ensures DispatchAsWritten(Prop(OptionalProp(c))) != Dispatch(Prop(OptionalProp(c)))
  {
  }

  /**
   * As written, LazyProp does not declare IIgnoresFirstLoad: the first-load filter keeps it and its
   * callback runs on every first load.
   */
  lemma LazyKeptOnFirstLoadAsWritten(props: map<string, Value>, k: string, c: Callable)
    requires k in props && props[k] == Prop(LazyProp(c))
    ensures k in FirstLoadFilterAsWritten(props)
    ensures c.fn.id in CallsOfMap(FirstLoadFilterAsWritten(props))
    ensures k !in FirstLoadFilter(props)
  {
    var kept := FirstLoadFilterAsWritten(props);
    assert c.fn.id in Calls(kept[k]);
  }

  /**
   * Corrected: an Always prop of the page over a callback is selected on every kind of visit, and
   * whenever resolution succeeds it is sent as the callback's result.
   */
  lemma AlwaysResolvedOnEveryLoad(lib: Library, req: Request, component: string, original: map<string, Value>,
                                  merged: map<string, Value>, k: string, c: Callable)
    requires SubMap(original, merged)
    requires k in original && original[k] == Prop(AlwaysProp(c.AsValue())) && PlainResult(c)
    ensures k in Selection(lib, req, component, original, merged).value
    ensures ResolveProperties(lib, req, component, original, merged).Success? ==>
      && lib.camelCase(k) in ResolveProperties(lib, req, component, original, merged).value
      && ResolveProperties(lib, req, component, original, merged).value[lib.camelCase(k)] == c.fn.result
  {
    SelectionAfterMerge(lib, req, component, original, merged);
    var selected := Selection(lib, req, component, original, merged).value;
    assert k in selected && selected[k] == original[k];
    assert ResolveValue(lib, selected[k]) == Success(c.fn.result);
  }

  /**
   * Corrected: an Optional prop that `only` names, and `except` (if sent) does not, is selected on a
   * partial reload, and whenever resolution succeeds it is sent as its callback's result.
   */
  lemma OptionalResolvedWhenRequested(lib: Library, req: Request, component: string, original: map<string, Value>,
                                      merged: map<string, Value>, k: string, c: Callable)
    requires SubMap(original, merged)
    requires IsInertiaPartialComponent(req, component)
    requires PartialOnlyHeader in req.headers && MatchesAny(lib, PartialNames(lib, req, PartialOnlyHeader), k)
    requires PartialExceptHeader in req.headers ==> !MatchesAny(lib, PartialNames(lib, req, PartialExceptHeader), k)
    requires k in merged && merged[k] == Prop(OptionalProp(c)) && PlainResult(c)
    ensures k in Selection(lib, req, component, original, merged).value
    ensures ResolveProperties(lib, req, component, original, merged).Success? ==>
      && lib.camelCase(k) in ResolveProperties(lib, req, component, original, merged).value
      && ResolveProperties(lib, req, component, original, merged).value[lib.camelCase(k)] == c.fn.result
  {
    PartialSelection(lib, req, component, original, merged, k);
    SelectionAfterMerge(lib, req, component, original, merged);
    var selected := Selection(lib, req, component, original, merged).value;
    assert k in selected && selected[k] == merged[k];
    assert ResolveValue(lib, selected[k]) == Success(c.fn.result);
  }

  /** Corrected: a Lazy prop is not sent on a first load, and its callback is not run. */
  lemma LazyNotInvokedOnFirstLoad(lib: Library, req: Request, component: string, original: map<string, Value>,
                                  merged: map<string, Value>, k: string, c: Callable)
    requires SubMap(original, merged)
    requires !IsInertiaPartialComponent(req, component)
    requires k in merged && merged[k] == Prop(LazyProp(c))
    requires forall j :: j in merged && j != k ==> c.fn.id !in Calls(merged[j])
    ensures k !in Selection(lib, req, component, original, merged).value
    ensures c.fn.id !in CallsOfMap(Selection(lib, req, component, original, merged).value)
  {
    SuppressedNotInvokedOnFirstLoad(lib, req, component, original, merged, k, c.fn.id);
  }
}
