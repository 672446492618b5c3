/**
 * The filtering steps of Response.ResolveProperties (InertiaCore/Response.cs:81-141):
 * first-load suppression, the `only` and `except` partial-reload filters, and the splice
 * that puts every Always prop of the page back.
 */
module PartialReload {
  import opened Wrappers
  import opened Platform
  import opened Props
  import opened Http
  import opened Extensions

  /** `props` keeps a subset of `of`'s entries, unchanged. */
  predicate SubMap(props: map<string, Value>, of: map<string, Value>) {
    forall k :: k in props ==> k in of && props[k] == of[k]
  }

  /** A first load keeps the entries that are not first-load-suppressing, unchanged. */
  function FirstLoadFilter(props: map<string, Value>): (r: map<string, Value>)
    ensures forall k :: k in r <==> k in props && !props[k].IsSuppressedOnFirstLoad()
    ensures SubMap(r, props)
  {
    map k | k in props && !props[k].IsSuppressedOnFirstLoad() :: props[k]
  }

  /** The first-load filter as written: `kv.Value is not IIgnoresFirstLoad`, which lets a LazyProp through. */
  function FirstLoadFilterAsWritten(props: map<string, Value>): (r: map<string, Value>)
    ensures forall k :: k in r <==> k in props && !(props[k].Prop? && props[k].prop.IgnoresFirstLoadAsWritten())
    ensures SubMap(r, props)
  {
    map k | k in props && !(props[k].Prop? && props[k].prop.IgnoresFirstLoadAsWritten()) :: props[k]
  }

  /** The names a partial-reload header lists: split at commas, trimmed, empty names dropped. */
  function PartialNames(lib: Library, req: Request, header: string): (names: seq<string>)
    ensures forall t :: t in names <==> t in HeaderNames(lib, req, header) && t != ""
  {
    NonEmpty(HeaderNames(lib, req, header))
  }

  /** ResolveOnly: the props a listed `only` name matches, ignoring case. */
  function ResolveOnly(lib: Library, req: Request, props: map<string, Value>): (r: map<string, Value>)
    ensures forall k :: k in r <==> k in props && MatchesAny(lib, PartialNames(lib, req, PartialOnlyHeader), k)
    ensures SubMap(r, props)
  {
    KeepMatching(lib, PartialNames(lib, req, PartialOnlyHeader), props)
  }

  /** ResolveExcept: the props no listed `except` name matches, ignoring case. */
  function ResolveExcept(lib: Library, req: Request, props: map<string, Value>): (r: map<string, Value>)
    ensures forall k :: k in r <==> k in props && !MatchesAny(lib, PartialNames(lib, req, PartialExceptHeader), k)
    ensures SubMap(r, props)
  {
    DropMatching(lib, PartialNames(lib, req, PartialExceptHeader), props)
  }

  /**
   * ResolvePartialProperties: a request that is not a partial reload of this component gets the
   * first-load filter; a partial reload gets `only` (when that header is sent), then `except`
   * (when that header is sent).
   */
  function ResolvePartialProperties(lib: Library, req: Request, component: string, props: map<string, Value>): (r: map<string, Value>)
    ensures SubMap(r, props)
    ensures !IsInertiaPartialComponent(req, component) ==> r == FirstLoadFilter(props)
  {
    if !IsInertiaPartialComponent(req, component) then FirstLoadFilter(props)
    else
      var afterOnly := if PartialOnlyHeader in req.headers then ResolveOnly(lib, req, props) else props;
      if PartialExceptHeader in req.headers then ResolveExcept(lib, req, afterOnly) else afterOnly
  }

  /** A partial reload keeps exactly the props named by `only` and not named by `except`. */
  lemma PartialReloadKeeps(lib: Library, req: Request, component: string, props: map<string, Value>, k: string)
    requires IsInertiaPartialComponent(req, component)
    ensures k in ResolvePartialProperties(lib, req, component, props) <==>
      && k in props
      && (PartialOnlyHeader in req.headers ==> MatchesAny(lib, PartialNames(lib, req, PartialOnlyHeader), k))
      && (PartialExceptHeader in req.headers ==> !MatchesAny(lib, PartialNames(lib, req, PartialExceptHeader), k))
  {
  }

  /** A partial reload without `only` and `except` headers keeps every prop, suppressed ones included. */
  lemma PartialReloadWithoutFiltersCopies(lib: Library, req: Request, component: string, props: map<string, Value>)
    requires IsInertiaPartialComponent(req, component)
    requires PartialOnlyHeader !in req.headers && PartialExceptHeader !in req.headers
    ensures ResolvePartialProperties(lib, req, component, props) == props
  {
  }

  /** The props of the page with an Always value. */
  function AlwaysProps(props: map<string, Value>): (r: map<string, Value>)
    ensures forall k :: k in r <==> k in props && props[k].IsAlways()
    ensures SubMap(r, props)
  {
    map k | k in props && props[k].IsAlways() :: props[k]
  }

  /**
   * ResolveAlways: the filtered entries that are not Always props, followed by every Always prop
   * of the page's own props (`original`, before shared data). `ToDictionary` throws when a key
   * comes from both sides.
   */
  function ResolveAlways(original: map<string, Value>, filtered: map<string, Value>): (r: Result<map<string, Value>, Exception>)
    ensures r.Failure? <==> exists k :: k in filtered && !filtered[k].IsAlways() && k in original && original[k].IsAlways()
    ensures r.Success? ==> forall k :: k in r.value <==> (k in filtered && !filtered[k].IsAlways()) || (k in original && original[k].IsAlways())
    ensures r.Success? ==> forall k :: k in r.value ==> r.value[k] == if k in original && original[k].IsAlways() then original[k] else filtered[k]
  {
    var rest := map k | k in filtered && !filtered[k].IsAlways() :: filtered[k];
    var always := AlwaysProps(original);
    if exists k :: k in rest && k in always then Failure(DuplicateKey) else Success(rest + always)
  }
}
