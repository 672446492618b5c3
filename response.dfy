/**
 * The Inertia response (InertiaCore/Response.cs): the prop pipeline of ProcessResponse — shared
 * merge, partial filter, Always restoration, resolution — the `errors` entry, and the JSON or
 * view result.
 */
module Response {
  import opened Wrappers
  import opened Platform
  import opened Props
  import opened SharedData
  import opened Http
  import opened Extensions
  import opened PartialReload
  import opened PropResolution

  /** The data of a possibly missing store. */
  ghost function StoreData(store: InertiaSharedData?): Option<map<string, Value>>
    reads store
  {
    if store == null then None else store.data
  }

  /** ResolveSharedProps: `merged` is what the request's shared store makes of the page's props. */
  ghost predicate SharedMerge(lib: Library, store: InertiaSharedData?, props: map<string, Value>, merged: map<string, Value>)
    reads store
  {
    IsMergeOf(lib, StoreData(store), props, merged)
  }

  /** The page's own props are never overridden by shared data. */
  lemma SharedMergeKeepsPageProps(lib: Library, data: Option<map<string, Value>>, props: map<string, Value>, merged: map<string, Value>)
    requires IsMergeOf(lib, data, props, merged)
    ensures SubMap(props, merged)
  {
  }

  /** The entries that reach resolution: the partial filter over the merged props, then ResolveAlways. */
  function Selection(lib: Library, req: Request, component: string, original: map<string, Value>, merged: map<string, Value>): Result<map<string, Value>, Exception> {
    ResolveAlways(original, ResolvePartialProperties(lib, req, component, merged))
  }

  /** ResolveProperties after ResolveSharedProps: select, then resolve the instances. */
  function ResolveProperties(lib: Library, req: Request, component: string, original: map<string, Value>, merged: map<string, Value>): (r: Result<map<string, Value>, Exception>)
    ensures r.Success? <==> Selection(lib, req, component, original, merged).Success? && WellNamedMap(lib, Selection(lib, req, component, original, merged).value)
    ensures r.Success? ==> r.value.Keys == CamelImage(lib, Selection(lib, req, component, original, merged).value.Keys)
    ensures r.Success? ==> var selected := Selection(lib, req, component, original, merged).value;
      forall k :: k in selected ==> ResolveValue(lib, selected[k]).Success? && r.value[lib.camelCase(k)] == ResolveValue(lib, selected[k]).value
  {
    match Selection(lib, req, component, original, merged)
    case Failure(e) => Failure(e)
    case Success(selected) =>
      ResolvePropertyInstancesSucceeds(lib, selected);
      ResolvePropertyInstances(lib, selected)
  }

  /**
   * After a shared merge, restoring the Always props never collides with a filtered entry, and the
   * selection is the non-Always survivors of the filter plus every Always prop of the page itself.
   */
  lemma {:induction false} SelectionAfterMerge(lib: Library, req: Request, component: string, original: map<string, Value>, merged: map<string, Value>)
    requires SubMap(original, merged)
    ensures Selection(lib, req, component, original, merged).Success?
    ensures SubMap(Selection(lib, req, component, original, merged).value, merged)
    ensures forall k :: k in Selection(lib, req, component, original, merged).value <==>
      || (k in original && original[k].IsAlways())
      || (k in merged && !merged[k].IsAlways() && k in ResolvePartialProperties(lib, req, component, merged))
  {
    var filtered := ResolvePartialProperties(lib, req, component, merged);
    forall k | k in filtered && !filtered[k].IsAlways()
      ensures !(k in original && original[k].IsAlways())
    {
      if k in original {
        assert filtered[k] == merged[k] == original[k];
      }
    }
  }

  /** On a first load the page receives exactly its unsuppressed props; an Always prop only if the page itself has it. */
  lemma FirstLoadSelection(lib: Library, req: Request, component: string, original: map<string, Value>, merged: map<string, Value>, k: string)
    requires SubMap(original, merged)
    requires !IsInertiaPartialComponent(req, component)
    ensures k in Selection(lib, req, component, original, merged).value <==>
      k in merged && !merged[k].IsSuppressedOnFirstLoad() && (merged[k].IsAlways() ==> k in original)
  {
    SelectionAfterMerge(lib, req, component, original, merged);
  }

  /**
   * On a partial reload the page receives its own Always props whatever the headers say, and any
   * other prop exactly when `only` (if sent) names it and `except` (if sent) does not.
   */
  lemma PartialSelection(lib: Library, req: Request, component: string, original: map<string, Value>, merged: map<string, Value>, k: string)
    requires SubMap(original, merged)
    requires IsInertiaPartialComponent(req, component)
    ensures k in Selection(lib, req, component, original, merged).value <==>
      || (k in original && original[k].IsAlways())
      || (&& k in merged && !merged[k].IsAlways()
          && (PartialOnlyHeader in req.headers ==> MatchesAny(lib, PartialNames(lib, req, PartialOnlyHeader), k))
          && (PartialExceptHeader in req.headers ==> !MatchesAny(lib, PartialNames(lib, req, PartialExceptHeader), k)))
  {
    SelectionAfterMerge(lib, req, component, original, merged);
    PartialReloadKeeps(lib, req, component, merged, k);
  }

  /** A prop the selection leaves out is never invoked: none of its own delegates runs. */
  lemma {:induction false} UnselectedNeverInvoked(lib: Library, req: Request, component: string, original: map<string, Value>,
                                                  merged: map<string, Value>, k: string, id: nat)
    requires SubMap(original, merged)
    requires k in merged && k !in Selection(lib, req, component, original, merged).value
    requires forall j :: j in merged && j != k ==> id !in Calls(merged[j])
    ensures id !in CallsOfMap(Selection(lib, req, component, original, merged).value)
  {
    SelectionAfterMerge(lib, req, component, original, merged);
  }

  /** A suppressed prop (Lazy, Optional, Defer) is neither sent nor invoked on a first load. */
  lemma SuppressedNotInvokedOnFirstLoad(lib: Library, req: Request, component: string, original: map<string, Value>,
                                        merged: map<string, Value>, k: string, id: nat)
    requires SubMap(original, merged)
    requires !IsInertiaPartialComponent(req, component)
    requires k in merged && merged[k].IsSuppressedOnFirstLoad()
    requires forall j :: j in merged && j != k ==> id !in Calls(merged[j])
    ensures k !in Selection(lib, req, component, original, merged).value
    ensures id !in CallsOfMap(Selection(lib, req, component, original, merged).value)
  {
    FirstLoadSelection(lib, req, component, original, merged, k);
    UnselectedNeverInvoked(lib, req, component, original, merged, k, id);
  }

  /** On a partial reload with `only`, a prop it does not name (and that is not Always) is neither sent nor invoked. */
  lemma UnrequestedNotInvokedOnPartialReload(lib: Library, req: Request, component: string, original: map<string, Value>,
                                             merged: map<string, Value>, k: string, id: nat)
    requires SubMap(original, merged)
    requires IsInertiaPartialComponent(req, component) && PartialOnlyHeader in req.headers
    requires k in merged && !merged[k].IsAlways() && !MatchesAny(lib, PartialNames(lib, req, PartialOnlyHeader), k)
    requires forall j :: j in merged && j != k ==> id !in Calls(merged[j])
    ensures k !in Selection(lib, req, component, original, merged).value
    ensures id !in CallsOfMap(Selection(lib, req, component, original, merged).value)
  {
    PartialSelection(lib, req, component, original, merged, k);
    UnselectedNeverInvoked(lib, req, component, original, merged, k, id);
  }

  /** An Always prop of the page is sent even when `except` names it. */
  lemma AlwaysSurvivesExcept(lib: Library, req: Request, component: string, original: map<string, Value>, merged: map<string, Value>, k: string)
    requires SubMap(original, merged)
    requires IsInertiaPartialComponent(req, component) && PartialExceptHeader in req.headers
    requires MatchesAny(lib, PartialNames(lib, req, PartialExceptHeader), k)
    requires k in original && original[k].IsAlways()
    ensures k in Selection(lib, req, component, original, merged).value
    ensures Selection(lib, req, component, original, merged).value[k] == original[k]
  {
    PartialSelection(lib, req, component, original, merged, k);
  }

  /** An Always prop that only shared data holds is dropped from every response. */
  lemma SharedOnlyAlwaysDropped(lib: Library, req: Request, component: string, original: map<string, Value>, merged: map<string, Value>, k: string)
    requires SubMap(original, merged)
    requires k in merged && merged[k].IsAlways() && k !in original
    ensures k !in Selection(lib, req, component, original, merged).value
  {
    SelectionAfterMerge(lib, req, component, original, merged);
  }

  /** `FirstOrDefault()?.ErrorMessage ?? ""` */
  function FirstError(messages: seq<string>): string {
    if messages == [] then "" else messages[0]
  }

  /**
   * GetErrors: nothing for a valid model state; otherwise each field under its camel-cased name
   * with its first message. `ToDictionary` throws when two fields camel-case alike.
   */
  function GetErrors(lib: Library, modelState: ModelState): (r: Result<map<string, Value>, Exception>)
    ensures modelState.isValid ==> r == Success(map[])
    ensures !modelState.isValid ==> (r.Success? <==> CamelInjective(lib, modelState.errors.Keys))
    ensures !modelState.isValid && r.Success? ==> r.value.Keys == CamelImage(lib, modelState.errors.Keys)
    ensures !modelState.isValid && r.Success? ==>
      forall f :: f in modelState.errors ==> r.value[lib.camelCase(f)] == Text(FirstError(modelState.errors[f]))
  {
    if modelState.isValid then Success(map[])
    else if !CamelInjective(lib, modelState.errors.Keys) then Failure(DuplicateKey)
    else Success(map f | f in modelState.errors :: lib.camelCase(f) := Text(FirstError(modelState.errors[f])))
  }

  /** The props of the page ProcessResponse builds: the resolved props, then `errors` written over them. */
  function PageProps(lib: Library, req: Request, component: string, original: map<string, Value>, merged: map<string, Value>,
                     modelState: ModelState): (r: Result<map<string, Value>, Exception>)
    ensures r.Success? <==> ResolveProperties(lib, req, component, original, merged).Success? && GetErrors(lib, modelState).Success?
    ensures r.Success? ==> r.value.Keys == ResolveProperties(lib, req, component, original, merged).value.Keys + {"errors"}
    ensures r.Success? ==> forall n :: n in r.value && n != "errors" ==> r.value[n] == ResolveProperties(lib, req, component, original, merged).value[n]
  {
    match ResolveProperties(lib, req, component, original, merged)
    case Failure(e) => Failure(e)
    case Success(props) =>
      match GetErrors(lib, modelState)
      case Failure(e) => Failure(e)
      case Success(errors) => Success(props["errors" := Dict(errors)])
  }

  /** `errors` is always on the page, holding GetErrors' dictionary, even over a prop of that name. */
  lemma ErrorsAlwaysPresent(lib: Library, req: Request, component: string, original: map<string, Value>, merged: map<string, Value>,
                            modelState: ModelState)
    requires PageProps(lib, req, component, original, merged, modelState).Success?
    ensures var props := PageProps(lib, req, component, original, merged, modelState).value;
      && "errors" in props
      && props["errors"] == Dict(GetErrors(lib, modelState).value)
      && (modelState.isValid ==> props["errors"] == Dict(map[]))
  {
  }

  /** Every other name on the page is the camel-cased key of a selected prop, holding its resolved value. */
  lemma PagePropNames(lib: Library, req: Request, component: string, original: map<string, Value>, merged: map<string, Value>,
                      modelState: ModelState)
    requires PageProps(lib, req, component, original, merged, modelState).Success?
    ensures Selection(lib, req, component, original, merged).Success?
    ensures PageProps(lib, req, component, original, merged, modelState).value.Keys ==
      CamelImage(lib, Selection(lib, req, component, original, merged).value.Keys) + {"errors"}
  {
    var selected := Selection(lib, req, component, original, merged).value;
    var resolved := ResolvePropertyInstances(lib, selected).value;
    assert resolved.Keys == CamelImage(lib, selected.Keys);
  }

  /**
   * Building the page props throws exactly when some dictionary the selected props reach has two
   * keys that camel-case alike, or the model state is invalid and two of its fields do.
   */
  lemma PagePropsSucceed(lib: Library, req: Request, component: string, original: map<string, Value>, merged: map<string, Value>,
                         modelState: ModelState)
    requires SubMap(original, merged)
    ensures Selection(lib, req, component, original, merged).Success?
    ensures PageProps(lib, req, component, original, merged, modelState).Success? <==>
      && WellNamedMap(lib, Selection(lib, req, component, original, merged).value)
      && (!modelState.isValid ==> CamelInjective(lib, modelState.errors.Keys))
  {
    SelectionAfterMerge(lib, req, component, original, merged);
  }

  /** The Response action result. */
  class Response {
    const component: string
    const props: map<string, Value>
    const rootView: string
    const version: Option<string>
    var context: ActionContext?
    var page: Option<Page>

    constructor (component: string, props: map<string, Value>, rootView: string, version: Option<string>)
      ensures this.component == component && this.props == props && this.rootView == rootView && this.version == version
      ensures context == null && page == None
    {
      this.component := component;
      this.props := props;
      this.rootView := rootView;
      this.version := version;
      context := null;
      page := None;
    }

    method SetContext(context: ActionContext)
      modifies this
      ensures this.context == context && page == old(page)
    {
      this.context := context;
    }

    /**
     * The page ProcessResponse keeps for the merged props `merged`: built from PageProps when that
     * succeeds; otherwise resolution threw and the page is still `before`.
     */
    ghost predicate Processed(lib: Library, merged: map<string, Value>, thrown: bool, before: Option<Page>)
      requires context != null
      reads this
    {
      var pageProps := PageProps(lib, context.http.request, component, props, merged, context.modelState);
      if pageProps.Success? then
        !thrown && page == Some(Page(component, version, RequestedUri(lib, context.http.request), pageProps.value))
      else thrown && page == before
    }

    /**
     * ProcessResponse: merges the shared store into the props, resolves them, writes `errors` and
     * keeps the page. When resolution throws, `thrown` is set and no page is kept.
     */
    method ProcessResponse(lib: Library) returns (thrown: bool, ghost merged: map<string, Value>)
      requires context != null
      modifies this`page
      ensures SharedMerge(lib, context.http.sharedData, props, merged) && Processed(lib, merged, thrown, old(page))
    {
      var all := props;
      var store := context.http.sharedData;
      if store != null {
        all := store.GetMerged(lib, props);
      } else {
        assert IsMergeOf(lib, None, props, all);
      }
      merged := all;
      var pageProps := PageProps(lib, context.http.request, component, props, all, context.modelState);
      thrown := pageProps.Failure?;
      if !thrown {
        page := Some(Page(component, version, RequestedUri(lib, context.http.request), pageProps.value));
      }
    }

    /** GetJson: marks the response as Inertia, varies it on Accept, sets 200 and returns the page as JSON. */
    method GetJson() returns (r: ActionResult)
      requires context != null
      modifies context.http.response, context.http.response.headers
      ensures context.http.response.headers.entries ==
        old(context.http.response.headers.entries)[InertiaHeader := ["true"]]["Vary" := ["Accept"]]
      ensures context.http.response.statusCode == StatusOk
      ensures r == JsonResult(page)
    {
      var response := context.http.response;
      var hadInertia := Override(response.headers, InertiaHeader, ["true"]);
      var hadVary := Override(response.headers, "Vary", ["Accept"]);
      response.statusCode := StatusOk;
      r := JsonResult(page);
    }

    /** GetView: the root view with the page as its model. */
    method GetView() returns (r: ActionResult)
      ensures r == ViewResult(rootView, page)
    {
      r := ViewResult(rootView, page);
    }

    /** GetResult: JSON exactly for an Inertia request; otherwise the root view and the response is untouched. */
    method GetResult(lib: Library) returns (r: ActionResult)
      requires context != null
      modifies context.http.response, context.http.response.headers
      ensures r.JsonResult? <==> IsInertiaRequest(lib, context.http.request)
      ensures IsInertiaRequest(lib, context.http.request) ==>
        && r == JsonResult(page)
        && context.http.response.headers.entries ==
             old(context.http.response.headers.entries)[InertiaHeader := ["true"]]["Vary" := ["Accept"]]
        && context.http.response.statusCode == StatusOk
      ensures !IsInertiaRequest(lib, context.http.request) ==>
        r == ViewResult(rootView, page) && unchanged(context.http.response, context.http.response.headers)
    {
      if IsInertiaRequest(lib, context.http.request) {
        r := GetJson();
      } else {
        r := GetView();
      }
    }

    /** ExecuteResultAsync: set the context, build the page, then produce the JSON or view result. */
    method ExecuteResult(lib: Library, context: ActionContext) returns (thrown: bool, r: Option<ActionResult>)
      modifies this, context.http.response, context.http.response.headers
      ensures this.context == context
      ensures thrown <==> r.None?
      ensures thrown ==> page == old(page) && unchanged(context.http.response, context.http.response.headers)
      ensures !thrown ==> page.Some? && r.value.JsonResult? == IsInertiaRequest(lib, context.http.request)
      ensures !thrown ==> r.value == if IsInertiaRequest(lib, context.http.request) then JsonResult(page) else ViewResult(rootView, page)
      ensures !thrown && IsInertiaRequest(lib, context.http.request) ==>
        && context.http.response.headers.entries ==
             old(context.http.response.headers.entries)[InertiaHeader := ["true"]]["Vary" := ["Accept"]]
        && context.http.response.statusCode == StatusOk
      ensures !thrown && !IsInertiaRequest(lib, context.http.request) ==> unchanged(context.http.response, context.http.response.headers)
      ensures exists merged :: SharedMerge(lib, context.http.sharedData, props, merged) && Processed(lib, merged, thrown, old(page))
    {
      SetContext(context);
      ghost var merged;
      thrown, merged := ProcessResponse(lib);
      if thrown {
        r := None;
      } else {
        ghost var data := StoreData(context.http.sharedData);
        assert IsMergeOf(lib, data, props, merged);
        var result := GetResult(lib);
        r := Some(result);
        assert StoreData(context.http.sharedData) == data;
        assert SharedMerge(lib, context.http.sharedData, props, merged);
        assert Processed(lib, merged, thrown, old(page));
      }
    }
  }
}
