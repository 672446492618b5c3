/**
 * The action filter (InertiaCore/Utils/InertiaActionFilter.cs): after a PUT, PATCH or DELETE from
 * an Inertia client, a redirect result is turned into 303 See Other with a Location header, so the
 * client follows it with a GET.
 */
module ActionFilter {
  import opened Wrappers
  import opened Platform
  import opened Http
  import opened Extensions

  /** The URL helper's three lookups, each possibly finding no URL. */
  datatype UrlHelper = UrlHelper(
    action: RouteTarget -> Option<string>,
    page: RouteTarget -> Option<string>,
    route: RouteTarget -> Option<string>)

  /** Where a result redirects to: a RedirectResult's own URL, or the helper's URL for a route-based redirect. */
  function DestinationUrl(urls: UrlHelper, result: ActionResult): (url: Option<string>)
    ensures result.RedirectResult? ==> url == Some(result.url)
    ensures result.RedirectToActionResult? ==> url == urls.action(result.target)
    ensures result.RedirectToPageResult? ==> url == urls.page(result.target)
    ensures result.RedirectToRouteResult? ==> url == urls.route(result.target)
    ensures url.Some? ==> result.RedirectResult? || result.RedirectToActionResult? || result.RedirectToPageResult? || result.RedirectToRouteResult?
  {
    match result
    case RedirectResult(u) => Some(u)
    case RedirectToActionResult(t) => urls.action(t)
    case RedirectToPageResult(t) => urls.page(t)
    case RedirectToRouteResult(t) => urls.route(t)
    case _ => None
  }

  /** The methods after which a redirect must become 303. */
  predicate IsRewrittenMethod(httpMethod: string) {
    httpMethod in ["PUT", "PATCH", "DELETE"]
  }

  /** The filter acts exactly on an Inertia PUT, PATCH or DELETE whose result redirects somewhere. */
  predicate Rewrites(lib: Library, urls: UrlHelper, req: Request, result: ActionResult) {
    IsInertiaRequest(lib, req) && IsRewrittenMethod(req.httpMethod) && DestinationUrl(urls, result).Some?
  }

  /**
   * OnActionExecuted: adds `Location` (which throws, changing nothing, when the header is already
   * there) and replaces the result with 303 See Other; any other result is left as it is.
   */
  method OnActionExecuted(lib: Library, urls: UrlHelper, context: ActionExecutedContext) returns (thrown: bool)
    modifies context, context.http.response.headers
    ensures !Rewrites(lib, urls, context.http.request, old(context.result)) ==>
      !thrown && unchanged(context, context.http.response.headers)
    ensures Rewrites(lib, urls, context.http.request, old(context.result)) ==>
      (thrown <==> "Location" in old(context.http.response.headers.entries))
    ensures Rewrites(lib, urls, context.http.request, old(context.result)) && thrown ==>
      unchanged(context, context.http.response.headers)
    ensures Rewrites(lib, urls, context.http.request, old(context.result)) && !thrown ==>
      && context.http.response.headers.entries ==
           old(context.http.response.headers.entries)["Location" := [DestinationUrl(urls, old(context.result)).value]]
      && context.result == StatusCodeResult(StatusSeeOther)
  {
    if !IsInertiaRequest(lib, context.http.request) || !IsRewrittenMethod(context.http.request.httpMethod) {
      return false;
    }
    var destination := DestinationUrl(urls, context.result);
    if destination.None? {
      return false;
    }
    var added := context.http.response.headers.Add("Location", [destination.value]);
    if !added {
      return true;
    }
    context.result := StatusCodeResult(StatusSeeOther);
    thrown := false;
  }

  /** A rewritten request's redirect becomes 303 whatever kind of redirect it was. */
  lemma {:induction false} RedirectKindsRewritten(lib: Library, urls: UrlHelper, req: Request, result: ActionResult)
    requires IsInertiaRequest(lib, req) && IsRewrittenMethod(req.httpMethod)
    ensures result.RedirectResult? ==> Rewrites(lib, urls, req, result)
    ensures Rewrites(lib, urls, req, result) <==>
      || result.RedirectResult?
      || (result.RedirectToActionResult? && urls.action(result.target).Some?)
      || (result.RedirectToPageResult? && urls.page(result.target).Some?)
      || (result.RedirectToRouteResult? && urls.route(result.target).Some?)
  {
  }

  /** GET and POST requests are never rewritten. */
  lemma GetAndPostUntouched(lib: Library, urls: UrlHelper, req: Request, result: ActionResult)
    requires req.httpMethod == "GET" || req.httpMethod == "POST"
    ensures !Rewrites(lib, urls, req, result)
  {
  }
}
