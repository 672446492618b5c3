/** The location result (InertiaCore/Utils/LocationResult.cs): an external redirect an Inertia client follows itself. */
module Location {
  import opened Platform
  import opened Http
  import opened Extensions

  class LocationResult {
    const url: string

    constructor (url: string)
      ensures this.url == url
    {
      this.url := url;
    }

    /**
     * ExecuteResultAsync: an Inertia request gets `X-Inertia-Location: url` (replacing any earlier
     * value) and a 409 Conflict; any other request a plain redirect to `url`, with the headers
     * untouched. The result it hands over to is returned rather than executed.
     */
    method ExecuteResult(lib: Library, context: ActionContext) returns (delegated: ActionResult)
      modifies context.http.response.headers
      ensures IsInertiaRequest(lib, context.http.request) ==>
        && delegated == StatusCodeResult(StatusConflict)
        && context.http.response.headers.entries == old(context.http.response.headers.entries)[LocationHeader := [url]]
      ensures !IsInertiaRequest(lib, context.http.request) ==>
        delegated == RedirectResult(url) && unchanged(context.http.response.headers)
    {
      if IsInertiaRequest(lib, context.http.request) {
        var existed := Override(context.http.response.headers, LocationHeader, [url]);
        delegated := StatusCodeResult(StatusConflict);
        return;
      }
      delegated := RedirectResult(url);
    }
  }

  /** Executing twice leaves one location value, not two. */
  method ExecuteTwice(lib: Library, location: LocationResult, context: ActionContext)
    requires IsInertiaRequest(lib, context.http.request)
    modifies context.http.response.headers
    ensures context.http.response.headers.entries == old(context.http.response.headers.entries)[LocationHeader := [location.url]]
  {
    var first := location.ExecuteResult(lib, context);
    var second := location.ExecuteResult(lib, context);
  }
}
