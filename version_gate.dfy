/**
 * The version gate UseInertia installs (InertiaCore/Extensions/Configure.cs): an Inertia GET whose
 * asset version differs from the current one is answered with 409 Conflict and the URL to reload,
 * without running the rest of the pipeline.
 */
module VersionGate {
  import opened Wrappers
  import opened Platform
  import opened Http
  import opened Extensions
  import opened Factory

  /** The gate's condition; the version header is compared as header values with the current version. */
  function VersionGateFires(lib: Library, req: Request, current: Option<string>): (r: bool)
    ensures r <==>
      && IsInertiaRequest(lib, req) && req.httpMethod == "GET"
      && (current.None? ==> req.Header(VersionHeader) != [])
      && (current.Some? ==> req.Header(VersionHeader) != [current.value])
  {
    IsInertiaRequest(lib, req) && req.httpMethod == "GET" && req.Header(VersionHeader) != FromNullable(current)
  }

  /** OnVersionChange: keep non-empty temp data, send the requested URI as the location, and set 409. */
  method OnVersionChange(lib: Library, context: HttpContext)
    modifies context.tempData, context.response, context.response.headers
    ensures context.tempData.kept == if context.tempData.keys != {} then context.tempData.keys else old(context.tempData.kept)
    ensures context.response.headers.entries ==
      old(context.response.headers.entries)[LocationHeader := [RequestedUri(lib, context.request)]]
    ensures context.response.statusCode == StatusConflict
  {
    if context.tempData.keys != {} {
      context.tempData.Keep();
    }
    var existed := Override(context.response.headers, LocationHeader, [RequestedUri(lib, context.request)]);
    context.response.statusCode := StatusConflict;
  }

  /** The middleware: either the gate answers the request, or the next middleware runs and nothing here changes. */
  method Middleware(lib: Library, factory: ResponseFactory, context: HttpContext) returns (calledNext: bool)
    modifies context.tempData, context.response, context.response.headers
    ensures calledNext <==> !VersionGateFires(lib, context.request, factory.GetVersion())
    ensures calledNext ==> unchanged(context.tempData, context.response, context.response.headers)
    ensures !calledNext ==>
      && context.tempData.kept == (if context.tempData.keys != {} then context.tempData.keys else old(context.tempData.kept))
      && context.response.headers.entries ==
           old(context.response.headers.entries)[LocationHeader := [RequestedUri(lib, context.request)]]
      && context.response.statusCode == StatusConflict
  {
    if VersionGateFires(lib, context.request, factory.GetVersion()) {
      OnVersionChange(lib, context);
      return false;
    }
    return true;
  }

  /** A non-Inertia request, or any method but GET, always passes the gate. */
  lemma GateNeedsInertiaGet(lib: Library, req: Request, current: Option<string>)
    requires !IsInertiaRequest(lib, req) || req.httpMethod != "GET"
    ensures !VersionGateFires(lib, req, current)
  {
  }

  /** An Inertia GET carrying exactly the current version passes; one carrying any other version, or none while one is set, is stopped. */
  lemma {:induction false} GateComparesVersions(lib: Library, req: Request, current: Option<string>)
    requires IsInertiaRequest(lib, req) && req.httpMethod == "GET"
    ensures current.Some? && req.Header(VersionHeader) == [current.value] ==> !VersionGateFires(lib, req, current)
    ensures current.Some? && req.Header(VersionHeader) == [] ==> VersionGateFires(lib, req, current)
    ensures current.None? ==> (VersionGateFires(lib, req, current) <==> VersionHeader in req.headers && req.headers[VersionHeader] != [])
  {
  }
}
