/**
 * The slice of ASP.NET Core the core reads and writes: request headers, the response's headers
 * and status code, temp data, the request features holding the shared store, model state, and
 * the action results a response or filter produces. Header names are the constants of
 * InertiaCore/Utils/InertiaHeader.cs; the page descriptor is InertiaCore/Models/Page.cs.
 */
module Http {
  import opened Wrappers
  import opened Platform
  import opened Props
  import opened SharedData

  const InertiaHeader := "X-Inertia"
  const ErrorBagHeader := "X-Inertia-Error-Bag"
  const LocationHeader := "X-Inertia-Location"
  const VersionHeader := "X-Inertia-Version"
  const PartialComponentHeader := "X-Inertia-Partial-Component"
  const PartialOnlyHeader := "X-Inertia-Partial-Data"
  const PartialExceptHeader := "X-Inertia-Partial-Except"

  const StatusOk := 200
  /** 303 See Other (HttpStatusCode.RedirectMethod), section 15.4.4 of RFC 9110. */
  const StatusSeeOther := 303
  /** 409 Conflict, section 15.5.10 of RFC 9110. */
  const StatusConflict := 409

  /** The values of one header (StringValues); a missing header has none. */
  type StringValues = seq<string>

  /**
   * How StringValues joins two or more values: the non-empty ones, separated by commas
   * (an entry that is empty adds neither text nor a comma).
   */
  function JoinNonEmpty(values: StringValues): (s: string)
    ensures s == "" <==> forall i :: 0 <= i < |values| ==> values[i] == ""
  {
    if values == [] then ""
    else
      var rest := JoinNonEmpty(values[1..]);
      if values[0] == "" then rest
      else if rest == "" then values[0]
      else values[0] + "," + rest
  }

  /** The values as one string: a single value as it is, several through JoinNonEmpty. */
  function JoinValues(values: StringValues): string
    requires |values| >= 1
  {
    if |values| == 1 then values[0] else JoinNonEmpty(values)
  }

  /** `StringValues.ToString()`: empty string, the single value, or the non-empty values joined by commas. */
  function AsText(values: StringValues): string {
    if values == [] then "" else JoinValues(values)
  }

  /** The implicit conversion `StringValues` to `string?`: null when there is no value. */
  function AsNullableString(values: StringValues): (s: Option<string>)
    ensures s.None? <==> values == []
    ensures s.Some? ==> s.value == AsText(values)
  {
    if values == [] then None else Some(JoinValues(values))
  }

  /** Non-empty, comma-free values are joined exactly as `string.Join(",", values)` would. */
  lemma {:induction false} JoinNonEmptyPlain(values: StringValues)
    requires |values| >= 1
    requires forall i :: 0 <= i < |values| ==> values[i] != ""
    ensures JoinNonEmpty(values) == Join(values, ',')
  {
    if |values| > 1 {
      JoinNonEmptyPlain(values[1..]);
      assert values[1..][0] == values[1];
    }
  }

  /** Header values that are non-empty and comma-free come back from their text by splitting at commas. */
  lemma ValuesRoundTrip(values: StringValues)
    requires |values| >= 1
    requires forall i :: 0 <= i < |values| ==> values[i] != "" && ',' !in values[i]
    ensures Split(AsText(values), ',') == values
  {
    if |values| > 1 {
      JoinNonEmptyPlain(values);
    }
    SplitJoin(values, ',');
  }

  lemma {:induction false} JoinNonEmptyDrop(values: StringValues, i: nat)
    requires i < |values| && values[i] == ""
    ensures JoinNonEmpty(values) == JoinNonEmpty(values[..i] + values[i + 1..])
  {
    var rest := values[..i] + values[i + 1..];
    if i == 0 {
      assert rest == values[1..];
    } else {
      JoinNonEmptyDrop(values[1..], i - 1);
      assert rest[0] == values[0];
      assert rest[1..] == values[1..][..i - 1] + values[1..][i..];
    }
  }

  /** An empty entry among several values leaves the text as it is, down to a single remaining value. */
  lemma EmptyValueSkipped(values: StringValues, i: nat)
    requires |values| >= 2 && i < |values| && values[i] == ""
    ensures AsText(values) == AsText(values[..i] + values[i + 1..])
  {
    JoinNonEmptyDrop(values, i);
    var rest := values[..i] + values[i + 1..];
    if |rest| == 1 {
      assert rest[1..] == [];
    }
  }

  /** `new StringValues(s)` for a nullable string: no value for null. */
  function FromNullable(s: Option<string>): StringValues {
    if s.None? then [] else [s.value]
  }

  datatype Request = Request(httpMethod: string, encodedPathAndQuery: string, headers: map<string, StringValues>) {
    /** `Headers[name]`: the values, or none when the header is missing. */
    function Header(name: string): StringValues {
      if name in headers then headers[name] else []
    }
  }

  /** Models/Page.cs. */
  datatype Page = Page(component: string, version: Option<string>, url: string, props: map<string, Value>)

  /** An opaque route, page or action target; turning it into a URL is the framework's URL helper. */
  datatype RouteTarget = RouteTarget(id: nat)

  /** The IActionResult kinds the core creates or inspects. */
  datatype ActionResult =
    | JsonResult(page: Option<Page>)
    | ViewResult(viewName: string, model: Option<Page>)
    | StatusCodeResult(statusCode: int)
    | RedirectResult(url: string)
    | RedirectToActionResult(target: RouteTarget)
    | RedirectToPageResult(target: RouteTarget)
    | RedirectToRouteResult(target: RouteTarget)
    | OtherResult(handle: nat)

  /** A mutable dictionary (IDictionary / IHeaderDictionary). */
  class MutableMap<K(==), V> {
    var entries: map<K, V>

    constructor (initial: map<K, V>)
      ensures entries == initial
    {
      entries := initial;
    }

    /** The indexer setter: inserts or replaces. */
    method Put(key: K, value: V)
      modifies this
      ensures entries == old(entries)[key := value]
    {
      entries := entries[key := value];
    }

    /** `Add`: throws (returns false, changing nothing) when the key is already present. */
    method Add(key: K, value: V) returns (added: bool)
      modifies this
      ensures added <==> key !in old(entries)
      ensures entries == if added then old(entries)[key := value] else old(entries)
      ensures !added ==> unchanged(this)
    {
      added := key !in entries;
      if added {
        entries := entries[key := value];
      }
    }
  }

  class HttpResponse {
    const headers: MutableMap<string, StringValues>
    var statusCode: int

    constructor (headers: MutableMap<string, StringValues>)
      ensures this.headers == headers && statusCode == StatusOk
    {
      this.headers := headers;
      statusCode := StatusOk;
    }
  }

  /** Temp data: `Keep()` retains every entry for the next request. */
  class TempData {
    const keys: set<string>
    var kept: set<string>

    constructor (keys: set<string>)
      ensures this.keys == keys && kept == {}
    {
      this.keys := keys;
      kept := {};
    }

    method Keep()
      modifies this
      ensures kept == keys
    {
      kept := keys;
    }
  }

  class HttpContext {
    const request: Request
    const response: HttpResponse
    const tempData: TempData
    /** `Features.Get<InertiaSharedData>()` */
    var sharedData: InertiaSharedData?

    constructor (request: Request, response: HttpResponse, tempData: TempData)
      ensures this.request == request && this.response == response && this.tempData == tempData
      ensures sharedData == null
    {
      this.request := request;
      this.response := response;
      this.tempData := tempData;
      sharedData := null;
    }
  }

  /** Model state as the core reads it: validity, and each field's error messages in order. */
  datatype ModelState = ModelState(isValid: bool, errors: map<string, seq<string>>)

  class ActionContext {
    const http: HttpContext
    const modelState: ModelState

    constructor (http: HttpContext, modelState: ModelState)
      ensures this.http == http && this.modelState == modelState
    {
      this.http := http;
      this.modelState := modelState;
    }
  }

  /** The context of an action filter after the action ran: its result can be replaced. */
  class ActionExecutedContext {
    const http: HttpContext
    var result: ActionResult

    constructor (http: HttpContext, result: ActionResult)
      ensures this.http == http && this.result == result
    {
      this.http := http;
      this.result := result;
    }
  }
}
