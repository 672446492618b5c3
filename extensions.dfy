/** Request predicates and header helpers (InertiaCore/Extensions/InertiaExtensions.cs). */
module Extensions {
  import opened Wrappers
  import opened Platform
  import opened Props
  import opened Http

  /** `parts.Select(k => k.Trim())` */
  function TrimAll(lib: Library, parts: seq<string>): (r: seq<string>)
    ensures |r| == |parts|
    ensures forall i :: 0 <= i < |parts| ==> r[i] == lib.trim(parts[i])
  {
    if parts == [] then [] else [lib.trim(parts[0])] + TrimAll(lib, parts[1..])
  }

  /** `parts.Where(s => !string.IsNullOrEmpty(s))` */
  function NonEmpty(parts: seq<string>): (r: seq<string>)
    ensures forall t :: t in r <==> t in parts && t != ""
    ensures "" !in parts ==> r == parts
  {
    if parts == [] then []
    else if parts[0] == "" then NonEmpty(parts[1..])
    else [parts[0]] + NonEmpty(parts[1..])
  }

  /** Filtering a concatenation filters each part in place: order and repetitions are kept. */
  lemma {:induction false} NonEmptyConcat(a: seq<string>, b: seq<string>)
    ensures NonEmpty(a + b) == NonEmpty(a) + NonEmpty(b)
  {
    if a != [] {
      NonEmptyConcat(a[1..], b);
      assert (a + b)[0] == a[0];
      assert (a + b)[1..] == a[1..] + b;
    } else {
      assert a + b == b;
    }
  }

  /** `tokens.Contains(key, StringComparer.OrdinalIgnoreCase)` */
  predicate MatchesAny(lib: Library, tokens: seq<string>, key: string) {
    exists i :: 0 <= i < |tokens| && lib.equalsIgnoreCase(tokens[i], key)
  }

  /** The entries whose key some token names. */
  function KeepMatching(lib: Library, tokens: seq<string>, props: map<string, Value>): (r: map<string, Value>)
    ensures forall k :: k in r <==> k in props && MatchesAny(lib, tokens, k)
    ensures forall k :: k in r ==> r[k] == props[k]
  {
    map k | k in props && MatchesAny(lib, tokens, k) :: props[k]
  }

  /** The entries whose key no token names. */
  function DropMatching(lib: Library, tokens: seq<string>, props: map<string, Value>): (r: map<string, Value>)
    ensures forall k :: k in r <==> k in props && !MatchesAny(lib, tokens, k)
    ensures forall k :: k in r ==> r[k] == props[k]
  {
    map k | k in props && !MatchesAny(lib, tokens, k) :: props[k]
  }

  /** Keeping and dropping by the same tokens split the map in two disjoint halves. */
  lemma KeepDropPartition(lib: Library, tokens: seq<string>, props: map<string, Value>)
    ensures KeepMatching(lib, tokens, props).Keys !! DropMatching(lib, tokens, props).Keys
    ensures KeepMatching(lib, tokens, props) + DropMatching(lib, tokens, props) == props
  {
  }

  /** A token that names no key changes neither filter: unknown names are ignored. */
  lemma {:induction false} UnknownTokenIgnored(lib: Library, tokens: seq<string>, t: string, props: map<string, Value>)
    requires forall k :: k in props ==> !lib.equalsIgnoreCase(t, k)
    ensures KeepMatching(lib, tokens + [t], props) == KeepMatching(lib, tokens, props)
    ensures DropMatching(lib, tokens + [t], props) == DropMatching(lib, tokens, props)
  {
    forall k | k in props
      ensures MatchesAny(lib, tokens + [t], k) <==> MatchesAny(lib, tokens, k)
    {
      if MatchesAny(lib, tokens + [t], k) {
        var i :| 0 <= i < |tokens + [t]| && lib.equalsIgnoreCase((tokens + [t])[i], k);
        assert i < |tokens|;
        assert (tokens + [t])[i] == tokens[i];
      }
      if MatchesAny(lib, tokens, k) {
        var i :| 0 <= i < |tokens| && lib.equalsIgnoreCase(tokens[i], k);
        assert (tokens + [t])[i] == tokens[i];
      }
    }
  }

  /** The trimmed comma-separated names of a header, empty ones kept. */
  function HeaderNames(lib: Library, req: Request, header: string): seq<string> {
    TrimAll(lib, Split(AsText(req.Header(header)), ','))
  }

  /** OnlyProps: the props some trimmed `X-Inertia-Partial-Data` name matches, ignoring case. */
  function OnlyProps(lib: Library, req: Request, props: map<string, Value>): (r: map<string, Value>)
    ensures forall k :: k in r <==> k in props && MatchesAny(lib, HeaderNames(lib, req, PartialOnlyHeader), k)
    ensures forall k :: k in r ==> r[k] == props[k]
  {
    KeepMatching(lib, HeaderNames(lib, req, PartialOnlyHeader), props)
  }

  /** ExceptProps: the props no trimmed `X-Inertia-Partial-Except` name matches, ignoring case. */
  function ExceptProps(lib: Library, req: Request, props: map<string, Value>): (r: map<string, Value>)
    ensures forall k :: k in r <==> k in props && !MatchesAny(lib, HeaderNames(lib, req, PartialExceptHeader), k)
    ensures forall k :: k in r ==> r[k] == props[k]
  {
    DropMatching(lib, HeaderNames(lib, req, PartialExceptHeader), props)
  }

  /** GetPartialData: the first `X-Inertia-Partial-Data` value cut at commas, empty pieces dropped, nothing trimmed. */
  function GetPartialData(req: Request): (names: seq<string>)
    ensures req.Header(PartialOnlyHeader) == [] ==> names == []
    ensures forall t :: t in names ==> t != "" && ',' !in t
  {
    var values := req.Header(PartialOnlyHeader);
    if values == [] then [] else NonEmpty(Split(values[0], ','))
  }

  function Concat(parts: seq<string>): string {
    if parts == [] then "" else parts[0] + Concat(parts[1..])
  }

  function WithoutChar(s: string, c: char): string {
    if s == [] then "" else (if s[0] == c then "" else [s[0]]) + WithoutChar(s[1..], c)
  }

  lemma {:induction false} ConcatSplit(s: string, sep: char)
    ensures Concat(Split(s, sep)) == WithoutChar(s, sep)
  {
    if s != [] {
      ConcatSplit(s[1..], sep);
      var rest := Split(s[1..], sep);
      if s[0] == sep {
        assert Split(s, sep) == [""] + rest;
        assert ([""] + rest)[1..] == rest;
      } else {
        assert Split(s, sep) == [[s[0]] + rest[0]] + rest[1..];
        assert ([[s[0]] + rest[0]] + rest[1..])[1..] == rest[1..];
        assert Concat(rest) == rest[0] + Concat(rest[1..]);
      }
    }
  }

  lemma {:induction false} ConcatNonEmpty(parts: seq<string>)
    ensures Concat(NonEmpty(parts)) == Concat(parts)
  {
    if parts != [] {
      ConcatNonEmpty(parts[1..]);
      if parts[0] != "" {
        assert ([parts[0]] + NonEmpty(parts[1..]))[1..] == NonEmpty(parts[1..]);
      }
    }
  }

  /** The partial-data names, put back together, are the first header value without its commas. */
  lemma PartialDataLosesOnlyCommas(req: Request)
    requires req.Header(PartialOnlyHeader) != []
    ensures Concat(GetPartialData(req)) == WithoutChar(req.Header(PartialOnlyHeader)[0], ',')
  {
    var v := req.Header(PartialOnlyHeader)[0];
    ConcatNonEmpty(Split(v, ','));
    ConcatSplit(v, ',');
  }

  /**
   * When no piece of the first `X-Inertia-Partial-Data` value is empty, the names are its pieces in
   * order: joined back with commas they give the header value itself.
   */
  lemma PartialDataRoundTrip(req: Request)
    requires req.Header(PartialOnlyHeader) != []
    requires "" !in Split(req.Header(PartialOnlyHeader)[0], ',')
    ensures GetPartialData(req) == Split(req.Header(PartialOnlyHeader)[0], ',')
    ensures |GetPartialData(req)| >= 1 && Join(GetPartialData(req), ',') == req.Header(PartialOnlyHeader)[0]
  {
    JoinSplit(req.Header(PartialOnlyHeader)[0], ',');
  }

  /** IsInertiaPartialComponent: the partial-component header is exactly the one value `component` (case-sensitive). */
  function IsInertiaPartialComponent(req: Request, component: string): (r: bool)
    ensures r <==> PartialComponentHeader in req.headers && req.headers[PartialComponentHeader] == [component]
  {
    req.Header(PartialComponentHeader) == [component]
  }

  /** The partial-component check is exact equality: at most one component matches, and none without the header. */
  lemma PartialComponentIsExact(req: Request, a: string, b: string)
    requires IsInertiaPartialComponent(req, a)
    ensures PartialComponentHeader in req.headers
    ensures IsInertiaPartialComponent(req, b) <==> a == b
  {
  }

  /** The requested path and query, unescaped. */
  function RequestedUri(lib: Library, req: Request): string {
    lib.unescapeDataString(req.encodedPathAndQuery)
  }

  /** IsInertiaRequest: the `X-Inertia` header is present and parses as a boolean, whichever boolean. */
  function IsInertiaRequest(lib: Library, req: Request): (r: bool)
    ensures r <==> req.Header(InertiaHeader) != [] && lib.tryParseBool(AsText(req.Header(InertiaHeader)))
  {
    match AsNullableString(req.Header(InertiaHeader))
    case None => false
    case Some(s) => lib.tryParseBool(s)
  }

  /** Override: sets `dictionary[key] = value`; true when the key was already there. */
  method Override<K(==), V>(dictionary: MutableMap<K, V>, key: K, value: V) returns (existed: bool)
    modifies dictionary
    ensures existed <==> key in old(dictionary.entries)
    ensures dictionary.entries == old(dictionary.entries)[key := value]
  {
    if key in dictionary.entries {
      dictionary.Put(key, value);
      existed := true;
    } else {
      var added := dictionary.Add(key, value);
      existed := false;
    }
  }
}
