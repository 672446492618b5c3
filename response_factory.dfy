/**
 * The response factory (InertiaCore/ResponseFactory.cs): the asset version, rendering, sharing
 * props through the per-request store, and the wrapper constructors.
 */
module Factory {
  import opened Wrappers
  import opened Platform
  import opened Props
  import opened SharedData
  import opened Http
  import opened Response
  import opened Location

  /** What `Version(object?)` may be given. */
  datatype VersionSource =
    | NullVersion                         // null
    | VersionString(s: string)            // a string
    | VersionFunc(invoked: Option<string>) // a Func<string>; invoking it yields a possibly null string
    | OtherVersion(handle: nat)           // any other object

  /** The version a source stands for: a string as is, a function's result, and null otherwise. */
  function ResolveVersion(source: VersionSource): (v: Option<string>)
    ensures v.Some? <==> source.VersionString? || (source.VersionFunc? && source.invoked.Some?)
    ensures source.VersionString? ==> v == Some(source.s)
    ensures source.VersionFunc? ==> v == source.invoked
  {
    match source
    case VersionFunc(invoked) => invoked
    case VersionString(s) => Some(s)
    case _ => None
  }

  class ResponseFactory {
    const rootView: string
    var version: VersionSource

    constructor (rootView: string)
      ensures this.rootView == rootView && version == NullVersion
    {
      this.rootView := rootView;
      version := NullVersion;
    }

    /** Version: after it, GetVersion depends on `v` alone. */
    method Version(v: VersionSource)
      modifies this
      ensures version == v && GetVersion() == ResolveVersion(v)
    {
      version := v;
    }

    function GetVersion(): (v: Option<string>)
      reads this
      ensures v.Some? <==> version.VersionString? || (version.VersionFunc? && version.invoked.Some?)
      ensures version.VersionString? ==> v == Some(version.s)
    {
      ResolveVersion(version)
    }

    /** Render: missing props become an empty dictionary; the version is read at render time. */
    method Render(component: string, props: Option<map<string, Value>>) returns (r: Response)
      ensures fresh(r)
      ensures r.component == component && r.rootView == rootView && r.version == GetVersion()
      ensures r.props == if props.None? then map[] else props.value
      ensures r.context == null && r.page == None
    {
      r := new Response(component, props.GetOr(map[]), rootView, GetVersion());
    }

    method Location(url: string) returns (r: LocationResult)
      ensures fresh(r) && r.url == url
    {
      r := new LocationResult(url);
    }

    /** Share(key, value): creates the request's store when missing and stores `value` under the camel-cased key. */
    method Share(lib: Library, context: HttpContext, key: string, value: Value)
      modifies context, context.sharedData
      ensures context.sharedData != null
      ensures old(context.sharedData) != null ==> context.sharedData == old(context.sharedData)
      ensures old(context.sharedData) == null ==> fresh(context.sharedData)
      ensures context.sharedData.data == Some(OrEmpty(old(StoreData(context.sharedData)))[lib.camelCase(key) := value])
    {
      var store := context.sharedData;
      if store == null {
        store := new InertiaSharedData();
      }
      store.Set(lib, key, value);
      context.sharedData := store;
    }

    /** Share(dictionary): creates the request's store when missing and merges `data` into it. */
    method ShareDictionary(lib: Library, context: HttpContext, data: map<string, Value>)
      modifies context, context.sharedData
      ensures context.sharedData != null
      ensures old(context.sharedData) != null ==> context.sharedData == old(context.sharedData)
      ensures old(context.sharedData) == null ==> fresh(context.sharedData)
      ensures context.sharedData.data.Some? && IsMergeOf(lib, old(StoreData(context.sharedData)), data, context.sharedData.data.value)
    {
      var store := context.sharedData;
      if store == null {
        store := new InertiaSharedData();
      }
      store.Merge(lib, data);
      context.sharedData := store;
    }
  }

  /** Always(value), Always(callback): the value or callback wrapped as it is. */
  function Always(value: Value): (p: Value)
    ensures p.IsAlways() && p.prop.inner == value && !p.IsSuppressedOnFirstLoad()
  {
    Prop(AlwaysProp(value))
  }

  /** Lazy(callback): the callback wrapped as it is. */
  function Lazy(callback: Callable): (p: Value)
    ensures p.Prop? && p.prop.kind.Lazy? && p.prop.inner == callback.AsValue() && p.IsSuppressedOnFirstLoad()
  {
    Prop(LazyProp(callback))
  }

  /** Optional(callback): the callback wrapped as it is. */
  function Optional(callback: Callable): (p: Value)
    ensures p.Prop? && p.prop.kind.Optional? && p.prop.inner == callback.AsValue() && p.IsSuppressedOnFirstLoad()
  {
    Prop(OptionalProp(callback))
  }

  /** Two Share calls on one key: the last value wins. */
  method ShareTwice(lib: Library, factory: ResponseFactory, context: HttpContext, key: string, first: Value, second: Value)
    modifies context, context.sharedData
    ensures context.sharedData != null
    ensures context.sharedData.data == Some(OrEmpty(old(StoreData(context.sharedData)))[lib.camelCase(key) := second])
  {
    ghost var before := OrEmpty(old(StoreData(context.sharedData)));
    factory.Share(lib, context, key, first);
    assert StoreData(context.sharedData) == Some(before[lib.camelCase(key) := first]);
    factory.Share(lib, context, key, second);
    assert before[lib.camelCase(key) := first][lib.camelCase(key) := second] == before[lib.camelCase(key) := second];
  }
}
