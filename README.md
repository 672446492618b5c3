# InertiaCore response core, modelled in Dafny

InertiaCore is the ASP.NET Core adapter for Inertia.js. A controller calls `Inertia.Render(component, props)`. The resulting `Response` becomes one of two things. For an Inertia (XHR) visit it is a JSON page object `{component, version, url, props}`. For a first visit it is the root view carrying that page.

This project models the logic that decides what goes into that page:

- **Shared props.** Props shared per request through `Share` are merged in. Page props win, and shared keys are camel-cased.
- **First visits.** A first visit drops the props that must not load eagerly (Lazy, Optional, Defer).
- **Partial reloads.** A partial reload keeps the props the `X-Inertia-Partial-Data` header names, minus those the `X-Inertia-Partial-Except` header names. Names match case-insensitively.
- **Always props.** Always props of the page come back whatever the filters removed.
- **Resolution.** Every key is camel-cased. Delegates, tasks and prop wrappers are replaced by their results, and nested dictionaries are resolved the same way.
- **Errors.** An `errors` entry built from the model state is always written last.

Where the source disagrees with its own tests (see "## Findings"), the pipeline follows the intended behaviour: Lazy props are dropped on a first visit, and Always and Optional props are resolved through their own Invoke. As written, Response.cs:85-88 keeps Lazy props on a first visit, and Response.cs:152-158 sends Always and Optional wrappers unresolved. `PartialReload.FirstLoadFilterAsWritten` and `PropResolution.DispatchAsWritten` are the code as written.

The project also models the surrounding request handling:

- the JSON-or-view choice and its response headers;
- the location result (409 plus `X-Inertia-Location`, or a plain redirect);
- the asset-version gate of the middleware;
- the action filter that turns redirects after PUT, PATCH and DELETE into 303 See Other (section 15.4.4 of RFC 9110);
- the response factory: the version, rendering, sharing and the wrapper constructors;
- the mutable `merge` flag of Defer and Merge props.

Modules follow the source files:

| module (file) | source |
|---|---|
| `Props` (props.dfy) | InertiaCore/Props/*.cs: the prop value and the wrapper kinds |
| `Mergeable` (mergeable.dfy) | DeferProp, MergeProp and Mergeable as classes with a mutable `merge` |
| `SharedData` (shared_data.dfy) | InertiaSharedData |
| `Extensions` (extensions.dfy) | InertiaExtensions |
| `PartialReload`, `PropResolution`, `Response` | Response.cs |
| `Factory` (response_factory.dfy) | ResponseFactory |
| `Location` (location.dfy) | LocationResult |
| `VersionGate` (version_gate.dfy) | Configure.cs |
| `ActionFilter` (action_filter.dfy) | InertiaActionFilter |
| `Findings` (findings.dfy) | the three defects below |
| `Http` (http.dfy) | the slice of ASP.NET Core the core touches |
| `Platform`, `Wrappers` | library calls, string splitting, Option and Result |

Some framework behaviour is abstracted or turned into parameters:

- **Library calls are uninterpreted.** `JsonNamingPolicy.CamelCase`, `StringComparer.OrdinalIgnoreCase`, `String.Trim`, `bool.TryParse` and `Uri.UnescapeDataString` are fields of `Platform.Library`, passed as a parameter. Nothing is assumed about them; in particular, camel-casing is not assumed idempotent or injective.
- **Delegates are descriptions.** A delegate is a `Callback(id, result)`. Invoking it yields `result` (awaited when asynchronous). The id feeds the ghost invocation log `PropResolution.Calls`, which is how "never invoked" is stated.
- **Exceptions become values.** A `ToDictionary` or `Add` that would throw on a duplicate key is a `Failure(DuplicateKey)` result or a `thrown` flag. On that path the state is left unchanged.
- **One store per request.** `HttpContext.sharedData` stands for `Features.Get<InertiaSharedData>()`.

## Model

| member | source | states |
|---|---|---|
| Props.PropValue.Invoke | InertiaCore/Props/AlwaysProp.cs:12-24 | a wrapper over a sync or async callback yields the callback's (awaited) result; an InvokableProp kind also awaits a task; any other inner value is returned unchanged |
| Props.InvokeInvokable | InertiaCore/Props/InvokableProp.cs:9-18 | async callable gives its awaited result, sync callable its return value, a task its result, anything else itself; the async arm is tried first so an async callback is never returned as a task |
| Props.InvokeDelegate | InertiaCore/Props/OptionalProp.cs:12-24 | AlwaysProp/OptionalProp Invoke: async and sync callables give their results; anything else, a task included, is returned as is |
| Props.AlwaysProp | InertiaCore/Props/AlwaysProp.cs:7-10 | wraps any value; never suppressed on first load, not an InvokableProp; invoking gives the callback result or the value itself |
| Props.LazyProp | InertiaCore/Props/LazyProp.cs:5-11 | built only from a sync or async callback; an InvokableProp; invoking gives the callback's result |
| Props.OptionalProp | InertiaCore/Props/OptionalProp.cs:9-10 | built only from a sync or async callback; declares IIgnoresFirstLoad; invoking gives the callback's result |
| Mergeable.DeferProp.constructor | InertiaCore/Props/DeferProp.cs:7-23 | Group() is the group given and `merge` starts false; the prop is suppressed on first load and invokable |
| Mergeable.DeferProp.Merge | InertiaCore/Props/DeferProp.cs:25-30 | sets `merge`, returns the same object, and changes nothing else of the prop |
| Mergeable.MergeProp.constructor | InertiaCore/Props/MergeProp.cs:7-22 | ShouldMerge() is true after construction; the prop is invokable and not suppressed on first load |
| Mergeable.MergeProp.Merge | InertiaCore/Utils/Mergeable.cs:7-14 | the default Merge sets `merge`, returns `this`, and ShouldMerge() then reads true |
| Mergeable.MergeTwice | InertiaCore/Props/DeferProp.cs:25-30 | calling Merge twice equals calling it once |
| Platform.Split | InertiaCore/Extensions/InertiaExtensions.cs:29 | `Split(',')` gives at least one piece and no piece contains the separator |
| Platform.JoinSplit | InertiaCore/Extensions/InertiaExtensions.cs:29 | joining the pieces of a split with the separator gives back the string |
| Platform.SplitJoin | InertiaCore/Extensions/InertiaExtensions.cs:29 | splitting separator-free pieces joined with the separator gives back the pieces |
| SharedData.InertiaSharedData.constructor | InertiaCore/Utils/InertiaSharedData.cs:7 | a new store has no `Data` |
| SharedData.InertiaSharedData.GetMerged | InertiaCore/Utils/InertiaSharedData.cs:9-20 | the result has every stored key camel-cased plus every key of `with` verbatim; `with` values win; every other value is the value of a stored key with that camel-cased name; `Data` is read, not written |
| SharedData.MergeWithoutStoreIsCopy | InertiaCore/Utils/InertiaSharedData.cs:13-17 | with no `Data`, the merge is a copy of `with` |
| SharedData.MergeIsUnique | InertiaCore/Utils/InertiaSharedData.cs:13-17 | when no two stored keys camel-case alike, the merge is fully determined (enumeration order matters only on a collision) |
| SharedData.InertiaSharedData.Merge | InertiaCore/Utils/InertiaSharedData.cs:22 | `Data` becomes a merge of `with` over the old `Data` |
| SharedData.InertiaSharedData.Set | InertiaCore/Utils/InertiaSharedData.cs:24-28 | creates `Data` when missing and maps camelCase(key) to value, all other entries unchanged |
| Http.AsNullableString | InertiaCore/Extensions/InertiaExtensions.cs:42 | the implicit conversion of header values to `string?`: null exactly when there is no value, otherwise their text as `ToString()` gives it (a single value as is, several joined by commas with empty ones skipped) |
| Http.ValuesRoundTrip | InertiaCore/Response.cs:106-107 | non-empty, comma-free header values come back from the header text by splitting at commas |
| Http.EmptyValueSkipped | InertiaCore/Response.cs:106-107 | among several header values, an empty one changes nothing in the text |
| Http.MutableMap.Put | InertiaCore/Extensions/InertiaExtensions.cs:52 | the indexer inserts or replaces one entry |
| Http.MutableMap.Add | InertiaCore/Utils/InertiaActionFilter.cs:35 | adds the entry when the key is new; throws, changing nothing, when it is present |
| Http.TempData.Keep | InertiaCore/Extensions/Configure.cs:70 | every temp-data entry is kept |
| Extensions.NonEmpty | InertiaCore/Response.cs:109 | keeps exactly the non-empty names, and is the identity when none is empty |
| Extensions.NonEmptyConcat | InertiaCore/Response.cs:109 | the filter works piece by piece: on a concatenation it filters each part in place, keeping order and repeats |
| Extensions.KeepMatching | InertiaCore/Response.cs:112-113 | keeps exactly the props some token names ignoring case, with their values |
| Extensions.DropMatching | InertiaCore/Response.cs:127-128 | keeps exactly the props no token names ignoring case, with their values |
| Extensions.KeepDropPartition | InertiaCore/Extensions/InertiaExtensions.cs:11-25 | the kept and the dropped props are disjoint and together are all the props |
| Extensions.UnknownTokenIgnored | InertiaCore/Response.cs:104-129 | a name matching no prop changes neither filter |
| Extensions.OnlyProps | InertiaCore/Extensions/InertiaExtensions.cs:11-17 | keeps exactly the props some trimmed header token names ignoring case, unchanged |
| Extensions.ExceptProps | InertiaCore/Extensions/InertiaExtensions.cs:19-25 | keeps exactly the props no trimmed header token names ignoring case, unchanged |
| Extensions.GetPartialData | InertiaCore/Extensions/InertiaExtensions.cs:27-31 | a missing header gives no names; every name is non-empty and comma-free |
| Extensions.PartialDataLosesOnlyCommas | InertiaCore/Extensions/InertiaExtensions.cs:27-31 | the names, concatenated, are the first header value with its commas removed: split without trimming, only empty pieces dropped |
| Extensions.PartialDataRoundTrip | InertiaCore/Extensions/InertiaExtensions.cs:27-31 | when the first header value has no empty piece, the names are its comma pieces in order and join back to it |
| Extensions.IsInertiaPartialComponent | InertiaCore/Extensions/InertiaExtensions.cs:33-34 | true exactly when the partial-component header is present with the single value `component` |
| Extensions.PartialComponentIsExact | InertiaCore/Extensions/InertiaExtensions.cs:33-34 | the partial-component check is exact, case-sensitive equality: it needs the header and matches one component only |
| Extensions.IsInertiaRequest | InertiaCore/Extensions/InertiaExtensions.cs:41-44 | true exactly when the `X-Inertia` header is present and its text parses as a boolean, so "false" counts too |
| Extensions.Override | InertiaCore/Extensions/InertiaExtensions.cs:48-58 | afterwards `dict[key] == value`, every other entry unchanged; returns whether the key existed |
| PartialReload.FirstLoadFilter | InertiaCore/Response.cs:85-88 | corrected: a first load keeps exactly the props that are not Lazy, Optional or Defer, with their values |
| PartialReload.FirstLoadFilterAsWritten | InertiaCore/Response.cs:85-88 | as written: keeps exactly the props that do not declare IIgnoresFirstLoad (only Optional and Defer do) |
| PartialReload.PartialNames | InertiaCore/Response.cs:106-110 | the header's comma pieces, trimmed, without empty ones |
| PartialReload.ResolveOnly | InertiaCore/Response.cs:104-114 | keeps exactly the props a trimmed, non-empty `only` name matches ignoring case, with their values |
| PartialReload.ResolveExcept | InertiaCore/Response.cs:119-129 | keeps exactly the props no trimmed, non-empty `except` name matches ignoring case, with their values |
| PartialReload.ResolvePartialProperties | InertiaCore/Response.cs:81-99 | never adds a key or changes a value; without a partial reload of this component it is the first-load filter |
| PartialReload.PartialReloadKeeps | InertiaCore/Response.cs:90-99 | on a partial reload a prop is kept exactly when `only` (if sent) names it and `except` (if sent) does not |
| PartialReload.PartialReloadWithoutFiltersCopies | InertiaCore/Response.cs:90-99 | a partial reload with neither header keeps every prop, suppressed ones included |
| PartialReload.AlwaysProps | InertiaCore/Response.cs:136 | exactly the Always props, unchanged |
| PartialReload.ResolveAlways | InertiaCore/Response.cs:134-141 | the non-Always filtered props plus every Always prop of the page's own props, each with its value; throws exactly when a key is on both sides |
| PropResolution.Dispatch | InertiaCore/Response.cs:152-158 | corrected switch: callables give their results, tasks their awaited value, every prop wrapper its own Invoke(); any other value stays |
| PropResolution.DispatchAsWritten | InertiaCore/Response.cs:152-158 | the switch as written: a wrapper that is not an InvokableProp (Always, Optional) stays unchanged; on every other value it agrees with the corrected switch |
| PropResolution.ResolveValue | InertiaCore/Response.cs:152-163 | callables, tasks and prop wrappers become their results, other values stay; a dictionary result comes back as a dictionary of its camel-cased keys |
| PropResolution.ResolveValueNested | InertiaCore/Response.cs:159-163 | a dictionary result is resolved in turn: each of its values is resolved, at any depth, and sent under its camel-cased key |
| PropResolution.ResolvePropertyInstances | InertiaCore/Response.cs:146-167 | succeeds exactly when no two keys camel-case alike and every value resolves; then the keys are the camel-cased keys and each holds its value's resolution |
| PropResolution.ResolveValueSucceeds | InertiaCore/Response.cs:146-167 | resolving a value throws exactly when some dictionary it reaches, at any depth, has two keys that camel-case alike |
| PropResolution.ResolvePropertyInstancesSucceeds | InertiaCore/Response.cs:146-167 | resolving a dictionary throws exactly when it, or a dictionary reached from one of its values, has two keys that camel-case alike |
| PropResolution.CollidingKeysFail | InertiaCore/Response.cs:166 | two keys with one camel-cased name make resolution throw |
| Response.SharedMergeKeepsPageProps | InertiaCore/Utils/InertiaSharedData.cs:17 | every page prop is in the merged props with its own value |
| Response.ResolveProperties | InertiaCore/Response.cs:54-64 | succeeds exactly when the selection does and every dictionary it reaches camel-cases its keys apart; then the names are the camel-cased selected keys, each holding its prop resolved |
| Response.SelectionAfterMerge | InertiaCore/Response.cs:54-64 | after a shared merge ResolveAlways never throws; the selection is the page's Always props plus the non-Always survivors of the filter, all with their merged values |
| Response.FirstLoadSelection | InertiaCore/Response.cs:81-88 | a first load selects exactly the unsuppressed props, an Always one only if the page itself has it |
| Response.PartialSelection | InertiaCore/Response.cs:90-141 | a partial reload selects the page's Always props and exactly the other props `only` names and `except` does not |
| Response.UnselectedNeverInvoked | InertiaCore/Response.cs:54-64 | a delegate belonging only to a prop left out of the selection is never invoked |
| Response.SuppressedNotInvokedOnFirstLoad | InertiaCore/Response.cs:85-88 | a Lazy, Optional or Defer prop is neither sent nor invoked on a first load |
| Response.UnrequestedNotInvokedOnPartialReload | InertiaCore/Response.cs:104-114 | a non-Always prop `only` does not name is neither sent nor invoked |
| Response.AlwaysSurvivesExcept | InertiaCore/Response.cs:134-141 | a page Always prop named by `except` is still selected, with its value |
| Response.SharedOnlyAlwaysDropped | InertiaCore/Response.cs:136 | an Always prop only shared data holds is never selected |
| Response.GetErrors | InertiaCore/Response.cs:199-206 | empty for a valid model state; otherwise each field's camel-cased name maps to its first message or "", throwing when two fields camel-case alike |
| Response.PageProps | InertiaCore/Response.cs:34-49 | succeeds exactly when resolution and GetErrors do; the names are the resolved ones plus `errors`, every other name keeping its resolved value |
| Response.ErrorsAlwaysPresent | InertiaCore/Response.cs:46 | `errors` is always on the page, holding GetErrors' dictionary (empty when valid), even over a prop named `errors` |
| Response.PagePropNames | InertiaCore/Response.cs:34-49 | the page's names are the camel-cased selected keys plus `errors` |
| Response.PagePropsSucceed | InertiaCore/Response.cs:34-64 | after a shared merge, building the page props throws exactly when a dictionary the selected props reach has two keys that camel-case alike, or the model state is invalid and two of its fields do |
| Response.Response.constructor | InertiaCore/Response.cs:24-25 | a response holds its component, props, root view and version, with no context and no page |
| Response.Response.SetContext | InertiaCore/Response.cs:208 | stores the context, nothing else |
| Response.Response.ProcessResponse | InertiaCore/Response.cs:34-49 | the page is the component, version, requested URI and the page props of the shared merge `merged`; when resolution throws no page is kept |
| Response.Response.GetJson | InertiaCore/Response.cs:169-180 | overrides `X-Inertia: true` then `Vary: Accept`, sets 200, returns the page as JSON |
| Response.Response.GetView | InertiaCore/Response.cs:182-195 | the root view with the page as model |
| Response.Response.GetResult | InertiaCore/Response.cs:197 | JSON exactly for an Inertia request (with GetJson's header and status effects); otherwise the view with the response untouched |
| Response.Response.ExecuteResult | InertiaCore/Response.cs:27-32 | sets the context and builds the page as ProcessResponse does; unless resolution threw, returns JSON for an Inertia request (`X-Inertia: true`, `Vary: Accept`, 200) and otherwise the view with the response untouched; when it threw, nothing of the response changes |
| Location.LocationResult.constructor | InertiaCore/Utils/LocationResult.cs:11 | keeps the URL |
| Location.LocationResult.ExecuteResult | InertiaCore/Utils/LocationResult.cs:13-23 | Inertia request: `X-Inertia-Location` overridden with the URL and 409 Conflict; otherwise a redirect to the URL with headers untouched |
| Location.ExecuteTwice | InertiaCore/Utils/LocationResult.cs:17 | executing twice leaves one location value, replaced rather than duplicated |
| Factory.ResolveVersion | InertiaCore/ResponseFactory.cs:96-101 | a string version as is, a `Func<string>` invoked, null for anything else |
| Factory.ResponseFactory.constructor | InertiaCore/ResponseFactory.cs:39-42 | no version is set |
| Factory.ResponseFactory.GetVersion | InertiaCore/ResponseFactory.cs:96-101 | a version exactly for a string or an invoked `Func<string>` with a result; a string as is |
| Factory.ResponseFactory.Version | InertiaCore/ResponseFactory.cs:94-101 | after Version(v), GetVersion depends on v alone |
| Factory.ResponseFactory.Render | InertiaCore/ResponseFactory.cs:44-49 | a fresh response with the root view and the version at render time; missing props become an empty dictionary |
| Factory.ResponseFactory.Location | InertiaCore/ResponseFactory.cs:103 | a fresh location result for the URL |
| Factory.ResponseFactory.Share | InertiaCore/ResponseFactory.cs:105-114 | creates the store when missing and sets camelCase(key) to value in it |
| Factory.ResponseFactory.ShareDictionary | InertiaCore/ResponseFactory.cs:116-125 | creates the store when missing and merges the dictionary into it |
| Factory.ShareTwice | InertiaCore/ResponseFactory.cs:105-114 | sharing one key twice: the last value wins |
| Factory.Always | InertiaCore/ResponseFactory.cs:129-131 | an Always prop wrapping the argument unchanged |
| Factory.Lazy | InertiaCore/ResponseFactory.cs:127-128 | a Lazy prop wrapping the callback unchanged |
| Factory.Optional | InertiaCore/ResponseFactory.cs:132-133 | an Optional prop wrapping the callback unchanged |
| VersionGate.OnVersionChange | InertiaCore/Extensions/Configure.cs:65-76 | keeps temp data when there is any, overrides the location header with the requested URI, sets 409 |
| VersionGate.Middleware | InertiaCore/Extensions/Configure.cs:24-35 | the next middleware runs exactly when the gate does not fire, and then nothing changes; otherwise OnVersionChange's effects |
| VersionGate.VersionGateFires | InertiaCore/Extensions/Configure.cs:26-28 | fires exactly for an Inertia GET whose version header is not the one value of the current version (or, with no version set, is not missing) |
| VersionGate.GateNeedsInertiaGet | InertiaCore/Extensions/Configure.cs:26-28 | non-Inertia requests and non-GET methods always pass |
| VersionGate.GateComparesVersions | InertiaCore/Extensions/Configure.cs:26-28 | an Inertia GET with exactly the current version passes; a missing version header is stopped when a version is set; with no version set, any version value is stopped |
| ActionFilter.DestinationUrl | InertiaCore/Utils/InertiaActionFilter.cs:25-32 | a RedirectResult's own URL; the URL helper's answer for action, page and route redirects; none for any other result |
| ActionFilter.OnActionExecuted | InertiaCore/Utils/InertiaActionFilter.cs:20-37 | an Inertia PUT/PATCH/DELETE redirect gets `Location` added and becomes 303 (throwing, with nothing changed, if `Location` is already there); everything else is untouched |
| ActionFilter.RedirectKindsRewritten | InertiaCore/Utils/InertiaActionFilter.cs:22-34 | for an Inertia PUT/PATCH/DELETE, the filter acts exactly on redirects that resolve to a URL, and always on a RedirectResult |
| ActionFilter.GetAndPostUntouched | InertiaCore/Utils/InertiaActionFilter.cs:22-23 | GET and POST results are never rewritten |
| Findings.AlwaysUnresolvedAsWritten | InertiaCore/Props/AlwaysProp.cs:3 | as written, resolution passes an Always prop through as the wrapper, not its callback's result |
| Findings.OptionalUnresolvedAsWritten | InertiaCore/Props/OptionalProp.cs:5 | as written, resolution passes an Optional prop through as the wrapper |
| Findings.LazyKeptOnFirstLoadAsWritten | InertiaCore/Props/LazyProp.cs:3 | as written, the first-load filter keeps a Lazy prop and its callback runs |
| Findings.AlwaysResolvedOnEveryLoad | InertiaCore/Response.cs:134-167 | corrected: a page Always prop over a callback is selected on every visit, and whenever resolution succeeds it is sent as the callback's result |
| Findings.OptionalResolvedWhenRequested | InertiaCore/Response.cs:90-167 | corrected: an Optional prop that `only` names and `except` (if sent) does not is selected on a partial reload, and whenever resolution succeeds it is sent as its callback's result |
| Findings.LazyNotInvokedOnFirstLoad | InertiaCore/Response.cs:85-88 | corrected: a Lazy prop is neither sent nor invoked on a first load |

## Left out

- Concurrency is not modelled. `Task.WhenAll`, `Task.Run` and sync-over-async waits are evaluated as sequential calls of deterministic callbacks. A callback's effects and exceptions are not modelled.
- Serialization and HTML are left out. This covers the JSON serializer, the view engine, `ResponseFactory.Head`/`Html` (server-side rendering), the Vite helpers, `Response.WithViewData`, and the view data and model state that GetView puts in the `ViewDataDictionary`.
- Turning an anonymous `props` object into a dictionary by reflection is left out. Props are taken as a map.
- The `MergeProps`, `DeferredProps` and history flags of the page object are left out. No code in the modelled files computes them.
- Header-name case-insensitivity is abstracted. Headers are looked up by exact name.
- Header values are never null. A null entry in `StringValues`, which `ToString()` skips like an empty one, is not modelled.
- Extensions.RequestedUri applies the uninterpreted `Uri.UnescapeDataString` to the encoded path and query, so it has no property of its own to state. Its effects show in OnVersionChange and ProcessResponse.
- The URL helper, `Response.CompleteAsync` and executing a delegated action result (status codes, redirects) are framework calls. The URL helper is the `UrlHelper` parameter, and the delegated result is returned rather than executed.
- Service registration is left out. This covers `AddInertia`, `AddViteHelper`, the rest of `UseInertia`, and the static `Inertia` facade.
- InertiaActionFilter.OnActionExecuting has an empty body, so it has no behaviour to model.
- Response.cs:71 reads the request feature `InertiaSharedProps`, whose definition is not part of this model. `ResponseFactory.Share` stores an `InertiaSharedData`. The model reads the store that `Share` writes.
- The `Header` class that InertiaExtensions.cs and Configure.cs refer to is not part of this model. Its names are taken to be the constants of InertiaCore/Utils/InertiaHeader.cs.
- `ResolveAsync`, `ResolveResult` and `IIgnoresFirstLoad` are not part of this model. A `Func<Task<object?>>` is treated as an async delegate whose awaited result is used, and a finished task yields its result.
- PropResolution.ResolvePropertyInstances: no partial results are modelled after an exception; any duplicate key or nested failure fails the whole resolution.
- Response.Response.ProcessResponse: the shared store's enumeration order is left open. When two stored keys camel-case alike, the contract only says the value comes from one of them.
- Factory.ResponseFactory.Render: `props` is a dictionary or null. The `new { }` default is the empty dictionary.
- The superseded copies of the classes (the repository root and InertiaCore/Utils/*Prop.cs) are left out.

## Findings

| source | as written | input that shows it | evidently intended | confidence | as-written member | corrected member |
|---|---|---|---|---|---|---|
| InertiaCore/Props/AlwaysProp.cs:3 | AlwaysProp is not an InvokableProp, so the value switch of Response.cs:152-158 falls to its default arm and the wrapper object itself is sent | `Always(() => "Always")` on a first load; InertiaCoreTests/UnitTestAlwaysData.cs:26-32 expects `"Always"` | the Always prop is resolved through its own Invoke | not executed | Findings.AlwaysUnresolvedAsWritten | Findings.AlwaysResolvedOnEveryLoad |
| InertiaCore/Props/OptionalProp.cs:5 | OptionalProp is not an InvokableProp either, so a requested optional prop is sent as the wrapper | `Optional(() => "Optional")` named in `X-Inertia-Partial-Data`; InertiaCoreTests/UnitTestOptionalData.cs:61-66 expects `"Optional"` | the Optional prop is resolved through its own Invoke | not executed | Findings.OptionalUnresolvedAsWritten | Findings.OptionalResolvedWhenRequested |
| InertiaCore/Props/LazyProp.cs:3 | LazyProp does not declare IIgnoresFirstLoad, so the first-load filter of Response.cs:85-88 keeps it and its callback runs | `Lazy(() => { Assert.Fail(); ... })` on a first load; InertiaCoreTests/UnitTestLazyData.cs:16-35 expects it absent and not run | Lazy props are suppressed on first load like Optional and Defer | not executed | Findings.LazyKeptOnFirstLoadAsWritten | Findings.LazyNotInvokedOnFirstLoad |
