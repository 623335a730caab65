# axios request pipeline in Dafny

A model of the core of axios, the promise-based HTTP client. It covers the pipeline from the call to
`axios.request` up to the transport and back:

- **Configuration:** the instance defaults are merged with the per-call config by `mergeConfig`'s four key groups. The
  method is then resolved.
- **Interceptors:** request and response interceptors are kept in append-only registries. `request` chains them around
  `dispatchRequest`, either as a promise chain or, when every request interceptor is synchronous, as an eager walk.
- **Dispatch:** `dispatchRequest` checks cancellation, runs the request transforms, flattens the header groups and calls
  the transport. It then routes the transport's answer through the response transforms.
- **Helpers:** `transformData`, `settle`, the default transforms and header table of `defaults.js`, and the small
  utilities they use: `forEach`, `merge`, `extend`, `trim`, `stripBOM`, `normalizeHeaderName`, `combineURLs` and
  `buildFullPath`.

JavaScript values are one datatype (`JsValue.Value`), and plain objects are ordered property lists. Everything the
pipeline calls but does not define is a field of an environment record `JsValue.Env`:
- user functions (interceptor handlers, `runWhen`, transforms, the validator);
- the transport;
- cancel tokens;
- `JSON.stringify` and `JSON.parse`;
- `URLSearchParams.toString`;
- the default adapter.

A call ends as a `Completion`: it returns a value or throws one. A settled promise is described the same way.
Operations that change objects in place return the changed object. The two objects whose fields are updated across
calls, `InterceptorManager` and `Axios`, are classes. Every loop of the source is a method proved equal to a
specification function, and the properties are lemmas about those functions.

Two behaviours of `Axios.prototype.request` are modelled as the code has them:

- In the asynchronous branch, `chain.concat(responseInterceptorChain)` (src/core/Axios.js line 107) discards its result.
  Response interceptors therefore never run when some request interceptor is asynchronous.
  - `AxiosCore.AsyncIgnoresResponse` proves this.
  - `AxiosCore.AsyncRunChained` is the branch with the concatenation kept. `AxiosCore.ChainedRunsResponse` relates the
    two.
- In the synchronous branch, a throwing fulfilled handler calls its own rejected handler and stops the walk.
  `dispatchRequest` then still runs, on the last config produced before the throw (`AxiosCore.WalkStopsAtThrow`).

A transport is selected by `config.adapter`. The code reads `config.adapter` in dispatchRequest (line 40) and
`transport` is just one of the merged keys; the model follows the code.

## Model

| member | source | states |
|---|---|---|
| Utils.ForEach | src/utils.js:247-274 | Nullish values give no calls. A non-object gives one call, (value, 0). An array gives its elements in index order with their indices. A plain object gives its own properties in order, with their names. |
| Utils.Merge | src/utils.js:294-318 | The loop over the arguments builds exactly the merge specification `MergeFields(args)`. |
| Utils.AssignAll | src/utils.js:315 | One `forEach(arguments[i], assignValue)` applies the calls in order, as `AssignVisits`. |
| Utils.MergeOneMore | src/utils.js:313-316 | One more argument changes a key only when it has that key. Then the key holds assignValue's result on the earlier value, and the keys are the union. |
| Utils.MergeAt | src/utils.js:294-318 | The value and presence of every key in the result are the left-to-right fold of that key over the arguments. The keys are the union of all arguments' keys. |
| Utils.MergeLastWins | src/utils.js:300-310 | When a later argument holds a non-object value for a key, that value wins. |
| Utils.MergeDeep | src/utils.js:300-301 | When both the earlier value and the later value of a key are plain objects, they merge recursively, so the keys of both survive. |
| Utils.MergeWellFormed | src/utils.js:294-318 | The result has distinct keys at every nesting level. |
| Utils.MergeCopy | src/utils.js:302-303 | `merge(x)` and `merge({}, x)` rebuild a well-formed plain object as an equal one. |
| Utils.CopyIsIdentity | src/utils.js:302-303 | Copying a well-formed plain object key by key gives it back unchanged. |
| Utils.NewValueCopy | src/utils.js:302-309 | assignValue of a well-formed value on an absent key stores an equal value. |
| Utils.Extend | src/utils.js:329-340 | The loop over `b` assigns into `a` exactly as the specification `ExtendSpec` does, including the throw when `a` cannot take properties. |
| Utils.ExtendCalls | src/utils.js:331-338 | The assignValue calls store each value, bound when needed, in forEach order. The first store that cannot happen throws, as in `ExtendSpec`. |
| Utils.ExtendObj | src/utils.js:329-340 | Every own key of `b` ends up in `a` with `b`'s value, bound to `thisArg` when it is a function and `thisArg` is truthy. Other keys of `a` are unchanged. The keys are the union. |
| Utils.TrimStart | src/utils.js:206-208 | The result is a suffix of the input, and everything removed is whitespace. |
| Utils.TrimStartStops | src/utils.js:206-208 | The result does not start with whitespace. |
| Utils.TrimEnd | src/utils.js:206-208 | The result is a prefix of the input, and everything removed is whitespace. |
| Utils.TrimEndStops | src/utils.js:206-208 | The result does not end with whitespace. |
| Utils.TrimStops | src/utils.js:206-208 | The trimmed string starts and ends with non-whitespace, or is empty. |
| Utils.TrimMiddle | src/utils.js:206-208 | The result is the contiguous middle of the input, and only whitespace is removed on either side. |
| Utils.TrimIdempotent | src/utils.js:206-208 | Trimming twice is trimming once. |
| Utils.StripBOM | src/utils.js:348-353 | The result is the input or the input without its first character. |
| Utils.StripBOMOne | src/utils.js:348-353 | A leading U+FEFF is removed, and only one. |
| Utils.StripBOMNone | src/utils.js:348-353 | The string is unchanged exactly when it does not start with U+FEFF. |
| MergeConfig.MergeConfig | src/core/mergeConfig.js:12-112 | The method equals `MergeConfigSpec`. It throws a TypeError when `config2` (an empty object when missing) is a primitive, because the `in` test cannot search it. Otherwise it fills a fresh object group by group. |
| MergeConfig.ApplyGroup | src/core/mergeConfig.js:74-110 | One forEach over a key list applies its group's rule to each key in order. |
| MergeConfig.FillConfig | src/core/mergeConfig.js:74-110 | The five loops produce the specification's properties. |
| MergeConfig.MergedValue | src/core/mergeConfig.js:48-61 | The result is a plain object exactly when the source value is one. Otherwise it is the source value itself. |
| MergeConfig.FoldAt | src/core/mergeConfig.js:74-110 | A group's loop sets exactly the listed keys its rule gives a value for, and leaves every other key alone. |
| MergeConfig.MergedAt | src/core/mergeConfig.js:74-110 | Every key of the result is decided by its own group's rule. |
| MergeConfig.MergedWithAt | src/core/mergeConfig.js:74-110 | Over pairwise disjoint key lists, with the remaining keys of either config run last, each key is decided by its own list's rule alone. |
| MergeConfig.DirectGroup | src/core/mergeConfig.js:91-97 | Only validateStatus goes by the `in` test. |
| MergeConfig.FromConfig2Only | src/core/mergeConfig.js:74-79 | url, method and data come only from config2; a url only config1 has is absent. |
| MergeConfig.DeepKey | src/core/mergeConfig.js:63-72 | For headers, auth, proxy and params: when config2 defines the key, the value is `getMergedValue(config1[k], config2[k])`; otherwise it is a copy of config1's value. |
| MergeConfig.DefaultToKey | src/core/mergeConfig.js:83-89 | The defaultToConfig2 keys take config2's value if defined, else config1's, else are absent. |
| MergeConfig.DirectKey | src/core/mergeConfig.js:91-97 | validateStatus goes by `in`: a key config2 has, even with an undefined value, replaces config1's. |
| MergeConfig.OtherKey | src/core/mergeConfig.js:99-110 | A key in no list, from either config, goes through the deep-merge rule. |
| MergeConfig.UndefinedInBothAbsent | src/core/mergeConfig.js:48-72 | A key undefined in both configs is absent from the result (validateStatus aside). |
| MergeConfig.NullishOverride | src/core/mergeConfig.js:14 | A null or undefined config2 behaves as `{}`. |
| MergeConfig.MergedValueBoth | src/core/mergeConfig.js:48-50 | For two plain objects the keys are the union, and config2's non-object values win. |
| MergeConfig.MergedValueCopy | src/core/mergeConfig.js:51-52 | A plain object source alone is copied to an equal object. |
| Interceptors.MakeInterceptor | src/core/InterceptorManager.js:19-24 | Without options, synchronous is false and runWhen is null. With options, both are read from them. |
| Interceptors.EjectSpec | src/core/InterceptorManager.js:34-38 | Ejecting never changes the number of slots. |
| Interceptors.LiveIndices | src/core/InterceptorManager.js:48-55 | The visited slots are exactly the non-null ones, in strictly increasing index order. |
| Interceptors.InterceptorManager.constructor | src/core/InterceptorManager.js:5-7 | A new registry has no slots. |
| Interceptors.InterceptorManager.Use | src/core/InterceptorManager.js:17-27 | One slot is appended and its index, the previous length, is returned. |
| Interceptors.InterceptorManager.Eject | src/core/InterceptorManager.js:34-38 | The slots become `EjectSpec(old, id)`. |
| Interceptors.InterceptorManager.ForEach | src/core/InterceptorManager.js:48-55 | The callback receives the live interceptors in slot order. |
| Interceptors.EjectOthers | src/core/InterceptorManager.js:34-38 | Only slot `id` changes, and only to null. |
| Interceptors.EjectIdempotent | src/core/InterceptorManager.js:35 | An out-of-range or already ejected id changes nothing, so ejecting twice is ejecting once. |
| Interceptors.LiveAppend | src/core/InterceptorManager.js:17-27 | A newly registered interceptor is visited last. |
| Interceptors.EjectRemovesOne | src/core/InterceptorManager.js:34-38 | Ejecting a live handle removes exactly that slot from the visit list. |
| Interceptors.Replay | src/core/InterceptorManager.js:17-38 | After any sequence of calls, the number of slots equals the number of `use` calls. |
| Interceptors.HandlesConsecutive | src/core/InterceptorManager.js:17-27 | Each handle is the slot count before its push, as `use` returns it. Over any sequence of calls the handles are 0, 1, 2, … whatever was ejected in between, so none is reused. |
| Interceptors.HandleIndexes | src/core/InterceptorManager.js:19-26 | The handle a `use` call returns indexes the slot holding the interceptor it pushed. |
| Interceptors.SlotKept | src/core/InterceptorManager.js:17-38 | A handle's slot keeps its interceptor until that handle is ejected. |
| Interceptors.Drive | src/core/InterceptorManager.js:17-38 | Driving a fresh registry through `Use` and `Eject` leaves the slots `Replay(calls)`, and the handles returned are `Handles(calls)`. |
| TransformData.Context | src/core/transformData.js:15 | Transforms are called with `this` when it is truthy, else with the defaults. |
| TransformData.TransformData | src/core/transformData.js:14-22 | The loop equals the fold of the transforms forEach visits. Each transform receives the previous output and the headers as left by the previous transform; the first throw ends it. |
| TransformData.FoldConcat | src/core/transformData.js:17-19 | Running two transform lists one after the other is running their concatenation. |
| TransformData.IsLeftFold | src/core/transformData.js:17-19 | The loop is the left fold `fn_n(… fn_1(data))`, an independently defined reference. |
| TransformData.NoTransforms | src/core/transformData.js:17 | An absent or empty list leaves data and headers unchanged. |
| TransformData.SingleTransform | src/core/transformData.js:17 | A single function that is not in an array is called exactly once. |
| TransformData.TwoTransforms | src/core/transformData.js:17-19 | The second transform receives the first one's output and the headers as the first left them. |
| Settle.Settle | src/core/settle.js:12-25 | A nullish response throws. resolve only ever receives the response itself, and reject only the status error built from the response and its config. |
| Settle.FalsyStatusResolves | src/core/settle.js:14 | A falsy status resolves regardless of the validator. |
| Settle.NoValidatorResolves | src/core/settle.js:14 | A missing or falsy validateStatus resolves. |
| Settle.ValidatorDecides | src/core/settle.js:14-24 | Otherwise it resolves exactly when the validator returns truthy, rejects exactly when it returns falsy, and throws when it throws. The rejection carries 'Request failed with status code ' + status, a null code, the config, the request and the response. |
| Settle.DefaultValidator | src/core/settle.js:14-24 | With the default validator, a numeric status resolves exactly in the 2xx class and is never a throw. |
| Settle.UnreadableRaises | src/core/settle.js:13 | An undefined or null response or config throws before either callback runs. |
| Defaults.SetContentTypeIfUnset | src/defaults.js:10-14 | Undefined headers are left alone, and null headers throw. A Content-Type that is not undefined is never overwritten. No other header changes. |
| Defaults.ContentTypeKept | src/defaults.js:11 | A defined Content-Type leaves the headers unchanged. |
| Defaults.TransformRequest | src/defaults.js:38-74 | With plain-object headers the transform never throws and returns object headers. Its result is the body itself, its JSON text, the buffer under an ArrayBufferView or a URLSearchParams body's text. |
| Defaults.TransformRequestBinary | src/defaults.js:46-55 | FormData, ArrayBuffer, Buffer, stream, File and Blob bodies are returned unchanged, after header-name normalisation. |
| Defaults.TransformRequestSearchParams | src/defaults.js:61-66 | A URLSearchParams body becomes its text. The Content-Type is 'application/x-www-form-urlencoded;charset=utf-8' unless already set. |
| Defaults.TransformRequestJson | src/defaults.js:67-72 | An object body, or a Content-Type of exactly 'application/json', is serialised. The Content-Type is 'application/json' unless already set. |
| Defaults.TransformRequestOther | src/defaults.js:73 | Any other body is returned unchanged. |
| Defaults.TransformResponse | src/defaults.js:77-99 | A null or undefined `this` throws. A normal result is the data or what `JSON.parse` returned. Any other throw happens only in strict mode, on a failed parse. |
| Defaults.EnhanceError | src/defaults.js:91 | An error keeps its name and message and gains the code and the config. Any other thrown value is passed on unchanged. |
| Defaults.TransformResponseNoParse | src/defaults.js:84-98 | Without a parse attempt (not strict, and not forced on a non-empty string), the data is returned unchanged. |
| Defaults.TransformResponseParsed | src/defaults.js:84-87 | An attempted parse that succeeds returns the parsed value. |
| Defaults.TransformResponseParseFails | src/defaults.js:88-95 | In strict mode, a SyntaxError becomes an error with code 'E_JSON_PARSE' and the config attached, and any other error is rethrown. Otherwise the original data is returned. |
| Defaults.JsonRoundTrip | src/defaults.js:67-87 | An object body serialised by the request transform is parsed back by the strict response transform, when `JSON.parse` inverts `JSON.stringify`. |
| Defaults.ValidateStatus | src/defaults.js:114-117 | A numeric status is accepted exactly in 200..299. undefined, null, booleans, plain objects and functions are rejected. |
| Defaults.ValidateStatusIsSuccessClass | src/defaults.js:114-117 | The default validator accepts exactly the 2xx class of three-digit statuses (section 15.3 of RFC 9110). |
| Defaults.ValidateStatusDigits | src/defaults.js:114-117 | Both comparisons convert the status to a number, so a string of decimal digits is judged by its value: "250" is accepted as 250 is. |
| Defaults.ValidateStatusRejects | src/defaults.js:114-117 | undefined and plain objects (NaN), and true, null and the empty string (1 and 0), are rejected. |
| Defaults.BuildDefaultHeaders | src/defaults.js:120-132 | The loops build exactly the default header table. |
| Defaults.AddGroups | src/defaults.js:126-132 | Each method name of a forEach gets its group, appended in list order. |
| Defaults.MergeDefaultContentType | src/defaults.js:131 | `merge(DEFAULT_CONTENT_TYPE)` is an equal copy of the form Content-Type table. |
| Defaults.DefaultHeaderGroups | src/defaults.js:120-132 | common carries Accept 'application/json, text/plain, */*'. delete, get and head have empty groups. post, put and patch carry the form Content-Type. |
| Defaults.EmptyGroups | src/defaults.js:126-128 | delete, get and head have empty groups. |
| Defaults.FormGroups | src/defaults.js:130-132 | post, put and patch carry the form Content-Type. |
| Defaults.DefaultsParseLeniently | src/defaults.js:30-34 | In the defaults object, silentJSONParsing and forcedJSONParsing are on. So a response parse error is never thrown, and a non-empty string response is parsed. |
| NormalizeHeaderName.NormalizeHeaderName | src/helpers/normalizeHeaderName.js:5-14 | Null or undefined headers are a no-op; otherwise the result is the in-place rename loop's result. |
| NormalizeHeaderName.NormalizeFields | src/helpers/normalizeHeaderName.js:6-14 | The loop over the keys visible at the start performs one rename step per case variant. |
| NormalizeHeaderName.ProcessHeader | src/helpers/normalizeHeaderName.js:6-13 | One callback renames a case variant of the name and leaves any other key alone, as `Step`. |
| NormalizeHeaderName.ProcessedAt | src/helpers/normalizeHeaderName.js:8-12 | After any prefix of the loop, a variant already visited is gone and its value sits under the normalized name. Other keys are untouched, and no key is added. |
| NormalizeHeaderName.VariantStep | src/helpers/normalizeHeaderName.js:8-12 | Visiting a variant keeps the loop invariant: its value moves to the normalized name and the variant is gone. |
| NormalizeHeaderName.OtherStep | src/helpers/normalizeHeaderName.js:8 | Visiting a key that is not a variant keeps the loop invariant and changes nothing. |
| NormalizeHeaderName.StepVariant | src/helpers/normalizeHeaderName.js:10-12 | One rename moves the value to the normalized name, deletes the variant and changes nothing else. |
| NormalizeHeaderName.Normalized | src/helpers/normalizeHeaderName.js:5-14 | No case variant remains. Keys not equal to the name case-insensitively are untouched. An exact key is never deleted, but the last variant visited overwrites its value. The key count never increases. |
| NormalizeHeaderName.NoVariantNoChange | src/helpers/normalizeHeaderName.js:8 | Without variants the headers are unchanged. |
| CombineUrls.StripTrailingSlashes | src/helpers/combineURLs.js:13 | The result is a prefix, ends in no '/', and only '/' characters were removed. |
| CombineUrls.StripLeadingSlashes | src/helpers/combineURLs.js:13 | The result is a suffix, starts with no '/', and only '/' characters were removed. |
| CombineUrls.CombineURLs | src/helpers/combineURLs.js:10-16 | An empty relative URL returns the base unchanged. Otherwise the length is that of the two stripped parts plus one. |
| CombineUrls.Joined | src/helpers/combineURLs.js:13 | The result is the base without trailing '/', then '/', then the relative URL without leading '/'. |
| CombineUrls.StripTrailingExtra | src/helpers/combineURLs.js:13 | Extra trailing slashes on the base change nothing. |
| CombineUrls.StripLeadingExtra | src/helpers/combineURLs.js:13 | Extra leading slashes on the relative URL change nothing. |
| CombineUrls.SlashInsensitive | src/helpers/combineURLs.js:13 | Adding slashes at the join does not change the result. |
| CombineUrls.PlainJoin | src/helpers/combineURLs.js:13 | Without slashes at the join, the result is base + '/' + relative. |
| BuildFullPath.BuildFullPath | src/core/buildFullPath.js:15-23 | An empty base or an absolute URL returns the requested URL. Otherwise the result is `combineURLs(base, requested)`. |
| BuildFullPath.RelativeUnderBase | src/core/buildFullPath.js:17-19 | A relative URL under a non-empty base starts with the base stripped of trailing slashes. It continues with '/' and the stripped relative URL. |
| Invoke.CallValue | src/core/Axios.js:123 | Calling a function delegates to it. Calling anything else throws a TypeError. |
| Invoke.CallTransformValue | src/core/transformData.js:18 | A transform that is not a function throws a TypeError and leaves the headers unchanged. |
| DispatchRequest.CancellationThrown | src/core/dispatchRequest.js:11-15 | Without a truthy cancelToken nothing is thrown. A truthy token that is not a CancelToken and has no callable `throwIfRequested` throws a TypeError. |
| DispatchRequest.DeleteAll | src/core/dispatchRequest.js:36-38 | Every listed key is absent afterwards, and every other key keeps its value and presence. |
| DispatchRequest.PruneHeaders | src/core/dispatchRequest.js:36-38 | The deletion loop removes exactly the listed keys, as `DeleteAll`; it runs over the seven group names. |
| DispatchRequest.PrepareConfig | src/core/dispatchRequest.js:25-38 | The preparation steps equal the specification `Prepare`: a TypeError for undefined, null and primitives, the cancel check, `headers defaulting to {}`, the request transform and the flattened headers. |
| DispatchRequest.Dispatch | src/core/dispatchRequest.js:23-69 | The method equals the specification `DispatchSpec`. |
| DispatchRequest.OnRejection | src/core/dispatchRequest.js:51-67 | The transport's rejection always ends in a rejection. |
| DispatchRequest.CancelledBeforeSend | src/core/dispatchRequest.js:11-25 | A cancellation requested before sending throws its reason, with no headers touched and no transport call. |
| DispatchRequest.ObjectTokenCalled | src/core/dispatchRequest.js:11-25 | A plain-object cancel token has its own `throwIfRequested` called on it. What that throws is what dispatchRequest throws. |
| DispatchRequest.PrepareThrowsOnlyOnPrimitives | src/core/dispatchRequest.js:23-42 | Only undefined, null and primitives make the preparation throw, with a TypeError. An array, a function or a host object reaches the transport. |
| DispatchRequest.PreparedData | src/core/dispatchRequest.js:28-31 | Missing headers become {} before the request transforms see them. The data is replaced by their result, or their throw ends the dispatch. |
| DispatchRequest.StoreTransformedData | src/core/dispatchRequest.js:31 | The stored data is the request transforms' result, or their throw fails the request. |
| DispatchRequest.FlattenedGroupsGone | src/core/dispatchRequest.js:34-38 | After flattening, delete, get, head, post, put, patch and common are absent. Every other header is as merged. |
| DispatchRequest.OptionsKept | src/core/dispatchRequest.js:36 | 'options' is not removed. |
| DispatchRequest.FlattenPriority | src/core/dispatchRequest.js:34 | For non-object values, the top level wins over `headers[method]`, which wins over `headers.common`. The keys are the union. |
| DispatchRequest.MergeThree | src/core/dispatchRequest.js:34 | For any three objects with distinct keys, `merge(a, b, c)` has the union of the keys. A key whose value in the last argument holding it is not an object takes that value. |
| DispatchRequest.ChooseAdapter | src/core/dispatchRequest.js:40 | The transport is `config.adapter` when truthy, and otherwise the default adapter. |
| DispatchRequest.CallAdapter | src/core/dispatchRequest.js:42 | A caller-supplied transport is called with the config. A value that is not a function throws at once. |
| DispatchRequest.AdapterChoice | src/core/dispatchRequest.js:40-42 | The transport is `config.adapter` when truthy, else the default adapter. |
| DispatchRequest.OnResolution | src/core/dispatchRequest.js:43-50 | A cancellation seen after the transport answered is thrown. A nullish response throws on reading its data. An object response comes back an object holding `data`. |
| DispatchRequest.TransformHolder | src/core/dispatchRequest.js:47 | A nullish holder throws. An object holder comes back an object holding `data`. |
| DispatchRequest.ResolutionTransforms | src/core/dispatchRequest.js:43-49 | On success, the response's data is replaced by the response transforms' result, or their throw rejects. |
| DispatchRequest.HolderTransformed | src/core/dispatchRequest.js:47-62 | For an object response, `data` becomes what the response transforms made of it, or their throw is the outcome. |
| DispatchRequest.RejectionTransforms | src/core/dispatchRequest.js:51-63 | On a non-cancel rejection whose error carries a response object, the cancel token is checked again; then the rejection carries that response with `data` replaced by the response transforms' result, or it is the error the transforms threw. |
| DispatchRequest.CancelledAfterAdapter | src/core/dispatchRequest.js:44-53 | A cancellation seen after the transport answered wins over the response and over a non-cancel reason. |
| DispatchRequest.IsCancel | src/core/dispatchRequest.js:52 | Every cancel reason is a cancellation. Primitives, arrays and functions are not. A plain object is one exactly when its `__CANCEL__` is truthy. |
| DispatchRequest.CancelReasonPassesThrough | src/core/dispatchRequest.js:52-66 | A cancel reason is rejected again unchanged. |
| DispatchRequest.RejectionWithoutResponse | src/core/dispatchRequest.js:56-66 | A reason without a response is rejected again unchanged. |
| AxiosCore.Axios.constructor | src/core/Axios.js:16-22 | A new instance stores the instance config and two fresh, distinct, empty registries. |
| AxiosCore.Axios.Request | src/core/Axios.js:29-141 | The method equals `RequestSpec` over the instance's defaults and the registries' slots. |
| AxiosCore.Axios.Alias | src/core/Axios.js:149-173 | A verb alias requests `mergeConfig` of `config` (an empty object when missing) with `{method, url, data}`. |
| AxiosCore.Prepare | src/core/Axios.js:32-54 | Call normalisation, the merge and method resolution equal `PrepareConfig`. |
| AxiosCore.NormalizeCall | src/core/Axios.js:32-40 | A string first argument is stored as `url` on `arguments[1]`, or on a fresh object when that is missing. Any other first argument becomes `config`, or an empty object when that is missing. Both are as `NormalizeArgs`. |
| AxiosCore.AssignMethod | src/core/Axios.js:45-54 | The method step equals `WithMethod`. |
| AxiosCore.BuildRequestChain | src/core/Axios.js:72-92 | The forEach with unshift equals `RequestChain`, stopping at a throwing runWhen. |
| AxiosCore.UnshiftRequestInterceptor | src/core/Axios.js:84-91 | One callback: a runWhen answering false skips the interceptor, and a throwing runWhen throws. Otherwise its pair goes to the front and the flag is and-ed with `synchronous`. |
| AxiosCore.BuildResponseChain | src/core/Axios.js:94-97 | The response chain holds the pairs in registration order. |
| AxiosCore.RunThen | src/core/Axios.js:110-138 | The shift loop equals the `.then` fold `ThenAll`. |
| AxiosCore.RunSyncWalk | src/core/Axios.js:118-128 | The eager walk equals `SyncWalk`. |
| AxiosCore.RunPipeline | src/core/Axios.js:70-140 | Chain building and both branches equal `Pipeline`. |
| AxiosCore.PairsOf | src/core/Axios.js:94-97 | The response chain is the interceptors' pairs, in the same order. |
| AxiosCore.ThrewStays | src/core/Axios.js:85 | A runWhen that throws ends chain building, whatever follows. |
| AxiosCore.RequestChainReversed | src/core/Axios.js:73-91 | Without runWhen functions, the request chain is the pairs in reverse registration order. The mode is synchronous exactly when every interceptor is, which holds vacuously with none. |
| AxiosCore.RunWhenFalseSkips | src/core/Axios.js:85-87 | An interceptor whose runWhen returns false is excluded from the chain and from the synchronous flag. |
| AxiosCore.KeptChain | src/core/Axios.js:72-92 | When no runWhen throws, the request chain is the pairs of the interceptors that survive runWhen, in reverse registration order. It is synchronous exactly when every survivor is. |
| AxiosCore.RunWhenThrowStops | src/core/Axios.js:84-91 | The first runWhen that throws ends the chain building with its error. |
| AxiosCore.RejectionPassesThrough | src/core/Axios.js:112 | A rejection passes unchanged through `.then` steps without a rejected function. |
| AxiosCore.ThenAllConcat | src/core/Axios.js:110-113 | A `.then` chain composes over concatenation. |
| AxiosCore.WalkIsChain | src/core/Axios.js:118-128 | When no fulfilled handler throws, the eager walk hands on the same config as the promise chain. |
| AxiosCore.SyncAgreesWithAsync | src/core/Axios.js:101-140 | When no request interceptor throws and dispatchRequest returns a promise, the synchronous branch equals the chain: request pairs, dispatchRequest, response pairs. |
| AxiosCore.SyncDispatchThrowSkipsResponse | src/core/Axios.js:130-134 | A synchronous throw of dispatchRequest becomes the returned rejection, and no response handler sees it. |
| AxiosCore.WalkStopsAtThrow | src/core/Axios.js:119-131 | At the first throwing fulfilled handler, its rejected handler runs and the walk stops. dispatchRequest receives the last config produced before it. |
| AxiosCore.AsyncIgnoresResponse | src/core/Axios.js:102-115 | The asynchronous branch's outcome does not depend on the response interceptors. It equals the chain with none. |
| AxiosCore.ChainedRunsResponse | src/core/Axios.js:107 | Keeping the concatenation would run the response pairs on what the branch returns now. |
| AxiosCore.SyncResponseOrder | src/core/Axios.js:136-138 | In the synchronous branch, response handlers run in registration order, the later ones after the earlier. |
| AxiosCore.RespondConcat | src/core/Axios.js:136-138 | After a dispatch that returned a promise, running two lists of response pairs is running the second after the first. |
| AxiosCore.LowerOfLowercase | src/core/Axios.js:47 | A lower-case method is unchanged. |
| AxiosCore.MethodPrecedence | src/core/Axios.js:45-54 | The method is the merged config's, lower-cased. Failing that it is the instance default's, lower-cased; failing both, 'get'. Nothing but the method changes. |
| AxiosCore.PreparedFromMerge | src/core/Axios.js:39-42 | A plain-object call config reaches method resolution as `mergeConfig(defaults, config)`. |
| AxiosCore.CallMethodWins | src/core/Axios.js:42-47 | A call's non-empty string method is the one requested, lower-cased. |
| AxiosCore.UrlArgumentWins | src/core/Axios.js:32-37 | With a string first argument and an object or falsy second argument, a successfully prepared config has that string as its url. |
| AxiosCore.AliasSetsMethodAndUrl | src/core/Axios.js:149-173 | An alias call requests its own method and url, whatever its config says. |
| AxiosCore.AliasMerged | src/core/Axios.js:153-170 | The alias's `{method, url, data}` merged over `config` (an empty object when missing) holds the alias's method and url. |
| AxiosCore.PreparedKeepsMethodAndUrl | src/core/Axios.js:42-54 | A config with a non-empty lower-case method and a non-object url keeps both through the merge with the defaults and the method step. |
| AxiosCore.PreparedKeepsUrl | src/core/Axios.js:42-54 | A config's non-object url survives the merge with the defaults and the method step. |
| AxiosCore.AliasVerb | src/core/Axios.js:149-162 | The alias method names are non-empty and lower-case. |

## Left out

- src/adapters/xhr.js and the Node transport: the transport is `Env.adapter`, which answers with a fulfilled or rejected promise or throws at once.
- src/axios.js (`create`, instance wiring through `bind` and `extend`, `all`, `spread`), src/helpers/bind.js, src/main.js and the build configuration: wiring with nothing to state beyond `mergeConfig` and `request`.
- `getDefaultAdapter` and `isStandardBrowserEnv`: environment detection; the chosen adapter is `Env.defaultAdapter`.
- `getUri` and `buildURL`, the transitional-option validation of Axios.js lines 56-68 (`validator.assertOptions`), `isAbsoluteURL`, `createError`, `enhanceError` and the CancelToken internals: their sources are not part of this model.
  - `isAbsoluteURL` is a parameter of `BuildFullPath`.
  - A cancel token reports, through `Env.cancel`, what it throws before sending and after the transport answered.
  - `enhanceError` is modelled only on error values (`Defaults.EnhanceError`).
- `JSON.stringify`, `JSON.parse` and `URLSearchParams.toString` are uninterpreted functions of `Env`.
- The `console.log` calls in src/core/mergeConfig.js, src/axios.js and src/main.js: output only.
- Promise scheduling and concurrency: a promise is its settled `Completion`, and `.then` is a sequential fold. A handler that returns a thenable is not adopted.
- Aliasing: objects are values, so a mutation through one reference is not seen through another.
  - dispatchRequest's mutation of the caller's config and of the response, and transforms that mutate headers, are modelled as returning the changed value.
  - A user transform's effect on headers is represented only for plain-object headers.
- Runtime type probing (`isBuffer`, `isFormData`, `isStream`, …): body kinds are host-object tags. `ArrayBufferView.buffer` is an ArrayBuffer that shares the view's id, so a view's offset and length within its buffer are not represented.
- Own properties of arrays, functions, host objects, cancel tokens and cancel reasons are not represented. Only plain objects and error values carry properties, and an error value carries only `name`, `message`, `code`, `config`, `request` and `response`: storing any other key on it changes nothing. Numbers are integers.
- Property order: a plain object lists its keys in insertion order. JavaScript lists integer-like keys first, in ascending order. So the key order of merged headers and configs, and the order in which `forEach` visits an object with such keys, can differ from the source. No stated property depends on this order.
- Case folding is ASCII only (`toUpperCase`, `toLowerCase`). Whitespace (`\s`, `trim`) is the full JavaScript set.
- MergeConfig.MergeConfig: requires a plain-object config1. Callers whose base is not a plain object (the instance defaults in `request`, `config || {}` in the aliases) are modelled as throwing a TypeError, which is what the code does for null and undefined, and for primitives when config2 has no validateStatus. With validateStatus in config2, a primitive config1 such as "ab" does not throw; its index keys "0" and "1" are merged in. The model throws there.
- Utils.Merge: the recursive `merge(result[key], val)` is specified on `val` after copying `result[key]`. For well-formed objects the copy is the identity (`Utils.CopyIsIdentity`).
- AxiosCore.LowerCase: a method that is an object with its own `toLowerCase` function is called through `Env`; inherited `toLowerCase` methods of other values are not modelled and throw.
- DispatchRequest.Prepare and DispatchRequest.PrepareConfig: an array, function or host-object config goes to the transport unchanged. The properties the source stores on it (`headers` {}, `data` undefined) are not represented.
- DispatchRequest.CancellationThrown: a plain-object token's `throwIfRequested` is a function of `Env`, so it answers the same before sending and after the transport answered.
- Defaults.ValidateStatus: the number conversion covers decimal strings (surrounding whitespace, a sign, a fraction), booleans, null and arrays of at most one number or string. Hexadecimal, binary, octal and exponent forms, nested arrays, and objects with their own `valueOf` or `toString` are taken as NaN. The source converts them.
- CombineUrls.CombineURLs and BuildFullPath.BuildFullPath: take strings only. `combineURLs(baseURL, undefined)` returns the base (src/helpers/combineURLs.js:12-15), which is what happens when `config.url` is missing under a `baseURL`; that case is not expressible here.
