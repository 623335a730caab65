/** src/core/dispatchRequest.js: prepares a config for the transport (data
    transform, flattened headers), calls the transport and routes its
    answer through the response transforms. */
module DispatchRequest {
  import opened JsValue
  import Utils
  import Defaults
  import opened Invoke
  import TransformData

  /** How a dispatchRequest call ends: it throws synchronously, or returns
      a promise that settles with the given completion. */
  datatype Dispatched = Throws(error: Value) | Returns(settled: Completion)

  /** When a cancel token is checked: before sending, or once the transport
      answered. */
  datatype Checkpoint = BeforeSend | AfterAdapter

  /** throwIfCancellationRequested(config): the value it throws, if any. A
      CancelToken reports its state at the given check; any other truthy
      token has its `throwIfRequested` called on it, which throws a
      TypeError when that is not a function. */
  function CancellationThrown(env: Env, config: Value, at: Checkpoint): (r: Option<Value>)
    ensures !Truthy(Prop(config, "cancelToken")) ==> r.None?
    ensures var token := Prop(config, "cancelToken");
            Truthy(token) && !token.CancelToken? && !Prop(token, "throwIfRequested").Fn? ==>
              r.Some? && r.value.Error? && r.value.name == "TypeError"
  {
    var token := Prop(config, "cancelToken");
    if !Truthy(token) then None
    else if token.CancelToken? then
      (match at case BeforeSend => env.cancel(token.tokenId).beforeSend
                case AfterAdapter => env.cancel(token.tokenId).afterAdapter)
    else match CallValue(env, Prop(token, "throwIfRequested"), token, Undef)
    case Throw(e) => Some(e)
    case Normal(_) => None
  }

  /** The header groups that flattening removes; 'options' is not among them. */
  const GroupKeys: seq<string> := ["delete", "get", "head", "post", "put", "patch", "common"]

  /** `utils.merge(headers.common || {}, headers[method] || {}, headers)`. */
  function FlattenFields(headers: Value, verb: Value): Fields
  {
    Utils.MergeFields([OrEmpty(Prop(headers, "common")), OrEmpty(Prop(headers, ToText(verb))), headers])
  }

  /** The headers after `delete headers[key]` for each of `keys`. */
  function DeleteAll(fs: Fields, keys: seq<string>): (r: Fields)
    ensures forall k :: k in keys ==> !Has(r, k)
    ensures forall k :: k !in keys ==> Get(r, k) == Get(fs, k) && (Has(r, k) <==> Has(fs, k))
    decreases |keys|
  {
    if keys == [] then fs else DeleteAll(Delete(fs, keys[0]), keys[1..])
  }

  /** The config as the transport receives it, or what was thrown while
      preparing it. */
  datatype Prepared = Ready(config: Value) | Failed(error: Value)

  /** Lines 25-38: cancellation check, `headers || {}`, the request
      transform and the flattened headers. Reading `config.cancelToken`
      throws on undefined and null, and the strict-mode `config.headers =`
      throws on a primitive. Arrays, functions and host objects go on to the
      transport: their properties are not represented, so for them the
      stores are not either. */
  function Prepare(env: Env, config: Value): (r: Prepared)
  {
    if IsNullish(config) then Failed(TypeError("Cannot read properties of " + ToText(config)))
    else match CancellationThrown(env, config, BeforeSend)
    case Some(e) => Failed(e)
    case None =>
      match PutProp(config, "headers", OrEmpty(Prop(config, "headers")))
      case Throw(e) => Failed(e)
      case Normal(c1) =>
        if !c1.Obj? then Ready(c1)
        else
          var (data, headers) := TransformData.TransformDataSpec(env, c1, Prop(c1, "data"), Prop(c1, "headers"), Prop(c1, "transformRequest"));
          StoreTransformed(c1.fields, data, headers)
  }

  /** Lines 34-38 after the request transform: its data and headers stored,
      then the headers flattened and pruned. */
  function StoreTransformed(c1: Fields, data: Completion, headers: Value): Prepared
  {
    match data
    case Throw(e) => Failed(e)
    case Normal(d) =>
      var c2 := Set(Set(c1, "headers", headers), "data", d);
      var flat := DeleteAll(FlattenFields(headers, Prop(Obj(c2), "method")), GroupKeys);
      Ready(Obj(Set(c2, "headers", Obj(flat))))
  }

  /** `config.adapter || defaults.adapter` */
  function ChooseAdapter(env: Env, config: Value): (a: Value)
    ensures Truthy(a) ==> a == Prop(config, "adapter") || a == env.defaultAdapter
    ensures !Truthy(Prop(config, "adapter")) ==> a == env.defaultAdapter
  {
    if Truthy(Prop(config, "adapter")) then Prop(config, "adapter") else env.defaultAdapter
  }

  /** `adapter(config)`: a caller-supplied transport answers through the
      environment; anything else does not return a promise, so the call or
      its `.then` throws a TypeError. */
  function CallAdapter(env: Env, adapter: Value, config: Value): (r: AdapterOutcome)
    ensures !adapter.Fn? ==> r.ThrowsNow?
    ensures adapter.Fn? && adapter.f.UserFn? ==> r == env.adapter(adapter.f.id, config)
  {
    if adapter.Fn? then CallAdapterFunc(env, adapter.f, config)
    else ThrowsNow(TypeError("adapter is not a function"))
  }

  function CallAdapterFunc(env: Env, f: Func, config: Value): AdapterOutcome
  {
    match f
    case UserFn(id) => env.adapter(id, config)
    case Bound(target, _) => CallAdapterFunc(env, target, config)
    case _ => ThrowsNow(TypeError("adapter(...).then is not a function"))
  }

  /** `holder.data = transformData.call(config, holder.data, holder.headers,
      config.transformResponse)`: the holder afterwards (its headers as the
      transforms left them), or what was thrown. */
  function TransformHolder(env: Env, config: Value, holder: Value): (r: Completion)
    ensures IsNullish(holder) ==> r.Throw?
    ensures holder.Obj? && r.Normal? ==> r.value.Obj? && Has(r.value.fields, "data")
  {
    match ReadProp(holder, "data")
    case Throw(e) => Throw(e)
    case Normal(data) =>
      var headers := Prop(holder, "headers");
      var (c, h) := TransformData.TransformDataSpec(env, config, data, headers, Prop(config, "transformResponse"));
      match c
      case Throw(e) => Throw(e)
      case Normal(d) =>
        match PutProp(holder, "data", d)
        case Throw(e) => Throw(e)
        case Normal(holder') => if headers.Obj? then PutProp(holder', "headers", h) else Normal(holder')
  }

  /** isCancel(value) */
  function IsCancel(v: Value): (r: bool)
    ensures v.Cancel? ==> r
    ensures IsNullish(v) || v.Bool? || v.Num? || v.Str? || v.Arr? || v.Fn? ==> !r
    ensures v.Obj? ==> (r <==> Truthy(Get(v.fields, "__CANCEL__")))
  {
    Truthy(v) && Truthy(Prop(v, "__CANCEL__"))
  }

  /** onAdapterResolution */
  function OnResolution(env: Env, config: Value, response: Value): (r: Completion)
    ensures CancellationThrown(env, config, AfterAdapter).Some? ==> r == Throw(CancellationThrown(env, config, AfterAdapter).value)
    ensures IsNullish(response) ==> r.Throw?
    ensures response.Obj? && r.Normal? ==> r.value.Obj? && Has(r.value.fields, "data")
  {
    match CancellationThrown(env, config, AfterAdapter)
    case Some(e) => Throw(e)
    case None => TransformHolder(env, config, response)
  }

  /** onAdapterRejection: always a rejection. */
  function OnRejection(env: Env, config: Value, reason: Value): (r: Completion)
    ensures r.Throw?
  {
    if IsCancel(reason) then Throw(reason)
    else match CancellationThrown(env, config, AfterAdapter)
    case Some(e) => Throw(e)
    case None =>
      if Truthy(reason) && Truthy(Prop(reason, "response")) then
        match TransformHolder(env, config, Prop(reason, "response"))
        case Throw(e) => Throw(e)
        case Normal(response) =>
          match PutProp(reason, "response", response)
          case Throw(e) => Throw(e)
          case Normal(reason') => Throw(reason')
      else Throw(reason)
  }

  /** dispatchRequest(config) */
  function DispatchSpec(env: Env, config: Value): Dispatched
  {
    match Prepare(env, config)
    case Failed(e) => Throws(e)
    case Ready(c) => Finish(env, c)
  }

  /** Lines 40-67: the transport call and the routing of its answer. */
  function Finish(env: Env, config: Value): Dispatched
  {
    match CallAdapter(env, ChooseAdapter(env, config), config)
    case ThrowsNow(e) => Throws(e)
    case Resolves(response) => Returns(OnResolution(env, config, response))
    case Rejects(reason) => Returns(OnRejection(env, config, reason))
  }

  // ---------------------------------------------------------------------
  // The imperative function
  // ---------------------------------------------------------------------

  /** The deletion loop over the header groups (called with GroupKeys). */
  method PruneHeaders(headers: Fields, keys: seq<string>) returns (r: Fields)
    ensures r == DeleteAll(headers, keys)
  {
    r := headers;
    var i := 0;
    while i < |keys|
      invariant 0 <= i <= |keys|
      invariant DeleteAll(r, keys[i..]) == DeleteAll(headers, keys)
    {
      assert keys[i..][1..] == keys[i + 1..];
      r := Delete(r, keys[i]);
      i := i + 1;
    }
  }

  /** Lines 25-38 step by step. */
  method PrepareConfig(env: Env, config: Value) returns (r: Prepared)
    ensures r == Prepare(env, config)
  {
    if IsNullish(config) {
      return Failed(TypeError("Cannot read properties of " + ToText(config)));
    }
    var cancelled := CancellationThrown(env, config, BeforeSend);
    if cancelled.Some? {
      return Failed(cancelled.value);
    }
    var c1 := PutProp(config, "headers", OrEmpty(Prop(config, "headers")));
    if c1.Throw? {
      return Failed(c1.error);
    }
    if !c1.value.Obj? {
      return Ready(c1.value);
    }
    var fs := c1.value.fields;
    var data, headers := TransformData.TransformData(env, Obj(fs), Prop(Obj(fs), "data"), Prop(Obj(fs), "headers"), Prop(Obj(fs), "transformRequest"));
    if data.Throw? {
      return Failed(data.error);
    }
    fs := Set(fs, "headers", headers);
    fs := Set(fs, "data", data.value);
    var merged := Utils.Merge([OrEmpty(Prop(headers, "common")), OrEmpty(Prop(headers, ToText(Prop(Obj(fs), "method")))), headers]);
    var flat := PruneHeaders(merged.fields, GroupKeys);
    r := Ready(Obj(Set(fs, "headers", Obj(flat))));
  }

  method Dispatch(env: Env, config: Value) returns (r: Dispatched)
    ensures r == DispatchSpec(env, config)
  {
    var prepared := PrepareConfig(env, config);
    if prepared.Failed? {
      return Throws(prepared.error);
    }
    var c := prepared.config;
    var adapter := Prop(c, "adapter");
    if !Truthy(adapter) {
      adapter := env.defaultAdapter;
    }
    assert adapter == ChooseAdapter(env, c);
    var outcome := CallAdapter(env, adapter, c);
    if outcome.ThrowsNow? {
      r := Throws(outcome.error);
    } else if outcome.Resolves? {
      r := Returns(OnResolution(env, c, outcome.response));
    } else {
      r := Returns(OnRejection(env, c, outcome.reason));
    }
    assert r == Finish(env, c);
  }

  // ---------------------------------------------------------------------
  // Properties
  // ---------------------------------------------------------------------

  /** A cancellation requested before sending throws its reason at once:
      the headers are not touched and the transport is not called. */
  lemma {:induction false} CancelledBeforeSend(env: Env, config: Value, id: nat)
    requires config.Obj? && Prop(config, "cancelToken") == CancelToken(id)
    requires env.cancel(id).beforeSend.Some?
    ensures DispatchSpec(env, config) == Throws(env.cancel(id).beforeSend.value)
  {
  }

  /** Only undefined, null and primitives make the preparation throw, with
      a TypeError; an array, a function or a host object goes on to the
      transport as it is. */
  lemma {:induction false} PrepareThrowsOnlyOnPrimitives(env: Env, config: Value)
    ensures IsNullish(config) || config.Bool? || config.Num? || config.Str? ==>
              Prepare(env, config).Failed? && Prepare(env, config).error.Error? && Prepare(env, config).error.name == "TypeError"
    ensures config.Arr? || config.Fn? || config.Host? ==>
              Prepare(env, config) == Ready(config) && DispatchSpec(env, config) == Finish(env, config)
  {
    if config.Bool? || config.Num? || config.Str? {
      assert CancellationThrown(env, config, BeforeSend).None?;
    }
  }

  /** A cancel token that is a plain object has its own `throwIfRequested`
      called on it: what that throws is what dispatchRequest throws, before
      the transport is called. */
  lemma {:induction false} ObjectTokenCalled(env: Env, config: Value, id: nat, e: Value)
    requires config.Obj? && Prop(config, "cancelToken").Obj?
    requires Prop(Prop(config, "cancelToken"), "throwIfRequested") == Fn(UserFn(id))
    requires env.call(id, Prop(config, "cancelToken"), Undef) == Throw(e)
    ensures DispatchSpec(env, config) == Throws(e)
  {
    assert CancellationThrown(env, config, BeforeSend) == Some(e);
  }

  /** The transport receives the config with the transformed data, and
      with missing headers replaced by {} before the request transform sees
      them. */
  lemma {:induction false} PreparedData(env: Env, config: Value)
    requires config.Obj? && CancellationThrown(env, config, BeforeSend).None?
    ensures var c1 := Obj(Set(config.fields, "headers", OrEmpty(Prop(config, "headers"))));
            var t := TransformData.TransformDataSpec(env, c1, Prop(config, "data"), OrEmpty(Prop(config, "headers")), Prop(config, "transformRequest"));
            var p := Prepare(env, config);
            (t.0.Throw? ==> p == Failed(t.0.error)) &&
            (t.0.Normal? ==> p.Ready? && p.config.Obj? && Get(p.config.fields, "data") == t.0.value)
  {
    var h := OrEmpty(Prop(config, "headers"));
    var c1 := Obj(Set(config.fields, "headers", h));
    assert Prop(c1, "headers") == h;
    assert Prop(c1, "data") == Prop(config, "data");
    assert Prop(c1, "transformRequest") == Prop(config, "transformRequest");
    var t := TransformData.TransformDataSpec(env, c1, Prop(config, "data"), h, Prop(config, "transformRequest"));
    assert Prepare(env, config) == StoreTransformed(c1.fields, t.0, t.1);
    StoreTransformedData(c1.fields, t.0, t.1);
  }

  /** The stored data is the transform's, or its error fails the request. */
  lemma {:induction false} StoreTransformedData(c1: Fields, data: Completion, headers: Value)
    ensures var p := StoreTransformed(c1, data, headers);
            (data.Throw? ==> p == Failed(data.error)) &&
            (data.Normal? ==> p.Ready? && p.config.Obj? && Get(p.config.fields, "data") == data.value)
  {
    if data.Normal? {
      var c2 := Set(Set(c1, "headers", headers), "data", data.value);
      assert Get(c2, "data") == data.value;
    }
  }

  /** After flattening, none of the seven group names is a header; every
      other name is a header of the merge. */
  lemma {:induction false} FlattenedGroupsGone(headers: Value, verb: Value, k: string)
    ensures var flat := DeleteAll(FlattenFields(headers, verb), GroupKeys);
            (k in GroupKeys ==> !Has(flat, k)) &&
            (k !in GroupKeys ==> Get(flat, k) == Get(FlattenFields(headers, verb), k) &&
                                 (Has(flat, k) <==> Has(FlattenFields(headers, verb), k)))
  {
  }

  /** 'options' survives the pruning. */
  lemma {:induction false} OptionsKept(fs: Fields)
    ensures Get(DeleteAll(fs, GroupKeys), "options") == Get(fs, "options")
  {
  }

  /** Flattening priority for a header whose value is not an object: the
      top level wins over the method's group, which wins over common. */
  lemma {:induction false} FlattenPriority(hs: Fields, verb: Value, k: string)
    requires UniqueKeys(hs)
    requires var common := OrEmpty(Get(hs, "common"));
             var group := OrEmpty(Get(hs, ToText(verb)));
             common.Obj? && group.Obj? && UniqueKeys(common.fields) && UniqueKeys(group.fields)
    ensures var common := OrEmpty(Get(hs, "common")).fields;
            var group := OrEmpty(Get(hs, ToText(verb))).fields;
            var flat := FlattenFields(Obj(hs), verb);
            (Has(hs, k) && !Get(hs, k).Obj? ==> Get(flat, k) == Get(hs, k)) &&
            (!Has(hs, k) && Has(group, k) && !Get(group, k).Obj? ==> Get(flat, k) == Get(group, k)) &&
            (!Has(hs, k) && !Has(group, k) && Has(common, k) && !Get(common, k).Obj? ==> Get(flat, k) == Get(common, k)) &&
            (Has(flat, k) <==> Has(hs, k) || Has(group, k) || Has(common, k))
  {
    var common := OrEmpty(Get(hs, "common"));
    var group := OrEmpty(Get(hs, ToText(verb)));
    assert FlattenFields(Obj(hs), verb) == Utils.MergeFields([Obj(common.fields), Obj(group.fields), Obj(hs)]);
    MergeThree(common.fields, group.fields, hs, k);
  }

  /** merge(a, b, c) for plain objects: for a key whose value is not a plain
      object, c beats b, which beats a; the keys are the union. */
  lemma {:induction false} MergeThree(a: Fields, b: Fields, c: Fields, k: string)
    requires UniqueKeys(a) && UniqueKeys(b) && UniqueKeys(c)
    ensures var m := Utils.MergeFields([Obj(a), Obj(b), Obj(c)]);
            (Has(c, k) && !Get(c, k).Obj? ==> Get(m, k) == Get(c, k)) &&
            (!Has(c, k) && Has(b, k) && !Get(b, k).Obj? ==> Get(m, k) == Get(b, k)) &&
            (!Has(c, k) && !Has(b, k) && Has(a, k) && !Get(a, k).Obj? ==> Get(m, k) == Get(a, k)) &&
            (Has(m, k) <==> Has(c, k) || Has(b, k) || Has(a, k))
  {
    assert [Obj(a)] == [] + [Obj(a)];
    assert [Obj(a), Obj(b)] == [Obj(a)] + [Obj(b)];
    assert [Obj(a), Obj(b), Obj(c)] == [Obj(a), Obj(b)] + [Obj(c)];
    Utils.MergeOneMore([], Obj(a), k);
    Utils.MergeOneMore([Obj(a)], Obj(b), k);
    Utils.MergeOneMore([Obj(a), Obj(b)], Obj(c), k);
  }

  /** On success the cancel token is checked again, then response.data is
      replaced by the response transform's result. */
  lemma {:induction false} ResolutionTransforms(env: Env, config: Value, response: Value)
    requires response.Obj? && CancellationThrown(env, config, AfterAdapter).None?
    ensures var t := TransformData.TransformDataSpec(env, config, Get(response.fields, "data"), Get(response.fields, "headers"), Prop(config, "transformResponse"));
            var r := OnResolution(env, config, response);
            (t.0.Throw? ==> r == Throw(t.0.error)) &&
            (t.0.Normal? ==> r.Normal? && r.value.Obj? && Get(r.value.fields, "data") == t.0.value)
  {
    assert OnResolution(env, config, response) == TransformHolder(env, config, response);
    HolderTransformed(env, config, response);
  }

  /** For an object holder, `holder.data` becomes what the transforms made of it. */
  lemma {:induction false} HolderTransformed(env: Env, config: Value, holder: Value)
    requires holder.Obj?
    ensures var t := TransformData.TransformDataSpec(env, config, Get(holder.fields, "data"), Get(holder.fields, "headers"), Prop(config, "transformResponse"));
            var r := TransformHolder(env, config, holder);
            (t.0.Throw? ==> r == Throw(t.0.error)) &&
            (t.0.Normal? ==> r.Normal? && r.value.Obj? && Get(r.value.fields, "data") == t.0.value)
  {
    var headers := Prop(holder, "headers");
    assert ReadProp(holder, "data") == Normal(Get(holder.fields, "data"));
    assert headers == Get(holder.fields, "headers");
    var t := TransformData.TransformDataSpec(env, config, Get(holder.fields, "data"), headers, Prop(config, "transformResponse"));
    if t.0.Normal? {
      var holder' := Obj(Set(holder.fields, "data", t.0.value));
      assert PutProp(holder, "data", t.0.value) == Normal(holder');
      if headers.Obj? {
        assert PutProp(holder', "headers", t.1) == Normal(Obj(Set(holder'.fields, "headers", t.1)));
      }
    }
  }

  /** On a non-cancel rejection whose error carries a response object, the
      cancel token is checked again, then reason.response.data is replaced by
      the response transform's result; a throw of the transform is the
      rejection instead. */
  lemma {:induction false} RejectionTransforms(env: Env, config: Value, reason: Value)
    requires !IsCancel(reason) && CancellationThrown(env, config, AfterAdapter).None?
    requires reason.Error? && reason.response.Obj?
    ensures var t := TransformData.TransformDataSpec(env, config, Get(reason.response.fields, "data"), Get(reason.response.fields, "headers"), Prop(config, "transformResponse"));
            var r := OnRejection(env, config, reason);
            (t.0.Throw? ==> r == Throw(t.0.error)) &&
            (t.0.Normal? ==> r.Throw? && r.error.Error? && r.error.response.Obj? && Get(r.error.response.fields, "data") == t.0.value)
  {
    var response := reason.response;
    assert Truthy(reason) && Prop(reason, "response") == response && Truthy(response);
    HolderTransformed(env, config, response);
    var h := TransformHolder(env, config, response);
    if h.Normal? {
      assert PutProp(reason, "response", h.value) == Normal(reason.(response := h.value));
    }
  }

  /** A cancellation seen after the transport answered wins over both the
      response and a non-cancel rejection reason. */
  lemma {:induction false} CancelledAfterAdapter(env: Env, config: Value, response: Value, reason: Value, id: nat)
    requires Prop(config, "cancelToken") == CancelToken(id) && env.cancel(id).afterAdapter.Some?
    ensures OnResolution(env, config, response) == Throw(env.cancel(id).afterAdapter.value)
    ensures !IsCancel(reason) ==> OnRejection(env, config, reason) == Throw(env.cancel(id).afterAdapter.value)
  {
  }

  /** A cancel reason is passed on unchanged. */
  lemma {:induction false} CancelReasonPassesThrough(env: Env, config: Value, reason: Value)
    requires IsCancel(reason)
    ensures OnRejection(env, config, reason) == Throw(reason)
  {
  }

  /** A rejection without a response is passed on unchanged unless a
      cancellation intervenes; the transport's rejection is never turned
      into a success. */
  lemma {:induction false} RejectionWithoutResponse(env: Env, config: Value, reason: Value)
    requires !IsCancel(reason) && CancellationThrown(env, config, AfterAdapter).None?
    requires !Truthy(reason) || !Truthy(Prop(reason, "response"))
    ensures OnRejection(env, config, reason) == Throw(reason)
  {
  }

  /** The transport is `config.adapter` when truthy, else the default. */
  lemma {:induction false} AdapterChoice(env: Env, config: Value)
    requires Prepare(env, config).Ready?
    ensures var c := Prepare(env, config).config;
            var a := if Truthy(Prop(c, "adapter")) then Prop(c, "adapter") else env.defaultAdapter;
            DispatchSpec(env, config) ==
              match CallAdapter(env, a, c)
              case ThrowsNow(e) => Throws(e)
              case Resolves(response) => Returns(OnResolution(env, c, response))
              case Rejects(reason) => Returns(OnRejection(env, c, reason))
  {
  }
}
