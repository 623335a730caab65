/** src/core/Axios.js: an instance holds its defaults and two interceptor
    registries; `request` merges the call's config over the defaults,
    resolves the method, builds the interceptor chains and runs them around
    dispatchRequest. */
module AxiosCore {
  import opened JsValue
  import opened Invoke
  import MergeConfig
  import Interceptors
  import DispatchRequest

  /** How a `request` call ends: it returns a promise settled with the given
      completion, or throws synchronously. */
  datatype Outcome = Returned(promise: Completion) | Raised(error: Value)

  /** The two handlers an interceptor contributes to a chain. */
  datatype Pair = Pair(fulfilled: Value, rejected: Value)

  /** The request chain as built by the forEach over the request registry,
      or the error a runWhen call threw. */
  datatype Built = Built(pairs: seq<Pair>, synchronous: bool) | BuildThrew(error: Value)

  /** The sequential walk of the request chain: the config it ends with, or
      what escaped it. */
  datatype Walked = Walked(config: Value) | WalkRaised(error: Value)

  // ---------------------------------------------------------------------
  // Lines 32-54: the config the chain starts from
  // ---------------------------------------------------------------------

  /** Lines 32-40: `request(url, config)` or `request(config)`. Setting `url`
      on a truthy primitive second argument throws in strict mode. */
  function NormalizeArgs(arg0: Value, arg1: Value): Completion
  {
    if arg0.Str? then PutProp(OrEmpty(arg1), "url", arg0) else Normal(OrEmpty(arg0))
  }

  /** `m.toLowerCase()` */
  function LowerCase(env: Env, m: Value): Completion
  {
    if m.Str? then Normal(Str(Lower(m.s)))
    else match ReadProp(m, "toLowerCase")
    case Throw(e) => Throw(e)
    case Normal(f) => CallValue(env, f, m, Undef)
  }

  /** Lines 45-54: the call's method, else the instance default's, else 'get'. */
  function ResolveMethod(env: Env, config: Value, defaults: Value): Completion
  {
    if Truthy(Prop(config, "method")) then LowerCase(env, Prop(config, "method"))
    else if Truthy(Prop(defaults, "method")) then LowerCase(env, Prop(defaults, "method"))
    else Normal(Str("get"))
  }

  /** Lines 32-54: the config handed to the interceptor chain, or the error
      thrown before the chain is built. A defaults value that is not a plain
      object is taken to make mergeConfig throw. */
  function PrepareConfig(env: Env, defaults: Value, arg0: Value, arg1: Value): Completion
  {
    match NormalizeArgs(arg0, arg1)
    case Throw(e) => Throw(e)
    case Normal(config) =>
      if !defaults.Obj? then Throw(TypeError("Cannot read properties of " + ToText(defaults)))
      else match MergeConfig.MergeConfigSpec(defaults, config)
      case Throw(e) => Throw(e)
      case Normal(merged) => WithMethod(env, merged, defaults)
  }

  /** Lines 45-54 on the merged config: `config.method = ...`. */
  function WithMethod(env: Env, merged: Value, defaults: Value): Completion
  {
    match ResolveMethod(env, merged, defaults)
    case Throw(e) => Throw(e)
    case Normal(m) => PutProp(merged, "method", m)
  }

  // ---------------------------------------------------------------------
  // Lines 70-97: the chains
  // ---------------------------------------------------------------------

  /** An interceptor as the object runWhen is called on. */
  function InterceptorValue(h: Interceptors.Interceptor): Value
  {
    Obj([("fulfilled", h.fulfilled), ("rejected", h.rejected),
         ("synchronous", h.synchronous), ("runWhen", h.runWhen)])
  }

  /** Line 85: skipped exactly when runWhen is a function returning `false`
      itself (not merely a falsy value). */
  function Skipped(env: Env, config: Value, h: Interceptors.Interceptor): Completion
  {
    if !h.runWhen.Fn? then Normal(Bool(false))
    else match CallValue(env, h.runWhen, InterceptorValue(h), config)
    case Throw(e) => Throw(e)
    case Normal(v) => Normal(Bool(v == Bool(false)))
  }

  /** Lines 72-92, over the interceptors forEach visits: each kept
      interceptor's pair is put in front (unshift), and the flag stays true
      while every kept one is synchronous. */
  function RequestChain(env: Env, config: Value, hs: seq<Interceptors.Interceptor>): Built
    decreases |hs|
  {
    if hs == [] then Built([], true)
    else RequestStep(env, config, RequestChain(env, config, hs[..|hs| - 1]), hs[|hs| - 1])
  }

  /** One call of unshiftRequestInterceptors (lines 84-91). */
  function RequestStep(env: Env, config: Value, prior: Built, h: Interceptors.Interceptor): Built
  {
    match prior
    case BuildThrew(e) => BuildThrew(e)
    case Built(pairs, sync) =>
      match Skipped(env, config, h)
      case Throw(e) => BuildThrew(e)
      case Normal(skip) =>
        if skip == Bool(true) then Built(pairs, sync)
        else Built([Pair(h.fulfilled, h.rejected)] + pairs, sync && Truthy(h.synchronous))
  }

  /** The pairs of a list of interceptors, in the same order. */
  function PairsOf(hs: seq<Interceptors.Interceptor>): (ps: seq<Pair>)
    ensures |ps| == |hs|
    ensures forall i :: 0 <= i < |hs| ==> ps[i] == Pair(hs[i].fulfilled, hs[i].rejected)
  {
    seq(|hs|, i requires 0 <= i < |hs| => Pair(hs[i].fulfilled, hs[i].rejected))
  }

  function Reverse<T>(s: seq<T>): (r: seq<T>)
    ensures |r| == |s|
    ensures forall i :: 0 <= i < |s| ==> r[i] == s[|s| - 1 - i]
  {
    seq(|s|, i requires 0 <= i < |s| => s[|s| - 1 - i])
  }

  /** Every interceptor was registered with a truthy `synchronous`. */
  predicate AllSynchronous(hs: seq<Interceptors.Interceptor>)
  {
    forall i :: 0 <= i < |hs| ==> Truthy(hs[i].synchronous)
  }

  // ---------------------------------------------------------------------
  // Promise steps
  // ---------------------------------------------------------------------

  /** `promise.then(fulfilled, rejected)` once `promise` settled with `p`: a
      handler that is not a function passes the settlement on. */
  function Then(env: Env, p: Completion, pair: Pair): Completion
  {
    match p
    case Normal(v) => if pair.fulfilled.Fn? then CallValue(env, pair.fulfilled, Undef, v) else p
    case Throw(e) => if pair.rejected.Fn? then CallValue(env, pair.rejected, Undef, e) else p
  }

  /** A chain of `.then` calls. */
  function ThenAll(env: Env, p: Completion, pairs: seq<Pair>): Completion
    decreases |pairs|
  {
    if pairs == [] then p else ThenAll(env, Then(env, p, pairs[0]), pairs[1..])
  }

  /** `.then(dispatchRequest, undefined)`: a synchronous throw of
      dispatchRequest rejects the next promise. */
  function ThenDispatch(env: Env, p: Completion): Completion
  {
    match p
    case Throw(_) => p
    case Normal(config) =>
      match DispatchRequest.DispatchSpec(env, config)
      case Throws(e) => Throw(e)
      case Returns(s) => s
  }

  /** Lines 118-128: each fulfilled handler is called directly on the
      config; when one throws, its own rejected handler receives the error
      and the walk stops with the config from before that call. A rejected
      handler that throws, or is not callable, makes `request` throw. */
  function SyncWalk(env: Env, config: Value, pairs: seq<Pair>): Walked
    decreases |pairs|
  {
    if pairs == [] then Walked(config)
    else match CallValue(env, pairs[0].fulfilled, Undef, config)
    case Normal(next) => SyncWalk(env, next, pairs[1..])
    case Throw(e) =>
      match CallValue(env, pairs[0].rejected, Undef, e)
      case Throw(e2) => WalkRaised(e2)
      case Normal(_) => Walked(config)
  }

  /** Lines 117-140: the synchronous branch. */
  function SyncRun(env: Env, config: Value, requestPairs: seq<Pair>, responsePairs: seq<Pair>): Outcome
  {
    match SyncWalk(env, config, requestPairs)
    case WalkRaised(e) => Raised(e)
    case Walked(c) => SyncDispatch(env, c, responsePairs)
  }

  /** Lines 130-140: a synchronous throw of dispatchRequest becomes the
      returned rejection without reaching the response handlers. */
  function SyncDispatch(env: Env, config: Value, responsePairs: seq<Pair>): Outcome
  {
    Respond(env, DispatchRequest.DispatchSpec(env, config), responsePairs)
  }

  /** Lines 130-138 after dispatchRequest(newConfig) ran: its synchronous
      throw is returned as a rejection, its promise goes through the
      response pairs. */
  function Respond(env: Env, d: DispatchRequest.Dispatched, responsePairs: seq<Pair>): Outcome
  {
    match d
    case Throws(e) => Returned(Throw(e))
    case Returns(s) => Returned(ThenAll(env, s, responsePairs))
  }

  /** Lines 101-116: `chain.concat(...)` at line 107 discards its result,
      so the chain is the request pairs and dispatchRequest only, and the
      response interceptors never run on this branch. */
  function AsyncRun(env: Env, config: Value, requestPairs: seq<Pair>, responsePairs: seq<Pair>): Outcome
  {
    Returned(ThenDispatch(env, ThenAll(env, Normal(config), requestPairs)))
  }

  /** Reference for the asynchronous branch had line 107 kept the
      concatenation: request pairs, dispatchRequest, then the response
      pairs. */
  function AsyncRunChained(env: Env, config: Value, requestPairs: seq<Pair>, responsePairs: seq<Pair>): Outcome
  {
    Returned(ThenAll(env, ThenDispatch(env, ThenAll(env, Normal(config), requestPairs)), responsePairs))
  }

  /** Lines 70-140 once the config is ready, over the interceptors the two
      registries' forEach visit. */
  function Pipeline(env: Env, config: Value, requestIs: seq<Interceptors.Interceptor>,
                    responseIs: seq<Interceptors.Interceptor>): Outcome
  {
    match RequestChain(env, config, requestIs)
    case BuildThrew(e) => Raised(e)
    case Built(pairs, sync) =>
      if !sync then AsyncRun(env, config, pairs, PairsOf(responseIs))
      else SyncRun(env, config, pairs, PairsOf(responseIs))
  }

  /** Axios.prototype.request(arg0, arg1) on an instance with the given
      defaults and registry slots. */
  function RequestSpec(env: Env, defaults: Value, requestSlots: seq<Interceptors.Slot>,
                       responseSlots: seq<Interceptors.Slot>, arg0: Value, arg1: Value): Outcome
  {
    match PrepareConfig(env, defaults, arg0, arg1)
    case Throw(e) => Raised(e)
    case Normal(config) => Pipeline(env, config, Interceptors.Live(requestSlots), Interceptors.Live(responseSlots))
  }

  /** The methods of the two alias groups. */
  const NoDataMethods: seq<string> := ["delete", "get", "head", "options"]
  const DataMethods: seq<string> := ["post", "put", "patch"]

  /** Lines 149-173: `mergeConfig(config || {}, {method, url, data})`. A
      truthy `config` that is not a plain object is taken to make mergeConfig
      throw. */
  function AliasConfig(verb: string, url: Value, data: Value, config: Value): Completion
  {
    var base := OrEmpty(config);
    if !base.Obj? then Throw(TypeError("Cannot use 'in' operator to search for 'validateStatus' in " + ToText(base)))
    else MergeConfig.MergeConfigSpec(base, Obj([("method", Str(verb)), ("url", url), ("data", data)]))
  }

  // ---------------------------------------------------------------------
  // The imperative code
  // ---------------------------------------------------------------------

  /** The forEach at lines 74-92: runWhen calls in registration order, each
      kept pair unshifted. */
  method BuildRequestChain(env: Env, config: Value, hs: seq<Interceptors.Interceptor>) returns (b: Built)
    ensures b == RequestChain(env, config, hs)
  {
    var chain: seq<Pair> := [];
    var sync := true;
    var i := 0;
    while i < |hs|
      invariant 0 <= i <= |hs|
      invariant RequestChain(env, config, hs[..i]) == Built(chain, sync)
    {
      assert hs[..i + 1][..i] == hs[..i] && hs[..i + 1][i] == hs[i];
      var next := UnshiftRequestInterceptor(env, config, chain, sync, hs[i]);
      if next.BuildThrew? {
        ThrewStays(env, config, hs, i + 1);
        assert hs[..|hs|] == hs;
        return next;
      }
      chain, sync := next.pairs, next.synchronous;
      i := i + 1;
    }
    assert hs[..i] == hs;
    b := Built(chain, sync);
  }

  /** unshiftRequestInterceptors(interceptor): skipped when runWhen answers
      false, otherwise its pair goes to the front of the chain. */
  method UnshiftRequestInterceptor(env: Env, config: Value, chain: seq<Pair>, sync: bool, h: Interceptors.Interceptor)
    returns (b: Built)
    ensures b == RequestStep(env, config, Built(chain, sync), h)
  {
    if h.runWhen.Fn? {
      var answer := CallValue(env, h.runWhen, InterceptorValue(h), config);
      if answer.Throw? {
        return BuildThrew(answer.error);
      }
      if answer.value == Bool(false) {
        return Built(chain, sync);
      }
    }
    b := Built([Pair(h.fulfilled, h.rejected)] + chain, sync && Truthy(h.synchronous));
  }

  /** The forEach at lines 94-97. */
  method BuildResponseChain(hs: seq<Interceptors.Interceptor>) returns (chain: seq<Pair>)
    ensures chain == PairsOf(hs)
  {
    chain := [];
    var i := 0;
    while i < |hs|
      invariant 0 <= i <= |hs|
      invariant chain == PairsOf(hs[..i])
    {
      chain := chain + [Pair(hs[i].fulfilled, hs[i].rejected)];
      i := i + 1;
    }
    assert hs[..i] == hs;
  }

  /** `while (chain.length) promise = promise.then(chain.shift(), chain.shift())` */
  method RunThen(env: Env, p: Completion, pairs: seq<Pair>) returns (r: Completion)
    ensures r == ThenAll(env, p, pairs)
  {
    r := p;
    var i := 0;
    while i < |pairs|
      invariant 0 <= i <= |pairs|
      invariant ThenAll(env, r, pairs[i..]) == ThenAll(env, p, pairs)
    {
      assert pairs[i..][1..] == pairs[i + 1..];
      r := Then(env, r, pairs[i]);
      i := i + 1;
    }
  }

  /** The loop at lines 119-128. */
  method RunSyncWalk(env: Env, config: Value, pairs: seq<Pair>) returns (w: Walked)
    ensures w == SyncWalk(env, config, pairs)
  {
    var newConfig := config;
    var i := 0;
    while i < |pairs|
      invariant 0 <= i <= |pairs|
      invariant SyncWalk(env, newConfig, pairs[i..]) == SyncWalk(env, config, pairs)
    {
      assert pairs[i..][1..] == pairs[i + 1..];
      var attempt := CallValue(env, pairs[i].fulfilled, Undef, newConfig);
      if attempt.Throw? {
        var recovered := CallValue(env, pairs[i].rejected, Undef, attempt.error);
        if recovered.Throw? {
          return WalkRaised(recovered.error);
        }
        break;
      }
      newConfig := attempt.value;
      i := i + 1;
    }
    w := Walked(newConfig);
  }

  /** Lines 70-140. */
  method RunPipeline(env: Env, config: Value, requestIs: seq<Interceptors.Interceptor>,
                     responseIs: seq<Interceptors.Interceptor>) returns (r: Outcome)
    ensures r == Pipeline(env, config, requestIs, responseIs)
  {
    var built := BuildRequestChain(env, config, requestIs);
    if built.BuildThrew? {
      return Raised(built.error);
    }
    var responsePairs := BuildResponseChain(responseIs);
    if !built.synchronous {
      // The concatenation with responsePairs (line 107) is discarded.
      var promise := RunThen(env, Normal(config), built.pairs);
      if promise.Normal? {
        var d := DispatchRequest.Dispatch(env, promise.value);
        promise := if d.Throws? then Throw(d.error) else d.settled;
      }
      return Returned(promise);
    }
    var walked := RunSyncWalk(env, config, built.pairs);
    if walked.WalkRaised? {
      return Raised(walked.error);
    }
    var d := DispatchRequest.Dispatch(env, walked.config);
    if d.Throws? {
      return Returned(Throw(d.error));
    }
    var promise := RunThen(env, d.settled, responsePairs);
    r := Returned(promise);
  }

  /** Lines 32-54. */
  method Prepare(env: Env, defaults: Value, arg0: Value, arg1: Value) returns (r: Completion)
    ensures r == PrepareConfig(env, defaults, arg0, arg1)
  {
    var config := NormalizeCall(arg0, arg1);
    if config.Throw? {
      return config;
    }
    if !defaults.Obj? {
      return Throw(TypeError("Cannot read properties of " + ToText(defaults)));
    }
    var merged := MergeConfig.MergeConfig(defaults, config.value);
    if merged.Throw? {
      return merged;
    }
    r := AssignMethod(env, merged.value, defaults);
  }

  /** Lines 32-40: `config = arguments[1] || {}; config.url = arguments[0]`
      for a string first argument, else `config = config || {}`. */
  method NormalizeCall(arg0: Value, arg1: Value) returns (r: Completion)
    ensures r == NormalizeArgs(arg0, arg1)
  {
    if arg0.Str? {
      r := PutProp(OrEmpty(arg1), "url", arg0);
    } else {
      r := Normal(OrEmpty(arg0));
    }
  }

  /** Lines 45-54: `config.method` lower-cased, else the default's, else 'get'. */
  method AssignMethod(env: Env, merged: Value, defaults: Value) returns (r: Completion)
    ensures r == WithMethod(env, merged, defaults)
  {
    var m := ResolveMethod(env, merged, defaults);
    if m.Throw? {
      return m;
    }
    r := PutProp(merged, "method", m.value);
  }

  class Axios {
    var defaults: Value
    var requestInterceptors: Interceptors.InterceptorManager
    var responseInterceptors: Interceptors.InterceptorManager

    /** Lines 16-22: the instance config and two empty registries. */
    constructor(instanceConfig: Value)
      ensures defaults == instanceConfig
      ensures fresh(requestInterceptors) && fresh(responseInterceptors)
      ensures requestInterceptors != responseInterceptors
      ensures requestInterceptors.handlers == [] && responseInterceptors.handlers == []
    {
      defaults := instanceConfig;
      requestInterceptors := new Interceptors.InterceptorManager();
      responseInterceptors := new Interceptors.InterceptorManager();
    }

    /** Lines 29-141. */
    method Request(env: Env, arg0: Value, arg1: Value) returns (r: Outcome)
      ensures r == RequestSpec(env, defaults, requestInterceptors.handlers, responseInterceptors.handlers, arg0, arg1)
    {
      var config := Prepare(env, defaults, arg0, arg1);
      if config.Throw? {
        return Raised(config.error);
      }
      var requestIs := requestInterceptors.ForEach();
      var responseIs := responseInterceptors.ForEach();
      r := RunPipeline(env, config.value, requestIs, responseIs);
    }

    /** Lines 149-173: the method aliases. `data` is the body argument of
        post, put and patch; the other four read it from `config`. */
    method Alias(env: Env, verb: string, url: Value, data: Value, config: Value) returns (r: Outcome)
      requires verb in NoDataMethods || verb in DataMethods
      ensures var body := if verb in DataMethods then data else Prop(OrEmpty(config), "data");
              match AliasConfig(verb, url, body, config)
              case Throw(e) => r == Raised(e)
              case Normal(c) => r == RequestSpec(env, defaults, requestInterceptors.handlers, responseInterceptors.handlers, c, Undef)
    {
      var body := if verb in DataMethods then data else Prop(OrEmpty(config), "data");
      var base := OrEmpty(config);
      if !base.Obj? {
        return Raised(TypeError("Cannot use 'in' operator to search for 'validateStatus' in " + ToText(base)));
      }
      var merged := MergeConfig.MergeConfig(base, Obj([("method", Str(verb)), ("url", url), ("data", body)]));
      if merged.Throw? {
        return Raised(merged.error);
      }
      r := Request(env, merged.value, Undef);
    }
  }

  // ---------------------------------------------------------------------
  // Properties
  // ---------------------------------------------------------------------

  /** Once a runWhen call threw, later interceptors change nothing. */
  lemma {:induction false} ThrewStays(env: Env, config: Value, hs: seq<Interceptors.Interceptor>, i: nat)
    requires i <= |hs| && RequestChain(env, config, hs[..i]).BuildThrew?
    ensures RequestChain(env, config, hs) == RequestChain(env, config, hs[..i])
    decreases |hs| - i
  {
    if i < |hs| {
      assert hs[..i + 1][..i] == hs[..i];
      ThrewStays(env, config, hs, i + 1);
    } else {
      assert hs[..i] == hs;
    }
  }

  /** Without runWhen functions, the request handlers run in the reverse
      of their registration order, and the chain is synchronous exactly when
      every interceptor asked for it. */
  lemma {:induction false} RequestChainReversed(env: Env, config: Value, hs: seq<Interceptors.Interceptor>)
    requires forall i :: 0 <= i < |hs| ==> !hs[i].runWhen.Fn?
    ensures RequestChain(env, config, hs) == Built(Reverse(PairsOf(hs)), AllSynchronous(hs))
    decreases |hs|
  {
    if hs != [] {
      var init := hs[..|hs| - 1];
      RequestChainReversed(env, config, init);
      var h := hs[|hs| - 1];
      assert [Pair(h.fulfilled, h.rejected)] + Reverse(PairsOf(init)) == Reverse(PairsOf(hs));
      assert AllSynchronous(hs) == (AllSynchronous(init) && Truthy(h.synchronous)) by {
        assert forall i :: 0 <= i < |init| ==> init[i] == hs[i];
      }
    }
  }

  /** The interceptors that survive line 85: those whose runWhen does not
      answer `false`. */
  function Kept(env: Env, config: Value, hs: seq<Interceptors.Interceptor>): seq<Interceptors.Interceptor>
    decreases |hs|
  {
    if hs == [] then []
    else
      var h := hs[|hs| - 1];
      Kept(env, config, hs[..|hs| - 1]) + (if Skipped(env, config, h) == Normal(Bool(true)) then [] else [h])
  }

  /** No runWhen call throws. */
  predicate RunWhenAnswers(env: Env, config: Value, hs: seq<Interceptors.Interceptor>)
  {
    forall i :: 0 <= i < |hs| ==> Skipped(env, config, hs[i]).Normal?
  }

  /** Putting one more interceptor last puts its pair first in the reversed
      chain, and the flag is and-ed with its synchronous. */
  lemma {:induction false} ReversedSnoc(ks: seq<Interceptors.Interceptor>, h: Interceptors.Interceptor)
    ensures Reverse(PairsOf(ks + [h])) == [Pair(h.fulfilled, h.rejected)] + Reverse(PairsOf(ks))
    ensures AllSynchronous(ks + [h]) == (AllSynchronous(ks) && Truthy(h.synchronous))
  {
    var ks' := ks + [h];
    assert forall i :: 0 <= i < |ks| ==> ks'[i] == ks[i];
    assert ks'[|ks|] == h;
  }

  /** When no runWhen throws, the request chain is the pairs of the kept
      interceptors in reverse registration order, and it is synchronous
      exactly when every kept interceptor is. */
  lemma {:induction false} KeptChain(env: Env, config: Value, hs: seq<Interceptors.Interceptor>)
    requires RunWhenAnswers(env, config, hs)
    ensures var ks := Kept(env, config, hs);
            RequestChain(env, config, hs) == Built(Reverse(PairsOf(ks)), AllSynchronous(ks))
    decreases |hs|
  {
    if hs != [] {
      var init := hs[..|hs| - 1];
      var h := hs[|hs| - 1];
      assert forall i :: 0 <= i < |init| ==> init[i] == hs[i];
      KeptChain(env, config, init);
      var ks := Kept(env, config, init);
      assert Skipped(env, config, h).Normal?;
      if Skipped(env, config, h) == Normal(Bool(true)) {
        assert Kept(env, config, hs) == ks + [];
        assert ks + [] == ks;
      } else {
        assert Kept(env, config, hs) == ks + [h];
        ReversedSnoc(ks, h);
      }
    }
  }

  /** The first runWhen that throws ends the chain building with its error. */
  lemma {:induction false} RunWhenThrowStops(env: Env, config: Value, hs: seq<Interceptors.Interceptor>, i: nat, e: Value)
    requires i < |hs| && RunWhenAnswers(env, config, hs[..i])
    requires Skipped(env, config, hs[i]) == Throw(e)
    ensures RequestChain(env, config, hs) == BuildThrew(e)
  {
    KeptChain(env, config, hs[..i]);
    assert hs[..i + 1][..i] == hs[..i];
    ThrewStays(env, config, hs, i + 1);
  }

  /** An interceptor whose runWhen returns false contributes nothing. */
  lemma {:induction false} RunWhenFalseSkips(env: Env, config: Value, hs: seq<Interceptors.Interceptor>, h: Interceptors.Interceptor)
    requires h.runWhen.Fn? && CallValue(env, h.runWhen, InterceptorValue(h), config) == Normal(Bool(false))
    ensures RequestChain(env, config, hs + [h]) == RequestChain(env, config, hs)
  {
    assert (hs + [h])[..|hs|] == hs;
  }

  /** A rejection passes through handlers that have no rejected function. */
  lemma {:induction false} RejectionPassesThrough(env: Env, e: Value, pairs: seq<Pair>)
    requires forall i :: 0 <= i < |pairs| ==> !pairs[i].rejected.Fn?
    ensures ThenAll(env, Throw(e), pairs) == Throw(e)
    decreases |pairs|
  {
    if pairs != [] {
      RejectionPassesThrough(env, e, pairs[1..]);
    }
  }

  /** A chain of `.then` calls composes over concatenation. */
  lemma {:induction false} ThenAllConcat(env: Env, p: Completion, a: seq<Pair>, b: seq<Pair>)
    ensures ThenAll(env, p, a + b) == ThenAll(env, ThenAll(env, p, a), b)
    decreases |a|
  {
    if a == [] {
      assert a + b == b;
    } else {
      assert (a + b)[0] == a[0] && (a + b)[1..] == a[1..] + b;
      ThenAllConcat(env, Then(env, p, a[0]), a[1..], b);
    }
  }

  /** Every fulfilled handler of the chain returns normally from `config`. */
  predicate AllFulfil(env: Env, config: Value, pairs: seq<Pair>)
    decreases |pairs|
  {
    pairs == [] ||
    (CallValue(env, pairs[0].fulfilled, Undef, config).Normal? &&
     AllFulfil(env, CallValue(env, pairs[0].fulfilled, Undef, config).value, pairs[1..]))
  }

  /** When no fulfilled handler throws, the synchronous walk and the promise
      chain hand the same config on. */
  lemma {:induction false} WalkIsChain(env: Env, config: Value, pairs: seq<Pair>)
    requires AllFulfil(env, config, pairs)
    ensures SyncWalk(env, config, pairs).Walked?
    ensures ThenAll(env, Normal(config), pairs) == Normal(SyncWalk(env, config, pairs).config)
    decreases |pairs|
  {
    if pairs != [] {
      var c := CallValue(env, pairs[0].fulfilled, Undef, config);
      assert pairs[0].fulfilled.Fn?;
      assert Then(env, Normal(config), pairs[0]) == c;
      WalkIsChain(env, c.value, pairs[1..]);
    }
  }

  /** Hence, when no request interceptor throws and dispatchRequest returns
      its promise, the synchronous branch is the promise chain of request
      pairs, dispatchRequest and response pairs. */
  lemma {:induction false} SyncAgreesWithAsync(env: Env, config: Value, requestPairs: seq<Pair>, responsePairs: seq<Pair>)
    requires AllFulfil(env, config, requestPairs)
    requires SyncWalk(env, config, requestPairs).Walked?
    requires DispatchRequest.DispatchSpec(env, SyncWalk(env, config, requestPairs).config).Returns?
    ensures SyncRun(env, config, requestPairs, responsePairs) == AsyncRunChained(env, config, requestPairs, responsePairs)
  {
    WalkIsChain(env, config, requestPairs);
  }

  /** When dispatchRequest throws synchronously, the synchronous branch
      returns the rejection directly, while the promise chain would offer it
      to the response handlers' rejected functions. */
  lemma {:induction false} SyncDispatchThrowSkipsResponse(env: Env, config: Value, responsePairs: seq<Pair>)
    requires DispatchRequest.DispatchSpec(env, config).Throws?
    ensures SyncDispatch(env, config, responsePairs) == Returned(Throw(DispatchRequest.DispatchSpec(env, config).error))
    ensures ThenDispatch(env, Normal(config)) == Throw(DispatchRequest.DispatchSpec(env, config).error)
  {
  }

  /** The synchronous walk stops at the first fulfilled handler that
      throws, when its rejected handler returns: dispatch then receives the
      config from before that handler. */
  lemma {:induction false} WalkStopsAtThrow(env: Env, config: Value, a: seq<Pair>, p: Pair, b: seq<Pair>)
    requires AllFulfil(env, config, a)
    requires SyncWalk(env, config, a).Walked?
    requires var c := SyncWalk(env, config, a).config;
             CallValue(env, p.fulfilled, Undef, c).Throw? &&
             CallValue(env, p.rejected, Undef, CallValue(env, p.fulfilled, Undef, c).error).Normal?
    ensures SyncWalk(env, config, a + [p] + b) == SyncWalk(env, config, a)
    decreases |a|
  {
    WalkIsChain(env, config, a);
    if a == [] {
      assert a + [p] + b == [p] + b;
    } else {
      var c := CallValue(env, a[0].fulfilled, Undef, config);
      assert (a + [p] + b)[0] == a[0] && (a + [p] + b)[1..] == a[1..] + [p] + b;
      WalkStopsAtThrow(env, c.value, a[1..], p, b);
    }
  }

  /** The asynchronous branch: its outcome does not depend on the response
      interceptors at all, so it is the outcome with none registered. */
  lemma {:induction false} AsyncIgnoresResponse(env: Env, config: Value, requestIs: seq<Interceptors.Interceptor>,
                             responseA: seq<Interceptors.Interceptor>, responseB: seq<Interceptors.Interceptor>)
    requires RequestChain(env, config, requestIs).Built? && !RequestChain(env, config, requestIs).synchronous
    ensures Pipeline(env, config, requestIs, responseA) == Pipeline(env, config, requestIs, responseB)
    ensures Pipeline(env, config, requestIs, responseA) ==
            AsyncRunChained(env, config, RequestChain(env, config, requestIs).pairs, [])
  {
  }

  /** Keeping the concatenation would run the response handlers, in
      registration order, on what the branch returns now. */
  lemma {:induction false} ChainedRunsResponse(env: Env, config: Value, requestPairs: seq<Pair>, responsePairs: seq<Pair>)
    ensures var now := AsyncRun(env, config, requestPairs, responsePairs);
            now.Returned? &&
            AsyncRunChained(env, config, requestPairs, responsePairs) == Returned(ThenAll(env, now.promise, responsePairs))
  {
  }

  /** Once dispatchRequest returned its promise, the synchronous branch
      runs the response handlers in registration order: registering more
      interceptors adds `.then` steps after the earlier ones. */
  lemma {:induction false} SyncResponseOrder(env: Env, config: Value, responseA: seq<Interceptors.Interceptor>,
                          responseB: seq<Interceptors.Interceptor>)
    requires DispatchRequest.DispatchSpec(env, config).Returns?
    ensures var first := SyncDispatch(env, config, PairsOf(responseA));
            first.Returned? &&
            SyncDispatch(env, config, PairsOf(responseA + responseB)) == Returned(ThenAll(env, first.promise, PairsOf(responseB)))
  {
    PairsOfConcat(responseA, responseB);
    RespondConcat(env, DispatchRequest.DispatchSpec(env, config), PairsOf(responseA), PairsOf(responseB));
  }

  lemma {:induction false} PairsOfConcat(a: seq<Interceptors.Interceptor>, b: seq<Interceptors.Interceptor>)
    ensures PairsOf(a + b) == PairsOf(a) + PairsOf(b)
  {
  }

  /** Response pairs registered later run on what the earlier ones produced. */
  lemma {:induction false} RespondConcat(env: Env, d: DispatchRequest.Dispatched, a: seq<Pair>, b: seq<Pair>)
    requires d.Returns?
    ensures Respond(env, d, a).Returned?
    ensures Respond(env, d, a + b) == Returned(ThenAll(env, Respond(env, d, a).promise, b))
  {
    ThenAllConcat(env, d.settled, a, b);
  }

  /** A string that is already lower-case is unchanged. */
  lemma {:induction false} LowerOfLowercase(s: string)
    requires forall i :: 0 <= i < |s| ==> 'a' <= s[i] <= 'z'
    ensures Lower(s) == s
  {
  }

  /** The method precedence of lines 45-54 on a merged config: its own
      method, else the instance default's, else 'get'; always lower-cased,
      and nothing but the method changes. */
  lemma {:induction false} MethodPrecedence(env: Env, merged: Fields, defaults: Fields)
    ensures var r := WithMethod(env, Obj(merged), Obj(defaults));
            var mine := Get(merged, "method");
            var theirs := Get(defaults, "method");
            (mine.Str? && mine.s != "" ==> r == Normal(Obj(Set(merged, "method", Str(Lower(mine.s)))))) &&
            (!Truthy(mine) && theirs.Str? && theirs.s != "" ==> r == Normal(Obj(Set(merged, "method", Str(Lower(theirs.s)))))) &&
            (!Truthy(mine) && !Truthy(theirs) ==> r == Normal(Obj(Set(merged, "method", Str("get"))))) &&
            (r.Normal? ==> r.value.Obj? && forall k :: k != "method" ==> Get(r.value.fields, k) == Get(merged, k))
  {
    var m := ResolveMethod(env, Obj(merged), Obj(defaults));
    var mine := Get(merged, "method");
    var theirs := Get(defaults, "method");
    assert Prop(Obj(merged), "method") == mine && Prop(Obj(defaults), "method") == theirs;
    if mine.Str? && mine.s != "" {
      assert m == Normal(Str(Lower(mine.s)));
    } else if !Truthy(mine) && theirs.Str? && theirs.s != "" {
      assert m == Normal(Str(Lower(theirs.s)));
    } else if !Truthy(mine) && !Truthy(theirs) {
      assert m == Normal(Str("get"));
    }
    if m.Normal? {
      assert WithMethod(env, Obj(merged), Obj(defaults)) == Normal(Obj(Set(merged, "method", m.value)));
    }
  }

  /** A plain-object call config reaches the method step as the merge of
      the defaults and that config. */
  lemma {:induction false} PreparedFromMerge(env: Env, defaults: Value, call: Fields)
    requires defaults.Obj?
    ensures PrepareConfig(env, defaults, Obj(call), Undef) ==
            WithMethod(env, Obj(MergeConfig.MergeFieldsSpec(defaults.fields, call)), defaults)
  {
    assert NormalizeArgs(Obj(call), Undef) == Normal(Obj(call));
    assert !MergeConfig.InThrows(Obj(call));
    assert MergeConfig.OverrideFields(Obj(call)) == call;
  }

  /** Hence the call's method, a lower-cased string, is the one requested. */
  lemma {:induction false} CallMethodWins(env: Env, defaults: Value, call: Fields)
    requires defaults.Obj? && Get(call, "method").Str? && Get(call, "method").s != ""
    ensures var r := PrepareConfig(env, defaults, Obj(call), Undef);
            r.Normal? && r.value.Obj? && Get(r.value.fields, "method") == Str(Lower(Get(call, "method").s))
  {
    var merged := MergeConfig.MergeFieldsSpec(defaults.fields, call);
    PreparedFromMerge(env, defaults, call);
    MergeConfig.FromConfig2Only(defaults.fields, call, "method");
    MethodPrecedence(env, merged, defaults.fields);
  }

  /** `request(url, config)`: the url argument wins over config.url. */
  lemma {:induction false} UrlArgumentWins(env: Env, defaults: Value, url: string, config: Value)
    requires defaults.Obj? && (!Truthy(config) || config.Obj?)
    ensures var r := PrepareConfig(env, defaults, Str(url), config);
            r.Normal? ==> r.value.Obj? && Get(r.value.fields, "url") == Str(url)
  {
    var c := Set(OrEmpty(config).fields, "url", Str(url));
    assert NormalizeArgs(Str(url), config) == Normal(Obj(c));
    assert NormalizeArgs(Obj(c), Undef) == Normal(Obj(c));
    assert PrepareConfig(env, defaults, Str(url), config) == PrepareConfig(env, defaults, Obj(c), Undef);
    PreparedKeepsUrl(env, defaults, c, Str(url));
  }

  /** A plain-object config keeps its url through the merge with the
      defaults and the method step. */
  lemma {:induction false} PreparedKeepsUrl(env: Env, defaults: Value, c: Fields, url: Value)
    requires defaults.Obj? && Get(c, "url") == url && !url.Undef? && !url.Obj?
    ensures var r := PrepareConfig(env, defaults, Obj(c), Undef);
            r.Normal? ==> r.value.Obj? && Get(r.value.fields, "url") == url
  {
    PreparedFromMerge(env, defaults, c);
    var merged := MergeConfig.MergeFieldsSpec(defaults.fields, c);
    MergeConfig.FromConfig2Only(defaults.fields, c, "url");
    MethodPrecedence(env, merged, defaults.fields);
  }

  /** An alias call requests its own method and url, whatever the config
      says. */
  lemma {:induction false} AliasSetsMethodAndUrl(env: Env, defaults: Value, verb: string, url: Value, data: Value, config: Value)
    requires defaults.Obj? && OrEmpty(config).Obj?
    requires verb in NoDataMethods || verb in DataMethods
    requires !url.Undef? && !url.Obj?
    ensures AliasConfig(verb, url, data, config).Normal?
    ensures var c := PrepareConfig(env, defaults, AliasConfig(verb, url, data, config).value, Undef);
            c.Normal? && c.value.Obj? && Get(c.value.fields, "method") == Str(verb) && Get(c.value.fields, "url") == url
  {
    AliasMerged(verb, url, data, config);
    AliasVerb(verb);
    PreparedKeepsMethodAndUrl(env, defaults, AliasConfig(verb, url, data, config).value.fields, verb, url);
  }

  /** The alias's own config merged over the given one holds the alias's
      method and url. */
  lemma {:induction false} AliasMerged(verb: string, url: Value, data: Value, config: Value)
    requires OrEmpty(config).Obj? && !url.Undef? && !url.Obj?
    ensures var c := AliasConfig(verb, url, data, config);
            c.Normal? && c.value.Obj? && Get(c.value.fields, "method") == Str(verb) && Get(c.value.fields, "url") == url
  {
    var base := OrEmpty(config).fields;
    var f2: Fields := [("method", Str(verb)), ("url", url), ("data", data)];
    assert Get(f2, "method") == Str(verb) && Get(f2, "url") == url;
    assert !MergeConfig.InThrows(Obj(f2));
    assert MergeConfig.OverrideFields(Obj(f2)) == f2;
    var m := MergeConfig.MergeFieldsSpec(base, f2);
    assert AliasConfig(verb, url, data, config) == Normal(Obj(m));
    MergeConfig.FromConfig2Only(base, f2, "method");
    MergeConfig.FromConfig2Only(base, f2, "url");
  }

  /** A plain-object config with a lower-case method and a non-object url
      keeps both through the merge with the defaults and the method step. */
  lemma {:induction false} PreparedKeepsMethodAndUrl(env: Env, defaults: Value, m: Fields, verb: string, url: Value)
    requires defaults.Obj? && verb != "" && Lower(verb) == verb
    requires Get(m, "method") == Str(verb) && Get(m, "url") == url && !url.Undef? && !url.Obj?
    ensures var c := PrepareConfig(env, defaults, Obj(m), Undef);
            c.Normal? && c.value.Obj? && Get(c.value.fields, "method") == Str(verb) && Get(c.value.fields, "url") == url
  {
    PreparedFromMerge(env, defaults, m);
    var m2 := MergeConfig.MergeFieldsSpec(defaults.fields, m);
    MergeConfig.FromConfig2Only(defaults.fields, m, "method");
    MergeConfig.FromConfig2Only(defaults.fields, m, "url");
    assert Get(m2, "method") == Str(verb) && Get(m2, "url") == url;
    MethodPrecedence(env, m2, defaults.fields);
  }

  /** The alias methods are non-empty lower-case names. */
  lemma {:induction false} AliasVerb(verb: string)
    requires verb in NoDataMethods || verb in DataMethods
    ensures verb != "" && Lower(verb) == verb
  {
    LowerOfLowercase(verb);
  }
}
