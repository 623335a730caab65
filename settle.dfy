/** src/core/settle.js: decides, from the response status and the
    configured validator, whether the request's promise is resolved or
    rejected. */
module Settle {
  import opened JsValue
  import Defaults
  import opened Invoke

  /** What settle does: call resolve, call reject, or throw before calling
      either (reading `response.config` or calling the validator threw). */
  datatype Outcome = Resolve(response: Value) | Reject(reason: Value) | Raise(error: Value)

  /** createError(message, config, null, request, response). */
  function StatusError(response: Value, config: Value): Value
  {
    Error("Error", "Request failed with status code " + ToText(Prop(response, "status")),
          Null, config, Prop(response, "request"), response)
  }

  /** settle(resolve, reject, response): resolve is only ever called with
      the response itself, and reject only with the status error. */
  function Settle(env: Env, response: Value): (r: Outcome)
    ensures IsNullish(response) ==> r.Raise?
    ensures r.Resolve? ==> r.response == response
    ensures r.Reject? ==> r.reason == StatusError(response, Prop(response, "config"))
  {
    match ReadProp(response, "config")
    case Throw(e) => Raise(e)
    case Normal(config) =>
      match ReadProp(config, "validateStatus")
      case Throw(e) => Raise(e)
      case Normal(validateStatus) =>
        var status := Prop(response, "status");
        if !Truthy(status) || !Truthy(validateStatus) then Resolve(response)
        else
          match CallValue(env, validateStatus, Undef, status)
          case Throw(e) => Raise(e)
          case Normal(ok) => if Truthy(ok) then Resolve(response) else Reject(StatusError(response, config))
  }

  /** The readable responses: an object with a config object. */
  predicate Readable(response: Value)
  {
    !IsNullish(response) && !IsNullish(Prop(response, "config"))
  }

  /** A falsy status (0 for a failed or file request) resolves whatever the
      validator says. */
  lemma {:induction false} FalsyStatusResolves(env: Env, response: Value)
    requires Readable(response) && !Truthy(Prop(response, "status"))
    ensures Settle(env, response) == Resolve(response)
  {
  }

  /** A missing or falsy validator resolves. */
  lemma {:induction false} NoValidatorResolves(env: Env, response: Value)
    requires Readable(response) && !Truthy(Prop(Prop(response, "config"), "validateStatus"))
    ensures Settle(env, response) == Resolve(response)
  {
  }

  /** Otherwise the promise resolves exactly when the validator returns a
      truthy value, is rejected exactly when it returns a falsy one, and a
      throwing validator makes settle throw. The rejection is the status
      error: message 'Request failed with status code <status>', code null,
      and the config, request and response attached. */
  lemma {:induction false} ValidatorDecides(env: Env, response: Value)
    requires Readable(response)
    requires Truthy(Prop(response, "status")) && Truthy(Prop(Prop(response, "config"), "validateStatus"))
    ensures var config := Prop(response, "config");
            var status := Prop(response, "status");
            var c := CallValue(env, Prop(config, "validateStatus"), Undef, status);
            var r := Settle(env, response);
            (r.Resolve? <==> c.Normal? && Truthy(c.value)) &&
            (r.Reject? <==> c.Normal? && !Truthy(c.value)) &&
            (r.Raise? <==> c.Throw?) &&
            (r.Resolve? ==> r.response == response) &&
            (r.Reject? ==> r.reason.Error? &&
                           r.reason.message == "Request failed with status code " + ToText(status) &&
                           r.reason.code == Null && r.reason.config == config &&
                           r.reason.request == Prop(response, "request") && r.reason.response == response) &&
            (r.Raise? ==> r.error == c.error)
  {
  }

  /** With the default validator and a numeric status, the request resolves
      exactly for the 2xx class and is otherwise rejected. */
  lemma {:induction false} DefaultValidator(env: Env, response: Value, n: int)
    requires Readable(response) && n != 0 && Prop(response, "status") == Num(n)
    requires Prop(Prop(response, "config"), "validateStatus") == Fn(ValidateStatusFn)
    ensures Settle(env, response).Resolve? <==> 200 <= n < 300
    ensures !Settle(env, response).Raise?
  {
  }

  /** Reading the config of an undefined or null response, or the validator
      of an undefined or null config, throws before either callback runs. */
  lemma {:induction false} UnreadableRaises(env: Env, response: Value)
    requires !Readable(response)
    ensures Settle(env, response).Raise?
  {
  }
}
