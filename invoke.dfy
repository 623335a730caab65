/** Calling a JavaScript value as a function: caller-supplied functions go
    to the environment, the functions of src/defaults.js run their modelled
    behaviour, and a bound wrapper (src/helpers/bind.js) fixes `this`. */
module Invoke {
  import opened JsValue
  import Defaults

  /** `f.call(self, arg)` with one argument. */
  function CallFunc(env: Env, f: Func, self: Value, arg: Value): Completion
  {
    match f
    case UserFn(id) => env.call(id, self, arg)
    case Bound(target, thisArg) => CallFunc(env, target, thisArg, arg)
    case ValidateStatusFn => Normal(Bool(Defaults.ValidateStatus(arg)))
    case TransformRequestFn => Defaults.TransformRequest(env, arg, Undef).0
    case TransformResponseFn => Defaults.TransformResponse(env, self, arg)
  }

  /** `v.call(self, arg)`, or `v(arg)` with self undefined: a value that is not
      a function throws a TypeError. */
  function CallValue(env: Env, v: Value, self: Value, arg: Value): (r: Completion)
    ensures v.Fn? ==> r == CallFunc(env, v.f, self, arg)
    ensures !v.Fn? ==> r.Throw? && r.error.Error? && r.error.name == "TypeError"
  {
    if v.Fn? then CallFunc(env, v.f, self, arg)
    else Throw(TypeError(ToText(v) + " is not a function"))
  }

  /** `f.call(self, data, headers)`: the outcome and the headers after the
      call. A caller-supplied transform may change the properties of a plain
      object of headers; other header values stay as they are. */
  function CallTransform(env: Env, f: Func, self: Value, data: Value, headers: Value): (r: (Completion, Value))
    ensures !headers.Obj? ==> r.1 == headers
  {
    match f
    case UserFn(id) =>
      var (c, fs) := env.transform(id, self, data, headers);
      (c, if headers.Obj? then Obj(fs) else headers)
    case Bound(target, thisArg) => CallTransform(env, target, thisArg, data, headers)
    case ValidateStatusFn => (Normal(Bool(Defaults.ValidateStatus(data))), headers)
    case TransformRequestFn => Defaults.TransformRequest(env, data, headers)
    case TransformResponseFn => (Defaults.TransformResponse(env, self, data), headers)
  }

  /** `fn.call(self, data, headers)` on any value: a value without a `call`
      method throws a TypeError and changes nothing. */
  function CallTransformValue(env: Env, v: Value, self: Value, data: Value, headers: Value): (r: (Completion, Value))
    ensures v.Fn? ==> r == CallTransform(env, v.f, self, data, headers)
    ensures !v.Fn? ==> r.0.Throw? && r.1 == headers
  {
    if v.Fn? then CallTransform(env, v.f, self, data, headers)
    else (Throw(TypeError("fn.call is not a function")), headers)
  }
}
