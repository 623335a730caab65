/** JavaScript values as the request pipeline sees them: the type tests of
    src/utils.js, plain objects as ordered property lists, and the outside
    world (user functions, the transport, cancel tokens, JSON) as an `Env`. */
module JsValue {

  datatype Option<T> = None | Some(value: T)

  /** A callable value. Caller-supplied functions are known only by identity;
      the three functions of the library defaults have modelled behaviour. */
  datatype Func =
    | UserFn(id: nat)
    | TransformRequestFn                   // defaults.transformRequest[0]
    | TransformResponseFn                  // defaults.transformResponse[0]
    | ValidateStatusFn                     // defaults.validateStatus
    | Bound(target: Func, thisArg: Value)  // the wrapper returned by bind(target, thisArg)

  /** Objects made by the host platform, told apart by the runtime type tests. */
  datatype HostKind =
    | FormData | ArrayBuffer | Buffer | Stream | File | Blob
    | ArrayBufferView | URLSearchParams | OtherHost

  /** The own enumerable properties of a plain object, in insertion order
      (integer-like keys are not moved to the front as JavaScript does). */
  type Fields = seq<(string, Value)>

  datatype Value =
    | Undef
    | Null
    | Bool(b: bool)
    | Num(n: int)
    | Str(s: string)
    | Arr(elems: seq<Value>)
    | Obj(fields: Fields)
    | Fn(f: Func)
    | Host(kind: HostKind, hostId: nat)
    | CancelToken(tokenId: nat)
    | Cancel(text: Value)
    | Error(name: string, message: string, code: Value, config: Value, request: Value, response: Value)

  /** How a call ends: it returns a value or throws one. A settled promise is
      described the same way (fulfilled or rejected). */
  datatype Completion = Normal(value: Value) | Throw(error: Value)

  /** What the cancel token with a given id reports at the check made before
      the request is sent and at the checks made once the transport answered. */
  datatype CancelState = CancelState(beforeSend: Option<Value>, afterAdapter: Option<Value>)

  /** A transport call: its promise fulfils or rejects, or the call throws at once. */
  datatype AdapterOutcome = Resolves(response: Value) | Rejects(reason: Value) | ThrowsNow(error: Value)

  /** Everything the pipeline consumes but does not define. */
  datatype Env = Env(
    call: (nat, Value, Value) -> Completion,                  // user function (id, this, argument)
    transform: (nat, Value, Value, Value) -> (Completion, Fields),
                                                              // user transform (id, this, data, headers):
                                                              // outcome and the headers' properties after the call
    adapter: (nat, Value) -> AdapterOutcome,                  // user transport (id, config)
    cancel: nat -> CancelState,
    stringify: Value -> Value,                                // JSON.stringify
    parse: Value -> Completion,                               // JSON.parse
    searchParamsText: nat -> string,                          // URLSearchParams.prototype.toString
    defaultAdapter: Value)                                    // what the environment probe chose

  function TypeError(message: string): Value
  {
    Error("TypeError", message, Undef, Undef, Undef, Undef)
  }

  /** JavaScript truthiness. */
  predicate Truthy(v: Value)
  {
    match v
    case Undef => false
    case Null => false
    case Bool(b) => b
    case Num(n) => n != 0
    case Str(s) => s != ""
    case _ => true
  }

  predicate IsNullish(v: Value) { v.Undef? || v.Null? }

  /** `x || {}` */
  function OrEmpty(v: Value): Value
  {
    if Truthy(v) then v else Obj([])
  }

  /** utils.isArray */
  predicate IsArray(v: Value) { v.Arr? }

  /** utils.isPlainObject */
  predicate IsPlainObject(v: Value) { v.Obj? }

  /** utils.isFunction */
  predicate IsFunction(v: Value) { v.Fn? }

  /** utils.isString */
  predicate IsString(v: Value) { v.Str? }

  /** utils.isObject: not null and `typeof` is 'object'. */
  predicate IsObject(v: Value)
  {
    v.Arr? || v.Obj? || v.Host? || v.CancelToken? || v.Cancel? || v.Error?
  }

  /** The keys of a property list, in order. */
  function Keys(fs: Fields): (ks: seq<string>)
    ensures |ks| == |fs|
    ensures forall i {:trigger ks[i]} :: 0 <= i < |fs| ==> ks[i] == fs[i].0
  {
    if fs == [] then [] else [fs[0].0] + Keys(fs[1..])
  }

  predicate Has(fs: Fields, k: string) { k in Keys(fs) }

  /** No key occurs twice: every JavaScript object has this shape. */
  predicate UniqueKeys(fs: Fields)
  {
    forall i, j :: 0 <= i < j < |fs| ==> fs[i].0 != fs[j].0
  }

  /** `obj[k]` on a plain object: undefined when the key is absent. */
  function Get(fs: Fields, k: string): (v: Value)
    ensures !Has(fs, k) ==> v == Undef
  {
    if fs == [] then Undef
    else if fs[0].0 == k then fs[0].1
    else Get(fs[1..], k)
  }

  lemma {:induction false} GetAt(fs: Fields, i: nat)
    requires UniqueKeys(fs) && i < |fs|
    ensures Get(fs, fs[i].0) == fs[i].1
  {
    if i > 0 {
      assert fs[0].0 != fs[i].0;
      assert UniqueKeys(fs[1..]) by {
        forall a, b | 0 <= a < b < |fs| - 1 ensures fs[1..][a].0 != fs[1..][b].0 {
          assert fs[1..][a] == fs[a + 1] && fs[1..][b] == fs[b + 1];
        }
      }
      GetAt(fs[1..], i - 1);
    }
  }

  /** Facts about a property list built by putting one entry in front. */
  lemma {:induction false} Cons(p: (string, Value), t: Fields)
    ensures ([p] + t)[0] == p && ([p] + t)[1..] == t
    ensures Keys([p] + t) == [p.0] + Keys(t)
    ensures forall j :: Get([p] + t, j) == if p.0 == j then p.1 else Get(t, j)
    ensures forall j :: Has([p] + t, j) <==> p.0 == j || Has(t, j)
    ensures UniqueKeys([p] + t) <==> UniqueKeys(t) && !Has(t, p.0)
  {
    var r := [p] + t;
    assert r[1..] == t;
    if UniqueKeys(t) && !Has(t, p.0) {
      forall i, j | 0 <= i < j < |r| ensures r[i].0 != r[j].0 {
        if i > 0 { assert r[i] == t[i - 1] && r[j] == t[j - 1]; }
        else { assert r[j] == t[j - 1] && Keys(t)[j - 1] == t[j - 1].0; }
      }
    }
    if UniqueKeys(r) {
      forall i, j | 0 <= i < j < |t| ensures t[i].0 != t[j].0 {
        assert t[i] == r[i + 1] && t[j] == r[j + 1];
      }
      forall i | 0 <= i < |t| ensures t[i].0 != p.0 {
        assert r[0] == p && r[i + 1] == t[i];
        assert r[0].0 != r[i + 1].0;
      }
    }
  }

  /** `obj[k] = v` on a plain object: an existing key keeps its position,
      a new key is added at the end. */
  function Set(fs: Fields, k: string, v: Value): (r: Fields)
    ensures Get(r, k) == v && Has(r, k)
    ensures forall j :: j != k ==> Get(r, j) == Get(fs, j) && (Has(r, j) <==> Has(fs, j))
    ensures UniqueKeys(fs) ==> UniqueKeys(r)
  {
    if fs == [] then [(k, v)]
    else if fs[0].0 == k then
      SetHere(fs, k, v);
      [(k, v)] + fs[1..]
    else
      var rest := Set(fs[1..], k, v);
      SetFurther(fs, k, v, rest);
      [fs[0]] + rest
  }

  /** `Set` on a list whose first key is the one set. */
  lemma {:induction false} SetHere(fs: Fields, k: string, v: Value)
    requires fs != [] && fs[0].0 == k
    ensures var r := [(k, v)] + fs[1..];
            Get(r, k) == v && Has(r, k) &&
            (forall j :: j != k ==> Get(r, j) == Get(fs, j) && (Has(r, j) <==> Has(fs, j))) &&
            (UniqueKeys(fs) ==> UniqueKeys(r))
  {
    Cons(fs[0], fs[1..]);
    assert fs == [fs[0]] + fs[1..];
    Cons((k, v), fs[1..]);
  }

  /** `Set` on a list whose first key is another one, given the result of
      setting the rest. */
  lemma {:induction false} SetFurther(fs: Fields, k: string, v: Value, rest: Fields)
    requires fs != [] && fs[0].0 != k
    requires Get(rest, k) == v && Has(rest, k)
    requires forall j :: j != k ==> Get(rest, j) == Get(fs[1..], j) && (Has(rest, j) <==> Has(fs[1..], j))
    requires UniqueKeys(fs[1..]) ==> UniqueKeys(rest)
    ensures var r := [fs[0]] + rest;
            Get(r, k) == v && Has(r, k) &&
            (forall j :: j != k ==> Get(r, j) == Get(fs, j) && (Has(r, j) <==> Has(fs, j))) &&
            (UniqueKeys(fs) ==> UniqueKeys(r))
  {
    var r := [fs[0]] + rest;
    assert fs == [fs[0]] + fs[1..];
    assert r[1..] == rest;
    assert Keys(r) == [fs[0].0] + Keys(rest);
    assert Keys(fs) == [fs[0].0] + Keys(fs[1..]);
    Cons(fs[0], fs[1..]);
    Cons(fs[0], rest);
  }

  /** Setting an existing key keeps the key order; a new key goes last. */
  lemma {:induction false} SetKeys(fs: Fields, k: string, v: Value)
    ensures Keys(Set(fs, k, v)) == if Has(fs, k) then Keys(fs) else Keys(fs) + [k]
  {
    if fs != [] {
      var r := Set(fs, k, v);
      assert Keys(fs) == [fs[0].0] + Keys(fs[1..]);
      if fs[0].0 != k {
        SetKeys(fs[1..], k, v);
        assert r == [fs[0]] + Set(fs[1..], k, v);
        assert Has(fs, k) == Has(fs[1..], k);
      } else {
        assert r == [(k, v)] + fs[1..];
      }
      assert Keys(r) == [r[0].0] + Keys(r[1..]);
    }
  }

  /** Setting a key the list does not have appends it. */
  lemma {:induction false} SetAppends(fs: Fields, k: string, v: Value)
    requires !Has(fs, k)
    ensures Set(fs, k, v) == fs + [(k, v)]
  {
    if fs != [] {
      var ks := Keys(fs);
      assert ks == [fs[0].0] + Keys(fs[1..]);
      assert ks[0] != k && !Has(fs[1..], k);
      SetAppends(fs[1..], k, v);
      assert Set(fs, k, v) == [fs[0]] + Set(fs[1..], k, v);
      assert fs + [(k, v)] == [fs[0]] + (fs[1..] + [(k, v)]);
    }
  }

  /** `delete obj[k]` on a plain object. */
  function Delete(fs: Fields, k: string): (r: Fields)
    ensures !Has(r, k)
    ensures forall j :: j != k ==> Get(r, j) == Get(fs, j) && (Has(r, j) <==> Has(fs, j))
    ensures |r| <= |fs|
    ensures !Has(fs, k) ==> r == fs
    ensures UniqueKeys(fs) ==> UniqueKeys(r) && (Has(fs, k) ==> |r| == |fs| - 1)
  {
    if fs == [] then []
    else
      Cons(fs[0], fs[1..]);
      assert fs == [fs[0]] + fs[1..];
      var rest := Delete(fs[1..], k);
      if fs[0].0 == k then
        rest
      else
        Cons(fs[0], rest);
        [fs[0]] + rest
  }

  /** Plain objects with distinct keys, all the way down through plain
      objects (arrays and other objects are copied by reference, so their
      contents do not matter). */
  predicate WellFormed(v: Value)
  {
    match v
    case Obj(fs) => UniqueKeys(fs) && forall i :: 0 <= i < |fs| ==> WellFormed(fs[i].1)
    case _ => true
  }

  /** Reading a property: `v[k]`. Nullish values throw before this is asked;
      properties of arrays, functions and host objects are not represented. */
  function Prop(v: Value, k: string): Value
  {
    match v
    case Obj(fs) => Get(fs, k)
    case Error(name, message, code, config, request, response) =>
      if k == "name" then Str(name)
      else if k == "message" then Str(message)
      else if k == "code" then code
      else if k == "config" then config
      else if k == "request" then request
      else if k == "response" then response
      else Undef
    case Cancel(text) =>
      if k == "message" then text else if k == "__CANCEL__" then Bool(true) else Undef
    case _ => Undef
  }

  /** `v[k]` as an expression: reading a property of undefined or null throws. */
  function ReadProp(v: Value, k: string): (r: Completion)
    ensures IsNullish(v) <==> r.Throw?
    ensures !IsNullish(v) ==> r == Normal(Prop(v, k))
  {
    if IsNullish(v) then Throw(TypeError("Cannot read properties of " + ToText(v)))
    else Normal(Prop(v, k))
  }

  /** `v[k] = x` in strict mode: throws on undefined, null and primitives. */
  function PutProp(v: Value, k: string, x: Value): (r: Completion)
    ensures v.Obj? ==> r == Normal(Obj(Set(v.fields, k, x)))
    ensures IsNullish(v) || v.Bool? || v.Num? || v.Str? ==> r.Throw?
  {
    match v
    case Undef => Throw(TypeError("Cannot set properties of undefined"))
    case Null => Throw(TypeError("Cannot set properties of null"))
    case Bool(_) => Throw(TypeError("Cannot create property on boolean"))
    case Num(_) => Throw(TypeError("Cannot create property on number"))
    case Str(_) => Throw(TypeError("Cannot create property on string"))
    case Obj(fs) => Normal(Obj(Set(fs, k, x)))
    case Error(name, message, code, config, request, response) =>
      if k == "code" then Normal(Error(name, message, x, config, request, response))
      else if k == "config" then Normal(Error(name, message, code, x, request, response))
      else if k == "request" then Normal(Error(name, message, code, config, x, response))
      else if k == "response" then Normal(Error(name, message, code, config, request, x))
      else Normal(v)
    case _ => Normal(v)
  }

  function Digit(d: nat): char
    requires d < 10
  {
    "0123456789"[d]
  }

  /** Decimal text of a natural number, as `String(i)` gives it. */
  function NatToString(n: nat): (s: string)
    ensures |s| > 0
    decreases n
  {
    if n < 10 then [Digit(n)] else NatToString(n / 10) + [Digit(n % 10)]
  }

  function IntToString(n: int): string
  {
    if n < 0 then "-" + NatToString(-n) else NatToString(n)
  }

  /** String conversion of the values that can stand in a message. */
  function ToText(v: Value): string
  {
    match v
    case Undef => "undefined"
    case Null => "null"
    case Bool(b) => if b then "true" else "false"
    case Num(n) => IntToString(n)
    case Str(s) => s
    case _ => "[object Object]"
  }

  function UpperChar(c: char): char
  {
    if 'a' <= c <= 'z' then (c as int - 32) as char else c
  }

  function LowerChar(c: char): char
  {
    if 'A' <= c <= 'Z' then (c as int + 32) as char else c
  }

  /** `toUpperCase` restricted to ASCII letters. */
  function Upper(s: string): (r: string)
    ensures |r| == |s|
  {
    seq(|s|, i requires 0 <= i < |s| => UpperChar(s[i]))
  }

  /** `toLowerCase` restricted to ASCII letters. */
  function Lower(s: string): (r: string)
    ensures |r| == |s|
    ensures forall i :: 0 <= i < |s| ==> !('A' <= r[i] <= 'Z')
  {
    seq(|s|, i requires 0 <= i < |s| => LowerChar(s[i]))
  }
}
