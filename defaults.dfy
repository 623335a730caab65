/** src/defaults.js: the library's default configuration: the default
    request and response transforms, the status validator and the default
    header table. */
module Defaults {
  import opened JsValue
  import Utils
  import NormalizeHeaderName

  /** DEFAULT_CONTENT_TYPE['Content-Type'] */
  const FormContentType: string := "application/x-www-form-urlencoded"
  const FormUtf8ContentType: string := "application/x-www-form-urlencoded;charset=utf-8"
  const JsonContentType: string := "application/json"
  const DefaultAccept: string := "application/json, text/plain, */*"

  /** setContentTypeIfUnset(headers, value), giving the headers after the
      call. Undefined headers are left alone; null headers throw on the read. */
  function SetContentTypeIfUnset(headers: Value, value: string): (r: Completion)
    ensures headers.Undef? ==> r == Normal(headers)
    ensures headers.Null? ==> r.Throw?
    ensures headers.Obj? ==>
              r.Normal? && r.value.Obj? &&
              Get(r.value.fields, "Content-Type") ==
                (if Get(headers.fields, "Content-Type").Undef? then Str(value)
                 else Get(headers.fields, "Content-Type")) &&
              (forall k :: k != "Content-Type" ==>
                 Get(r.value.fields, k) == Get(headers.fields, k) &&
                 (Has(r.value.fields, k) <==> Has(headers.fields, k))) &&
              (UniqueKeys(headers.fields) ==> UniqueKeys(r.value.fields))
  {
    if headers.Undef? then Normal(headers)
    else
      match ReadProp(headers, "Content-Type")
      case Throw(e) => Throw(e)
      case Normal(ct) => if ct.Undef? then PutProp(headers, "Content-Type", Str(value)) else Normal(headers)
  }

  /** A defined Content-Type is never overwritten. */
  lemma {:induction false} ContentTypeKept(fs: Fields, value: string)
    requires !Get(fs, "Content-Type").Undef?
    ensures SetContentTypeIfUnset(Obj(fs), value) == Normal(Obj(fs))
  {
  }

  /** utils.isStream: an object with a callable `pipe`. */
  predicate IsStream(data: Value)
  {
    (data.Host? && data.kind == Stream) || (data.Obj? && Prop(data, "pipe").Fn?)
  }

  /** The bodies transformRequest passes through untouched: FormData,
      ArrayBuffer, Buffer, streams, File and Blob. */
  predicate IsBinary(data: Value)
  {
    (data.Host? && data.kind in {FormData, ArrayBuffer, Buffer, File, Blob}) || IsStream(data)
  }

  /** The headers after normalizeHeaderName(headers, 'Accept') and
      normalizeHeaderName(headers, 'Content-Type'). */
  function NormalizeBoth(headers: Value): Completion
  {
    match NormalizeHeaderName.NormalizeHeaderNameSpec(headers, "Accept")
    case Throw(e) => Throw(e)
    case Normal(h) => NormalizeHeaderName.NormalizeHeaderNameSpec(h, "Content-Type")
  }

  /** defaults.transformRequest[0](data, headers): the new data (or what was
      thrown) and the headers after the call. */
  function TransformRequest(env: Env, data: Value, headers: Value): (r: (Completion, Value))
    ensures headers.Obj? ==> r.0.Normal? && r.1.Obj?
    ensures r.0.Normal? ==>
              r.0.value == data || r.0.value == env.stringify(data) ||
              (data.Host? && (r.0.value == Host(ArrayBuffer, data.hostId) ||
                              r.0.value == Str(env.searchParamsText(data.hostId))))
  {
    match NormalizeHeaderName.NormalizeHeaderNameSpec(headers, "Accept")
    case Throw(e) => (Throw(e), headers)
    case Normal(h1) =>
      match NormalizeHeaderName.NormalizeHeaderNameSpec(h1, "Content-Type")
      case Throw(e) => (Throw(e), h1)
      case Normal(h) =>
        if IsBinary(data) then (Normal(data), h)
        else if data.Host? && data.kind == ArrayBufferView then
          // data.buffer: the buffer under the view, which has the view's id here
          (Normal(Host(ArrayBuffer, data.hostId)), h)
        else if data.Host? && data.kind == URLSearchParams then
          match SetContentTypeIfUnset(h, FormUtf8ContentType)
          case Throw(e) => (Throw(e), h)
          case Normal(h') => (Normal(Str(env.searchParamsText(data.hostId))), h')
        else if IsObject(data) || (Truthy(h) && Prop(h, "Content-Type") == Str(JsonContentType)) then
          match SetContentTypeIfUnset(h, JsonContentType)
          case Throw(e) => (Throw(e), h)
          case Normal(h') => (Normal(env.stringify(data)), h')
        else (Normal(data), h)
  }

  /** Binary bodies come back unchanged; the headers are only normalised. */
  lemma {:induction false} TransformRequestBinary(env: Env, data: Value, fs: Fields)
    requires IsBinary(data)
    ensures NormalizeBoth(Obj(fs)).Normal?
    ensures TransformRequest(env, data, Obj(fs)) == (Normal(data), NormalizeBoth(Obj(fs)).value)
  {
  }

  /** A URLSearchParams body becomes its text, and Content-Type becomes the
      URL-encoded type unless the normalised headers already define one. */
  lemma {:induction false} TransformRequestSearchParams(env: Env, id: nat, fs: Fields)
    ensures var h := NormalizeBoth(Obj(fs));
            var r := TransformRequest(env, Host(URLSearchParams, id), Obj(fs));
            h.Normal? && h.value.Obj? &&
            r.0 == Normal(Str(env.searchParamsText(id))) && r.1.Obj? &&
            Get(r.1.fields, "Content-Type") ==
              (if Get(h.value.fields, "Content-Type").Undef? then Str(FormUtf8ContentType)
               else Get(h.value.fields, "Content-Type"))
  {
  }

  /** An object body, or any body sent with Content-Type exactly
      'application/json', is serialised, and Content-Type becomes
      'application/json' unless already defined. */
  lemma {:induction false} TransformRequestJson(env: Env, data: Value, fs: Fields)
    requires !IsBinary(data) && !(data.Host? && data.kind in {ArrayBufferView, URLSearchParams})
    ensures var h := NormalizeBoth(Obj(fs));
            h.Normal? && h.value.Obj? &&
            (IsObject(data) || Get(h.value.fields, "Content-Type") == Str(JsonContentType) ==>
               var r := TransformRequest(env, data, Obj(fs));
               r.0 == Normal(env.stringify(data)) && r.1.Obj? &&
               Get(r.1.fields, "Content-Type") ==
                 (if Get(h.value.fields, "Content-Type").Undef? then Str(JsonContentType)
                  else Get(h.value.fields, "Content-Type")))
  {
  }

  /** Any other body is returned as it is. */
  lemma {:induction false} TransformRequestOther(env: Env, data: Value, fs: Fields)
    requires !IsObject(data) && !IsBinary(data)
    requires NormalizeBoth(Obj(fs)).Normal? && NormalizeBoth(Obj(fs)).value.Obj?
    requires Get(NormalizeBoth(Obj(fs)).value.fields, "Content-Type") != Str(JsonContentType)
    ensures TransformRequest(env, data, Obj(fs)) == (Normal(data), NormalizeBoth(Obj(fs)).value)
  {
  }

  /** enhanceError(error, config, code) with no request or response.
      Errors other than Error values are not modelled as enhanced. */
  function EnhanceError(e: Value, config: Value, code: string): (r: Value)
    ensures e.Error? ==> r.Error? && r.name == e.name && r.message == e.message && r.code == Str(code) && r.config == config
    ensures !e.Error? ==> r == e
  {
    if e.Error? then Error(e.name, e.message, Str(code), config, Undef, Undef) else e
  }

  /** The flags transformResponse derives from `this`. */
  predicate SilentJsonParsing(self: Value)
  {
    var t := Prop(self, "transitional");
    Truthy(t) && Truthy(Prop(t, "silentJSONParsing"))
  }

  predicate ForcedJsonParsing(self: Value)
  {
    var t := Prop(self, "transitional");
    Truthy(t) && Truthy(Prop(t, "forcedJSONParsing"))
  }

  predicate StrictJsonParsing(self: Value)
  {
    !SilentJsonParsing(self) && Prop(self, "responseType") == Str("json")
  }

  /** Whether transformResponse calls JSON.parse. */
  predicate AttemptsParse(self: Value, data: Value)
  {
    StrictJsonParsing(self) || (ForcedJsonParsing(self) && data.Str? && data.s != "")
  }

  /** defaults.transformResponse[0], called with `this` = self. */
  function TransformResponse(env: Env, self: Value, data: Value): (r: Completion)
    ensures IsNullish(self) ==> r.Throw?
    ensures r.Normal? ==> r.value == data || r == env.parse(data)
    ensures r.Throw? && !IsNullish(self) ==> StrictJsonParsing(self) && env.parse(data).Throw?
  {
    if IsNullish(self) then Throw(TypeError("Cannot read properties of " + ToText(self)))
    else if AttemptsParse(self, data) then
      match env.parse(data)
      case Normal(v) => Normal(v)
      case Throw(e) =>
        if StrictJsonParsing(self) then
          if e.Error? && e.name == "SyntaxError" then Throw(EnhanceError(e, self, "E_JSON_PARSE")) else Throw(e)
        else Normal(data)
    else Normal(data)
  }

  /** Without an attempted parse the data is returned as it is. */
  lemma {:induction false} TransformResponseNoParse(env: Env, self: Value, data: Value)
    requires !IsNullish(self) && !AttemptsParse(self, data)
    ensures TransformResponse(env, self, data) == Normal(data)
  {
  }

  /** A successful parse gives the parsed value. */
  lemma {:induction false} TransformResponseParsed(env: Env, self: Value, data: Value)
    requires !IsNullish(self) && AttemptsParse(self, data) && env.parse(data).Normal?
    ensures TransformResponse(env, self, data) == env.parse(data)
  {
  }

  /** A failed parse: in strict mode a SyntaxError comes back with code
      'E_JSON_PARSE' and the config attached, other errors unchanged; in
      forced mode the original data is returned. */
  lemma {:induction false} TransformResponseParseFails(env: Env, self: Value, data: Value)
    requires !IsNullish(self) && AttemptsParse(self, data) && env.parse(data).Throw?
    ensures var e := env.parse(data).error;
            var r := TransformResponse(env, self, data);
            (StrictJsonParsing(self) && e.Error? && e.name == "SyntaxError" ==>
               r.Throw? && r.error.Error? && r.error.code == Str("E_JSON_PARSE") &&
               r.error.config == self && r.error.message == e.message) &&
            (StrictJsonParsing(self) && !(e.Error? && e.name == "SyntaxError") ==> r == Throw(e)) &&
            (!StrictJsonParsing(self) ==> r == Normal(data))
  {
  }

  /** JSON round trip: a plain object sent through the default request
      transform and read back through the default response transform in
      strict mode is the same object, whenever the host's JSON.parse inverts
      its JSON.stringify on it. */
  lemma {:induction false} JsonRoundTrip(env: Env, data: Value, fs: Fields, self: Value)
    requires data.Obj? && !IsBinary(data) && StrictJsonParsing(self)
    requires env.parse(env.stringify(data)) == Normal(data)
    ensures TransformRequest(env, data, Obj(fs)).0 == Normal(env.stringify(data))
    ensures TransformResponse(env, self, env.stringify(data)) == Normal(data)
  {
    TransformRequestJson(env, data, fs);
  }

  predicate IsDigit(c: char) { '0' <= c <= '9' }

  predicate AllDigits(s: string)
  {
    forall i :: 0 <= i < |s| ==> IsDigit(s[i])
  }

  /** The value of a string of decimal digits. */
  function DigitsValue(s: string): nat
    requires AllDigits(s)
  {
    if s == [] then 0 else DigitsValue(s[..|s| - 1]) * 10 + (s[|s| - 1] as int - '0' as int)
  }

  /** The index of the first '.', or |s| when there is none. */
  function DotAt(s: string): (d: nat)
    ensures d <= |s| && (d < |s| ==> s[d] == '.')
    ensures forall i :: 0 <= i < d ==> s[i] != '.'
  {
    if s == [] then 0 else if s[0] == '.' then 0 else 1 + DotAt(s[1..])
  }

  /** An unsigned decimal literal `digits[.digits]`, with a digit on at
      least one side of the point: its integer part, and whether the
      fraction is non-zero. */
  function UnsignedDecimal(t: string): Option<(nat, bool)>
  {
    var d := DotAt(t);
    var whole := t[..d];
    var frac := if d < |t| then t[d + 1..] else [];
    if AllDigits(whole) && AllDigits(frac) && (whole != [] || frac != []) then
      Some((DigitsValue(whole), exists i :: 0 <= i < |frac| && frac[i] != '0'))
    else None
  }

  /** The floor of the number a trimmed string converts to, or None for NaN. */
  function StringFloor(t: string): Option<int>
  {
    if t == [] then Some(0)
    else
      var sign := t[0] == '-';
      match UnsignedDecimal(if t[0] == '-' || t[0] == '+' then t[1..] else t)
      case None => None
      case Some((n, fraction)) =>
        var m: int := n;
        Some(if !sign then m else if fraction then -m - 1 else -m)
  }

  /** The floor of ToNumber(v), or None when it is NaN. A status is
      compared with 200 and 300 after this conversion, so only its floor
      matters. */
  function NumberFloor(v: Value): Option<int>
  {
    match v
    case Num(n) => Some(n)
    case Bool(b) => Some(if b then 1 else 0)
    case Null => Some(0)
    case Str(s) => StringFloor(Utils.Trim(s))
    case Arr(elems) =>
      if elems == [] then Some(0)
      else if |elems| == 1 && (IsNullish(elems[0]) || elems[0].Num? || elems[0].Str?) then
        (match elems[0]
         case Num(n) => Some(n)
         case Str(s) => StringFloor(Utils.Trim(s))
         case _ => Some(0))
      else None
    case _ => None
  }

  /** defaults.validateStatus: `status >= 200 && status < 300`, both
      comparisons converting the status to a number. */
  function ValidateStatus(status: Value): (ok: bool)
    ensures status.Num? ==> (ok <==> 200 <= status.n < 300)
    ensures IsNullish(status) || status.Bool? || status.Obj? || status.Fn? ==> !ok
  {
    match NumberFloor(status)
    case None => false
    case Some(n) => 200 <= n < 300
  }

  /** The default validator accepts exactly the 2xx (Successful) class of
      section 15.3 of RFC 9110: the status codes whose first digit is 2. */
  lemma {:induction false} ValidateStatusIsSuccessClass(n: int)
    requires 100 <= n <= 999
    ensures ValidateStatus(Num(n)) <==> n / 100 == 2
  {
  }

  /** A status written as a string of decimal digits is judged by its
      number: "250" is accepted as 250 is. */
  lemma {:induction false} ValidateStatusDigits(d: string)
    requires d != [] && AllDigits(d)
    ensures ValidateStatus(Str(d)) == ValidateStatus(Num(DigitsValue(d)))
  {
    TrimDigits(d);
    FloorOfDigits(d);
  }

  /** Trimming leaves a string of digits alone. */
  lemma {:induction false} TrimDigits(d: string)
    requires d != [] && AllDigits(d)
    ensures Utils.Trim(d) == d
  {
    assert IsDigit(d[0]) && IsDigit(d[|d| - 1]);
    assert !Utils.IsSpace(d[0]) && !Utils.IsSpace(d[|d| - 1]);
    assert Utils.TrimStart(d) == d;
  }

  /** A string of digits converts to its decimal value. */
  lemma {:induction false} FloorOfDigits(d: string)
    requires d != [] && AllDigits(d)
    ensures StringFloor(d) == Some(DigitsValue(d))
  {
    assert IsDigit(d[0]);
    DotAbsent(d);
    assert d[..|d|] == d;
    assert UnsignedDecimal(d) == Some((DigitsValue(d), false));
  }

  /** A string of digits has no '.'. */
  lemma {:induction false} DotAbsent(d: string)
    requires AllDigits(d)
    ensures DotAt(d) == |d|
  {
    if d != [] && d[0] != '.' {
      DotAbsent(d[1..]);
    }
  }

  /** A non-numeric status, such as undefined or a plain object, is never
      accepted, and neither are true (1), null and the empty string (0). */
  lemma {:induction false} ValidateStatusRejects()
    ensures !ValidateStatus(Undef) && !ValidateStatus(Obj([])) && !ValidateStatus(Null)
    ensures !ValidateStatus(Bool(true)) && !ValidateStatus(Str(""))
  {
    assert Utils.Trim("") == "";
  }

  /** The default header table, defaults.headers. */
  function DefaultHeaders(): Value
  {
    Obj([("common", Obj([("Accept", Str(DefaultAccept))])),
         ("delete", Obj([])), ("get", Obj([])), ("head", Obj([])),
         ("post", Obj([("Content-Type", Str(FormContentType))])),
         ("put", Obj([("Content-Type", Str(FormContentType))])),
         ("patch", Obj([("Content-Type", Str(FormContentType))]))])
  }

  /** The loops that fill defaults.headers. */
  method BuildDefaultHeaders() returns (headers: Value)
    ensures headers == DefaultHeaders()
  {
    var fs: Fields := [("common", Obj([("Accept", Str(DefaultAccept))]))];
    fs := AddGroups(fs, ["delete", "get", "head"], false);
    fs := AddGroups(fs, ["post", "put", "patch"], true);
    headers := Obj(fs);
  }

  /** One of those loops: `defaults.headers[method] = {}`, or
      `= utils.merge(DEFAULT_CONTENT_TYPE)`, for each method name. Every name
      is new, so each assignment appends. */
  method AddGroups(fs: Fields, names: seq<string>, withContentType: bool) returns (r: Fields)
    requires forall j :: 0 <= j < |fs| ==> fs[j].0 !in names
    requires forall a, b :: 0 <= a < b < |names| ==> names[a] != names[b]
    ensures r == Grouped(fs, names, if withContentType then Obj([("Content-Type", Str(FormContentType))]) else Obj([]), |names|)
  {
    ghost var group := if withContentType then Obj([("Content-Type", Str(FormContentType))]) else Obj([]);
    r := fs;
    var i := 0;
    while i < |names|
      invariant 0 <= i <= |names|
      invariant r == Grouped(fs, names, group, i)
    {
      var value := Obj([]);
      if withContentType {
        value := MergeDefaultContentType();
      }
      GroupAppends(fs, names, group, i);
      r := Set(r, names[i], value);
      i := i + 1;
    }
  }

  /** The table after the first i names of a group were added. */
  function Grouped(fs: Fields, names: seq<string>, group: Value, i: nat): (r: Fields)
    requires i <= |names|
    ensures |r| == |fs| + i
    ensures forall j :: 0 <= j < |fs| ==> r[j] == fs[j]
    ensures forall j :: 0 <= j < i ==> r[|fs| + j] == (names[j], group)
  {
    fs + seq(i, j requires 0 <= j < i => (names[j], group))
  }

  /** While the table is built, each method name is new, so setting it appends. */
  lemma {:induction false} GroupAppends(fs: Fields, names: seq<string>, group: Value, i: nat)
    requires forall j :: 0 <= j < |fs| ==> fs[j].0 !in names
    requires forall a, b :: 0 <= a < b < |names| ==> names[a] != names[b]
    requires i < |names|
    ensures Set(Grouped(fs, names, group, i), names[i], group) == Grouped(fs, names, group, i + 1)
  {
    GroupedFresh(fs, names, group, i);
    SetAppendsFresh(Grouped(fs, names, group, i), names[i], group);
    GroupedStep(fs, names, group, i);
  }

  /** The next method name is not yet in the table. */
  lemma {:induction false} GroupedFresh(fs: Fields, names: seq<string>, group: Value, i: nat)
    requires forall j :: 0 <= j < |fs| ==> fs[j].0 !in names
    requires forall a, b :: 0 <= a < b < |names| ==> names[a] != names[b]
    requires i < |names|
    ensures forall j :: 0 <= j < |Grouped(fs, names, group, i)| ==> Grouped(fs, names, group, i)[j].0 != names[i]
  {
    var r := Grouped(fs, names, group, i);
    forall j | 0 <= j < |r| ensures r[j].0 != names[i] {
      if j >= |fs| { assert r[j] == (names[j - |fs|], group); }
    }
  }

  /** Adding the next name's group extends the table by one entry. */
  lemma {:induction false} GroupedStep(fs: Fields, names: seq<string>, group: Value, i: nat)
    requires i < |names|
    ensures Grouped(fs, names, group, i) + [(names[i], group)] == Grouped(fs, names, group, i + 1)
  {
    var r := Grouped(fs, names, group, i);
    var r' := Grouped(fs, names, group, i + 1);
    forall j | 0 <= j < |r'| ensures (r + [(names[i], group)])[j] == r'[j] {
      if j >= |fs| && j < |r| { assert r[j] == (names[j - |fs|], group); }
    }
  }

  /** utils.merge(DEFAULT_CONTENT_TYPE): a fresh copy, equal to the original. */
  method MergeDefaultContentType() returns (copy: Value)
    ensures copy == Obj([("Content-Type", Str(FormContentType))])
  {
    var original := Obj([("Content-Type", Str(FormContentType))]);
    copy := Utils.Merge([original]);
    Utils.MergeCopy(original);
  }

  /** Setting a key that the list does not hold appends it (used while the
      header table is built: every method name is new). */
  lemma {:induction false} SetAppendsFresh(fs: Fields, k: string, v: Value)
    requires forall j :: 0 <= j < |fs| ==> fs[j].0 != k
    ensures Set(fs, k, v) == fs + [(k, v)]
  {
    assert !Has(fs, k);
    SetAppends(fs, k, v);
  }

  /** common carries Accept; delete, get and head have empty groups; post,
      put and patch carry the URL-encoded Content-Type. */
  lemma {:induction false} DefaultHeaderGroups()
    ensures var h := DefaultHeaders().fields;
            Get(h, "common") == Obj([("Accept", Str("application/json, text/plain, */*"))]) &&
            Get(h, "delete") == Obj([]) && Get(h, "get") == Obj([]) && Get(h, "head") == Obj([]) &&
            Get(h, "post") == Obj([("Content-Type", Str("application/x-www-form-urlencoded"))]) &&
            Get(h, "put") == Get(h, "post") && Get(h, "patch") == Get(h, "post")
  {
    EmptyGroups();
    FormGroups();
  }

  /** delete, get and head have no default headers. */
  lemma {:induction false} EmptyGroups()
    ensures var h := DefaultHeaders().fields;
            Get(h, "delete") == Obj([]) && Get(h, "get") == Obj([]) && Get(h, "head") == Obj([])
  {
  }

  /** post, put and patch carry the form Content-Type. */
  lemma {:induction false} FormGroups()
    ensures var h := DefaultHeaders().fields;
            var form := Obj([("Content-Type", Str(FormContentType))]);
            Get(h, "post") == form && Get(h, "put") == form && Get(h, "patch") == form
  {
  }

  /** The defaults object; `adapter` is what getDefaultAdapter chose. */
  function DefaultsValue(env: Env): (d: Value)
  {
    var fs := [("transitional", Obj([("silentJSONParsing", Bool(true)), ("forcedJSONParsing", Bool(true)),
                                           ("clarifyTimeoutError", Bool(false))])),
               ("adapter", env.defaultAdapter),
               ("transformRequest", Arr([Fn(TransformRequestFn)])),
               ("transformResponse", Arr([Fn(TransformResponseFn)])),
               ("timeout", Num(0)),
               ("xsrfCookieName", Str("XSRF-TOKEN")),
               ("xsrfHeaderName", Str("X-XSRF-TOKEN")),
               ("maxContentLength", Num(-1)),
               ("maxBodyLength", Num(-1)),
               ("validateStatus", Fn(ValidateStatusFn)),
               ("headers", DefaultHeaders())];
    Obj(fs)
  }

  /** The library defaults parse a response leniently: a JSON parse error
      is never thrown, and a non-empty string is parsed. */
  lemma {:induction false} DefaultsParseLeniently(env: Env)
    ensures !StrictJsonParsing(DefaultsValue(env)) && ForcedJsonParsing(DefaultsValue(env))
  {
    var d := DefaultsValue(env);
    var t := Obj([("silentJSONParsing", Bool(true)), ("forcedJSONParsing", Bool(true)),
                  ("clarifyTimeoutError", Bool(false))]);
    assert d.fields[0] == ("transitional", t);
    assert Prop(d, "transitional") == t;
    assert Prop(t, "silentJSONParsing") == Bool(true);
    assert t.fields[1..][0] == ("forcedJSONParsing", Bool(true));
    assert Prop(t, "forcedJSONParsing") == Bool(true);
  }
}
