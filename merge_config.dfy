/** src/core/mergeConfig.js: builds a fresh config from a base config
    (config1) and an override (config2), key group by key group. */
module MergeConfig {
  import opened JsValue
  import Utils

  /** The key lists of mergeConfig. */
  const ValueFromConfig2Keys: seq<string> := ["url", "method", "data"]
  const MergeDeepPropertiesKeys: seq<string> := ["headers", "auth", "proxy", "params"]
  const DefaultToConfig2Keys: seq<string> := [
    "baseURL", "transformRequest", "transformResponse", "paramsSerializer", "timeout",
    "timeoutMessage", "withCredentials", "adapter", "responseType", "xsrfCookieName",
    "xsrfHeaderName", "onUploadProgress", "onDownloadProgress", "decompress",
    "maxContentLength", "maxBodyLength", "maxRedirects", "transport", "httpAgent",
    "httpsAgent", "cancelToken", "socketPath", "responseEncoding"]
  const DirectMergeKeys: seq<string> := ["validateStatus"]

  /** axiosKeys: the four lists concatenated. */
  function AxiosKeys(): seq<string>
  {
    ValueFromConfig2Keys + MergeDeepPropertiesKeys + DefaultToConfig2Keys + DirectMergeKeys
  }

  /** getMergedValue(target, source). An array's `slice()` is a shallow copy,
      equal to the array as a value. */
  function MergedValue(target: Value, source: Value): (r: Value)
    ensures source.Obj? <==> r.Obj?
    ensures !source.Obj? ==> r == source
  {
    if target.Obj? && source.Obj? then Obj(Utils.MergeFields([target, source]))
    else if source.Obj? then Obj(Utils.MergeFields([Obj([]), source]))
    else source
  }

  /** How each group decides one key. */
  datatype Group =
    | FromConfig2    // valueFromConfig2
    | Deep           // mergeDeepProperties
    | DefaultTo      // defaultToConfig2
    | Direct         // the `in` test for validateStatus

  /** The value a group's callback stores under `prop`, or None when it
      stores nothing. `config1[prop]` and `config2[prop]` read own properties
      (f1, f2); `prop in config` is Has. */
  function Rule(g: Group, f1: Fields, f2: Fields, prop: string): Option<Value>
  {
    match g
    case FromConfig2 =>
      if !Get(f2, prop).Undef? then Some(MergedValue(Undef, Get(f2, prop))) else None
    case Deep =>
      if !Get(f2, prop).Undef? then Some(MergedValue(Get(f1, prop), Get(f2, prop)))
      else if !Get(f1, prop).Undef? then Some(MergedValue(Undef, Get(f1, prop)))
      else None
    case DefaultTo =>
      if !Get(f2, prop).Undef? then Some(MergedValue(Undef, Get(f2, prop)))
      else if !Get(f1, prop).Undef? then Some(MergedValue(Undef, Get(f1, prop)))
      else None
    case Direct =>
      if Has(f2, prop) then Some(MergedValue(Get(f1, prop), Get(f2, prop)))
      else if Has(f1, prop) then Some(MergedValue(Undef, Get(f1, prop)))
      else None
  }

  /** The config after the group's callback ran for each of `keys`, in order. */
  function Fold(config: Fields, g: Group, f1: Fields, f2: Fields, keys: seq<string>): Fields
    decreases |keys|
  {
    if keys == [] then config
    else
      var next := match Rule(g, f1, f2, keys[0]) case Some(v) => Set(config, keys[0], v) case None => config;
      Fold(next, g, f1, f2, keys[1..])
  }

  /** otherKeys: the keys of config1 then of config2 that are in no list
      (a key of both appears twice). */
  function OtherKeys(f1: Fields, f2: Fields): (ks: seq<string>)
    ensures forall k :: k in ks <==> (Has(f1, k) || Has(f2, k)) && k !in AxiosKeys()
  {
    Filter(Keys(f1) + Keys(f2))
  }

  function Filter(ks: seq<string>): (r: seq<string>)
    ensures forall k :: k in r <==> k in ks && k !in AxiosKeys()
  {
    if ks == [] then []
    else (if ks[0] in AxiosKeys() then [] else [ks[0]]) + Filter(ks[1..])
  }

  /** The properties of the merged config, for a plain-object override. */
  function MergeFieldsSpec(f1: Fields, f2: Fields): Fields
  {
    MergeWith(f1, f2, ValueFromConfig2Keys, MergeDeepPropertiesKeys, DefaultToConfig2Keys, DirectMergeKeys, OtherKeys(f1, f2))
  }

  /** The five loops of mergeConfig over the given key lists, in order. */
  function MergeWith(f1: Fields, f2: Fields, fromConfig2: seq<string>, deep: seq<string>,
                     defaultTo: seq<string>, direct: seq<string>, others: seq<string>): Fields
  {
    var c := Fold([], FromConfig2, f1, f2, fromConfig2);
    var c := Fold(c, Deep, f1, f2, deep);
    var c := Fold(c, DefaultTo, f1, f2, defaultTo);
    var c := Fold(c, Direct, f1, f2, direct);
    Fold(c, Deep, f1, f2, others)
  }

  /** `config2 || {}` */
  function Override(config2: Value): Value
  {
    if Truthy(config2) then config2 else Obj([])
  }

  /** The `in` test throws on a truthy primitive config2. */
  predicate InThrows(config2: Value)
  {
    var c2 := Override(config2);
    c2.Bool? || c2.Num? || c2.Str?
  }

  /** The own properties of `config2 || {}`; arrays, functions and host
      objects have none in this model. */
  function OverrideFields(config2: Value): Fields
  {
    var c2 := Override(config2);
    if c2.Obj? then c2.fields else []
  }

  /** mergeConfig(config1, config2). */
  function MergeConfigSpec(config1: Value, config2: Value): Completion
    requires config1.Obj?
  {
    if InThrows(config2) then Throw(TypeError("Cannot use 'in' operator to search for 'validateStatus' in " + ToText(Override(config2))))
    else Normal(Obj(MergeFieldsSpec(config1.fields, OverrideFields(config2))))
  }

  /** One of mergeConfig's forEach loops over a key list. */
  method ApplyGroup(config: Fields, g: Group, f1: Fields, f2: Fields, keys: seq<string>) returns (r: Fields)
    ensures r == Fold(config, g, f1, f2, keys)
  {
    r := config;
    var i := 0;
    while i < |keys|
      invariant 0 <= i <= |keys|
      invariant Fold(r, g, f1, f2, keys[i..]) == Fold(config, g, f1, f2, keys)
    {
      assert keys[i..][1..] == keys[i + 1..];
      var prop := keys[i];
      match Rule(g, f1, f2, prop) {
        case Some(v) => r := Set(r, prop, v);
        case None =>
      }
      i := i + 1;
    }
  }

  method MergeConfig(config1: Value, config2: Value) returns (r: Completion)
    requires config1.Obj?
    ensures r == MergeConfigSpec(config1, config2)
  {
    var c2 := Override(config2);
    if InThrows(config2) {
      return Throw(TypeError("Cannot use 'in' operator to search for 'validateStatus' in " + ToText(c2)));
    }
    var f2 := OverrideFields(config2);
    var config := FillConfig(config1.fields, f2);
    r := Normal(Obj(config));
  }

  /** The five loops that fill the fresh `config` object. */
  method FillConfig(f1: Fields, f2: Fields) returns (config: Fields)
    ensures config == MergeFieldsSpec(f1, f2)
  {
    config := [];
    config := ApplyGroup(config, FromConfig2, f1, f2, ValueFromConfig2Keys);
    config := ApplyGroup(config, Deep, f1, f2, MergeDeepPropertiesKeys);
    config := ApplyGroup(config, DefaultTo, f1, f2, DefaultToConfig2Keys);
    config := ApplyGroup(config, Direct, f1, f2, DirectMergeKeys);
    config := ApplyGroup(config, Deep, f1, f2, OtherKeys(f1, f2));
  }

  // ---------------------------------------------------------------------
  // Per-key characterisation
  // ---------------------------------------------------------------------

  /** A group's loop sets exactly the listed keys its rule gives a value
      for, and leaves every other key of the config alone. */
  lemma {:induction false} FoldAt(config: Fields, g: Group, f1: Fields, f2: Fields, keys: seq<string>, k: string)
    ensures var r := Fold(config, g, f1, f2, keys);
            Get(r, k) == (if k in keys && Rule(g, f1, f2, k).Some? then Rule(g, f1, f2, k).value else Get(config, k)) &&
            (Has(r, k) <==> Has(config, k) || (k in keys && Rule(g, f1, f2, k).Some?))
    decreases |keys|
  {
    if keys != [] {
      var next := match Rule(g, f1, f2, keys[0]) case Some(v) => Set(config, keys[0], v) case None => config;
      FoldAt(next, g, f1, f2, keys[1..], k);
      assert keys == [keys[0]] + keys[1..];
    }
  }

  /** Which group decides a key. */
  function GroupOf(k: string): Group
  {
    GroupIn(k, ValueFromConfig2Keys, DefaultToConfig2Keys, DirectMergeKeys)
  }

  /** Which of the given lists decides a key; keys in none go by the deep rule. */
  function GroupIn(k: string, fromConfig2: seq<string>, defaultTo: seq<string>, direct: seq<string>): Group
  {
    if k in fromConfig2 then FromConfig2
    else if k in defaultTo then DefaultTo
    else if k in direct then Direct
    else Deep
  }

  /** The key lists are pairwise disjoint. */
  lemma {:induction false} ListsDisjoint(k: string)
    ensures k in ValueFromConfig2Keys ==> k !in MergeDeepPropertiesKeys && k !in DefaultToConfig2Keys && k !in DirectMergeKeys
    ensures k in MergeDeepPropertiesKeys ==> k !in DefaultToConfig2Keys && k !in DirectMergeKeys
    ensures k in DefaultToConfig2Keys ==> k !in DirectMergeKeys
  {
    if k in ValueFromConfig2Keys { FromConfig2Group(k); }
    if k in MergeDeepPropertiesKeys { DeepGroup(k); }
    if k in DefaultToConfig2Keys { DefaultToGroup(k); }
  }

  /** url, method and data are in no other list. */
  lemma {:induction false} FromConfig2Group(k: string)
    requires k in ValueFromConfig2Keys
    ensures k !in MergeDeepPropertiesKeys && k !in DefaultToConfig2Keys && k !in DirectMergeKeys
    ensures GroupOf(k) == FromConfig2
  {
  }

  /** headers, auth, proxy and params are in no other list. */
  lemma {:induction false} DeepGroup(k: string)
    requires k in MergeDeepPropertiesKeys
    ensures k !in ValueFromConfig2Keys && k !in DefaultToConfig2Keys && k !in DirectMergeKeys
    ensures GroupOf(k) == Deep
  {
  }

  /** The defaultToConfig2 keys are in no other list. */
  lemma {:induction false} DefaultToGroup(k: string)
    requires k in DefaultToConfig2Keys
    ensures k !in ValueFromConfig2Keys && k !in MergeDeepPropertiesKeys && k !in DirectMergeKeys
    ensures GroupOf(k) == DefaultTo
  {
  }

  /** A key in no list goes by the deep rule. */
  lemma {:induction false} OtherGroup(k: string)
    requires k !in AxiosKeys()
    ensures GroupOf(k) == Deep
  {
    assert k !in ValueFromConfig2Keys && k !in DefaultToConfig2Keys && k !in DirectMergeKeys;
  }

  /** Only validateStatus goes by the `in` test. */
  lemma {:induction false} DirectGroup(k: string)
    ensures GroupOf(k) == Direct <==> k == "validateStatus"
  {
    if k == "validateStatus" {
      assert k in DirectMergeKeys;
      assert k !in ValueFromConfig2Keys && k !in DefaultToConfig2Keys;
    }
  }

  /** Over pairwise disjoint key lists, with `others` the keys of either
      config in no list, each key is decided by its own list's rule. */
  lemma {:induction false} MergedWithAt(f1: Fields, f2: Fields, fromConfig2: seq<string>, deep: seq<string>,
                     defaultTo: seq<string>, direct: seq<string>, others: seq<string>, k: string)
    requires k in fromConfig2 ==> k !in deep && k !in defaultTo && k !in direct
    requires k in deep ==> k !in defaultTo && k !in direct
    requires k in defaultTo ==> k !in direct
    requires k in fromConfig2 || k in deep || k in defaultTo || k in direct ==> k !in others
    requires !(k in fromConfig2 || k in deep || k in defaultTo || k in direct) ==> (k in others <==> Has(f1, k) || Has(f2, k))
    ensures var r := MergeWith(f1, f2, fromConfig2, deep, defaultTo, direct, others);
            var rule := Rule(GroupIn(k, fromConfig2, defaultTo, direct), f1, f2, k);
            (Has(r, k) <==> rule.Some?) &&
            Get(r, k) == (if rule.Some? then rule.value else Undef)
  {
    var c1 := Fold([], FromConfig2, f1, f2, fromConfig2);
    var c2 := Fold(c1, Deep, f1, f2, deep);
    var c3 := Fold(c2, DefaultTo, f1, f2, defaultTo);
    var c4 := Fold(c3, Direct, f1, f2, direct);
    FoldAt([], FromConfig2, f1, f2, fromConfig2, k);
    FoldAt(c1, Deep, f1, f2, deep, k);
    FoldAt(c2, DefaultTo, f1, f2, defaultTo, k);
    FoldAt(c3, Direct, f1, f2, direct, k);
    FoldAt(c4, Deep, f1, f2, others, k);
  }

  /** Every key of the merged config is decided by its own group's rule: the
      result has k exactly when that rule gives a value, and holds that value. */
  lemma {:induction false} MergedAt(f1: Fields, f2: Fields, k: string)
    ensures var r := MergeFieldsSpec(f1, f2);
            var rule := Rule(GroupOf(k), f1, f2, k);
            (Has(r, k) <==> rule.Some?) &&
            Get(r, k) == (if rule.Some? then rule.value else Undef)
  {
    ListsDisjoint(k);
    var others := OtherKeys(f1, f2);
    assert k in AxiosKeys() <==> k in ValueFromConfig2Keys || k in MergeDeepPropertiesKeys || k in DefaultToConfig2Keys || k in DirectMergeKeys;
    MergedWithAt(f1, f2, ValueFromConfig2Keys, MergeDeepPropertiesKeys, DefaultToConfig2Keys, DirectMergeKeys, others, k);
  }

  /** url, method and data come from config2 alone: a value only config1 has
      is dropped. */
  lemma {:induction false} FromConfig2Only(f1: Fields, f2: Fields, k: string)
    requires k in ValueFromConfig2Keys
    ensures var r := MergeFieldsSpec(f1, f2);
            (Has(r, k) <==> !Get(f2, k).Undef?) &&
            Get(r, k) == MergedValue(Undef, Get(f2, k))
  {
    FromConfig2Group(k);
    FromConfig2Rule(f1, f2, k);
  }

  lemma {:induction false} FromConfig2Rule(f1: Fields, f2: Fields, k: string)
    requires GroupOf(k) == FromConfig2
    ensures var r := MergeFieldsSpec(f1, f2);
            (Has(r, k) <==> !Get(f2, k).Undef?) &&
            Get(r, k) == MergedValue(Undef, Get(f2, k))
  {
    MergedAt(f1, f2, k);
  }

  /** headers, auth, proxy and params: config2's value merged over config1's
      when config2 defines the key, otherwise a copy of config1's value. */
  lemma {:induction false} DeepKey(f1: Fields, f2: Fields, k: string)
    requires k in MergeDeepPropertiesKeys
    ensures var r := MergeFieldsSpec(f1, f2);
            (Has(r, k) <==> !Get(f2, k).Undef? || !Get(f1, k).Undef?) &&
            Get(r, k) == (if !Get(f2, k).Undef? then MergedValue(Get(f1, k), Get(f2, k))
                          else MergedValue(Undef, Get(f1, k)))
  {
    DeepGroup(k);
    DeepRule(f1, f2, k);
  }

  lemma {:induction false} DeepRule(f1: Fields, f2: Fields, k: string)
    requires GroupOf(k) == Deep
    ensures var r := MergeFieldsSpec(f1, f2);
            (Has(r, k) <==> !Get(f2, k).Undef? || !Get(f1, k).Undef?) &&
            Get(r, k) == (if !Get(f2, k).Undef? then MergedValue(Get(f1, k), Get(f2, k))
                          else MergedValue(Undef, Get(f1, k)))
  {
    MergedAt(f1, f2, k);
  }

  /** The defaultToConfig2 keys: config2's value if defined, else config1's,
      else absent. */
  lemma {:induction false} DefaultToKey(f1: Fields, f2: Fields, k: string)
    requires k in DefaultToConfig2Keys
    ensures var r := MergeFieldsSpec(f1, f2);
            (Has(r, k) <==> !Get(f2, k).Undef? || !Get(f1, k).Undef?) &&
            Get(r, k) == (if !Get(f2, k).Undef? then MergedValue(Undef, Get(f2, k))
                          else MergedValue(Undef, Get(f1, k)))
  {
    DefaultToGroup(k);
    DefaultToRule(f1, f2, k);
  }

  lemma {:induction false} DefaultToRule(f1: Fields, f2: Fields, k: string)
    requires GroupOf(k) == DefaultTo
    ensures var r := MergeFieldsSpec(f1, f2);
            (Has(r, k) <==> !Get(f2, k).Undef? || !Get(f1, k).Undef?) &&
            Get(r, k) == (if !Get(f2, k).Undef? then MergedValue(Undef, Get(f2, k))
                          else MergedValue(Undef, Get(f1, k)))
  {
    MergedAt(f1, f2, k);
  }

  /** validateStatus goes by `in`: a key config2 has, even with the value
      undefined, replaces config1's. */
  lemma {:induction false} DirectKey(f1: Fields, f2: Fields)
    ensures var r := MergeFieldsSpec(f1, f2);
            (Has(r, "validateStatus") <==> Has(f2, "validateStatus") || Has(f1, "validateStatus")) &&
            (Has(f2, "validateStatus") ==>
               Get(r, "validateStatus") == MergedValue(Get(f1, "validateStatus"), Get(f2, "validateStatus")))
  {
    DirectGroup("validateStatus");
    MergedAt(f1, f2, "validateStatus");
  }

  /** A key in no list, from either config, goes through the deep rule. */
  lemma {:induction false} OtherKey(f1: Fields, f2: Fields, k: string)
    requires k !in AxiosKeys()
    ensures var r := MergeFieldsSpec(f1, f2);
            (Has(r, k) <==> !Get(f2, k).Undef? || !Get(f1, k).Undef?) &&
            Get(r, k) == (if !Get(f2, k).Undef? then MergedValue(Get(f1, k), Get(f2, k))
                          else MergedValue(Undef, Get(f1, k)))
  {
    OtherGroup(k);
    DeepRule(f1, f2, k);
  }

  /** Outside validateStatus, a key undefined in both configs is absent from
      the result. */
  lemma {:induction false} UndefinedInBothAbsent(f1: Fields, f2: Fields, k: string)
    requires Get(f1, k).Undef? && Get(f2, k).Undef? && k != "validateStatus"
    ensures !Has(MergeFieldsSpec(f1, f2), k)
  {
    DirectGroup(k);
    MergedAt(f1, f2, k);
  }

  /** A null or undefined config2 behaves as an empty one. */
  lemma {:induction false} NullishOverride(config1: Value, config2: Value)
    requires config1.Obj? && IsNullish(config2)
    ensures MergeConfigSpec(config1, config2) == MergeConfigSpec(config1, Obj([]))
  {
    assert Override(config2) == Override(Obj([])) == Obj([]);
  }

  /** getMergedValue on two plain objects: the keys of both, and config2's
      non-object value wins over config1's. */
  lemma {:induction false} MergedValueBoth(target: Value, source: Value, j: string)
    requires target.Obj? && source.Obj?
    ensures var r := MergedValue(target, source);
            (Has(r.fields, j) <==> Has(target.fields, j) || Has(source.fields, j)) &&
            (UniqueKeys(source.fields) && Has(source.fields, j) && !Get(source.fields, j).Obj? ==>
               Get(r.fields, j) == Get(source.fields, j))
  {
    Utils.MergeAt([target, source], j);
    Utils.ObjVisitKeys(target.fields);
    Utils.ObjVisitKeys(source.fields);
    var args := [target, source];
    if Has(target.fields, j) { assert j in Utils.VisitKeys(Utils.Visits(args[0])); }
    if Has(source.fields, j) { assert j in Utils.VisitKeys(Utils.Visits(args[1])); }
    if UniqueKeys(source.fields) && Has(source.fields, j) && !Get(source.fields, j).Obj? {
      assert [target] + [source] == args;
      Utils.MergeLastWins([target], source, j);
    }
  }

  /** getMergedValue of a well-formed plain object alone is an equal copy. */
  lemma {:induction false} MergedValueCopy(source: Value)
    requires source.Obj? && WellFormed(source)
    ensures MergedValue(Undef, source) == source
  {
    Utils.MergeCopy(source);
  }
}
