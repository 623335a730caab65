/** src/helpers/normalizeHeaderName.js: renames, in place, every header
    whose name equals `normalizedName` up to case. */
module NormalizeHeaderName {
  import opened JsValue

  /** A name processHeader renames: not `n` itself, but equal to it once
      both are upper-cased. */
  predicate IsVariant(name: string, n: string)
  {
    name != n && Upper(name) == Upper(n)
  }

  /** processHeader(value, name): `headers[n] = value; delete headers[name]`
      when name is a variant of n. */
  function Step(h: Fields, name: string, n: string): Fields
  {
    if IsVariant(name, n) then Delete(Set(h, n, Get(h, name)), name) else h
  }

  /** The headers after processHeader has visited the first j of the
      original keys (keys added during the loop are not visited). */
  function Processed(orig: Fields, n: string, j: nat): Fields
    requires j <= |orig|
  {
    if j == 0 then orig else Step(Processed(orig, n, j - 1), orig[j - 1].0, n)
  }

  /** The value of the last variant among the first j original keys. */
  function LastVariant(orig: Fields, n: string, j: nat): Option<Value>
    requires j <= |orig|
  {
    if j == 0 then None
    else if IsVariant(orig[j - 1].0, n) then Some(orig[j - 1].1)
    else LastVariant(orig, n, j - 1)
  }

  /** processHeader(value, name): moves a variant's value to the normalized
      name. */
  method ProcessHeader(h: Fields, name: string, n: string) returns (r: Fields)
    ensures r == Step(h, name, n)
  {
    r := h;
    if IsVariant(name, n) {
      var value := Get(r, name);
      r := Set(r, n, value);
      r := Delete(r, name);
    }
  }

  /** The loop over the object's own keys. */
  method NormalizeFields(headers: Fields, n: string) returns (h: Fields)
    ensures h == Processed(headers, n, |headers|)
  {
    var names := Keys(headers);
    h := headers;
    var j := 0;
    while j < |names|
      invariant 0 <= j <= |names|
      invariant h == Processed(headers, n, j)
    {
      assert names[j] == headers[j].0;
      h := ProcessHeader(h, names[j], n);
      j := j + 1;
    }
  }

  /** normalizeHeaderName(headers, normalizedName). Undefined and null are
      left alone; for the other values forEach hands processHeader a numeric
      index, whose missing toUpperCase throws. */
  function NormalizeHeaderNameSpec(headers: Value, n: string): Completion
  {
    match headers
    case Obj(fs) => Normal(Obj(Processed(fs, n, |fs|)))
    case Arr(es) => if es == [] then Normal(headers) else Throw(TypeError("name.toUpperCase is not a function"))
    case Bool(_) => Throw(TypeError("name.toUpperCase is not a function"))
    case Num(_) => Throw(TypeError("name.toUpperCase is not a function"))
    case Str(_) => Throw(TypeError("name.toUpperCase is not a function"))
    case Fn(_) => Throw(TypeError("name.toUpperCase is not a function"))
    case _ => Normal(headers)
  }

  method NormalizeHeaderName(headers: Value, n: string) returns (r: Completion)
    ensures r == NormalizeHeaderNameSpec(headers, n)
    ensures IsNullish(headers) ==> r == Normal(headers)
  {
    if headers.Obj? {
      var h := NormalizeFields(headers.fields, n);
      r := Normal(Obj(h));
    } else {
      r := NormalizeHeaderNameSpec(headers, n);
    }
  }

  /** Whether `k` is among the first j original keys. */
  predicate SeenBefore(orig: Fields, k: string, j: nat)
    requires j <= |orig|
  {
    k in Keys(orig)[..j]
  }

  /** After the first j keys: the variants met so far are gone, `n` holds
      the value of the last of them (or its own value when none was met),
      every other key is untouched, and no key was added but `n`. */
  ghost predicate ProcessedInv(orig: Fields, n: string, j: nat, p: Fields)
    requires j <= |orig|
  {
    UniqueKeys(p) &&
    |p| <= |orig| &&
    (forall k :: k != n ==>
       Get(p, k) == (if IsVariant(k, n) && SeenBefore(orig, k, j) then Undef else Get(orig, k)) &&
       (Has(p, k) <==> Has(orig, k) && !(IsVariant(k, n) && SeenBefore(orig, k, j)))) &&
    Get(p, n) == (match LastVariant(orig, n, j) case None => Get(orig, n) case Some(v) => v) &&
    (Has(p, n) <==> Has(orig, n) || LastVariant(orig, n, j).Some?)
  }

  lemma {:induction false} ProcessedAt(orig: Fields, n: string, j: nat)
    requires UniqueKeys(orig) && j <= |orig|
    ensures ProcessedInv(orig, n, j, Processed(orig, n, j))
  {
    if j > 0 {
      ProcessedAt(orig, n, j - 1);
      var p := Processed(orig, n, j - 1);
      assert Processed(orig, n, j) == Step(p, orig[j - 1].0, n);
      if IsVariant(orig[j - 1].0, n) {
        VariantStep(orig, n, j - 1, p);
      } else {
        OtherStep(orig, n, j - 1, p);
      }
    }
  }

  /** Visiting a key that is not a variant changes nothing. */
  lemma {:induction false} OtherStep(orig: Fields, n: string, j: nat, p: Fields)
    requires j < |orig| && !IsVariant(orig[j].0, n) && ProcessedInv(orig, n, j, p)
    ensures ProcessedInv(orig, n, j + 1, Step(p, orig[j].0, n))
  {
    var name := orig[j].0;
    assert Keys(orig)[..j + 1] == Keys(orig)[..j] + [name];
    assert LastVariant(orig, n, j + 1) == LastVariant(orig, n, j);
  }

  /** Visiting a variant moves its value to `n` and deletes it. */
  lemma {:induction false} VariantStep(orig: Fields, n: string, j: nat, p: Fields)
    requires UniqueKeys(orig) && j < |orig| && IsVariant(orig[j].0, n) && ProcessedInv(orig, n, j, p)
    ensures ProcessedInv(orig, n, j + 1, Step(p, orig[j].0, n))
  {
    var name := orig[j].0;
    VariantPresent(orig, n, j, p);
    StepVariant(p, name, n, orig[j].1);
    var r := Step(p, name, n);
    forall k | k != n
      ensures Get(r, k) == (if IsVariant(k, n) && SeenBefore(orig, k, j + 1) then Undef else Get(orig, k))
      ensures Has(r, k) <==> Has(orig, k) && !(IsVariant(k, n) && SeenBefore(orig, k, j + 1))
    {
      VariantStepAt(orig, n, j, p, k);
    }
    assert LastVariant(orig, n, j + 1) == Some(orig[j].1);
    assert Get(r, n) == orig[j].1 && Has(r, n);
    assert UniqueKeys(r) && |r| <= |orig|;
  }

  /** The variant about to be visited is still there, with its own value. */
  lemma {:induction false} VariantPresent(orig: Fields, n: string, j: nat, p: Fields)
    requires UniqueKeys(orig) && j < |orig| && IsVariant(orig[j].0, n) && ProcessedInv(orig, n, j, p)
    ensures Has(p, orig[j].0) && Get(p, orig[j].0) == orig[j].1
  {
    var name := orig[j].0;
    var earlier := Keys(orig)[..j];
    assert !SeenBefore(orig, name, j) by {
      forall i | 0 <= i < |earlier| ensures earlier[i] != name {
        assert orig[i].0 != orig[j].0;
      }
    }
    GetAt(orig, j);
    assert Has(orig, name) by { assert Keys(orig)[j] == name; }
  }

  /** A key other than `n` after the variant's visit. */
  lemma {:induction false} VariantStepAt(orig: Fields, n: string, j: nat, p: Fields, k: string)
    requires UniqueKeys(orig) && j < |orig| && IsVariant(orig[j].0, n) && ProcessedInv(orig, n, j, p)
    requires Has(p, orig[j].0) && k != n
    ensures var r := Step(p, orig[j].0, n);
            Get(r, k) == (if IsVariant(k, n) && SeenBefore(orig, k, j + 1) then Undef else Get(orig, k)) &&
            (Has(r, k) <==> Has(orig, k) && !(IsVariant(k, n) && SeenBefore(orig, k, j + 1)))
  {
    var name := orig[j].0;
    assert Keys(orig)[..j + 1] == Keys(orig)[..j] + [name];
    StepVariant(p, name, n, Get(p, name));
    if k == name {
      assert SeenBefore(orig, k, j + 1);
    } else {
      assert SeenBefore(orig, k, j + 1) <==> SeenBefore(orig, k, j);
    }
  }

  /** One rename: the variant's value moves to `n` and the variant goes. */
  lemma {:induction false} StepVariant(p: Fields, name: string, n: string, v: Value)
    requires UniqueKeys(p) && Has(p, name) && Get(p, name) == v && IsVariant(name, n)
    ensures var r := Step(p, name, n);
            UniqueKeys(r) && |r| <= |p| && Get(r, n) == v && Has(r, n) && !Has(r, name) &&
            forall k :: k != n && k != name ==> Get(r, k) == Get(p, k) && (Has(r, k) <==> Has(p, k))
  {
    var q := Set(p, n, v);
    SetKeys(p, n, v);
    assert |q| <= |p| + 1;
    assert Has(q, name) && UniqueKeys(q);
    var r := Delete(q, name);
    assert |r| == |q| - 1;
  }

  /** normalizeHeaderName on a plain object with distinct keys: a variant
      of `n` is removed and its value moves to `n` (the last variant visited
      wins, also over a value `n` already had); other keys are untouched; `n`
      itself is never deleted; the number of keys never grows. */
  lemma {:induction false} Normalized(fs: Fields, n: string)
    requires UniqueKeys(fs)
    ensures var h := Processed(fs, n, |fs|);
            UniqueKeys(h) && |h| <= |fs| &&
            (forall k :: IsVariant(k, n) ==> !Has(h, k)) &&
            (forall k :: k != n && !IsVariant(k, n) ==> Get(h, k) == Get(fs, k) && (Has(h, k) <==> Has(fs, k))) &&
            (Has(fs, n) ==> Has(h, n)) &&
            Get(h, n) == (match LastVariant(fs, n, |fs|) case None => Get(fs, n) case Some(v) => v)
  {
    ProcessedAt(fs, n, |fs|);
    var h := Processed(fs, n, |fs|);
    forall k | IsVariant(k, n) ensures !Has(h, k) {
      assert Keys(fs)[..|fs|] == Keys(fs);
      assert Has(fs, k) ==> SeenBefore(fs, k, |fs|);
    }
  }

  /** A header set with no variant of `n` comes back unchanged. */
  lemma {:induction false} NoVariantNoChange(fs: Fields, n: string, j: nat)
    requires j <= |fs|
    requires forall i :: 0 <= i < |fs| ==> !IsVariant(fs[i].0, n)
    ensures Processed(fs, n, j) == fs
  {
    if j > 0 {
      NoVariantNoChange(fs, n, j - 1);
      assert !IsVariant(fs[j - 1].0, n);
    }
  }
}
