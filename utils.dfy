/** src/utils.js: iteration over arrays and objects (forEach), the deep
    merge of plain objects (merge), extend, trim and stripBOM. */
module Utils {
  import opened JsValue

  /** The second argument forEach passes to its callback: an array index or
      an own property name. */
  datatype PropKey = Index(i: nat) | Name(name: string)

  /** A callback key used as a property name (`result[key] = ...`). */
  function KeyText(k: PropKey): string
  {
    match k
    case Index(i) => NatToString(i)
    case Name(s) => s
  }

  /** The (value, key) pairs forEach hands to its callback, in call order.
      Undefined and null give none; a value that is not an object is wrapped
      in a one-element array; the own properties of host objects, errors,
      cancel tokens and cancel reasons are not represented, so they give none. */
  function Visits(obj: Value): seq<(Value, PropKey)>
  {
    match obj
    case Undef => []
    case Null => []
    case Bool(_) => [(obj, Index(0))]
    case Num(_) => [(obj, Index(0))]
    case Str(_) => [(obj, Index(0))]
    case Fn(_) => [(obj, Index(0))]
    case Arr(es) => seq(|es|, i requires 0 <= i < |es| => (es[i], Index(i)))
    case Obj(fs) => seq(|fs|, i requires 0 <= i < |fs| => (fs[i].1, Name(fs[i].0)))
    case _ => []
  }

  /** forEach(obj, fn): the loop that calls fn once per element or property;
      `calls` lists those calls in order. */
  method ForEach(obj: Value) returns (calls: seq<(Value, PropKey)>)
    ensures calls == Visits(obj)
    ensures IsNullish(obj) ==> calls == []
    ensures !IsNullish(obj) && !IsObject(obj) ==> calls == [(obj, Index(0))]
    ensures obj.Arr? ==>
              |calls| == |obj.elems| &&
              forall i :: 0 <= i < |calls| ==> calls[i] == (obj.elems[i], Index(i))
    ensures obj.Obj? ==>
              |calls| == |obj.fields| &&
              forall i :: 0 <= i < |calls| ==> calls[i] == (obj.fields[i].1, Name(obj.fields[i].0))
  {
    if IsNullish(obj) {
      return [];
    }
    var target := if IsObject(obj) then obj else Arr([obj]);
    calls := [];
    if target.Arr? {
      var i := 0;
      while i < |target.elems|
        invariant 0 <= i <= |target.elems|
        invariant |calls| == i
        invariant forall j :: 0 <= j < i ==> calls[j] == (target.elems[j], Index(j))
      {
        calls := calls + [(target.elems[i], Index(i))];
        i := i + 1;
      }
    } else if target.Obj? {
      var i := 0;
      while i < |target.fields|
        invariant 0 <= i <= |target.fields|
        invariant |calls| == i
        invariant forall j :: 0 <= j < i ==> calls[j] == (target.fields[j].1, Name(target.fields[j].0))
      {
        calls := calls + [(target.fields[i].1, Name(target.fields[i].0))];
        i := i + 1;
      }
    }
  }

  // ---------------------------------------------------------------------
  // merge
  // ---------------------------------------------------------------------

  /** What merge's assignValue stores under a key whose current value is
      `cur` when it meets `val`: two plain objects merge key by key, a plain
      object alone is rebuilt, anything else is stored as it is (an array is
      stored as a shallow copy, which as a value is the array itself). */
  function NewValue(cur: Value, val: Value): Value
    decreases val, 2
  {
    if val.Obj? then Obj(AssignFields(if cur.Obj? then cur.fields else [], val, 0))
    else val
  }

  /** Runs assignValue over the properties of the plain object `holder`
      from position i on, starting from the properties `acc`. */
  function AssignFields(acc: Fields, holder: Value, i: nat): Fields
    requires holder.Obj? && i <= |holder.fields|
    decreases holder, 1, |holder.fields| - i
  {
    if i == |holder.fields| then acc
    else
      assert holder.fields[i] in holder.fields;
      AssignFields(Assign(acc, holder.fields[i].0, holder.fields[i].1), holder, i + 1)
  }

  /** One call of assignValue(val, key) on the result object `acc`. */
  function Assign(acc: Fields, key: string, val: Value): Fields
    decreases val, 3
  {
    Set(acc, key, NewValue(Get(acc, key), val))
  }

  /** assignValue applied to a sequence of forEach calls, in order. */
  function AssignVisits(acc: Fields, vs: seq<(Value, PropKey)>): Fields
    decreases |vs|
  {
    if vs == [] then acc
    else AssignVisits(Assign(acc, KeyText(vs[0].1), vs[0].0), vs[1..])
  }

  /** The properties of `merge(args[0], ..., args[n-1])`. */
  function MergeFields(args: seq<Value>): Fields
  {
    if args == [] then []
    else AssignVisits(MergeFields(args[..|args| - 1]), Visits(args[|args| - 1]))
  }

  /** merge: a fresh result object filled by assignValue over every argument. */
  method Merge(args: seq<Value>) returns (result: Value)
    ensures result == Obj(MergeFields(args))
  {
    var acc: Fields := [];
    var i := 0;
    while i < |args|
      invariant 0 <= i <= |args|
      invariant acc == MergeFields(args[..i])
    {
      var vs := ForEach(args[i]);
      assert args[..i + 1][..i] == args[..i];
      acc := AssignAll(acc, vs);
      i := i + 1;
    }
    assert args[..|args|] == args;
    result := Obj(acc);
  }

  /** forEach(obj, assignValue) onto the result object. */
  method AssignAll(acc: Fields, vs: seq<(Value, PropKey)>) returns (r: Fields)
    ensures r == AssignVisits(acc, vs)
  {
    r := acc;
    var j := 0;
    while j < |vs|
      invariant 0 <= j <= |vs|
      invariant AssignVisits(r, vs[j..]) == AssignVisits(acc, vs)
    {
      var next := Assign(r, KeyText(vs[j].1), vs[j].0);
      assert vs[j..][0] == vs[j] && vs[j..][1..] == vs[j + 1..];
      assert AssignVisits(r, vs[j..]) == AssignVisits(next, vs[j + 1..]);
      r := next;
      j := j + 1;
    }
  }

  /** The keys a sequence of forEach calls assigns. */
  function VisitKeys(vs: seq<(Value, PropKey)>): (ks: seq<string>)
    ensures |ks| == |vs|
    ensures forall i :: 0 <= i < |vs| ==> ks[i] == KeyText(vs[i].1)
  {
    if vs == [] then [] else [KeyText(vs[0].1)] + VisitKeys(vs[1..])
  }

  /** forEach over a plain object names its keys in order. */
  lemma {:induction false} ObjVisitKeys(fs: Fields)
    ensures VisitKeys(Visits(Obj(fs))) == Keys(fs)
  {
    var vs := Visits(Obj(fs));
    assert forall i :: 0 <= i < |fs| ==> VisitKeys(vs)[i] == KeyText(vs[i].1) == fs[i].0;
  }

  /** Reference definition for one key: the value under `k` after the calls
      `vs`, computed from the calls with that key alone. */
  function VisitFold(cur: Value, vs: seq<(Value, PropKey)>, k: string): Value
    decreases |vs|
  {
    if vs == [] then cur
    else VisitFold(if KeyText(vs[0].1) == k then NewValue(cur, vs[0].0) else cur, vs[1..], k)
  }

  /** Each key of the result depends only on the calls that name it. */
  lemma {:induction false} AssignVisitsAt(acc: Fields, vs: seq<(Value, PropKey)>, k: string)
    ensures Get(AssignVisits(acc, vs), k) == VisitFold(Get(acc, k), vs, k)
    ensures Has(AssignVisits(acc, vs), k) <==> Has(acc, k) || k in VisitKeys(vs)
    decreases |vs|
  {
    if vs != [] {
      var acc' := Assign(acc, KeyText(vs[0].1), vs[0].0);
      AssignVisitsAt(acc', vs[1..], k);
      assert VisitKeys(vs) == [KeyText(vs[0].1)] + VisitKeys(vs[1..]);
    }
  }

  /** forEach over a plain object visits its properties in order, so
      assignValue over those calls is AssignFields. */
  lemma {:induction false} AssignVisitsObj(acc: Fields, x: Value)
    requires x.Obj?
    ensures AssignVisits(acc, Visits(x)) == AssignFields(acc, x, 0)
  {
    AssignVisitsObjFrom(acc, x, 0);
    assert Visits(x)[0..] == Visits(x);
  }

  lemma {:induction false} AssignVisitsObjFrom(acc: Fields, x: Value, i: nat)
    requires x.Obj? && i <= |x.fields|
    ensures AssignVisits(acc, Visits(x)[i..]) == AssignFields(acc, x, i)
    decreases |x.fields| - i
  {
    if i < |x.fields| {
      var vs := Visits(x);
      var (k, v) := x.fields[i];
      var acc' := Assign(acc, k, v);
      assert vs[i] == (v, Name(k)) && KeyText(Name(k)) == k;
      assert vs[i..][1..] == vs[i + 1..];
      assert AssignVisits(acc, vs[i..]) == AssignVisits(acc', vs[i + 1..]);
      AssignVisitsObjFrom(acc', x, i + 1);
      assert AssignFields(acc, x, i) == AssignFields(acc', x, i + 1);
    }
  }

  /** `merge(x)` and `merge({}, x)` of a well-formed plain object x give an
      object equal to x. */
  lemma {:induction false} MergeCopy(x: Value)
    requires x.Obj? && WellFormed(x)
    ensures MergeFields([x]) == x.fields
    ensures MergeFields([Obj([]), x]) == x.fields
  {
    assert [x][..0] == [];
    AssignVisitsObj([], x);
    CopyIsIdentity(x);
    assert [Obj([]), x][..1] == [Obj([])];
    assert [Obj([])][..0] == [];
    assert MergeFields([Obj([])]) == [];
  }

  /** Reference definition for one key of `merge(args...)`. */
  function MergedAt(args: seq<Value>, k: string): Value
  {
    if args == [] then Undef
    else VisitFold(MergedAt(args[..|args| - 1], k), Visits(args[|args| - 1]), k)
  }

  /** Whether some argument of merge has a forEach call with key k. */
  predicate MergeHasKey(args: seq<Value>, k: string)
  {
    exists i :: 0 <= i < |args| && k in VisitKeys(Visits(args[i]))
  }

  /** The value under each key of the merge result is the per-key reference
      value, and the result's keys are the union of the arguments' keys. */
  lemma {:induction false} MergeAt(args: seq<Value>, k: string)
    ensures Get(MergeFields(args), k) == MergedAt(args, k)
    ensures Has(MergeFields(args), k) <==> MergeHasKey(args, k)
  {
    if args != [] {
      var init := args[..|args| - 1];
      MergeAt(init, k);
      AssignVisitsAt(MergeFields(init), Visits(args[|args| - 1]), k);
      if MergeHasKey(args, k) {
        var i :| 0 <= i < |args| && k in VisitKeys(Visits(args[i]));
        if i < |args| - 1 {
          assert init[i] == args[i];
        }
      }
      if MergeHasKey(init, k) {
        var i :| 0 <= i < |init| && k in VisitKeys(Visits(init[i]));
        assert args[i] == init[i];
      }
    }
  }

  /** forEach over a plain object with distinct keys calls back once per key,
      so only that property's value reaches key k. */
  lemma {:induction false} VisitFoldObj(cur: Value, fs: Fields, k: string)
    requires UniqueKeys(fs)
    ensures VisitFold(cur, Visits(Obj(fs)), k) == if Has(fs, k) then NewValue(cur, Get(fs, k)) else cur
  {
    var vs := Visits(Obj(fs));
    if fs != [] {
      Cons(fs[0], fs[1..]);
      assert fs == [fs[0]] + fs[1..];
      assert vs[0] == (fs[0].1, Name(fs[0].0)) && KeyText(Name(fs[0].0)) == fs[0].0;
      assert vs[1..] == Visits(Obj(fs[1..]));
      assert UniqueKeys(fs[1..]);
      var next := if fs[0].0 == k then NewValue(cur, fs[0].1) else cur;
      assert VisitFold(cur, vs, k) == VisitFold(next, vs[1..], k);
      if fs[0].0 == k {
        assert !Has(fs[1..], k);
        VisitFoldAbsent(NewValue(cur, fs[0].1), fs[1..], k);
      } else {
        VisitFoldObj(cur, fs[1..], k);
      }
    }
  }

  lemma {:induction false} VisitFoldAbsent(cur: Value, fs: Fields, k: string)
    requires !Has(fs, k)
    ensures VisitFold(cur, Visits(Obj(fs)), k) == cur
  {
    if fs != [] {
      var vs := Visits(Obj(fs));
      assert Keys(fs)[0] == fs[0].0;
      assert KeyText(vs[0].1) == fs[0].0 != k;
      assert !Has(fs[1..], k) by {
        forall i | 0 <= i < |fs| - 1 ensures Keys(fs[1..])[i] != k {
          assert Keys(fs[1..])[i] == Keys(fs)[i + 1];
        }
      }
      assert vs[1..] == Visits(Obj(fs[1..]));
      VisitFoldAbsent(cur, fs[1..], k);
    }
  }

  /** Later arguments win: when the last argument is a plain object whose
      value under k is not a plain object, that value is the result's. */
  lemma {:induction false} MergeLastWins(args: seq<Value>, a: Value, k: string)
    requires a.Obj? && UniqueKeys(a.fields) && Has(a.fields, k) && !Get(a.fields, k).Obj?
    ensures Get(MergeFields(args + [a]), k) == Get(a.fields, k)
  {
    var all := args + [a];
    assert all[..|all| - 1] == args;
    MergeAt(all, k);
    VisitFoldObj(MergedAt(args, k), a.fields, k);
  }

  /** Merging one more plain object: its keys are assigned over the result
      so far, and the keys are the union. */
  lemma {:induction false} MergeOneMore(args: seq<Value>, a: Value, k: string)
    requires a.Obj? && UniqueKeys(a.fields)
    ensures var before := MergeFields(args);
            var after := MergeFields(args + [a]);
            Get(after, k) == (if Has(a.fields, k) then NewValue(Get(before, k), Get(a.fields, k)) else Get(before, k)) &&
            (Has(after, k) <==> Has(before, k) || Has(a.fields, k))
  {
    var all := args + [a];
    assert all[..|all| - 1] == args;
    AssignVisitsAt(MergeFields(args), Visits(a), k);
    VisitFoldObj(Get(MergeFields(args), k), a.fields, k);
    ObjVisitKeys(a.fields);
  }

  /** The keys of the object assignValue builds for `cur` and `val`. */
  lemma {:induction false} AssignFieldsHas(acc: Fields, holder: Value, i: nat, j: string)
    requires holder.Obj? && i <= |holder.fields|
    ensures Has(AssignFields(acc, holder, i), j) <==> Has(acc, j) || j in Keys(holder.fields)[i..]
    decreases |holder.fields| - i
  {
    if i < |holder.fields| {
      var k := holder.fields[i].0;
      var acc' := Assign(acc, k, holder.fields[i].1);
      assert Has(acc', j) <==> Has(acc, j) || j == k;
      AssignFieldsHas(acc', holder, i + 1, j);
      assert AssignFields(acc, holder, i) == AssignFields(acc', holder, i + 1);
      KeysFrom(holder.fields, i);
    }
  }

  lemma {:induction false} KeysFrom(fs: Fields, i: nat)
    requires i < |fs|
    ensures Keys(fs)[i..] == [fs[i].0] + Keys(fs)[i + 1..]
  {
    var ks := Keys(fs);
    assert ks[i] == fs[i].0;
    assert ks[i..] == [ks[i]] + ks[i + 1..];
  }

  /** Two plain objects under the same key merge recursively: keys found
      only in the earlier object survive. */
  lemma {:induction false} MergeDeep(args: seq<Value>, a: Value, k: string)
    requires a.Obj? && UniqueKeys(a.fields) && Get(a.fields, k).Obj?
    requires Get(MergeFields(args), k).Obj?
    ensures var before := Get(MergeFields(args), k).fields;
            var after := Get(MergeFields(args + [a]), k);
            after.Obj? &&
            forall j :: Has(after.fields, j) <==> Has(before, j) || Has(Get(a.fields, k).fields, j)
  {
    var all := args + [a];
    assert all[..|all| - 1] == args;
    MergeAt(all, k);
    MergeAt(args, k);
    VisitFoldObj(MergedAt(args, k), a.fields, k);
    var v := Get(a.fields, k);
    forall j ensures Has(AssignFields(Get(MergeFields(args), k).fields, v, 0), j) <==>
                     Has(Get(MergeFields(args), k).fields, j) || Has(v.fields, j)
    {
      AssignFieldsHas(Get(MergeFields(args), k).fields, v, 0, j);
      assert Keys(v.fields)[0..] == Keys(v.fields);
    }
  }

  /** assignValue keeps an object well formed. */
  lemma {:induction false} AssignFieldsWellFormed(acc: Fields, holder: Value, i: nat)
    requires holder.Obj? && i <= |holder.fields| && WellFormed(Obj(acc))
    ensures WellFormed(Obj(AssignFields(acc, holder, i)))
    decreases holder, 1, |holder.fields| - i
  {
    if i < |holder.fields| {
      var (k, v) := holder.fields[i];
      assert holder.fields[i] in holder.fields;
      AssignWellFormed(acc, k, v);
      var acc' := Assign(acc, k, v);
      AssignFieldsWellFormed(acc', holder, i + 1);
      assert AssignFields(acc, holder, i) == AssignFields(acc', holder, i + 1);
    }
  }

  lemma {:induction false} NewValueWellFormed(cur: Value, val: Value)
    requires WellFormed(cur)
    ensures WellFormed(NewValue(cur, val))
    decreases val, 2
  {
    if val.Obj? {
      AssignFieldsWellFormed(if cur.Obj? then cur.fields else [], val, 0);
    }
  }

  lemma {:induction false} AssignWellFormed(acc: Fields, key: string, val: Value)
    requires WellFormed(Obj(acc))
    ensures WellFormed(Obj(Assign(acc, key, val)))
    decreases val, 3
  {
    var cur := Get(acc, key);
    if Has(acc, key) {
      var i :| 0 <= i < |acc| && Keys(acc)[i] == key;
      GetAt(acc, i);
    }
    NewValueWellFormed(cur, val);
    SetWellFormed(acc, key, NewValue(cur, val));
  }

  lemma {:induction false} SetWellFormed(fs: Fields, k: string, v: Value)
    requires WellFormed(Obj(fs)) && WellFormed(v)
    ensures WellFormed(Obj(Set(fs, k, v)))
  {
    if fs != [] {
      Cons(fs[0], fs[1..]);
      assert fs == [fs[0]] + fs[1..];
      assert WellFormed(Obj(fs[1..])) by {
        forall i | 0 <= i < |fs| - 1 ensures WellFormed(fs[1..][i].1) {
          assert fs[1..][i] == fs[i + 1];
        }
      }
      if fs[0].0 == k {
        var r := [(k, v)] + fs[1..];
        forall i | 0 <= i < |r| ensures WellFormed(r[i].1) {
          if i > 0 { assert r[i] == fs[i]; }
        }
      } else {
        SetWellFormed(fs[1..], k, v);
        var rest := Set(fs[1..], k, v);
        Cons(fs[0], rest);
        var r := [fs[0]] + rest;
        forall i | 0 <= i < |r| ensures WellFormed(r[i].1) {
          if i > 0 { assert r[i] == rest[i - 1]; }
        }
      }
    }
  }

  /** The merge result is well formed: every plain object in it is rebuilt
      with distinct keys. */
  lemma {:induction false} MergeWellFormed(args: seq<Value>)
    ensures WellFormed(Obj(MergeFields(args)))
  {
    if args != [] {
      MergeWellFormed(args[..|args| - 1]);
      AssignVisitsWellFormed(MergeFields(args[..|args| - 1]), Visits(args[|args| - 1]));
    }
  }

  lemma {:induction false} AssignVisitsWellFormed(acc: Fields, vs: seq<(Value, PropKey)>)
    requires WellFormed(Obj(acc))
    ensures WellFormed(Obj(AssignVisits(acc, vs)))
    decreases |vs|
  {
    if vs != [] {
      AssignWellFormed(acc, KeyText(vs[0].1), vs[0].0);
      AssignVisitsWellFormed(Assign(acc, KeyText(vs[0].1), vs[0].0), vs[1..]);
    }
  }

  /** `merge({}, x)` rebuilds a well-formed plain object x into an equal one.
      So the copy the source makes of `result[key]` before merging into it,
      which the model leaves out, changes nothing. */
  lemma {:induction false} CopyIsIdentity(x: Value)
    requires x.Obj? && WellFormed(x)
    ensures AssignFields([], x, 0) == x.fields
  {
    CopyFrom(x, 0);
    assert x.fields[..0] == [];
  }

  lemma {:induction false} CopyFrom(x: Value, i: nat)
    requires x.Obj? && WellFormed(x) && i <= |x.fields|
    ensures AssignFields(x.fields[..i], x, i) == x.fields
    decreases x, 1, |x.fields| - i
  {
    if i < |x.fields| {
      assert x.fields[i] in x.fields;
      NewValueCopy(x.fields[i].1);
      CopyStep(x, i);
      CopyFrom(x, i + 1);
    } else {
      assert x.fields[..i] == x.fields;
    }
  }

  /** One assignValue call of the copy appends the property unchanged. */
  lemma {:induction false} CopyStep(x: Value, i: nat)
    requires x.Obj? && UniqueKeys(x.fields) && i < |x.fields|
    requires NewValue(Undef, x.fields[i].1) == x.fields[i].1
    ensures AssignFields(x.fields[..i], x, i) == AssignFields(x.fields[..i + 1], x, i + 1)
  {
    var fs := x.fields;
    var (k, v) := fs[i];
    FreshAt(fs, i);
    SetAppends(fs[..i], k, v);
    assert fs[..i] + [(k, v)] == fs[..i + 1];
    assert Assign(fs[..i], k, v) == fs[..i + 1];
  }

  /** assignValue of a well-formed value onto an absent key stores an equal value. */
  lemma {:induction false} NewValueCopy(v: Value)
    requires WellFormed(v)
    ensures NewValue(Undef, v) == v
    decreases v, 2
  {
    if v.Obj? {
      CopyFrom(v, 0);
      assert v.fields[..0] == [];
    }
  }

  /** In an object with distinct keys, the i-th key is not among the first i. */
  lemma FreshAt(fs: Fields, i: nat)
    requires UniqueKeys(fs) && i < |fs|
    ensures !Has(fs[..i], fs[i].0) && Get(fs[..i], fs[i].0) == Undef
  {
    var k := fs[i].0;
    forall j | 0 <= j < i ensures Keys(fs[..i])[j] != k {
      assert fs[..i][j] == fs[j];
    }
  }

  // ---------------------------------------------------------------------
  // extend
  // ---------------------------------------------------------------------

  /** The value extend stores: a function is bound to a truthy thisArg. */
  function ExtendValue(val: Value, thisArg: Value): Value
  {
    if Truthy(thisArg) && val.Fn? then Fn(Bound(val.f, thisArg)) else val
  }

  /** extend's assignments `a[key] = ...` for the calls `vs`, in order; an
      assignment that throws ends the call. */
  function ExtendSpec(a: Value, vs: seq<(Value, PropKey)>, thisArg: Value): Completion
    decreases |vs|
  {
    if vs == [] then Normal(a)
    else
      match PutProp(a, KeyText(vs[0].1), ExtendValue(vs[0].0, thisArg))
      case Throw(e) => Throw(e)
      case Normal(a') => ExtendSpec(a', vs[1..], thisArg)
  }

  /** extend(a, b, thisArg): copies b's properties onto a and returns a. */
  method Extend(a: Value, b: Value, thisArg: Value) returns (r: Completion)
    ensures r == ExtendSpec(a, Visits(b), thisArg)
  {
    var vs := ForEach(b);
    r := ExtendCalls(a, vs, thisArg);
  }

  /** The assignValue calls of extend, in forEach order. */
  method ExtendCalls(a: Value, vs: seq<(Value, PropKey)>, thisArg: Value) returns (r: Completion)
    ensures r == ExtendSpec(a, vs, thisArg)
  {
    var cur := a;
    var i := 0;
    while i < |vs|
      invariant 0 <= i <= |vs|
      invariant ExtendSpec(cur, vs[i..], thisArg) == ExtendSpec(a, vs, thisArg)
    {
      var put := ExtendStep(cur, vs[i..], thisArg);
      if put.Throw? {
        return put;
      }
      assert vs[i..][1..] == vs[i + 1..];
      cur := put.value;
      i := i + 1;
    }
    r := Normal(cur);
  }

  /** assignValue(val, key) of extend: `a[key] = val`, bound to thisArg
      when val is a function. */
  method ExtendStep(cur: Value, vs: seq<(Value, PropKey)>, thisArg: Value) returns (put: Completion)
    requires vs != []
    ensures put == PutProp(cur, KeyText(vs[0].1), ExtendValue(vs[0].0, thisArg))
    ensures put.Throw? ==> ExtendSpec(cur, vs, thisArg) == put
    ensures put.Normal? ==> ExtendSpec(cur, vs, thisArg) == ExtendSpec(put.value, vs[1..], thisArg)
  {
    put := PutProp(cur, KeyText(vs[0].1), ExtendValue(vs[0].0, thisArg));
  }

  /** Extending a plain object by a plain object: each key of b gets b's
      value (bound when it is a function and thisArg is truthy), every other
      key of a keeps its value, and no other key appears. */
  lemma {:induction false} ExtendObj(fs: Fields, b: Fields, thisArg: Value)
    requires UniqueKeys(b)
    ensures var r := ExtendSpec(Obj(fs), Visits(Obj(b)), thisArg);
            r.Normal? && r.value.Obj? &&
            (forall k :: Get(r.value.fields, k) ==
               if Has(b, k) then ExtendValue(Get(b, k), thisArg) else Get(fs, k)) &&
            (forall k :: Has(r.value.fields, k) <==> Has(fs, k) || Has(b, k))
    decreases |b|
  {
    if b != [] {
      var fs' := Set(fs, b[0].0, ExtendValue(b[0].1, thisArg));
      ExtendUnfold(fs, b, thisArg);
      ExtendObj(fs', b[1..], thisArg);
      ExtendKeys(fs, b, thisArg, ExtendSpec(Obj(fs'), Visits(Obj(b[1..])), thisArg).value.fields);
    }
  }

  /** extend's first forEach call, on a non-empty plain object. */
  lemma {:induction false} ExtendUnfold(fs: Fields, b: Fields, thisArg: Value)
    requires b != []
    ensures ExtendSpec(Obj(fs), Visits(Obj(b)), thisArg) ==
            ExtendSpec(Obj(Set(fs, b[0].0, ExtendValue(b[0].1, thisArg))), Visits(Obj(b[1..])), thisArg)
  {
    var vs := Visits(Obj(b));
    assert vs[0] == (b[0].1, Name(b[0].0)) && KeyText(Name(b[0].0)) == b[0].0;
    assert vs[1..] == Visits(Obj(b[1..]));
  }

  /** ExtendObj's per-key facts after the first key of b. */
  lemma {:induction false} ExtendKeys(fs: Fields, b: Fields, thisArg: Value, r: Fields)
    requires b != [] && UniqueKeys(b)
    requires var fs' := Set(fs, b[0].0, ExtendValue(b[0].1, thisArg));
             (forall k :: Get(r, k) == if Has(b[1..], k) then ExtendValue(Get(b[1..], k), thisArg) else Get(fs', k)) &&
             (forall k :: Has(r, k) <==> Has(fs', k) || Has(b[1..], k))
    ensures forall k :: Get(r, k) == if Has(b, k) then ExtendValue(Get(b, k), thisArg) else Get(fs, k)
    ensures forall k :: Has(r, k) <==> Has(fs, k) || Has(b, k)
  {
    Cons(b[0], b[1..]);
    assert b == [b[0]] + b[1..];
  }

  // ---------------------------------------------------------------------
  // trim and stripBOM
  // ---------------------------------------------------------------------

  /** The characters `\s` matches in a JavaScript regular expression. */
  predicate IsSpace(c: char)
  {
    c == ' ' || c == '\t' || c == '\n' || c == '\U{000B}' || c == '\U{000C}' || c == '\r' ||
    c == '\U{00A0}' || c == '\U{1680}' || ('\U{2000}' <= c <= '\U{200A}') ||
    c == '\U{2028}' || c == '\U{2029}' || c == '\U{202F}' || c == '\U{205F}' || c == '\U{3000}' || c == '\U{FEFF}'
  }

  // str.replace(/^\s*/, ''): drops the leading whitespace.
  function TrimStart(s: string): (r: string)
    ensures |r| <= |s| && r == s[|s| - |r|..]
    ensures forall i :: 0 <= i < |s| - |r| ==> IsSpace(s[i])
  {
    if s != [] && IsSpace(s[0]) then TrimStart(s[1..]) else s
  }

  /** TrimStart stops at the first non-whitespace character. */
  lemma {:induction false} TrimStartStops(s: string)
    ensures var r := TrimStart(s); r == [] || !IsSpace(r[0])
  {
    if s != [] && IsSpace(s[0]) {
      TrimStartStops(s[1..]);
    }
  }

  // str.replace(/\s*$/, ''): drops the trailing whitespace.
  function TrimEnd(s: string): (r: string)
    ensures |r| <= |s| && r == s[..|r|]
    ensures forall i :: |r| <= i < |s| ==> IsSpace(s[i])
  {
    if s != [] && IsSpace(s[|s| - 1]) then TrimEnd(s[..|s| - 1]) else s
  }

  /** TrimEnd stops at the last non-whitespace character. */
  lemma {:induction false} TrimEndStops(s: string)
    ensures var r := TrimEnd(s); r == [] || !IsSpace(r[|r| - 1])
  {
    if s != [] && IsSpace(s[|s| - 1]) {
      TrimEndStops(s[..|s| - 1]);
    }
  }

  /** utils.trim */
  function Trim(s: string): string
  {
    TrimEnd(TrimStart(s))
  }

  /** The trimmed string starts and ends with non-whitespace, or is empty. */
  lemma {:induction false} TrimStops(s: string)
    ensures var r := Trim(s); r == [] || (!IsSpace(r[0]) && !IsSpace(r[|r| - 1]))
  {
    var t := TrimStart(s);
    TrimStartStops(s);
    TrimEndStops(t);
    var r := TrimEnd(t);
    if r != [] {
      assert r[0] == t[0];
    }
  }

  /** What trim removes is whitespace only: the result is the middle of s,
      with nothing but whitespace before and after it. */
  lemma {:induction false} TrimMiddle(s: string)
    ensures var a := |s| - |TrimStart(s)|;
            var r := Trim(s);
            a + |r| <= |s| && r == s[a..a + |r|] &&
            (forall i :: 0 <= i < a ==> IsSpace(s[i])) &&
            (forall i :: a + |r| <= i < |s| ==> IsSpace(s[i]))
  {
    MiddleOfSuffix(s, TrimStart(s), Trim(s));
  }

  /** A prefix r of a suffix t of s, with whitespace only before t in s and
      after r in t. */
  lemma {:induction false} MiddleOfSuffix(s: string, t: string, r: string)
    requires |t| <= |s| && t == s[|s| - |t|..]
    requires forall i :: 0 <= i < |s| - |t| ==> IsSpace(s[i])
    requires |r| <= |t| && r == t[..|r|]
    requires forall i :: |r| <= i < |t| ==> IsSpace(t[i])
    ensures var a := |s| - |t|;
            a + |r| <= |s| && r == s[a..a + |r|] &&
            (forall i :: 0 <= i < a ==> IsSpace(s[i])) &&
            (forall i :: a + |r| <= i < |s| ==> IsSpace(s[i]))
  {
    var a := |s| - |t|;
    assert r == s[a..a + |r|] by {
      forall i | 0 <= i < |r| ensures r[i] == s[a + i] {
        assert r[i] == t[i];
      }
    }
    forall i | a + |r| <= i < |s| ensures IsSpace(s[i]) {
      assert s[i] == t[i - a];
    }
  }

  /** Trimming twice is trimming once. */
  lemma {:induction false} TrimIdempotent(s: string)
    ensures Trim(Trim(s)) == Trim(s)
  {
    var r := Trim(s);
    TrimStops(s);
    assert TrimStart(r) == r;
    assert TrimEnd(r) == r;
  }

  /** utils.stripBOM: drops one leading U+FEFF. */
  function StripBOM(content: string): (r: string)
    ensures |r| == |content| || |r| == |content| - 1
    ensures r == content[|content| - |r|..]
  {
    if |content| > 0 && content[0] == '\U{FEFF}' then content[1..] else content
  }

  /** Exactly one byte order mark is removed from the front. */
  lemma {:induction false} StripBOMOne(t: string)
    ensures StripBOM("\U{FEFF}" + t) == t
  {
  }

  /** A string that does not start with U+FEFF is returned unchanged. */
  lemma {:induction false} StripBOMNone(s: string)
    ensures StripBOM(s) == s <==> (s == [] || s[0] != '\U{FEFF}')
  {
  }
}
