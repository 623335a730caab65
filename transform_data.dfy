/** src/core/transformData.js: runs a list of transforms over request or
    response data, each receiving the previous one's output and the same
    headers object. */
module TransformData {
  import opened JsValue
  import Utils
  import Defaults
  import opened Invoke

  /** `this || defaults`: the `this` every transform is called with. */
  function Context(env: Env, self: Value): (ctx: Value)
    ensures Truthy(self) ==> ctx == self
    ensures !Truthy(self) ==> ctx == Defaults.DefaultsValue(env)
  {
    if Truthy(self) then self else Defaults.DefaultsValue(env)
  }

  /** One transform call `fn.call(ctx, data, headers)`: its outcome and the
      headers after it. */
  type Step = (Value, Value, Value) -> (Completion, Value)

  function StepWith(env: Env, ctx: Value): Step
  {
    (fn, data, headers) => CallTransformValue(env, fn, ctx, data, headers)
  }

  /** The transforms of `vs` applied from the front: each one receives the
      data the previous one returned; the first throw ends the run, with the
      headers as that call left them. */
  function Fold(step: Step, data: Value, headers: Value, vs: seq<(Value, Utils.PropKey)>): (Completion, Value)
    decreases |vs|
  {
    if vs == [] then (Normal(data), headers)
    else
      var (c, h) := step(vs[0].0, data, headers);
      if c.Throw? then (c, h) else Fold(step, c.value, h, vs[1..])
  }

  /** transformData.call(self, data, headers, fns): the final data (or what a
      transform threw) and the headers after the run. */
  function TransformDataSpec(env: Env, self: Value, data: Value, headers: Value, fns: Value): (Completion, Value)
  {
    Fold(StepWith(env, Context(env, self)), data, headers, Utils.Visits(fns))
  }

  /** The loop of transformData: `data = fn.call(context, data, headers)` for
      every transform forEach hands over. */
  method TransformData(env: Env, self: Value, data: Value, headers: Value, fns: Value) returns (r: Completion, h: Value)
    ensures (r, h) == TransformDataSpec(env, self, data, headers, fns)
  {
    var context := if Truthy(self) then self else Defaults.DefaultsValue(env);
    ghost var step := StepWith(env, context);
    var calls := Utils.ForEach(fns);
    var d := data;
    h := headers;
    var i := 0;
    while i < |calls|
      invariant 0 <= i <= |calls|
      invariant Fold(step, d, h, calls[i..]) == TransformDataSpec(env, self, data, headers, fns)
    {
      assert calls[i..][1..] == calls[i + 1..];
      var (c, h') := CallTransformValue(env, calls[i].0, context, d, h);
      assert (c, h') == step(calls[i].0, d, h);
      h := h';
      if c.Throw? {
        return c, h;
      }
      d := c.value;
      i := i + 1;
    }
    r := Normal(d);
  }

  /** Independent reference: the transforms applied from the back of the
      list, i.e. a left fold `fn_n(... fn_2(fn_1(data)))`. */
  function LeftFold(step: Step, data: Value, headers: Value, vs: seq<(Value, Utils.PropKey)>): (Completion, Value)
    decreases |vs|
  {
    if vs == [] then (Normal(data), headers)
    else
      var (c, h) := LeftFold(step, data, headers, vs[..|vs| - 1]);
      if c.Throw? then (c, h) else step(vs[|vs| - 1].0, c.value, h)
  }

  /** Running two lists one after the other is running their concatenation. */
  lemma {:induction false} FoldConcat(step: Step, data: Value, headers: Value,
                                      vs: seq<(Value, Utils.PropKey)>, ws: seq<(Value, Utils.PropKey)>)
    ensures var (c, h) := Fold(step, data, headers, vs);
            Fold(step, data, headers, vs + ws) ==
              if c.Throw? then (c, h) else Fold(step, c.value, h, ws)
    decreases |vs|
  {
    if vs == [] {
      assert vs + ws == ws;
    } else {
      assert (vs + ws)[1..] == vs[1..] + ws;
      assert (vs + ws)[0] == vs[0];
      var (c, h) := step(vs[0].0, data, headers);
      if !c.Throw? {
        FoldConcat(step, c.value, h, vs[1..], ws);
      }
    }
  }

  /** transformData is a left fold of the transforms in list order. */
  lemma {:induction false} IsLeftFold(step: Step, data: Value, headers: Value, vs: seq<(Value, Utils.PropKey)>)
    ensures Fold(step, data, headers, vs) == LeftFold(step, data, headers, vs)
    decreases |vs|
  {
    if vs != [] {
      var last := vs[|vs| - 1];
      var init := vs[..|vs| - 1];
      IsLeftFold(step, data, headers, init);
      FoldConcat(step, data, headers, init, [last]);
      assert init + [last] == vs;
      var (c, h) := Fold(step, data, headers, init);
      if !c.Throw? {
        assert [last][1..] == [];
      }
    }
  }

  /** An absent or empty transform list leaves the data and headers alone. */
  lemma {:induction false} NoTransforms(env: Env, self: Value, data: Value, headers: Value, fns: Value)
    requires IsNullish(fns) || fns == Arr([]) || fns == Obj([])
    ensures TransformDataSpec(env, self, data, headers, fns) == (Normal(data), headers)
  {
  }

  /** A single function, not in an array, is called exactly once. */
  lemma {:induction false} SingleTransform(env: Env, self: Value, data: Value, headers: Value, f: Func)
    ensures TransformDataSpec(env, self, data, headers, Fn(f)) ==
            CallTransform(env, f, Context(env, self), data, headers)
  {
    var ctx := Context(env, self);
    var vs := Utils.Visits(Fn(f));
    assert vs == [(Fn(f), Utils.Index(0))] && vs[1..] == [];
    var r := CallTransform(env, f, ctx, data, headers);
    assert StepWith(env, ctx)(Fn(f), data, headers) == r;
    assert Fold(StepWith(env, ctx), data, headers, vs) == (if r.0.Throw? then r else Fold(StepWith(env, ctx), r.0.value, r.1, []));
  }

  /** An array of transforms: the second receives the first one's output and
      the headers as the first left them. */
  lemma {:induction false} TwoTransforms(env: Env, self: Value, data: Value, headers: Value, f: Func, g: Func)
    ensures var ctx := Context(env, self);
            var (c, h) := CallTransform(env, f, ctx, data, headers);
            TransformDataSpec(env, self, data, headers, Arr([Fn(f), Fn(g)])) ==
              if c.Throw? then (c, h) else CallTransform(env, g, ctx, c.value, h)
  {
    var ctx := Context(env, self);
    var step := StepWith(env, ctx);
    var vs := Utils.Visits(Arr([Fn(f), Fn(g)]));
    assert vs[0].0 == Fn(f) && vs[1..][0].0 == Fn(g) && vs[1..][1..] == [];
    var r := CallTransform(env, f, ctx, data, headers);
    assert step(Fn(f), data, headers) == r;
    if !r.0.Throw? {
      var r' := CallTransform(env, g, ctx, r.0.value, r.1);
      assert step(Fn(g), r.0.value, r.1) == r';
      assert Fold(step, r.0.value, r.1, vs[1..]) == (if r'.0.Throw? then r' else Fold(step, r'.0.value, r'.1, []));
    }
  }
}
