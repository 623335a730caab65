/** src/core/InterceptorManager.js: the registry of request or response
    interceptors. Handles are array indices; ejecting leaves a null slot, so
    the array never shrinks and a handle is never reused. */
module Interceptors {
  import opened JsValue

  /** The object `use` pushes. */
  datatype Interceptor = Interceptor(fulfilled: Value, rejected: Value, synchronous: Value, runWhen: Value)

  /** A slot of `handlers`: an interceptor, or null once ejected. */
  type Slot = Option<Interceptor>

  /** The entry `use(fulfilled, rejected, options)` pushes: without options,
      synchronous is false and runWhen is null. */
  function MakeInterceptor(fulfilled: Value, rejected: Value, options: Value): (h: Interceptor)
    ensures !Truthy(options) ==> h.synchronous == Bool(false) && h.runWhen == Null
    ensures Truthy(options) ==> h.synchronous == Prop(options, "synchronous") && h.runWhen == Prop(options, "runWhen")
    ensures h.fulfilled == fulfilled && h.rejected == rejected
  {
    Interceptor(fulfilled, rejected,
                if Truthy(options) then Prop(options, "synchronous") else Bool(false),
                if Truthy(options) then Prop(options, "runWhen") else Null)
  }

  /** The slots after `eject(id)`: `handlers[id]` is truthy only for an index
      in range whose slot holds an interceptor. */
  function EjectSpec(hs: seq<Slot>, id: int): (r: seq<Slot>)
    ensures |r| == |hs|
  {
    if 0 <= id < |hs| && hs[id].Some? then hs[id := None] else hs
  }

  /** The interceptors forEach hands to its callback, in index order. */
  function Live(hs: seq<Slot>): seq<Interceptor>
  {
    if hs == [] then []
    else Live(hs[..|hs| - 1]) + (match hs[|hs| - 1] case Some(h) => [h] case None => [])
  }

  /** The indices of the live slots, in increasing order. */
  function LiveIndices(hs: seq<Slot>): (ix: seq<nat>)
    ensures |ix| == |Live(hs)|
    ensures forall i :: 0 <= i < |ix| ==> ix[i] < |hs| && hs[ix[i]] == Some(Live(hs)[i])
    ensures forall i, j :: 0 <= i < j < |ix| ==> ix[i] < ix[j]
    ensures forall n: nat :: n in ix <==> n < |hs| && hs[n].Some?
  {
    if hs == [] then []
    else
      var rest := LiveIndices(hs[..|hs| - 1]);
      IndicesSnoc(hs, rest);
      rest + (if hs[|hs| - 1].Some? then [|hs| - 1] else [])
  }

  /** LiveIndices' contract carries over from the slots before the last. */
  lemma {:induction false} IndicesSnoc(hs: seq<Slot>, rest: seq<nat>)
    requires hs != []
    requires var init := hs[..|hs| - 1];
             |rest| == |Live(init)| &&
             (forall i :: 0 <= i < |rest| ==> rest[i] < |init| && init[rest[i]] == Some(Live(init)[i])) &&
             (forall i, j :: 0 <= i < j < |rest| ==> rest[i] < rest[j]) &&
             (forall n: nat :: n in rest <==> n < |init| && init[n].Some?)
    ensures var ix := rest + (if hs[|hs| - 1].Some? then [|hs| - 1] else []);
            |ix| == |Live(hs)| &&
            (forall i :: 0 <= i < |ix| ==> ix[i] < |hs| && hs[ix[i]] == Some(Live(hs)[i])) &&
            (forall i, j :: 0 <= i < j < |ix| ==> ix[i] < ix[j]) &&
            (forall n: nat :: n in ix <==> n < |hs| && hs[n].Some?)
  {
    var init := hs[..|hs| - 1];
    var last := |hs| - 1;
    assert forall n: nat :: n < |init| ==> init[n] == hs[n];
    assert Live(hs) == Live(init) + (match hs[last] case Some(h) => [h] case None => []);
    if hs[last].Some? {
      var ix := rest + [last];
      forall i | 0 <= i < |ix| ensures ix[i] < |hs| && hs[ix[i]] == Some(Live(hs)[i]) {
        if i < |rest| {
          assert ix[i] == rest[i] && Live(hs)[i] == Live(init)[i];
        }
      }
      forall n: nat ensures n in ix <==> n < |hs| && hs[n].Some? {
        assert n in ix <==> n in rest || n == last;
      }
    } else {
      assert rest + [] == rest;
      assert Live(hs) == Live(init);
    }
  }

  class InterceptorManager {
    var handlers: seq<Slot>

    constructor()
      ensures handlers == []
    {
      handlers := [];
    }

    /** Registers an interceptor and returns its handle, the previous length. */
    method Use(fulfilled: Value, rejected: Value, options: Value) returns (id: nat)
      modifies this
      ensures handlers == old(handlers) + [Some(MakeInterceptor(fulfilled, rejected, options))]
      ensures id == |old(handlers)| && handlers[id] == Some(MakeInterceptor(fulfilled, rejected, options))
    {
      handlers := handlers + [Some(MakeInterceptor(fulfilled, rejected, options))];
      id := |handlers| - 1;
    }

    /** Removes an interceptor, leaving a null slot. */
    method Eject(id: int)
      modifies this
      ensures handlers == EjectSpec(old(handlers), id)
    {
      if 0 <= id < |handlers| && handlers[id].Some? {
        handlers := handlers[id := None];
      }
    }

    /** The loop of forEach: the callback's argument at each live slot. */
    method ForEach() returns (visited: seq<Interceptor>)
      ensures visited == Live(handlers)
    {
      visited := [];
      var i := 0;
      while i < |handlers|
        invariant 0 <= i <= |handlers|
        invariant visited == Live(handlers[..i])
      {
        assert handlers[..i + 1][..i] == handlers[..i];
        match handlers[i] {
          case Some(h) => visited := visited + [h];
          case None =>
        }
        i := i + 1;
      }
      assert handlers[..i] == handlers;
    }
  }

  /** Ejecting changes at most the given slot, and only to null. */
  lemma {:induction false} EjectOthers(hs: seq<Slot>, id: int)
    ensures var r := EjectSpec(hs, id);
            (forall j :: 0 <= j < |hs| && j != id ==> r[j] == hs[j]) &&
            (0 <= id < |hs| ==> r[id] == None)
  {
  }

  /** Ejecting an out-of-range or already ejected handle does nothing, so
      ejecting twice is ejecting once. */
  lemma {:induction false} EjectIdempotent(hs: seq<Slot>, id: int)
    ensures !(0 <= id < |hs| && hs[id].Some?) ==> EjectSpec(hs, id) == hs
    ensures EjectSpec(EjectSpec(hs, id), id) == EjectSpec(hs, id)
  {
  }

  /** A registered interceptor is the last one visited. */
  lemma {:induction false} LiveAppend(hs: seq<Slot>, h: Interceptor)
    ensures Live(hs + [Some(h)]) == Live(hs) + [h]
  {
    assert (hs + [Some(h)])[..|hs|] == hs;
  }

  /** Ejecting a live handle removes exactly that interceptor from the visit
      list: the visits are the live slots, in index order, without it. */
  lemma {:induction false} EjectRemovesOne(hs: seq<Slot>, id: int)
    requires 0 <= id < |hs| && hs[id].Some?
    ensures id !in LiveIndices(EjectSpec(hs, id)) && id in LiveIndices(hs)
    ensures |Live(EjectSpec(hs, id))| == |Live(hs)| - 1
  {
    var r := EjectSpec(hs, id);
    LiveCount(hs);
    LiveCount(r);
    CountSplit(hs, id);
    CountSplit(r, id);
    assert r[..id] == hs[..id] && r[id + 1..] == hs[id + 1..];
  }

  /** The number of live slots. */
  function Count(hs: seq<Slot>): nat
  {
    if hs == [] then 0 else Count(hs[..|hs| - 1]) + (if hs[|hs| - 1].Some? then 1 else 0)
  }

  lemma {:induction false} LiveCount(hs: seq<Slot>)
    ensures |Live(hs)| == Count(hs)
  {
    if hs != [] {
      LiveCount(hs[..|hs| - 1]);
    }
  }

  lemma {:induction false} CountConcat(a: seq<Slot>, b: seq<Slot>)
    ensures Count(a + b) == Count(a) + Count(b)
    decreases |b|
  {
    if b == [] {
      assert a + b == a;
    } else {
      assert (a + b)[..|a + b| - 1] == a + b[..|b| - 1];
      CountConcat(a, b[..|b| - 1]);
    }
  }

  lemma {:induction false} CountSplit(hs: seq<Slot>, id: nat)
    requires id < |hs|
    ensures Count(hs) == Count(hs[..id]) + (if hs[id].Some? then 1 else 0) + Count(hs[id + 1..])
  {
    var pre, mid, post := hs[..id], [hs[id]], hs[id + 1..];
    assert hs == (pre + mid) + post;
    CountConcat(pre + mid, post);
    CountConcat(pre, mid);
    assert mid[..0] == [];
    assert Count(mid) == Count(mid[..0]) + (if hs[id].Some? then 1 else 0);
  }

  // ---------------------------------------------------------------------
  // Handles over a sequence of calls
  // ---------------------------------------------------------------------

  /** A call on the registry. */
  datatype Call = UseCall(fulfilled: Value, rejected: Value, options: Value) | EjectCall(id: int)

  /** The interceptor a `use` call pushes. */
  function Registered(c: Call): Interceptor
    requires c.UseCall?
  {
    MakeInterceptor(c.fulfilled, c.rejected, c.options)
  }

  /** The number of `use` calls in a sequence of calls. */
  function Uses(calls: seq<Call>): nat
  {
    if calls == [] then 0
    else Uses(calls[..|calls| - 1]) + (if calls[|calls| - 1].UseCall? then 1 else 0)
  }

  /** The slots after a sequence of calls on a fresh registry. */
  function Replay(calls: seq<Call>): (hs: seq<Slot>)
    ensures |hs| == Uses(calls)
  {
    if calls == [] then []
    else
      var hs := Replay(calls[..|calls| - 1]);
      match calls[|calls| - 1]
      case UseCall(_, _, _) => hs + [Some(Registered(calls[|calls| - 1]))]
      case EjectCall(id) => EjectSpec(hs, id)
  }

  /** The handles `use` returned during a sequence of calls, in order: each
      is the length of `handlers` before that push, as `Use` returns it. */
  function Handles(calls: seq<Call>): seq<nat>
  {
    if calls == [] then []
    else
      var init := calls[..|calls| - 1];
      match calls[|calls| - 1]
      case UseCall(_, _, _) => Handles(init) + [|Replay(init)|]
      case EjectCall(_) => Handles(init)
  }

  /** The handles are 0, 1, 2, ... in order, whatever was ejected in
      between: no handle is ever returned twice. */
  lemma {:induction false} HandlesConsecutive(calls: seq<Call>)
    ensures |Handles(calls)| == Uses(calls)
    ensures forall i :: 0 <= i < |Handles(calls)| ==> Handles(calls)[i] == i
  {
    if calls != [] {
      var init := calls[..|calls| - 1];
      HandlesConsecutive(init);
      var before := Handles(init);
      var u := Handles(calls);
      if calls[|calls| - 1].UseCall? {
        assert u == before + [|Replay(init)|];
        forall i | 0 <= i < |u| ensures u[i] == i {
          if i < |before| { assert u[i] == before[i]; } else { assert u[i] == |Replay(init)|; }
        }
      } else {
        assert u == before;
      }
    }
  }

  /** The handle a `use` call returns indexes the slot holding the
      interceptor it registered. */
  lemma {:induction false} HandleIndexes(calls: seq<Call>, k: nat)
    requires k < |calls| && calls[k].UseCall?
    ensures var id := |Replay(calls[..k])|;
            Handles(calls[..k + 1]) == Handles(calls[..k]) + [id] &&
            id < |Replay(calls[..k + 1])| && Replay(calls[..k + 1])[id] == Some(Registered(calls[k]))
  {
    var pre := calls[..k + 1];
    assert pre[..|pre| - 1] == calls[..k];
    assert Handles(pre) == Handles(calls[..k]) + [|Replay(calls[..k])|];
  }

  /** A slot of a handle `use` returned holds that interceptor until the
      handle is ejected; ejecting other handles never touches it. */
  lemma {:induction false} SlotKept(calls: seq<Call>, k: nat, id: nat)
    requires k < |calls| && calls[k].UseCall?
    requires id == |Replay(calls[..k])|
    requires forall j :: k < j < |calls| ==> calls[j] != EjectCall(id)
    ensures id < |Replay(calls)| && Replay(calls)[id] == Some(Registered(calls[k]))
    decreases |calls|
  {
    if |calls| - 1 == k {
      assert calls[..|calls| - 1] == calls[..k];
    } else {
      var init := calls[..|calls| - 1];
      assert init[..k] == calls[..k];
      SlotKept(init, k, id);
    }
  }

  /** A fresh registry driven through a sequence of calls: its slots are
      `Replay(calls)` and the handles `Use` returned are `Handles(calls)`. */
  method Drive(calls: seq<Call>) returns (m: InterceptorManager, ids: seq<nat>)
    ensures fresh(m)
    ensures m.handlers == Replay(calls) && ids == Handles(calls)
  {
    m := new InterceptorManager();
    ids := [];
    var i := 0;
    while i < |calls|
      invariant 0 <= i <= |calls|
      invariant m.handlers == Replay(calls[..i]) && ids == Handles(calls[..i])
    {
      assert calls[..i + 1][..i] == calls[..i];
      match calls[i] {
        case UseCall(fulfilled, rejected, options) =>
          var id := m.Use(fulfilled, rejected, options);
          ids := ids + [id];
        case EjectCall(id) =>
          m.Eject(id);
      }
      i := i + 1;
    }
    assert calls[..i] == calls;
  }
}
