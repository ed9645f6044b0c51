/**
 * The older pipeline of lib/redis-state.js.
 *
 * The module-level variables (`queue`, `listeners`, `currentTick`,
 * `worldStateStorage`), the `workerAlive` flag of `subscribe` and the
 * `worldLoaded` deferred of `loadWorld` become the fields of `LegacyClient`.
 * A worker run whose message is waiting on the still-pending `worldLoaded`
 * promise is parked in `held`; resolving the promise releases it. Each call of a
 * listener's `onWorldTick` is recorded in `calls`, and each applied tick in
 * `ticks`. `JSON.parse` of a blob is the parameter `decode`.
 */
module LegacyRedisState {
  import opened Json
  import opened Wrappers
  import opened StateMerge
  import opened TickMessages
  import opened ScanLoad

  /** A message as published on `worldstate`: uncompressed JSON text. */
  type Payload = string

  /** Listeners are compared by identity; an id stands for the object. */
  type Listener = nat

  /** One call `h.onWorldTick(msg)`. */
  datatype Call = Call(listener: Listener, msg: TickMessage)

  /** The calls `Q.all(listeners.map(h => h.onWorldTick(msg)))` makes, in order. */
  function Notified(listeners: seq<Listener>, msg: TickMessage): (r: seq<Call>)
    ensures |r| == |listeners|
    ensures forall i :: 0 <= i < |r| ==> r[i] == Call(listeners[i], msg)
  {
    seq(|listeners|, i requires 0 <= i < |listeners| => Call(listeners[i], msg))
  }

  /** `Array.prototype.indexOf`: the first index holding `x`, or -1. */
  function IndexOf(s: seq<Listener>, x: Listener): (r: int)
    ensures -1 <= r < |s|
    ensures r == -1 <==> x !in s
    ensures r >= 0 ==> s[r] == x && x !in s[..r]
    decreases |s|
  {
    if s == [] then -1
    else if s[0] == x then 0
    else
      var r := IndexOf(s[1..], x);
      assert x in s[1..] ==> x in s;
      assert x in s && x != s[0] ==> x in s[1..] by {
        if x in s && x != s[0] {
          var k :| 0 <= k < |s| && s[k] == x;
          assert s[1..][k - 1] == x;
        }
      }
      if r == -1 then -1
      else
        assert s[..r + 1] == [s[0]] + s[1..][..r];
        r + 1
  }

  /**
   * `listeners.splice(listeners.indexOf(l), 1)` AS WRITTEN: when `l` is not
   * registered the index is -1, and `splice(-1, 1)` removes the LAST element.
   */
  function SplicedAsWritten(listeners: seq<Listener>, l: Listener): (r: seq<Listener>)
    ensures l in listeners ==> r == Removed(listeners, l) && |r| == |listeners| - 1
    ensures l !in listeners && listeners != [] ==> r == listeners[..|listeners| - 1]
  {
    var i := IndexOf(listeners, l);
    if i >= 0 then listeners[..i] + listeners[i + 1..]
    else if listeners != [] then listeners[..|listeners| - 1]
    else listeners
  }

  /**
   * Removing a listener that was never added unregisters some other listener:
   * with `[7, 8]` registered, removing 9 leaves `[7]`.
   */
  lemma RemoveAbsentDropsLast()
    ensures SplicedAsWritten([7, 8], 9) == [7]
    ensures Removed([7, 8], 9) == [7, 8]
  {
    assert 9 !in [7, 8];
  }

  /**
   * `removeListener(l)` as intended: the first occurrence of `l` is removed and
   * the others keep their order; a listener that is not registered changes nothing.
   */
  function Removed(listeners: seq<Listener>, l: Listener): (r: seq<Listener>)
    ensures l !in listeners ==> r == listeners
    ensures l in listeners ==>
      var i := IndexOf(listeners, l);
      r == listeners[..i] + listeners[i + 1..]
    ensures multiset(r) == multiset(listeners) - multiset{l}
  {
    var i := IndexOf(listeners, l);
    if i < 0 then listeners
    else
      assert listeners == listeners[..i] + [l] + listeners[i + 1..];
      listeners[..i] + listeners[i + 1..]
  }

  /** Removing a listener just added, and never added before, restores the list. */
  lemma {:induction false} RemoveUndoesAdd(listeners: seq<Listener>, l: Listener)
    requires l !in listeners
    ensures Removed(listeners + [l], l) == listeners
  {
    var s := listeners + [l];
    assert s[|listeners|] == l;
    assert l !in s[..|listeners|] by {
      assert s[..|listeners|] == listeners;
    }
    assert IndexOf(s, l) == |listeners|;
    assert s[..|listeners|] == listeners;
  }

  /** Removing one listener leaves every other registration in place. */
  lemma {:induction false} RemoveKeepsOthers(listeners: seq<Listener>, l: Listener, m: Listener)
    requires m != l
    ensures m in Removed(listeners, l) <==> m in listeners
  {
    var r: seq<Listener> := Removed(listeners, l);
    assert m in r <==> m in multiset(r);
    assert m in listeners <==> m in multiset(listeners);
  }

  class LegacyClient {
    var queue: seq<Payload>
    var listeners: seq<Listener>
    var currentTick: Option<int>
    var storage: Store
    var workerAlive: bool
    /** Worker runs queued with `process.nextTick` and not yet run. */
    var scheduled: nat
    /** The message of the worker run parked on the `worldLoaded` promise. */
    var held: Option<TickMessage>
    /** Whether the `worldLoaded` deferred has been resolved. */
    var worldLoaded: bool
    var calls: seq<Call>
    var ticks: seq<TickMessage>

    /**
     * A single worker at a time: it is either queued or parked on the load,
     * `workerAlive` says whether it exists, a queued worker has a message to take,
     * and a non-empty queue always has a worker. A message is parked only while
     * the world is not loaded. `currentTick` is the `ts` of the last applied
     * tick, `undefined` before the first.
     */
    ghost predicate Valid()
      reads this
    {
      && scheduled + (if held.Some? then 1 else 0) == (if workerAlive then 1 else 0)
      && (scheduled > 0 ==> |queue| > 0)
      && (|queue| > 0 ==> workerAlive)
      && (held.Some? ==> !worldLoaded)
      && currentTick == (if ticks == [] then None else Some(ticks[|ticks| - 1].ts))
    }

    /** Module initialisation followed by `loadWorld()` subscribing its worker. */
    constructor()
      ensures fresh(storage) && storage.entries == map[]
      ensures queue == [] && listeners == [] && currentTick == None
      ensures !workerAlive && scheduled == 0 && held == None && !worldLoaded
      ensures calls == [] && ticks == []
      ensures Valid()
    {
      queue, listeners, currentTick := [], [], None;
      storage := new Store();
      workerAlive, scheduled, held, worldLoaded := false, 0, None, false;
      calls, ticks := [], [];
    }

    /** `currentTick()`: `undefined` until a tick is applied, then the last applied `ts`. */
    function CurrentTick(): (r: Option<int>)
      reads this
      requires Valid()
      ensures r.None? <==> ticks == []
      ensures r.Some? ==> r.value == ticks[|ticks| - 1].ts
    {
      currentTick
    }

    /** `addListener(l)`: appends. */
    method AddListener(l: Listener)
      modifies this`listeners
      ensures listeners == old(listeners) + [l]
    {
      listeners := listeners + [l];
    }

    /** `removeListener(l)`, removing the first registration of `l` if there is one. */
    method RemoveListener(l: Listener)
      modifies this`listeners
      ensures listeners == Removed(old(listeners), l)
    {
      var index := IndexOf(listeners, l);
      if index >= 0 {
        listeners := listeners[..index] + listeners[index + 1..];
      }
    }

    /**
     * The `message` handler: the payload always joins the end of the queue, and
     * a worker is queued only when none is alive, whether or not the world is
     * loaded.
     */
    method OnMessage(payload: Payload)
      modifies this`queue, this`workerAlive, this`scheduled
      ensures queue == old(queue) + [payload]
      ensures !old(workerAlive) ==> workerAlive && scheduled == old(scheduled) + 1
      ensures old(workerAlive) ==> workerAlive && scheduled == old(scheduled)
      ensures old(Valid()) ==> Valid()
    {
      queue := queue + [payload];
      if !workerAlive {
        workerAlive := true;
        scheduled := scheduled + 1;
      }
    }

    /**
     * The `then` callback of `loadWorld`'s handler: set `currentTick`, apply every
     * change in key order with `merge.apply`, and call each listener's
     * `onWorldTick` in registration order.
     */
    method ApplyTick(msg: TickMessage)
      modifies storage, this`currentTick, this`calls, this`ticks
      ensures currentTick == Some(msg.ts)
      ensures storage.entries == ApplyAll(old(storage.entries), msg.changes)
      ensures calls == old(calls) + Notified(listeners, msg)
      ensures ticks == old(ticks) + [msg]
    {
      currentTick := Some(msg.ts);
      var i := 0;
      while i < |msg.changes|
        invariant 0 <= i <= |msg.changes|
        invariant storage.entries == ApplyAll(old(storage.entries), msg.changes[..i])
        invariant currentTick == Some(msg.ts) && calls == old(calls) && ticks == old(ticks)
      {
        assert msg.changes[..i + 1][..i] == msg.changes[..i];
        Apply(storage, msg.changes[i].0, msg.changes[i].1);
        i := i + 1;
      }
      assert msg.changes[..i] == msg.changes;
      var j := 0;
      while j < |listeners|
        invariant 0 <= j <= |listeners|
        invariant calls == old(calls) + Notified(listeners[..j], msg)
        invariant storage.entries == ApplyAll(old(storage.entries), msg.changes)
        invariant currentTick == Some(msg.ts) && ticks == old(ticks)
      {
        assert Notified(listeners[..j + 1], msg) == Notified(listeners[..j], msg) + [Call(listeners[j], msg)];
        calls := calls + [Call(listeners[j], msg)];
        j := j + 1;
      }
      assert listeners[..j] == listeners;
      ticks := ticks + [msg];
    }

    /** The `fin` of a worker run: queue the next run while messages wait, else retire. */
    method Finish()
      modifies this`scheduled, this`workerAlive
      ensures |queue| > 0 ==> scheduled == old(scheduled) + 1 && workerAlive == old(workerAlive)
      ensures |queue| == 0 ==> scheduled == old(scheduled) && !workerAlive
    {
      if |queue| > 0 {
        scheduled := scheduled + 1;
      } else {
        workerAlive := false;
      }
    }

    /**
     * One run of `processMessage`: take the head of the queue and parse it (an
     * empty queue gives `undefined`, which does not parse). A message that does
     * not parse finishes the run at once. A parsed message is applied at once
     * when the world is loaded, and otherwise parks the run until the load
     * resolves; nothing is applied before then.
     */
    method ProcessMessage(decode: Payload -> Option<TickMessage>)
      requires scheduled > 0
      modifies this`queue, this`scheduled, this`workerAlive, this`held
      modifies storage, this`currentTick, this`calls, this`ticks
      ensures queue == if old(queue) == [] then [] else old(queue)[1..]
      ensures var m := if old(queue) == [] then None else decode(old(queue)[0]);
        && (m.None? || !worldLoaded ==>
          && storage.entries == old(storage.entries) && currentTick == old(currentTick)
          && calls == old(calls) && ticks == old(ticks))
        && (m.Some? && !worldLoaded ==> held == m && scheduled == old(scheduled) - 1)
        && (m.Some? && worldLoaded ==>
          && storage.entries == ApplyAll(old(storage.entries), m.value.changes)
          && currentTick == Some(m.value.ts)
          && calls == old(calls) + Notified(listeners, m.value)
          && ticks == old(ticks) + [m.value])
        && (m.None? || worldLoaded ==>
          && held == old(held)
          && (|queue| > 0 ==> scheduled == old(scheduled) && workerAlive == old(workerAlive))
          && (|queue| == 0 ==> scheduled == old(scheduled) - 1 && !workerAlive))
      ensures old(Valid()) ==> Valid()
    {
      scheduled := scheduled - 1;
      var m: Option<TickMessage> := None;
      if queue != [] {
        var payload := queue[0];
        queue := queue[1..];
        m := decode(payload);
      }
      if m.None? {
        Finish();
      } else if worldLoaded {
        ApplyTick(m.value);
        Finish();
      } else {
        held := m;
      }
    }

    /**
     * Completion of `merge.loadFromRedis(...)` in `loadWorld`: the scan is stored,
     * and when it succeeded the `worldLoaded` deferred is resolved, which applies
     * the parked message, if any, and lets its run finish. A failed load leaves
     * the deferred pending.
     */
    method LoadWorld(replies: seq<Batch>) returns (ok: bool)
      modifies storage, this`worldLoaded, this`held, this`scheduled, this`workerAlive
      modifies this`currentTick, this`calls, this`ticks
      ensures var load := ScanEffect(old(storage.entries), replies[..Consumed(replies)]);
        && ok == load.1
        && (!ok || old(held).None? ==> storage.entries == load.0)
        && (ok && old(held).Some? ==>
          && storage.entries == ApplyAll(load.0, old(held).value.changes)
          && currentTick == Some(old(held).value.ts)
          && calls == old(calls) + Notified(listeners, old(held).value)
          && ticks == old(ticks) + [old(held).value])
      ensures worldLoaded == (old(worldLoaded) || ok)
      ensures ok ==> held == None
      ensures !ok ==> held == old(held) && scheduled == old(scheduled) && workerAlive == old(workerAlive)
      ensures !ok || old(held).None? ==>
        currentTick == old(currentTick) && calls == old(calls) && ticks == old(ticks)
      ensures old(Valid()) ==> Valid()
    {
      var cursors, fetched;
      cursors, fetched, ok := LoadFromRedis(storage, replies);
      if ok {
        worldLoaded := true;
        if held.Some? {
          var msg := held.value;
          held := None;
          ApplyTick(msg);
          Finish();
        }
      }
    }
  }
}
