/**
 * The tick delivery state machine of src/redis-state.js.
 *
 * The closure variables of the factory become the fields of `StateClient`; the
 * Redis event handlers (`message`, `end`, the completion of `loadFromRedis`) and
 * one run of the worker (`processMessage`, which calls `onWorldTick`) become
 * methods. `process.nextTick(self.processMessage)` adds one to `scheduled`, the
 * number of worker runs queued; the environment runs one by calling
 * `ProcessMessage`. Emitted events are appended to `events`, and the promises
 * of pending waits are settled into `settled`. The clock (`Date.now()`) is the
 * parameter `now`, and gunzip followed by `JSON.parse` is the parameter `decode`.
 */
module RedisState {
  import opened Json
  import opened Wrappers
  import opened StateMerge
  import opened TickMessages
  import opened WorldPromises

  /** A raw, still compressed message received on the `worldstate` channel. */
  type Blob = seq<bv8>

  /** Events emitted on `self.events`. */
  datatype Event =
    | WorldTick(msg: TickMessage, deleted: map<Key, Option<Entity>>)
    | Tick(ts: int, delay: int)
    | WorldLoaded
    | WorldReset

  class StateClient {
    var queue: seq<Blob>
    var worldPromises: seq<PendingWait>
    var completedTick: int
    var worldLoaded: bool
    var workerAlive: bool
    var storage: Store
    /** Worker runs queued with `process.nextTick` and not yet run. */
    var scheduled: nat
    var events: seq<Event>
    var settled: seq<Settlement>
    var nextWaitId: nat

    /**
     * At most one worker is ever queued, `workerAlive` says whether it is, and
     * once the world is loaded a non-empty queue always has a worker coming.
     */
    ghost predicate Serialized()
      reads this
    {
      && scheduled == (if workerAlive then 1 else 0)
      && (worldLoaded && |queue| > 0 ==> workerAlive)
    }

    /** The state the factory starts with. */
    constructor()
      ensures fresh(storage) && storage.entries == map[]
      ensures queue == [] && worldPromises == [] && completedTick == 0
      ensures !worldLoaded && !workerAlive && scheduled == 0
      ensures events == [] && settled == []
      ensures Serialized()
    {
      queue, worldPromises, completedTick := [], [], 0;
      worldLoaded, workerAlive, scheduled := false, false, 0;
      storage := new Store();
      events, settled, nextWaitId := [], [], 0;
    }

    /**
     * `wait_for_world_fn(fn)`: resolve at once when `fn` holds on the whole
     * store, otherwise register exactly one wait that expires 500 ms from now.
     */
    method WaitForWorldFn(fn: WaitPredicate, now: int) returns (reply: WaitReply)
      modifies this`worldPromises, this`nextWaitId
      ensures Satisfied(fn(storage.entries)) ==>
        && reply == Immediate(fn(storage.entries).v)
        && worldPromises == old(worldPromises)
        && nextWaitId == old(nextWaitId)
      ensures !Satisfied(fn(storage.entries)) ==>
        && reply == Registered(old(nextWaitId))
        && worldPromises == old(worldPromises) + [PendingWait(old(nextWaitId), fn, now + WaitTimeoutMs)]
        && nextWaitId == old(nextWaitId) + 1
    {
      var result := fn(storage.entries);
      if Satisfied(result) {
        reply := Immediate(result.v);
      } else {
        worldPromises := worldPromises + [PendingWait(nextWaitId, fn, now + WaitTimeoutMs)];
        reply := Registered(nextWaitId);
        nextWaitId := nextWaitId + 1;
      }
    }

    /**
     * `checkWorldPromises(msg, deleted)`, the `worldtick` listener: when waits
     * are pending, sweep them for each changed key on that key's one-key view,
     * resolving a wait whose predicate holds and rejecting an expired one with
     * `'timeout'`.
     */
    method CheckWorldPromises(keys: seq<Key>, deleted: map<Key, Option<Entity>>, now: int)
      modifies this`worldPromises, this`settled
      ensures var s := SweepKeys(old(worldPromises), keys, storage.entries, deleted, now);
        worldPromises == s.kept && settled == old(settled) + s.settled
    {
      if |worldPromises| > 0 {
        var s := SweepEachKey(worldPromises, keys, storage.entries, deleted, now);
        worldPromises := s.kept;
        settled := settled + s.settled;
      } else {
        var s := SweepKeys(worldPromises, keys, storage.entries, deleted, now);
        assert s.kept == [] && s.settled == [];
        assert settled + s.settled == settled;
      }
    }

    /**
     * `checkWorldPromises(msg, deleted)` AS WRITTEN, on the parsed `changes`
     * value: with waits pending it calls `changes.forEach`, which exists only
     * on an array and otherwise throws (`threw`) before any wait is looked at.
     * The throw reaches `onWorldTick`, which catches and logs it.
     */
    method CheckWorldPromisesAsWritten(changes: Value, deleted: map<Key, Option<Entity>>, now: int)
      returns (threw: bool)
      modifies this`worldPromises, this`settled
      ensures var r := CheckAsWritten(old(worldPromises), changes, storage.entries, deleted, now);
        && worldPromises == r.swept.kept
        && settled == old(settled) + r.swept.settled
        && threw == r.threw
      ensures |old(worldPromises)| > 0 && changes.Obj? ==>
        threw && worldPromises == old(worldPromises) && settled == old(settled)
    {
      threw := false;
      if |worldPromises| > 0 {
        if !changes.Arr? {
          threw := true;
        } else {
          var c := SweepEachItemAsWritten(worldPromises, changes.items, storage.entries, deleted, now);
          worldPromises := c.swept.kept;
          settled := settled + c.swept.settled;
          threw := c.threw;
        }
      }
      assert settled == old(settled) + CheckAsWritten(old(worldPromises), changes, storage.entries, deleted, now).swept.settled;
    }

    /**
     * The first half of `onWorldTick(msg)`: apply every change in key order,
     * recording in `deleted` the value each tombstoned id held just before its
     * patch was applied.
     */
    method ApplyChanges(changes: seq<(Key, Patch)>) returns (deleted: map<Key, Option<Entity>>)
      modifies storage
      ensures storage.entries == ApplyAll(old(storage.entries), changes)
      ensures deleted == Deleted(old(storage.entries), changes)
    {
      deleted := map[];
      var i := 0;
      while i < |changes|
        invariant 0 <= i <= |changes|
        invariant storage.entries == ApplyAll(old(storage.entries), changes[..i])
        invariant deleted == Deleted(old(storage.entries), changes[..i])
      {
        assert changes[..i + 1][..i] == changes[..i];
        var (uuid, patch) := changes[i];
        if IsTombstone(patch) {
          deleted := deleted[uuid := Lookup(storage.entries, uuid)];
        }
        Apply(storage, uuid, patch);
        i := i + 1;
      }
      assert changes[..i] == changes;
    }

    /**
     * `onWorldTick(msg)`: apply the changes, emit `worldtick` (whose listener
     * sweeps the pending waits), set `completedTick` to the message's `ts` and
     * emit `tick` with the delay `now - ts`.
     */
    method OnWorldTick(msg: TickMessage, now: int)
      modifies storage, this`worldPromises, this`settled, this`completedTick, this`events
      ensures storage.entries == ApplyAll(old(storage.entries), msg.changes)
      ensures var deleted := Deleted(old(storage.entries), msg.changes);
        var s := SweepKeys(old(worldPromises), ChangeKeys(msg.changes), storage.entries, deleted, now);
        && worldPromises == s.kept
        && settled == old(settled) + s.settled
        && events == old(events) + [WorldTick(msg, deleted), Tick(msg.ts, now - msg.ts)]
      ensures completedTick == msg.ts
    {
      var deleted := ApplyChanges(msg.changes);
      events := events + [WorldTick(msg, deleted)];
      CheckWorldPromises(ChangeKeys(msg.changes), deleted, now);
      completedTick := msg.ts;
      var delay := now - completedTick;
      events := events + [Tick(msg.ts, delay)];
    }

    /**
     * The `message` handler: the blob always joins the end of the queue; a
     * worker is queued, and `workerAlive` set, only when none is alive and the
     * world is loaded.
     */
    method OnMessage(blob: Blob)
      modifies this`queue, this`workerAlive, this`scheduled
      ensures queue == old(queue) + [blob]
      ensures !old(workerAlive) && worldLoaded ==> workerAlive && scheduled == old(scheduled) + 1
      ensures old(workerAlive) || !worldLoaded ==> workerAlive == old(workerAlive) && scheduled == old(scheduled)
      ensures old(Serialized()) ==> Serialized()
    {
      queue := queue + [blob];
      if !workerAlive && worldLoaded {
        workerAlive := true;
        scheduled := scheduled + 1;
      }
    }

    /**
     * The body of `processMessage` inside its promise chain: take the head of
     * the queue (an empty queue gives `undefined`, which fails like an
     * undecodable blob), decode it and hand it to `onWorldTick`. `m` is the
     * decoded message, `None` when that step failed and nothing was applied.
     */
    method HandleNext(decode: Blob -> Option<TickMessage>, now: int) returns (m: Option<TickMessage>)
      modifies this`queue, storage, this`worldPromises, this`settled, this`completedTick, this`events
      ensures queue == if old(queue) == [] then [] else old(queue)[1..]
      ensures m == if old(queue) == [] then None else decode(old(queue)[0])
      ensures m.None? ==>
        && storage.entries == old(storage.entries)
        && worldPromises == old(worldPromises) && settled == old(settled)
        && completedTick == old(completedTick) && events == old(events)
      ensures m.Some? ==>
        var deleted := Deleted(old(storage.entries), m.value.changes);
        var s := SweepKeys(old(worldPromises), ChangeKeys(m.value.changes), storage.entries, deleted, now);
        && storage.entries == ApplyAll(old(storage.entries), m.value.changes)
        && worldPromises == s.kept && settled == old(settled) + s.settled
        && completedTick == m.value.ts
        && events == old(events) + [WorldTick(m.value, deleted), Tick(m.value.ts, now - m.value.ts)]
    {
      m := None;
      if queue != [] {
        var content := queue[0];
        queue := queue[1..];
        m := decode(content);
        if m.Some? {
          OnWorldTick(m.value, now);
        }
      }
    }

    /**
     * One run of `processMessage`: handle the head of the queue; whether or not
     * that succeeded, queue the next run when the queue is non-empty and the
     * world is loaded, otherwise clear `workerAlive`.
     */
    method ProcessMessage(decode: Blob -> Option<TickMessage>, now: int) returns (m: Option<TickMessage>)
      requires scheduled > 0
      modifies this`queue, this`scheduled, this`workerAlive, storage
      modifies this`worldPromises, this`settled, this`completedTick, this`events
      ensures queue == if old(queue) == [] then [] else old(queue)[1..]
      ensures m == if old(queue) == [] then None else decode(old(queue)[0])
      ensures m.None? ==>
        && storage.entries == old(storage.entries)
        && worldPromises == old(worldPromises) && settled == old(settled)
        && completedTick == old(completedTick) && events == old(events)
      ensures m.Some? ==>
        var deleted := Deleted(old(storage.entries), m.value.changes);
        var s := SweepKeys(old(worldPromises), ChangeKeys(m.value.changes), storage.entries, deleted, now);
        && storage.entries == ApplyAll(old(storage.entries), m.value.changes)
        && worldPromises == s.kept && settled == old(settled) + s.settled
        && completedTick == m.value.ts
        && events == old(events) + [WorldTick(m.value, deleted), Tick(m.value.ts, now - m.value.ts)]
      ensures |queue| > 0 && worldLoaded ==> scheduled == old(scheduled) && workerAlive == old(workerAlive)
      ensures !(|queue| > 0 && worldLoaded) ==> scheduled == old(scheduled) - 1 && !workerAlive
      ensures old(Serialized()) ==> Serialized()
    {
      scheduled := scheduled - 1;
      m := HandleNext(decode, now);
      if |queue| > 0 && worldLoaded {
        scheduled := scheduled + 1;
      } else {
        workerAlive := false;
      }
    }

    /**
     * The `end` handler: the world is no longer loaded, storage is replaced by
     * a fresh empty store and `completedTick` returns to 0; `worldreset` is
     * emitted. The queue and the pending waits are left as they are.
     */
    method OnEnd()
      modifies this`worldLoaded, this`storage, this`completedTick, this`events
      ensures !worldLoaded && fresh(storage) && storage.entries == map[]
      ensures completedTick == 0
      ensures events == old(events) + [WorldReset]
      ensures old(Serialized()) ==> Serialized()
    {
      worldLoaded := false;
      storage := new Store();
      completedTick := 0;
      events := events + [WorldReset];
    }

    /**
     * Completion of `self.loadFromRedis()`: the snapshot reply is merged into
     * storage; on success the world is loaded, a worker is queued when messages
     * are waiting and none is alive, `worldloaded` is emitted, and its listener
     * empties the pending-wait list. A rejected load changes nothing else.
     */
    method LoadComplete(reply: SnapshotReply) returns (ok: bool)
      modifies storage, this`worldLoaded, this`workerAlive, this`scheduled, this`events, this`worldPromises
      ensures ok <==> !reply.Unparsable?
      ensures reply.Parsed? ==> storage.entries == MergedSnapshot(old(storage.entries), reply.snapshot)
      ensures !reply.Parsed? ==> storage.entries == old(storage.entries)
      ensures ok ==>
        && worldLoaded
        && events == old(events) + [WorldLoaded]
        && worldPromises == []
        && workerAlive == (old(workerAlive) || |queue| > 0)
        && scheduled == old(scheduled) + (if |queue| > 0 && !old(workerAlive) then 1 else 0)
      ensures !ok ==>
        && worldLoaded == old(worldLoaded) && workerAlive == old(workerAlive)
        && scheduled == old(scheduled) && events == old(events)
        && worldPromises == old(worldPromises)
      ensures old(Serialized()) ==> Serialized()
    {
      ok := LoadSnapshot(storage, reply);
      if ok {
        worldLoaded := true;
        if |queue| > 0 && !workerAlive {
          workerAlive := true;
          scheduled := scheduled + 1;
        }
        events := events + [WorldLoaded];
        worldPromises := [];
      }
    }

    /**
     * Completion of `self.loadFromRedis()` AS WRITTEN: when messages are
     * waiting it queues a worker without looking at or setting `workerAlive`.
     */
    method LoadCompleteAsWritten(reply: SnapshotReply) returns (ok: bool)
      modifies storage, this`worldLoaded, this`scheduled, this`events, this`worldPromises
      ensures ok <==> !reply.Unparsable?
      ensures reply.Parsed? ==> storage.entries == MergedSnapshot(old(storage.entries), reply.snapshot)
      ensures !reply.Parsed? ==> storage.entries == old(storage.entries)
      ensures ok ==>
        && worldLoaded
        && events == old(events) + [WorldLoaded]
        && worldPromises == []
        && scheduled == old(scheduled) + (if |queue| > 0 then 1 else 0)
      ensures !ok ==>
        && worldLoaded == old(worldLoaded) && scheduled == old(scheduled)
        && events == old(events) && worldPromises == old(worldPromises)
    {
      ok := LoadSnapshot(storage, reply);
      if ok {
        worldLoaded := true;
        if |queue| > 0 {
          scheduled := scheduled + 1;
        }
        events := events + [WorldLoaded];
        worldPromises := [];
      }
    }
  }

  /**
   * The inner `worldPromises.forEach` of `checkWorldPromises` for one changed
   * key, as intended: every wait is judged once and either kept, in order, or
   * settled.
   */
  method SweepWaits(waits: seq<PendingWait>, view: Entries, now: int) returns (r: Swept)
    ensures r == SweepKey(waits, view, now)
  {
    var kept: seq<PendingWait> := [];
    var made: seq<Settlement> := [];
    var j := 0;
    while j < |waits|
      invariant 0 <= j <= |waits|
      invariant Swept(kept, made) == SweepKey(waits[..j], view, now)
    {
      assert waits[..j + 1][..j] == waits[..j];
      var w := waits[j];
      var result := w.fn(view);
      if Satisfied(result) {
        made := made + [Resolved(w.id, result.v)];
      } else if w.expiresAt <= now {
        made := made + [Rejected(w.id, TimeoutReason)];
      } else {
        kept := kept + [w];
      }
      j := j + 1;
    }
    assert waits[..j] == waits;
    r := Swept(kept, made);
  }

  /** The outer `msg.changes.forEach` of `checkWorldPromises`: one key's sweep after another. */
  method SweepEachKey(waits: seq<PendingWait>, keys: seq<Key>, store: Entries,
                      deleted: map<Key, Option<Entity>>, now: int) returns (r: Swept)
    ensures r == SweepKeys(waits, keys, store, deleted, now)
  {
    r := Swept(waits, []);
    var i := 0;
    while i < |keys|
      invariant 0 <= i <= |keys|
      invariant r == SweepKeys(waits, keys[..i], store, deleted, now)
    {
      SweepKeysStep(waits, keys, store, deleted, now, i);
      var s := SweepWaits(r.kept, OneKeyView(store, deleted, keys[i]), now);
      r := Swept(s.kept, r.settled + s.settled);
      i := i + 1;
    }
    assert keys[..i] == keys;
  }

  /**
   * The inner `worldPromises.forEach((pair, i) => ...)` AS WRITTEN: a settled
   * wait is removed with `splice(i, 1)` and the loop goes on at `i + 1` of the
   * shortened list, as `forEach` does.
   */
  method SweepWaitsAsWritten(waits: seq<PendingWait>, view: Entries, now: int) returns (r: Swept)
    ensures r == SweepAsWritten(waits, view, now, 0)
  {
    var list := waits;
    var made: seq<Settlement> := [];
    var i := 0;
    while i < |list|
      invariant 0 <= i <= |list| + 1
      invariant var rest := SweepAsWritten(list, view, now, i);
        Swept(rest.kept, made + rest.settled) == SweepAsWritten(waits, view, now, 0)
      decreases |list| - i
    {
      var w := list[i];
      var result := w.fn(view);
      if Satisfied(result) {
        made := made + [Resolved(w.id, result.v)];
        list := list[..i] + list[i + 1..];
      } else if w.expiresAt <= now {
        made := made + [Rejected(w.id, TimeoutReason)];
        list := list[..i] + list[i + 1..];
      }
      i := i + 1;
    }
    r := Swept(list, made);
  }

  /**
   * The outer `msg.changes.forEach(state => ...)` AS WRITTEN over a `changes`
   * array: each element's key gets the as-written sweep, and the loop ends at
   * the first element whose `key` cannot be read.
   */
  method SweepEachItemAsWritten(waits: seq<PendingWait>, items: seq<Value>, store: Entries,
                                deleted: map<Key, Option<Entity>>, now: int) returns (r: Checked)
    ensures r == SweepItemsAsWritten(waits, items, store, deleted, now)
  {
    r := Checked(Swept(waits, []), false);
    var i := 0;
    while i < |items| && !r.threw
      invariant 0 <= i <= |items|
      invariant r == SweepItemsAsWritten(waits, items[..i], store, deleted, now)
    {
      assert items[..i + 1][..i] == items[..i];
      var key := StateKey(items[i]);
      if key.None? {
        r := Checked(r.swept, true);
      } else {
        var s := SweepWaitsAsWritten(r.swept.kept, OneKeyView(store, deleted, key.value), now);
        r := Checked(Swept(s.kept, r.swept.settled + s.settled), false);
      }
      i := i + 1;
    }
    if i < |items| {
      ThrownSweepStops(waits, items, store, deleted, now, i);
    } else {
      assert items[..i] == items;
    }
  }

  /**
   * A worker queued before `end` still runs after it: a message arrives, the
   * load completes and queues a worker, the connection ends, and the worker
   * then applies the message to the fresh empty store and moves
   * `completedTick` to its `ts`, while the world is not loaded.
   */
  method TickAfterReset(blob: Blob, decode: Blob -> Option<TickMessage>, now: int)
    returns (entries: Entries, completed: int, loaded: bool, alive: bool)
    ensures !loaded && !alive
    ensures decode(blob).Some? ==>
      entries == ApplyAll(map[], decode(blob).value.changes) && completed == decode(blob).value.ts
    ensures decode(blob).None? ==> entries == map[] && completed == 0
  {
    var client := new StateClient();
    client.OnMessage(blob);
    var ok := client.LoadComplete(Missing);
    client.OnEnd();
    var m := client.ProcessMessage(decode, now);
    entries, completed := client.storage.entries, client.completedTick;
    loaded, alive := client.worldLoaded, client.workerAlive;
  }

  /**
   * A run of the source's handlers that queues two workers at once: a message
   * arrives before the snapshot, the load completes and queues a worker without
   * setting `workerAlive`, and a second message then queues another.
   */
  method TwoWorkersAsWritten() returns (workers: nat, alive: bool)
    ensures workers == 2 && alive
  {
    var client := new StateClient();
    client.OnMessage([1]);
    var ok := client.LoadCompleteAsWritten(Missing);
    client.OnMessage([2]);
    workers, alive := client.scheduled, client.workerAlive;
  }

  /** The same run with the corrected load completion keeps a single worker. */
  method OneWorkerCorrected() returns (workers: nat, alive: bool)
    ensures workers == 1 && alive
  {
    var client := new StateClient();
    client.OnMessage([1]);
    var ok := client.LoadComplete(Missing);
    client.OnMessage([2]);
    workers, alive := client.scheduled, client.workerAlive;
  }
}
