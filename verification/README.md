# Replication core of spacebox-nodejs-common

This project is a Dafny model of how a spacebox service keeps a local mirror of
the game world. The mirror is a map from entity id to entity. Four pieces change
it:

- **Patch engine** (`apply` in `src/state_merge.js` and `lib/state_merge.js`).
  A patch either deletes an entity (`tombstone === true`) or is deep-merged into
  it. A missing entity is first created as `{uuid: id}`.
- **Snapshot loads.** `src/state_merge.js` deep-merges one JSON snapshot into
  the store. `lib/state_merge.js` scans the `alive` set with `SSCAN`, fetches
  each batch with `MGET` and stores each object under its own `uuid`.
- **Tick delivery state machine** (`src/redis-state.js`).
  - Compressed tick messages are queued and fed, one at a time, into the store
    by a single worker. A worker is started, and reschedules itself, only while
    the world is loaded.
  - Each applied tick emits `worldtick` and `tick`, and sweeps the pending
    `wait_for_world_fn` waits.
  - `end` resets the world; a completed load sets it loaded again.
- **Older pipeline** (`lib/redis-state.js`).
  - The same queue and worker, without gating on the load: a worker run that
    takes a message before the snapshot is in parks until the load resolves.
  - A listener list with `addListener` and `removeListener`.

Modules and files:

| module (file) | contents |
|---|---|
| `Json` (json.dfy) | Parsed JSON values. `DeepMerge` is the assumed semantics of `deepMerge` from `spacebox-common`, whose source is not part of this model. `ToPropertyKey` gives the key `String(v)` that `storage[obj.uuid]` uses. |
| `StateMerge` (state_merge.dfy) | The `Store` object, `Apply` and the src snapshot load. |
| `TickMessages` (tick_message.dfy) | Decoded ticks, the fold of their changes, and the `deleted` record. |
| `ScanLoad` (scan_load.dfy) | The lib snapshot load. The Redis replies are an input sequence. |
| `WorldPromises` (world_promises.dfy) | Pending waits and their sweeps, as intended and as written. |
| `ClientApi` (client_api.dfy) | `queueChangeIn` validation and `get`, which both pipelines share. |
| `RedisState` (redis_state.dfy) | `StateClient`: the closure state of `src/redis-state.js` and its handlers. |
| `LegacyRedisState` (legacy_redis_state.dfy) | `LegacyClient`: the module state of `lib/redis-state.js`. |
| `Wrappers` (wrappers.dfy) | `Option` and `Result`. |

Environment inputs become parameters:

- The clock (`Date.now()`) is `now`. One value serves both reads within one tick.
- gunzip followed by `JSON.parse` is `decode: Blob -> Option<TickMessage>`.
- `C.assertUUID` is `isUuid`.
- A wait's JavaScript predicate is a total function from store contents to
  `undefined` or a value.

`process.nextTick(processMessage)` adds one to the field `scheduled`. The
environment runs a queued worker by calling `ProcessMessage`, which requires
`scheduled > 0`. Emitted events and settled wait promises are appended to
history fields (`events`, `settled`, `calls`, `ticks`).

The getters `loaded()`, `completedTick()` and `getAllKeys()` of
`src/redis-state.js` return a field unchanged. They are the fields
`worldLoaded`, `completedTick` and `storage.entries` of `StateClient`.

Invariants proved for the state machines:

- `StateClient.Serialized`: at most one worker is queued, `workerAlive` says
  whether it is, and after the load a non-empty queue always has a worker.
  Every handler except the as-written load completion preserves it.
- `LegacyClient.Valid`: the same one-worker invariant, where the worker may be
  parked on the load, and `currentTick` is the `ts` of the last applied tick.

## Model

| member | source | states |
|---|---|---|
| `Json.DeepMerge` | src/state_merge.js:18 | The assumed semantics of `deepMerge(src, dst)`: the result has the union of the keys. A field only `dst` has is kept. A `src` field overwrites unless both sides are objects, which are merged recursively with the union of their keys. |
| `Json.DeepMergeSelf` | src/state_merge.js:18 | Merging an object into itself changes nothing. |
| `Json.DeepMergeIdempotent` | src/state_merge.js:18 | Merging the same patch a second time has no further effect. |
| `Json.DeepMergeDisjointCommute` | src/state_merge.js:18 | Two patches with disjoint fields give the same object in either order. |
| `Json.NatToStringRoundTrip` | lib/state_merge.js:37 | The decimal form of a number that `String(obj.uuid)` writes reads back as that number. |
| `Json.NatToStringInjective` | lib/state_merge.js:37 | Different natural numbers have different decimal forms. |
| `Json.NumKeysDistinct` | lib/state_merge.js:37 | Two integer `uuid` values index the same property only when they are equal, so numeric ids never collide as keys. |
| `StateMerge.Applied` | src/state_merge.js:7-20 | After `apply`, a tombstone leaves exactly the old keys minus `uuid`, and any other patch leaves the old keys plus `uuid`. Every other entry is unchanged. The copy in lib/state_merge.js:7-20 is identical. |
| `StateMerge.TombstoneAbsentIsNoOp` | src/state_merge.js:8-9 | Tombstoning an absent key leaves the store unchanged. |
| `StateMerge.TombstoneIdempotent` | lib/state_merge.js:8-9 | Applying a tombstone twice equals applying it once. |
| `StateMerge.NonTombstoneMerges` | src/state_merge.js:10-19 | Any patch that is not `tombstone === true` takes the merge branch, including a `false` or non-boolean `tombstone`. The key is present afterwards. It holds the patch merged into the prior entity, or into `{uuid: key}` when the key was absent. Each patch field that is not merged recursively is the patch's value. |
| `StateMerge.CreatedEntryCarriesUuid` | lib/state_merge.js:11-18 | A created entry carries `uuid: key` unless the patch sets its own `uuid`. |
| `StateMerge.ApplyIdempotent` | src/state_merge.js:7-20 | Applying the same patch twice equals applying it once. |
| `StateMerge.AppliedElsewhere` | src/state_merge.js:7-20 | `apply` leaves the presence and value of every other key as they were. |
| `StateMerge.AppliedLocal` | src/state_merge.js:7-20 | What `apply` leaves at its own key depends only on what was stored there. |
| `StateMerge.ApplyDistinctKeysCommuteAt` | src/state_merge.js:7-20 | At every key, two patches for different ids give the same presence and value in either order. |
| `StateMerge.ApplyDistinctKeysCommute` | src/state_merge.js:7-20 | Patches for two different ids commute. |
| `StateMerge.ApplyKeepsKeysMatchUuid` | src/state_merge.js:11-18 | When every entry's `uuid` names its key and the patch does not rename the entity, that stays true after `apply`. |
| `StateMerge.Store.constructor` | src/redis-state.js:18 | A new store is empty. |
| `StateMerge.Apply` | src/state_merge.js:7-20 | Mutates the store in place to exactly `Applied` of the old contents. |
| `StateMerge.MergedSnapshotIdempotent` | src/state_merge.js:27-28 | `deepMerge(snapshot, storage)` (`MergedSnapshot`): loading the same snapshot a second time leaves the store as one load left it. |
| `StateMerge.MergedSnapshotKeepsKeysMatchUuid` | src/state_merge.js:27-28 | When every stored entry and every snapshot entry carries its own key as `uuid`, every entry after the load does too. |
| `StateMerge.SnapshotIntoEmptyStore` | src/state_merge.js:27-28 | Loading into an empty store yields the snapshot itself. |
| `StateMerge.LoadSnapshot` | src/state_merge.js:21-30 | A null reply is a no-op that succeeds. Text that does not parse fails and leaves storage alone. A parsed snapshot is merged into storage. |
| `TickMessages.ChangeKeysMentions` | src/redis-state.js:135 | `Object.keys(msg.changes)` (`ChangeKeys`) names exactly the ids some change of the tick targets. |
| `TickMessages.UnsweptKeyUnchanged` | src/redis-state.js:135-146 | An id missing from `Object.keys(msg.changes)` keeps its entry through the tick, so sweeping those keys covers every entity the tick changed. |
| `TickMessages.ApplyAllUntouched` | src/redis-state.js:136-146 | A tick leaves every entry it does not mention exactly as it was. |
| `TickMessages.ApplyAllOutcome` | src/redis-state.js:136-146 | With distinct ids, an id named in a tick is present afterwards exactly when its patch is not a tombstone. |
| `TickMessages.DeletedRecordsPrior` | src/redis-state.js:140-145 | For each tombstone in a tick, `deleted[uuid]` holds the value stored before the tick, which may be `undefined`. |
| `TickMessages.DeletedOnlyTombstones` | src/redis-state.js:140-143 | `deleted` has entries only for ids that a tombstone in the tick targets. |
| `TickMessages.SnapshotThenDelta` | src/redis-state.js:135-146 | Loading `{u1: {uuid: u1, hp: 10}}` into an empty store, as src/state_merge.js:27-28 does, and then applying the change `{u1: {hp: 5}}` in the tick loop leaves `{uuid: u1, hp: 5}`. |
| `ScanLoad.StoreEach` | lib/state_merge.js:35-39 | The `forEach` over one `MGET` reply runs to the end exactly when every value parses. |
| `ScanLoad.Consumed` | lib/state_merge.js:23-28 | The scan reads replies up to and including the first one whose cursor is 0, or all of them when the input ends first. It reads at least one reply when there is one. |
| `ScanLoad.ConsumedContinues` | lib/state_merge.js:27-28 | Every reply before the last one read has a positive cursor, which is why the scan went on. |
| `ScanLoad.SscanCursors` | lib/state_merge.js:23-28 | `SSCAN` is sent with cursor 0 first, then with each reply's positive cursor, once per reply read. |
| `ScanLoad.Fetches` | lib/state_merge.js:31-32 | `MGET` is sent only for non-empty member lists, and for every batch that has members. |
| `ScanLoad.StoreEachUntouched` | lib/state_merge.js:36-37 | A key that no loaded object names keeps its value and its presence. |
| `ScanLoad.StoreEachLastWins` | lib/state_merge.js:35-37 | An object the loop reaches is stored wholesale, and stays when no later parsed object in the batch names its key. This holds also when a later value fails to parse and the batch stops there. |
| `ScanLoad.StoreEachKeysMatchUuid` | lib/state_merge.js:36-37 | Objects whose `uuid` is a string keep every entry stored under its own `uuid`. |
| `ScanLoad.ScanUntouched` | lib/state_merge.js:21-47 | A key that no object in any scanned batch names is left untouched by the whole load. |
| `ScanLoad.StoreBatch` | lib/state_merge.js:33-39 | The loop over one `MGET` reply stores each object in order and stops at the first one that does not parse. The result is exactly `StoreEach`. |
| `ScanLoad.FetchBatch` | lib/state_merge.js:31-39 | A batch with members is fetched once and stored as `BatchEffect` says; an empty batch issues no fetch and changes nothing. |
| `ScanLoad.LoadFromRedis` | lib/state_merge.js:21-47 | The loop requests again only while the last reply's cursor is positive. The cursors sent, the member lists fetched and the final store are exactly `SscanCursors`, `Fetches` and `ScanEffect` of the replies read. The load fails when some value did not parse. |
| `WorldPromises.TickViewShowsEntity` | src/redis-state.js:69-70 | The one-key view `fake` (`OneKeyView`) a wait is re-checked on after a tick holds the changed entity as the tick left it. For an id the tick tombstoned, it holds the entity as it was before the tick, or nothing when there was none. |
| `WorldPromises.SweepKey` | src/redis-state.js:72-81 | As corrected, one key's sweep accounts for every wait: the kept and the settled together number exactly the waits it was given. |
| `WorldPromises.SweepKeyDropped` | src/redis-state.js:72-81 | A wait that one key's sweep drops was resolved (its result neither `undefined` nor `false`) or expired (`expires_at <= now`), and its settlement was made. |
| `WorldPromises.SweepKeyKeptWasKept` | src/redis-state.js:72-81 | A wait that survives one key's sweep was pending, and its predicate neither held nor had it expired. |
| `WorldPromises.SweepKeyRetains` | src/redis-state.js:72-81 | Every wait whose result is `undefined` or `false` and which has not expired (`Judge` is `Keep`) survives one key's sweep. |
| `WorldPromises.SweepKeySettles` | src/redis-state.js:72-81 | Every other wait is settled: resolved with its result, or rejected with `'timeout'`. |
| `WorldPromises.SweepKeys` | src/redis-state.js:66-83 | As corrected, the sweep over every changed key accounts for every wait: the kept and the settled together number exactly the waits it was given. |
| `WorldPromises.SweepKeysKeeps` | src/redis-state.js:66-83 | A wait that survives the whole sweep was pending before and was judged `Keep` on every changed key's view. |
| `WorldPromises.SweepKeysRetains` | src/redis-state.js:66-83 | A pending wait judged `Keep` on every changed key's view survives the whole sweep. |
| `WorldPromises.SweepKeysSettles` | src/redis-state.js:66-83 | A pending wait the sweep drops was settled on the view of some changed key: resolved with its result there, or rejected with `'timeout'`. |
| `WorldPromises.SweepAsWritten` | src/redis-state.js:72-81 | As written, `splice(i, 1)` inside `forEach`: the kept and the settled together number exactly the waits given. |
| `WorldPromises.AsWrittenKeptWasPending` | src/redis-state.js:72-81 | Every wait the as-written sweep leaves pending was pending before. |
| `WorldPromises.AsWrittenSettlesDropped` | src/redis-state.js:72-81 | Every wait the as-written sweep removes was resolved or expired, and its settlement was made. |
| `WorldPromises.SpliceSkipsNext` | src/redis-state.js:72-81 | Two waits that the same tick satisfies: as written the second stays pending, while the intended sweep resolves both. |
| `WorldPromises.AsWrittenKeepsWhatSweepKeeps` | src/redis-state.js:72-81 | The as-written sweep never drops a wait the intended one keeps; it can only leave extra waits pending. |
| `WorldPromises.SweepItemsAsWritten` | src/redis-state.js:68-82 | As written, over the elements of a `changes` array: the loop throws exactly when some element is `null`, and the waits kept and settled together number exactly the waits given. |
| `WorldPromises.ThrownSweepStops` | src/redis-state.js:68-82 | Once an element has thrown, the later elements of `changes` change nothing. |
| `WorldPromises.CheckAsWritten` | src/redis-state.js:65-84 | As written: the call throws exactly when waits are pending and `changes` is not an array, or is an array holding `null`. |
| `WorldPromises.ObjectChangesSettleNothing` | src/redis-state.js:65-84 | On the object `changes` that `onWorldTick` reads (src/redis-state.js:135-137), the as-written check throws whenever a wait is pending, and every wait stays pending, unsettled. |
| `ClientApi.QueueChangeIn` | src/redis-state.js:215-225 | A command is pushed exactly when the id passes the uuid check and the patch is an object or array with at least one key. Otherwise it throws before any push: `null` with a TypeError, and other cases with "invalid patch". lib/redis-state.js:94-104 is identical. |
| `ClientApi.GetAfterTick` | src/redis-state.js:242-246 | After a tick with distinct ids, `get` (`Get`) of a valid id the tick names returns `undefined` exactly when the tick tombstoned it. lib/redis-state.js:105-109 is identical. |
| `ClientApi.GetUntouchedByTick` | src/redis-state.js:242-246 | A tick does not change what `get` returns for an id it does not name. |
| `ClientApi.GetAfterReset` | src/redis-state.js:242-246 | After `end` replaces the store with `{}` (src/redis-state.js:176), `get` of any valid id returns `undefined`. |
| `RedisState.StateClient.constructor` | src/redis-state.js:13-18 | Starts with an empty queue and store, no waits, `completedTick` 0, not loaded and no worker. |
| `RedisState.StateClient.WaitForWorldFn` | src/redis-state.js:48-64 | When the predicate holds on the store, it resolves at once and registers nothing. Otherwise it appends exactly one wait that expires at `now + 500`. |
| `RedisState.SweepWaits` | src/redis-state.js:72-81 | As corrected: the loop over the waits for one key computes exactly `SweepKey`, its survivors in order and its settlements. |
| `RedisState.SweepEachKey` | src/redis-state.js:68-82 | As corrected: the loop over `Object.keys(msg.changes)` computes exactly `SweepKeys`. |
| `RedisState.StateClient.CheckWorldPromises` | src/redis-state.js:65-84 | As corrected: the `worldtick` listener leaves exactly `SweepKeys`' survivors over the tick's keys and appends its settlements. With no waits pending, it does nothing. |
| `RedisState.StateClient.CheckWorldPromisesAsWritten` | src/redis-state.js:65-84 | As written: the waits and settlements are exactly `CheckAsWritten`'s. With waits pending and object `changes`, it throws and leaves the waits and settlements unchanged. |
| `RedisState.SweepWaitsAsWritten` | src/redis-state.js:72-81 | As written: the loop that splices settled waits out while `forEach` moves on computes exactly `SweepAsWritten`. |
| `RedisState.SweepEachItemAsWritten` | src/redis-state.js:68-82 | As written: the loop over a `changes` array computes exactly `SweepItemsAsWritten`, stopping at the element that throws. |
| `RedisState.StateClient.ApplyChanges` | src/redis-state.js:132-146 | The change loop leaves the store at `ApplyAll` and builds `deleted` as `Deleted`. |
| `RedisState.StateClient.OnWorldTick` | src/redis-state.js:129-163 | Applies the tick and emits `worldtick` with `deleted`. Waits are swept by the corrected listener. Then `completedTick` is the message's `ts` and `tick` is emitted with the delay `now - ts`. |
| `RedisState.StateClient.OnMessage` | src/redis-state.js:185-193 | The blob always joins the end of the queue. A worker is queued, and `workerAlive` set, only when none is alive and the world is loaded. Preserves `Serialized`. |
| `RedisState.StateClient.HandleNext` | src/redis-state.js:94-105 | Removes the head of the queue. An empty queue or an undecodable blob changes nothing else. A decoded tick has exactly `OnWorldTick`'s effect, with the corrected sweep. |
| `RedisState.StateClient.ProcessMessage` | src/redis-state.js:94-118 | One worker run handles the head of the queue. Whether or not decoding failed, it requeues itself when the queue is non-empty and the world is loaded, and otherwise clears `workerAlive`. Preserves `Serialized`. |
| `RedisState.StateClient.OnEnd` | src/redis-state.js:174-183 | `end` clears `worldLoaded`, replaces storage with a new empty store, sets `completedTick` to 0 and emits `worldreset`. |
| `RedisState.StateClient.LoadComplete` | src/redis-state.js:202-213 | As corrected: the snapshot reply is merged into storage. On success the world is loaded, and a worker is queued (with `workerAlive` set) only when messages wait and none is alive. `worldloaded` is emitted and its listener (src/redis-state.js:257-259) empties the wait list. Preserves `Serialized`. |
| `RedisState.StateClient.LoadCompleteAsWritten` | src/redis-state.js:202-213 | As written: on success a worker is queued whenever messages wait, without looking at or setting `workerAlive`. |
| `RedisState.TickAfterReset` | src/redis-state.js:94-113 | A worker queued before `end` still runs after it: the world stays unloaded, the worker retires, and the store is the message applied to the fresh `{}`, with `completedTick` at the message's `ts`. |
| `RedisState.TwoWorkersAsWritten` | src/redis-state.js:185-213 | A message before the load, the load, then a second message: as written, two workers are queued at once. |
| `RedisState.OneWorkerCorrected` | src/redis-state.js:185-213 | The same run with the corrected load completion keeps exactly one worker. |
| `LegacyRedisState.IndexOf` | lib/redis-state.js:114 | `indexOf`: the first index holding the listener, or -1 exactly when it is absent. |
| `LegacyRedisState.SplicedAsWritten` | lib/redis-state.js:113-116 | As written: removing a registered listener is exactly `Removed`, one shorter. For an absent listener, `splice(-1, 1)` drops the last one. |
| `LegacyRedisState.RemoveAbsentDropsLast` | lib/redis-state.js:113-116 | Removing 9 from `[7, 8]` leaves `[7]` as written and `[7, 8]` as intended. |
| `LegacyRedisState.Removed` | lib/redis-state.js:113-116 | As intended: the first occurrence is removed and the rest keep their order. An absent listener changes nothing. The multiset loses exactly one copy of the listener. |
| `LegacyRedisState.RemoveUndoesAdd` | lib/redis-state.js:110-116 | Removing a listener just added, and not registered before, restores the list. |
| `LegacyRedisState.RemoveKeepsOthers` | lib/redis-state.js:113-116 | Removing one listener leaves every other listener registered. |
| `LegacyRedisState.LegacyClient.constructor` | lib/redis-state.js:8-35 | Starts with no listeners, `currentTick` undefined, an empty store and queue, and no worker. |
| `LegacyRedisState.LegacyClient.CurrentTick` | lib/redis-state.js:118-120 | `undefined` until a tick has been applied, then the `ts` of the last applied tick. |
| `LegacyRedisState.LegacyClient.AddListener` | lib/redis-state.js:110-112 | Appends the listener. |
| `LegacyRedisState.LegacyClient.RemoveListener` | lib/redis-state.js:113-116 | As corrected: the list becomes `Removed` of the old list. |
| `LegacyRedisState.LegacyClient.OnMessage` | lib/redis-state.js:55-63 | The payload joins the end of the queue. A worker is started only when none is alive, with no gating on the load. Preserves `Valid`. |
| `LegacyRedisState.LegacyClient.ApplyTick` | lib/redis-state.js:73-83 | Sets `currentTick` to `msg.ts`, applies every change with `apply` in key order, and calls every registered listener's `onWorldTick(msg)` once, in registration order (`Notified`). |
| `LegacyRedisState.LegacyClient.Finish` | lib/redis-state.js:41-49 | After a run, the worker requeues itself while the queue is non-empty, and otherwise clears `workerAlive`. |
| `LegacyRedisState.LegacyClient.ProcessMessage` | lib/redis-state.js:36-53 | A run removes the head of the queue. An unparsable message finishes the run at once. A parsed one is applied only if the world is loaded; otherwise the run parks with nothing applied. Preserves `Valid`. |
| `LegacyRedisState.LegacyClient.LoadWorld` | lib/redis-state.js:68-92 | The scan is stored. Only a successful load resolves `worldLoaded`. The parked message, if any, is then applied on top of the loaded store and its run finishes. A failed load applies nothing. Preserves `Valid`. |

## Left out

- `DeepMerge` is an assumption. `deepMerge` comes from `spacebox-common`, which is not part of this model. The model recurses on two objects and replaces everything else wholesale.
- JSON numbers are integers. Floating point is not modelled.
- `ToPropertyKey` writes only integers in decimal, not JavaScript's general number-to-string conversion.
- Patches, snapshot entries and loaded values are JSON objects. A `null` patch or loaded value throws at `patch.tombstone` or `obj.uuid`. A scalar one does not throw: a scalar patch goes down the merge branch (src/state_merge.js:8, 18), and a scalar loaded value is stored under `"undefined"` (lib/state_merge.js:36-37). Both are outside the model, except that a loaded `null` or unparsable value is `None`.
- Decoding (gunzip and `JSON.parse`) is a parameter. A message whose `ts` or `changes` has the wrong shape counts as undecodable.
- The Redis calls (`get`, `sscan`, `mget`, `rpush`, `subscribe`) are replaced by their replies or left out. `getP` and the push of `queueChangeIn` are left out.
- Tracing (WTF scopes), metrics (`logger.measure`, timers, `tickDelay`) and logging are left out.
- lib/pg-wrapper.js, main.js and src/main.js are not part of this model. They hold connection pools, client construction and interval timers.
- Promise and event plumbing is replaced by steps:
  - Q promises, `process.nextTick` and EventEmitter dispatch become explicit steps.
  - Listener promises (`h.onWorldTick`) are taken to settle at once.
  - An exception in a `worldtick` listener is caught and logged by `onWorldTick` (src/redis-state.js:150-154). `CheckWorldPromisesAsWritten` reports it as `threw`. `OnWorldTick` calls the corrected listener, which does not throw; no member runs `onWorldTick` with the as-written listener.
- `ScanLoad.LoadFromRedis` processes batches in order. In the source the recursive `SSCAN` and each `MGET` run concurrently under `Q.all`, so stores from different batches may interleave. When no key appears in two batches, the final store is the same.
- `RedisState.StateClient.LoadComplete` uses the store the client holds when the load completes. In the source, a load that straddles an `end` merges into the store object captured when the load started.
- In src, a failed load rethrows from `.done()` and ends the process. The model only reports `ok == false`.
- `RedisState.StateClient.OnWorldTick`: both `Date.now()` reads of one tick are the same `now`.
- `RedisState.StateClient.ProcessMessage` runs one worker step atomically. In the source, gunzip is asynchronous, so other handlers may interleave within a step.
- The getters `loaded()`, `completedTick()` and `getAllKeys()` are the fields of `StateClient`, not separate members. `wait_for_world(opts)` relies on `C.find`, which is not part of this model; its predicate is one more `WaitPredicate`.
- `WorldPromises.OneKeyView`: when neither the store nor `deleted` has the key, `fake` in src/redis-state.js:69-70 has the key with the value `undefined`, while the model's view is empty. A predicate that tests `key in data` could tell the two apart.
- `WorldPromises.SweepKey`: its own contract states only that the kept and the settled together number the waits given. Which waits are kept and which are settled is stated by `SweepKeyRetains`, `SweepKeyDropped` and `SweepKeyKeptWasKept`.
- `WorldPromises.SweepKeys`: its own contract states only the same count. Which waits are kept and which are settled is stated by `SweepKeysRetains`, `SweepKeysSettles` and `SweepKeysKeeps`.
- `WorldPromises.SweepAsWritten`: its own contract states only the count. `AsWrittenKeptWasPending`, `AsWrittenSettlesDropped`, `AsWrittenKeepsWhatSweepKeeps` and `SpliceSkipsNext` state which waits survive.
- `WorldPromises.StateKey` writes `state.key` with `ToPropertyKey`, so the limits of that function apply to an as-written array of changes.
- The following differ from what a reader might expect, and the model follows the code:
  - `completedTick` takes each tick's `ts` without a check that ticks move forward.
  - `end` neither clears the queue nor rejects pending waits.
  - `worldloaded` empties the wait list without settling the dropped promises.
  - Waits expire only when a tick sweeps them; there is no timer.
  - A worker queued before `end` still runs once after it (src/redis-state.js:94-113 reads `worldLoaded` only to reschedule). It applies its tick to the fresh empty store, sets `completedTick` to that tick's `ts` and emits `worldtick` and `tick` after `worldreset`, before any reload (`TickAfterReset`).

## Findings

| source | as written | input that shows it | evidently intended | confidence | as-written member | corrected member |
|---|---|---|---|---|---|---|
| src/redis-state.js:72-81 | `worldPromises.splice(i, 1)` inside `worldPromises.forEach`. The wait that moves into slot `i` is never visited. | Two pending waits whose predicates both hold on the changed key: the first is resolved and the second stays pending. This needs `changes` to be an array; with the object `changes` that `onWorldTick` passes, the throw of the next row comes first. | Every wait that holds is resolved, and every expired one is rejected, in one sweep. | not executed | `WorldPromises.SpliceSkipsNext` | `WorldPromises.SweepKey` |
| src/redis-state.js:68 | `msg.changes.forEach(state => ... state.key ...)`, while `onWorldTick` reads `changes` as an object keyed by uuid (src/redis-state.js:135-137). | Any tick while a wait is pending: `forEach` is not a function on the object, so the sweep throws. `onWorldTick` then logs it as a failed `worldtick` event. | Sweep over `Object.keys(msg.changes)`. | not executed | `WorldPromises.ObjectChangesSettleNothing` | `RedisState.StateClient.CheckWorldPromises` |
| lib/redis-state.js:113-116 | `listeners.splice(listeners.indexOf(l), 1)` | Listeners `[7, 8]`, removing 9: `indexOf` is -1 and `splice(-1, 1)` drops listener 8. | An absent listener changes nothing. | not executed | `LegacyRedisState.RemoveAbsentDropsLast` | `LegacyRedisState.Removed` |
| src/redis-state.js:207-208 | The load completion queues `processMessage` without checking or setting `workerAlive`. | A message before the load, the load completes, and a second message arrives before the worker runs: two workers are queued and process the queue concurrently. | Start a worker only when none is alive, and mark it alive. | not executed | `RedisState.TwoWorkersAsWritten` | `RedisState.OneWorkerCorrected` |
