/**
 * The caller-facing checks both pipelines share: `queueChangeIn` validation and
 * `get` (identical in src/redis-state.js and lib/redis-state.js).
 *
 * `C.assertUUID` comes from `spacebox-common`, which is not part of this model:
 * it is the parameter `isUuid`, a predicate on ids, and a failing check throws.
 */
module ClientApi {
  import opened Json
  import opened Wrappers
  import opened StateMerge
  import opened TickMessages

  /** Why a call throws before doing any I/O. */
  datatype ApiError =
    | InvalidUuid     // C.assertUUID(uuid) throws
    | NullPatch       // typeof null is 'object', then Object.keys(null) throws a TypeError
    | InvalidPatch    // new Error("invalid patch")

  /** The envelope `{uuid, patch}` pushed onto the `commands` list. */
  datatype Command = Command(uuid: Key, patch: Value)

  /** `typeof v === 'object'` for a parsed value: objects, arrays and null. */
  predicate IsObjectTyped(v: Value) {
    v.Obj? || v.Arr? || v.Null?
  }

  /** `Object.keys(v).length` for a non-null object or array. */
  function KeyCount(v: Value): nat
    requires v.Obj? || v.Arr?
  {
    if v.Obj? then |v.fields| else |v.items|
  }

  /**
   * `queueChangeIn(uuid, patch)` up to the push: the id must pass the uuid check,
   * and the patch must be an object (an array counts) with at least one key.
   * On success, the command that is pushed; on failure nothing is pushed.
   */
  function QueueChangeIn(uuid: Key, patch: Value, isUuid: Key -> bool): (r: Result<Command, ApiError>)
    ensures r.Ok? <==> isUuid(uuid) && (patch.Obj? || patch.Arr?) && KeyCount(patch) > 0
    ensures r.Ok? ==> r.value == Command(uuid, patch)
    ensures !isUuid(uuid) ==> r == Err(InvalidUuid)
    ensures isUuid(uuid) && patch.Null? ==> r == Err(NullPatch)
    ensures isUuid(uuid) && (patch == Obj(map[]) || patch == Arr([]) || !IsObjectTyped(patch)) ==> r == Err(InvalidPatch)
  {
    if !isUuid(uuid) then Err(InvalidUuid)
    else if !IsObjectTyped(patch) then Err(InvalidPatch)
    else if patch.Null? then Err(NullPatch)
    else if KeyCount(patch) == 0 then Err(InvalidPatch)
    else Ok(Command(uuid, patch))
  }

  /** `get(uuid)`: the stored entity, `undefined` when absent; throws on an invalid id. */
  function Get(entries: Entries, uuid: Key, isUuid: Key -> bool): (r: Result<Option<Entity>, ApiError>)
    ensures r.Err? <==> !isUuid(uuid)
    ensures r.Ok? ==> (r.value.Some? <==> uuid in entries)
    ensures r.Ok? && r.value.Some? ==> r.value.value == entries[uuid]
  {
    if !isUuid(uuid) then Err(InvalidUuid)
    else if uuid in entries then Ok(Some(entries[uuid]))
    else Ok(None)
  }

  /**
   * After a tick with distinct ids, `get` of a valid id the tick names answers
   * `undefined` exactly when the tick tombstoned it, and the entity otherwise.
   */
  lemma GetAfterTick(ws: Entries, changes: seq<(Key, Patch)>, i: nat, isUuid: Key -> bool)
    requires DistinctKeys(changes) && i < |changes| && isUuid(changes[i].0)
    ensures var r := Get(ApplyAll(ws, changes), changes[i].0, isUuid);
      r.Ok? && (r.value.None? <==> IsTombstone(changes[i].1))
  {
    ApplyAllOutcome(ws, changes, i);
  }

  /** A tick does not change what `get` answers for an id it does not name. */
  lemma GetUntouchedByTick(ws: Entries, changes: seq<(Key, Patch)>, k: Key, isUuid: Key -> bool)
    requires !Mentions(changes, k)
    ensures Get(ApplyAll(ws, changes), k, isUuid) == Get(ws, k, isUuid)
  {
    ApplyAllUntouched(ws, changes, k);
  }

  /** After `end` replaces the store with `{}`, `get` of any valid id answers `undefined`. */
  lemma GetAfterReset(k: Key, isUuid: Key -> bool)
    requires isUuid(k)
    ensures Get(map[], k, isUuid) == Ok(None)
  {
  }
}
