/**
 * The patch engine (`apply` in src/state_merge.js and lib/state_merge.js, whose
 * two copies are identical) and the single-key snapshot load of
 * src/state_merge.js.
 *
 * The store is the JavaScript object `ws` that both functions mutate in place:
 * a `Store` object whose `entries` map the methods reassign.
 */
module StateMerge {
  import opened Json

  /** An entity id (a property key of the store object). */
  type Key = string

  /** An entity: a JSON object. */
  type Entity = Fields

  /** A patch: the JSON object sent for one entity id. */
  type Patch = Fields

  /** The contents of a store. */
  type Entries = map<Key, Entity>

  /** `patch.tombstone === true`: only the boolean `true` deletes. */
  predicate IsTombstone(patch: Patch) {
    "tombstone" in patch && patch["tombstone"] == Bool(true)
  }

  /** The object a missing entry is created as before the patch is merged. */
  function Seed(uuid: Key): Entity {
    map["uuid" := Str(uuid)]
  }

  /** Store invariant: every entry's `uuid` field names the key it is stored under. */
  ghost predicate KeysMatchUuid(ws: Entries) {
    forall k :: k in ws ==> "uuid" in ws[k] && ws[k]["uuid"] == Str(k)
  }

  /** The store after `apply(ws, uuid, patch)`. */
  function Applied(ws: Entries, uuid: Key, patch: Patch): (r: Entries)
    ensures IsTombstone(patch) ==> r.Keys == ws.Keys - {uuid}
    ensures !IsTombstone(patch) ==> r.Keys == ws.Keys + {uuid}
    ensures forall k :: k in ws && k != uuid ==> r[k] == ws[k]
  {
    if IsTombstone(patch) then ws - {uuid}
    else
      var prior := if uuid in ws then ws[uuid] else Seed(uuid);
      ws[uuid := DeepMerge(patch, prior)]
  }

  /** A tombstone for an absent key leaves the store as it was. */
  lemma TombstoneAbsentIsNoOp(ws: Entries, uuid: Key, patch: Patch)
    requires IsTombstone(patch) && uuid !in ws
    ensures Applied(ws, uuid, patch) == ws
  {
  }

  /** Applying a tombstone twice is the same as applying it once. */
  lemma TombstoneIdempotent(ws: Entries, uuid: Key, patch: Patch)
    requires IsTombstone(patch)
    ensures Applied(Applied(ws, uuid, patch), uuid, patch) == Applied(ws, uuid, patch)
  {
  }

  /**
   * A patch that is not `tombstone === true` (no field, `false`, or any other
   * value) merges: the key is present afterwards and holds the patch merged
   * into the prior entity, or into `{uuid: uuid}` when there was none.
   */
  lemma NonTombstoneMerges(ws: Entries, uuid: Key, patch: Patch)
    requires !IsTombstone(patch)
    ensures var r := Applied(ws, uuid, patch);
      && uuid in r
      && (uuid in ws ==> r[uuid] == DeepMerge(patch, ws[uuid]))
      && (uuid !in ws ==> r[uuid] == DeepMerge(patch, Seed(uuid)))
      && (forall f :: f in patch && !(f in r[uuid] && patch[f].Obj? && r[uuid][f].Obj?) ==> r[uuid][f] == patch[f])
  {
  }

  /** A created entry keeps the seeded `uuid` unless the patch itself sets one. */
  lemma CreatedEntryCarriesUuid(ws: Entries, uuid: Key, patch: Patch)
    requires !IsTombstone(patch) && uuid !in ws && "uuid" !in patch
    ensures var r := Applied(ws, uuid, patch);
      uuid in r && "uuid" in r[uuid] && r[uuid]["uuid"] == Str(uuid)
  {
  }

  /** Re-applying the same patch is harmless: `apply` is idempotent for every patch. */
  lemma {:induction false} ApplyIdempotent(ws: Entries, uuid: Key, patch: Patch)
    ensures Applied(Applied(ws, uuid, patch), uuid, patch) == Applied(ws, uuid, patch)
  {
    if !IsTombstone(patch) {
      var prior := if uuid in ws then ws[uuid] else Seed(uuid);
      DeepMergeIdempotent(patch, prior);
    }
  }

  /** `apply` leaves every other key's presence and value as they were. */
  lemma AppliedElsewhere(ws: Entries, uuid: Key, patch: Patch, k: Key)
    requires k != uuid
    ensures k in Applied(ws, uuid, patch) <==> k in ws
    ensures k in ws ==> Applied(ws, uuid, patch)[k] == ws[k]
  {
  }

  /** What `apply` leaves at its own key depends only on what was stored there. */
  lemma AppliedLocal(ws: Entries, ws': Entries, uuid: Key, patch: Patch)
    requires uuid in ws <==> uuid in ws'
    requires uuid in ws ==> ws[uuid] == ws'[uuid]
    ensures uuid in Applied(ws, uuid, patch) <==> uuid in Applied(ws', uuid, patch)
    ensures uuid in Applied(ws, uuid, patch) ==> Applied(ws, uuid, patch)[uuid] == Applied(ws', uuid, patch)[uuid]
  {
  }

  /** At each key, the two orders of two patches for different ids agree. */
  lemma ApplyDistinctKeysCommuteAt(ws: Entries, u: Key, p: Patch, v: Key, q: Patch, k: Key)
    requires u != v
    ensures var left, right := Applied(Applied(ws, u, p), v, q), Applied(Applied(ws, v, q), u, p);
      (k in left <==> k in right) && (k in left ==> left[k] == right[k])
  {
    var up, vq := Applied(ws, u, p), Applied(ws, v, q);
    if k == u {
      AppliedElsewhere(up, v, q, u);
      AppliedElsewhere(ws, v, q, u);
      AppliedLocal(vq, ws, u, p);
    } else if k == v {
      AppliedElsewhere(vq, u, p, v);
      AppliedElsewhere(ws, u, p, v);
      AppliedLocal(up, ws, v, q);
    } else {
      AppliedElsewhere(up, v, q, k);
      AppliedElsewhere(ws, u, p, k);
      AppliedElsewhere(vq, u, p, k);
      AppliedElsewhere(ws, v, q, k);
    }
  }

  /** Patches for two different ids can be applied in either order. */
  lemma ApplyDistinctKeysCommute(ws: Entries, u: Key, p: Patch, v: Key, q: Patch)
    requires u != v
    ensures Applied(Applied(ws, u, p), v, q) == Applied(Applied(ws, v, q), u, p)
  {
    var left, right := Applied(Applied(ws, u, p), v, q), Applied(Applied(ws, v, q), u, p);
    forall k ensures (k in left <==> k in right) && (k in left ==> left[k] == right[k]) {
      ApplyDistinctKeysCommuteAt(ws, u, p, v, q, k);
    }
  }

  /** `apply` keeps the key/uuid invariant when the patch does not rename the entity. */
  lemma ApplyKeepsKeysMatchUuid(ws: Entries, uuid: Key, patch: Patch)
    requires KeysMatchUuid(ws)
    requires "uuid" in patch ==> patch["uuid"] == Str(uuid)
    ensures KeysMatchUuid(Applied(ws, uuid, patch))
  {
    var r := Applied(ws, uuid, patch);
    if !IsTombstone(patch) {
      assert "uuid" in r[uuid] && r[uuid]["uuid"] == Str(uuid);
    }
  }

  /** The mutable store object `ws`. */
  class Store {
    var entries: Entries

    /** A fresh, empty store (`{}`). */
    constructor()
      ensures entries == map[]
    {
      entries := map[];
    }
  }

  /** `apply(ws, uuid, patch)`: delete on a tombstone, otherwise get-or-create and merge. */
  method Apply(ws: Store, uuid: Key, patch: Patch)
    modifies ws
    ensures ws.entries == Applied(old(ws.entries), uuid, patch)
  {
    if IsTombstone(patch) {
      ws.entries := ws.entries - {uuid};
    } else {
      var prior: Entity;
      if uuid in ws.entries {
        prior := ws.entries[uuid];
      } else {
        prior := Seed(uuid);
        ws.entries := ws.entries[uuid := prior];
      }
      ws.entries := ws.entries[uuid := DeepMerge(patch, prior)];
    }
  }

  /** What `redis.get("worldstate")` yields: nil, text `JSON.parse` rejects, or a parsed object. */
  datatype SnapshotReply = Missing | Unparsable | Parsed(snapshot: Entries)

  /** The store after `deepMerge(snapshot, storage)`: every entity is merged into its entry. */
  function MergedSnapshot(ws: Entries, snapshot: Entries): (r: Entries)
    ensures r.Keys == ws.Keys + snapshot.Keys
    ensures forall k :: k in ws && k !in snapshot ==> r[k] == ws[k]
    ensures forall k :: k in snapshot && k !in ws ==> r[k] == snapshot[k]
    ensures forall k :: k in snapshot && k in ws ==> r[k] == DeepMerge(snapshot[k], ws[k])
  {
    map k | k in ws.Keys + snapshot.Keys ::
      if k !in snapshot then ws[k]
      else if k in ws then DeepMerge(snapshot[k], ws[k])
      else snapshot[k]
  }

  /** Loading a snapshot into an empty store (as after a reset) yields the snapshot itself. */
  lemma SnapshotIntoEmptyStore(snapshot: Entries)
    ensures MergedSnapshot(map[], snapshot) == snapshot
  {
  }

  /**
   * Loading the same snapshot a second time changes nothing: an entity the
   * first load created is merged with itself, and a merged one is merged again
   * with the same snapshot entry.
   */
  lemma MergedSnapshotIdempotent(ws: Entries, snapshot: Entries)
    ensures MergedSnapshot(MergedSnapshot(ws, snapshot), snapshot) == MergedSnapshot(ws, snapshot)
  {
    var once := MergedSnapshot(ws, snapshot);
    forall k | k in snapshot
      ensures MergedSnapshot(once, snapshot)[k] == once[k]
    {
      if k in ws {
        DeepMergeIdempotent(snapshot[k], ws[k]);
      } else {
        DeepMergeSelf(snapshot[k]);
      }
    }
  }

  /**
   * When every stored entry and every snapshot entry carries its own key as
   * `uuid`, so does every entry after the load.
   */
  lemma MergedSnapshotKeepsKeysMatchUuid(ws: Entries, snapshot: Entries)
    requires KeysMatchUuid(ws) && KeysMatchUuid(snapshot)
    ensures KeysMatchUuid(MergedSnapshot(ws, snapshot))
  {
    var r := MergedSnapshot(ws, snapshot);
    forall k | k in r
      ensures "uuid" in r[k] && r[k]["uuid"] == Str(k)
    {
      if k in snapshot && k in ws {
        assert !BothObjects(snapshot[k], ws[k], "uuid");
      }
    }
  }

  /**
   * The storage effect of `loadFromRedis(redis, storage)` in src/state_merge.js:
   * a nil reply is a no-op, unparsable text rejects the load (`ok` is false) and
   * leaves the store alone, and a parsed snapshot is deep-merged into the store.
   */
  method LoadSnapshot(storage: Store, reply: SnapshotReply) returns (ok: bool)
    modifies storage
    ensures ok <==> !reply.Unparsable?
    ensures reply.Parsed? ==> storage.entries == MergedSnapshot(old(storage.entries), reply.snapshot)
    ensures !reply.Parsed? ==> storage.entries == old(storage.entries)
  {
    match reply
    case Missing =>
      ok := true;
    case Unparsable =>
      ok := false;
    case Parsed(snapshot) =>
      storage.entries := MergedSnapshot(storage.entries, snapshot);
      ok := true;
  }
}
