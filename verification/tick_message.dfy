/**
 * A tick message and the fold both pipelines perform over its changes:
 * `Object.keys(msg.changes).forEach(uuid => merge.apply(ws, uuid, msg.changes[uuid]))`
 * (src/redis-state.js and lib/redis-state.js).
 */
module TickMessages {
  import opened Json
  import opened Wrappers
  import opened StateMerge

  /**
   * A decoded tick: its timestamp and the `changes` object, as its keys in
   * `Object.keys` order, each with its patch.
   */
  datatype TickMessage = TickMessage(ts: int, changes: seq<(Key, Patch)>)

  /** `Object.keys(msg.changes)`. */
  function ChangeKeys(changes: seq<(Key, Patch)>): (keys: seq<Key>)
    ensures |keys| == |changes|
    ensures forall i :: 0 <= i < |changes| ==> keys[i] == changes[i].0
  {
    seq(|changes|, i requires 0 <= i < |changes| => changes[i].0)
  }

  /** Keys of a JSON object are distinct. */
  ghost predicate DistinctKeys(changes: seq<(Key, Patch)>) {
    forall i, j :: 0 <= i < j < |changes| ==> changes[i].0 != changes[j].0
  }

  /** True when some change targets `k`. */
  ghost predicate Mentions(changes: seq<(Key, Patch)>, k: Key) {
    exists i :: 0 <= i < |changes| && changes[i].0 == k
  }

  /** The store after every change has been applied in order. */
  function ApplyAll(ws: Entries, changes: seq<(Key, Patch)>): Entries
    decreases |changes|
  {
    if changes == [] then ws
    else
      var n := |changes| - 1;
      Applied(ApplyAll(ws, changes[..n]), changes[n].0, changes[n].1)
  }

  /** `ws[uuid]`, with `undefined` as `None`. */
  function Lookup(ws: Entries, k: Key): (r: Option<Entity>)
    ensures r.Some? <==> k in ws
    ensures r.Some? ==> r.value == ws[k]
  {
    if k in ws then Some(ws[k]) else None
  }

  /**
   * The `deleted` object `onWorldTick` builds: for each tombstone patch, the
   * value stored under its key just before that patch is applied.
   */
  function Deleted(ws: Entries, changes: seq<(Key, Patch)>): map<Key, Option<Entity>>
    decreases |changes|
  {
    if changes == [] then map[]
    else
      var n := |changes| - 1;
      var prev := Deleted(ws, changes[..n]);
      if IsTombstone(changes[n].1) then prev[changes[n].0 := Lookup(ApplyAll(ws, changes[..n]), changes[n].0)]
      else prev
  }

  /** A tick leaves every entry it does not mention exactly as it was. */
  lemma {:induction false} ApplyAllUntouched(ws: Entries, changes: seq<(Key, Patch)>, k: Key)
    requires !Mentions(changes, k)
    ensures Lookup(ApplyAll(ws, changes), k) == Lookup(ws, k)
    decreases |changes|
  {
    if changes != [] {
      var n := |changes| - 1;
      assert forall j :: 0 <= j < n ==> changes[..n][j] == changes[j];
      ApplyAllUntouched(ws, changes[..n], k);
      assert changes[n].0 != k;
    }
  }

  /** `Object.keys(msg.changes)` names exactly the ids some change targets. */
  lemma ChangeKeysMentions(changes: seq<(Key, Patch)>, k: Key)
    ensures k in ChangeKeys(changes) <==> Mentions(changes, k)
  {
    if Mentions(changes, k) {
      var i :| 0 <= i < |changes| && changes[i].0 == k;
      assert ChangeKeys(changes)[i] == k;
    }
  }

  /**
   * The keys a tick's sweep visits cover every id the tick can change: an id
   * missing from `Object.keys(msg.changes)` keeps its entry.
   */
  lemma UnsweptKeyUnchanged(ws: Entries, changes: seq<(Key, Patch)>, k: Key)
    requires k !in ChangeKeys(changes)
    ensures Lookup(ApplyAll(ws, changes), k) == Lookup(ws, k)
  {
    ChangeKeysMentions(changes, k);
    ApplyAllUntouched(ws, changes, k);
  }

  /**
   * With distinct keys, an id named in a tick is present afterwards exactly
   * when its patch is not a tombstone.
   */
  lemma {:induction false} ApplyAllOutcome(ws: Entries, changes: seq<(Key, Patch)>, i: nat)
    requires DistinctKeys(changes) && i < |changes|
    ensures changes[i].0 in ApplyAll(ws, changes) <==> !IsTombstone(changes[i].1)
    decreases |changes|
  {
    var n := |changes| - 1;
    if i < n {
      ApplyAllOutcome(ws, changes[..n], i);
      assert changes[n].0 != changes[i].0;
    }
  }

  /**
   * For every tombstone in a tick with distinct keys, `deleted[uuid]` holds the
   * value the store had before the tick.
   */
  lemma {:induction false} DeletedRecordsPrior(ws: Entries, changes: seq<(Key, Patch)>, i: nat)
    requires DistinctKeys(changes) && i < |changes| && IsTombstone(changes[i].1)
    ensures var d := Deleted(ws, changes);
      changes[i].0 in d && d[changes[i].0] == Lookup(ws, changes[i].0)
    decreases |changes|
  {
    var n := |changes| - 1;
    var k := changes[i].0;
    if i == n {
      assert forall j :: 0 <= j < n ==> changes[..n][j] == changes[j];
      ApplyAllUntouched(ws, changes[..n], k);
    } else {
      DeletedRecordsPrior(ws, changes[..n], i);
      assert changes[n].0 != k;
    }
  }

  /** `deleted` only has entries for ids that some tombstone in the tick targets. */
  lemma {:induction false} DeletedOnlyTombstones(ws: Entries, changes: seq<(Key, Patch)>, k: Key)
    requires k in Deleted(ws, changes)
    ensures exists i :: 0 <= i < |changes| && changes[i].0 == k && IsTombstone(changes[i].1)
    decreases |changes|
  {
    var n := |changes| - 1;
    if !(changes[n].0 == k && IsTombstone(changes[n].1)) {
      DeletedOnlyTombstones(ws, changes[..n], k);
      var i :| 0 <= i < n && changes[..n][i].0 == k && IsTombstone(changes[..n][i].1);
      assert changes[i] == changes[..n][i];
    }
  }

  /**
   * Loading `{u1: {uuid: "u1", hp: 10}}` and then applying a tick whose changes
   * are `{u1: {hp: 5}}` leaves `u1` as `{uuid: "u1", hp: 5}`.
   */
  lemma SnapshotThenDelta()
    ensures var loaded := MergedSnapshot(map[], map["u1" := map["uuid" := Str("u1"), "hp" := Num(10)]]);
      ApplyAll(loaded, [("u1", map["hp" := Num(5)])])
        == map["u1" := map["uuid" := Str("u1"), "hp" := Num(5)]]
  {
    var loaded := MergedSnapshot(map[], map["u1" := map["uuid" := Str("u1"), "hp" := Num(10)]]);
    SnapshotIntoEmptyStore(map["u1" := map["uuid" := Str("u1"), "hp" := Num(10)]]);
    var changes := [("u1", map["hp" := Num(5)])];
    assert changes[..0] == [];
    var merged := DeepMerge(map["hp" := Num(5)], map["uuid" := Str("u1"), "hp" := Num(10)]);
    assert merged == map["uuid" := Str("u1"), "hp" := Num(5)];
  }
}
