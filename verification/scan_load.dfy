/**
 * The storage effect of `loadFromRedis(redis, storage)` in lib/state_merge.js:
 * `SSCAN alive <cursor>` is repeated while the returned cursor is positive, each
 * batch of member ids with at least one member is fetched with `MGET`, and each
 * fetched object is stored wholesale under its own `uuid` field.
 *
 * The Redis replies are an input: one `Batch` per `SSCAN` reply, holding the
 * next cursor, the member ids and what `MGET` returned for them, already run
 * through `JSON.parse` (`None` when that throws or yields `null`, where reading
 * `.uuid` throws).
 */
module ScanLoad {
  import opened Json
  import opened Wrappers
  import opened StateMerge
  import opened TickMessages

  datatype Batch = Batch(cursor: nat, members: seq<Key>, values: seq<Option<Entity>>)

  /** `obj.uuid` used as a property key; a missing field is `undefined`. */
  function UuidKey(obj: Entity): Key {
    if "uuid" in obj then ToPropertyKey(obj["uuid"]) else "undefined"
  }

  /** True when some loaded object in `values` is stored under `k`. */
  ghost predicate Stores(values: seq<Option<Entity>>, k: Key) {
    exists i :: 0 <= i < |values| && values[i].Some? && UuidKey(values[i].value) == k
  }

  /**
   * `data.forEach(v => { var obj = JSON.parse(v); storage[obj.uuid] = obj })`:
   * the store after the loop and whether it ran to the end (a throw stops it).
   */
  function StoreEach(ws: Entries, values: seq<Option<Entity>>): (r: (Entries, bool))
    ensures r.1 <==> forall i :: 0 <= i < |values| ==> values[i].Some?
    decreases |values|
  {
    if values == [] then (ws, true)
    else match values[0]
      case None => (ws, false)
      case Some(obj) =>
        var rest := StoreEach(ws[UuidKey(obj) := obj], values[1..]);
        assert forall i :: 1 <= i < |values| ==> values[i] == values[1..][i - 1];
        rest
  }

  /** The effect of one batch: fetched and stored only when it has members. */
  function BatchEffect(ws: Entries, b: Batch): (Entries, bool) {
    if |b.members| > 0 then StoreEach(ws, b.values) else (ws, true)
  }

  /** The effect of a sequence of batches, in order; a failed batch does not stop the scan. */
  function ScanEffect(ws: Entries, bs: seq<Batch>): (Entries, bool)
    decreases |bs|
  {
    if bs == [] then (ws, true)
    else
      var first := BatchEffect(ws, bs[0]);
      var rest := ScanEffect(first.0, bs[1..]);
      (rest.0, first.1 && rest.1)
  }

  /**
   * How many `SSCAN` replies the scan reads: up to and including the first one
   * whose cursor is 0, or all of them when the input ends first.
   */
  function Consumed(replies: seq<Batch>): (n: nat)
    ensures n <= |replies|
    ensures |replies| > 0 ==> n > 0
    ensures n == |replies| || replies[n - 1].cursor == 0
    decreases |replies|
  {
    if replies == [] then 0
    else if replies[0].cursor == 0 then 1
    else
      var rest := Consumed(replies[1..]);
      assert rest < |replies| - 1 ==> replies[1..][rest - 1] == replies[rest];
      1 + rest
  }

  /** Every reply before the last one read has a positive cursor: the scan went on. */
  lemma {:induction false} ConsumedContinues(replies: seq<Batch>, i: nat)
    requires i + 1 < Consumed(replies)
    ensures replies[i].cursor > 0
    decreases |replies|
  {
    if i > 0 {
      ConsumedContinues(replies[1..], i - 1);
    }
  }

  /** The cursors sent with `SSCAN`: 0 first, then each reply's positive cursor. */
  function SscanCursors(replies: seq<Batch>): (cursors: seq<nat>)
    ensures |cursors| == Consumed(replies)
    ensures |cursors| > 0 ==> cursors[0] == 0
    ensures forall i :: 0 < i < |cursors| ==> cursors[i] > 0 && cursors[i] == replies[i - 1].cursor
  {
    var n := Consumed(replies);
    forall i | 0 <= i < n - 1 ensures replies[i].cursor > 0 {
      ConsumedContinues(replies, i);
    }
    seq(n, i requires 0 <= i < n => if i == 0 then 0 else replies[i - 1].cursor)
  }

  /** The cursors sent so far grow by the cursor of the request being made. */
  lemma SscanCursorsStep(replies: seq<Batch>, i: nat)
    requires i < Consumed(replies)
    ensures SscanCursors(replies)[..i + 1] == SscanCursors(replies)[..i] + [if i == 0 then 0 else replies[i - 1].cursor]
  {
  }

  /** The member lists sent with `MGET`, one per batch that has members. */
  function Fetches(bs: seq<Batch>): (r: seq<seq<Key>>)
    ensures forall f :: f in r ==> |f| > 0
    ensures forall i :: 0 <= i < |bs| && |bs[i].members| > 0 ==> bs[i].members in r
    ensures |r| <= |bs|
    decreases |bs|
  {
    if bs == [] then []
    else
      var n := |bs| - 1;
      var prev := Fetches(bs[..n]);
      assert forall i :: 0 <= i < n ==> bs[i] == bs[..n][i];
      if |bs[n].members| > 0 then prev + [bs[n].members] else prev
  }

  /** A key that no loaded object names keeps its value and presence. */
  lemma {:induction false} StoreEachUntouched(ws: Entries, values: seq<Option<Entity>>, k: Key)
    requires !Stores(values, k)
    ensures Lookup(StoreEach(ws, values).0, k) == Lookup(ws, k)
    decreases |values|
  {
    if values != [] && values[0].Some? {
      assert UuidKey(values[0].value) != k;
      assert forall i :: 0 <= i < |values| - 1 ==> values[1..][i] == values[i + 1];
      StoreEachUntouched(ws[UuidKey(values[0].value) := values[0].value], values[1..], k);
    }
  }

  /**
   * An object the loop reaches is stored wholesale, and it stays when no later
   * object names the same key: the last object stored under a key wins. This
   * holds also for a batch that throws later on, whose earlier stores remain.
   */
  lemma {:induction false} StoreEachLastWins(ws: Entries, values: seq<Option<Entity>>, i: nat)
    requires i < |values|
    requires forall j :: 0 <= j <= i ==> values[j].Some?
    requires forall j :: i < j < |values| && values[j].Some? ==> UuidKey(values[j].value) != UuidKey(values[i].value)
    ensures Lookup(StoreEach(ws, values).0, UuidKey(values[i].value)) == Some(values[i].value)
    decreases |values|
  {
    var obj := values[0].value;
    var rest := values[1..];
    assert forall j :: 0 <= j < |rest| ==> rest[j] == values[j + 1];
    if i == 0 {
      StoreEachUntouched(ws[UuidKey(obj) := obj], rest, UuidKey(obj));
    } else {
      StoreEachLastWins(ws[UuidKey(obj) := obj], rest, i - 1);
    }
  }

  /** Loaded objects whose `uuid` is a string keep the store's key/uuid invariant. */
  lemma {:induction false} StoreEachKeysMatchUuid(ws: Entries, values: seq<Option<Entity>>)
    requires KeysMatchUuid(ws)
    requires forall j :: 0 <= j < |values| && values[j].Some? ==>
      "uuid" in values[j].value && values[j].value["uuid"].Str?
    ensures KeysMatchUuid(StoreEach(ws, values).0)
    decreases |values|
  {
    if values != [] && values[0].Some? {
      var obj := values[0].value;
      assert forall j :: 0 <= j < |values| - 1 ==> values[1..][j] == values[j + 1];
      StoreEachKeysMatchUuid(ws[UuidKey(obj) := obj], values[1..]);
    }
  }

  /** A key that no object in any scanned batch names keeps its value and presence. */
  lemma {:induction false} ScanUntouched(ws: Entries, bs: seq<Batch>, k: Key)
    requires forall i :: 0 <= i < |bs| ==> !Stores(bs[i].values, k)
    ensures Lookup(ScanEffect(ws, bs).0, k) == Lookup(ws, k)
    decreases |bs|
  {
    if bs != [] {
      if |bs[0].members| > 0 {
        StoreEachUntouched(ws, bs[0].values, k);
      }
      assert forall i :: 0 <= i < |bs| - 1 ==> bs[1..][i] == bs[i + 1];
      ScanUntouched(BatchEffect(ws, bs[0]).0, bs[1..], k);
    }
  }

  /** The `forEach` over one `MGET` reply: store each object under its `uuid` until one throws. */
  method StoreBatch(storage: Store, values: seq<Option<Entity>>) returns (ok: bool)
    modifies storage
    ensures (storage.entries, ok) == StoreEach(old(storage.entries), values)
  {
    var j := 0;
    while j < |values|
      invariant 0 <= j <= |values|
      invariant StoreEach(storage.entries, values[j..]) == StoreEach(old(storage.entries), values)
    {
      assert values[j..][1..] == values[j + 1..];
      match values[j]
      case None =>
        return false;
      case Some(obj) =>
        storage.entries := storage.entries[UuidKey(obj) := obj];
      j := j + 1;
    }
    assert values[|values|..] == [];
    ok := true;
  }

  /** The member lists sent for a prefix of the replies grow by at most one per reply. */
  lemma FetchesStep(bs: seq<Batch>, i: nat)
    requires i < |bs|
    ensures Fetches(bs[..i + 1]) == Fetches(bs[..i]) + (if |bs[i].members| > 0 then [bs[i].members] else [])
  {
    assert bs[..i + 1][..i] == bs[..i];
  }

  /** The scan from reply `i` on is reply `i`'s batch followed by the scan from `i + 1`. */
  lemma ScanEffectStep(ws: Entries, bs: seq<Batch>, i: nat)
    requires i < |bs|
    ensures var first := BatchEffect(ws, bs[i]);
      var rest := ScanEffect(first.0, bs[i + 1..]);
      ScanEffect(ws, bs[i..]) == (rest.0, first.1 && rest.1)
  {
    assert bs[i..][0] == bs[i] && bs[i..][1..] == bs[i + 1..];
  }

  /**
   * The `MGET` branch for one `SSCAN` reply: a batch with members is fetched and
   * stored; an empty batch issues no fetch.
   */
  method FetchBatch(storage: Store, b: Batch) returns (fetched: seq<seq<Key>>, ok: bool)
    modifies storage
    ensures fetched == if |b.members| > 0 then [b.members] else []
    ensures (storage.entries, ok) == BatchEffect(old(storage.entries), b)
  {
    if |b.members| > 0 {
      fetched := [b.members];
      ok := StoreBatch(storage, b.values);
    } else {
      fetched, ok := [], true;
    }
  }

  /**
   * The scan: issues `SSCAN` with cursor 0 and then with each positive cursor a
   * reply returns, fetches each batch with members with `MGET`, and stores each
   * fetched object under its `uuid`. `ok` is false when some value failed to
   * parse (the load's promise rejects); the other batches are still stored, as
   * the source's concurrent branches do.
   */
  method LoadFromRedis(storage: Store, replies: seq<Batch>)
    returns (cursors: seq<nat>, fetched: seq<seq<Key>>, ok: bool)
    modifies storage
    ensures cursors == SscanCursors(replies)
    ensures fetched == Fetches(replies[..Consumed(replies)])
    ensures (storage.entries, ok) == ScanEffect(old(storage.entries), replies[..Consumed(replies)])
  {
    ghost var n := Consumed(replies);
    ghost var scanned := replies[..n];
    ghost var total := ScanEffect(storage.entries, scanned);
    var cursor: nat := 0;
    var i := 0;
    cursors, fetched, ok := [], [], true;
    while i < |replies| && (i == 0 || cursor > 0)
      invariant 0 <= i <= n
      invariant cursor == if i == 0 then 0 else replies[i - 1].cursor
      invariant i < n <==> i < |replies| && (i == 0 || cursor > 0)
      invariant cursors == SscanCursors(replies)[..i]
      invariant fetched == Fetches(scanned[..i])
      invariant ScanEffect(storage.entries, scanned[i..]).0 == total.0
      invariant (ok && ScanEffect(storage.entries, scanned[i..]).1) == total.1
    {
      SscanCursorsStep(replies, i);
      cursors := cursors + [cursor];
      var reply := replies[i];
      assert scanned[i] == reply;
      FetchesStep(scanned, i);
      ScanEffectStep(storage.entries, scanned, i);
      var batchFetched, batchOk := FetchBatch(storage, reply);
      fetched := fetched + batchFetched;
      ok := ok && batchOk;
      if i + 1 < n {
        ConsumedContinues(replies, i);
      }
      cursor := reply.cursor;
      i := i + 1;
    }
    assert scanned[..n] == scanned;
  }
}
