/**
 * Pending waits registered by `wait_for_world_fn` and swept by
 * `checkWorldPromises` (src/redis-state.js).
 *
 * A wait's predicate is a JavaScript function over a store; here it is a total
 * function from store contents to what it returns. A wait is satisfied when
 * that result is neither `undefined` nor `false` (so `null` and `0` satisfy it).
 */
module WorldPromises {
  import opened Json
  import opened Wrappers
  import opened StateMerge
  import opened TickMessages

  /** What a predicate returns: `undefined` or a value. */
  datatype Answer = Undefined | Returned(v: Value)

  /** `result !== undefined && result !== false`. */
  predicate Satisfied(a: Answer) {
    a.Returned? && a.v != Bool(false)
  }

  type WaitPredicate = Entries -> Answer

  /** `{fn, promise, expires_at}`; the promise is identified by `id`. */
  datatype PendingWait = PendingWait(id: nat, fn: WaitPredicate, expiresAt: int)

  /** How a wait's promise was settled. */
  datatype Settlement = Resolved(id: nat, value: Value) | Rejected(id: nat, reason: string)

  /** What `wait_for_world_fn` returns: an already-resolved promise, or a pending one. */
  datatype WaitReply = Immediate(value: Value) | Registered(id: nat)

  /** The fixed wait timeout, in milliseconds. */
  const WaitTimeoutMs: int := 500

  /** The rejection reason of an expired wait. */
  const TimeoutReason: string := "timeout"

  /**
   * The one-key view `fake` a wait is re-evaluated on:
   * `fake[key] = worldStateStorage[key] || deleted[key]`. When both are
   * `undefined`, the view is empty.
   */
  function OneKeyView(store: Entries, deleted: map<Key, Option<Entity>>, k: Key): (view: Entries)
    ensures view.Keys <= {k}
    ensures k in store ==> view == map[k := store[k]]
    ensures k !in store && k in deleted && deleted[k].Some? ==> view == map[k := deleted[k].value]
    ensures k in view <==> k in store || (k in deleted && deleted[k].Some?)
  {
    if k in store then map[k := store[k]]
    else if k in deleted && deleted[k].Some? then map[k := deleted[k].value]
    else map[]
  }

  /**
   * What a wait is re-checked on after a tick with distinct ids: the changed
   * entity as the tick left it, or, for an id the tick tombstoned, the entity
   * as it was before the tick (nothing when there was none).
   */
  lemma TickViewShowsEntity(ws: Entries, changes: seq<(Key, Patch)>, i: nat)
    requires DistinctKeys(changes) && i < |changes|
    ensures var k := changes[i].0;
      var after := ApplyAll(ws, changes);
      var view := OneKeyView(after, Deleted(ws, changes), k);
      && (!IsTombstone(changes[i].1) ==> k in after && view == map[k := after[k]])
      && (IsTombstone(changes[i].1) ==> view == if k in ws then map[k := ws[k]] else map[])
  {
    ApplyAllOutcome(ws, changes, i);
    if IsTombstone(changes[i].1) {
      DeletedRecordsPrior(ws, changes, i);
    }
  }

  /** What a sweep does with one wait on one view. */
  datatype Verdict = Resolve(value: Value) | Expire | Keep

  /** Resolve when the predicate holds, otherwise reject once `expires_at <= now`. */
  function Judge(w: PendingWait, view: Entries, now: int): (r: Verdict)
    ensures r.Resolve? <==> Satisfied(w.fn(view))
    ensures r.Expire? <==> !Satisfied(w.fn(view)) && w.expiresAt <= now
  {
    var a := w.fn(view);
    if Satisfied(a) then Resolve(a.v)
    else if w.expiresAt <= now then Expire
    else Keep
  }

  /** The settlement a removing verdict produces. */
  function Settle(w: PendingWait, v: Verdict): Settlement
    requires !v.Keep?
  {
    if v.Resolve? then Resolved(w.id, v.value) else Rejected(w.id, TimeoutReason)
  }

  /** The list that survives a sweep and the settlements it made, in order. */
  datatype Swept = Swept(kept: seq<PendingWait>, settled: seq<Settlement>)

  /** The sweep so far, extended by the verdict on one more wait. */
  function Extend(prev: Swept, w: PendingWait, view: Entries, now: int): Swept {
    var v := Judge(w, view, now);
    if v.Keep? then Swept(prev.kept + [w], prev.settled)
    else Swept(prev.kept, prev.settled + [Settle(w, v)])
  }

  /**
   * One key's sweep as intended: every wait whose predicate holds on the view is
   * resolved, every other expired wait is rejected, and the rest stay in order.
   * Each wait is either kept or settled once.
   */
  function SweepKey(waits: seq<PendingWait>, view: Entries, now: int): (r: Swept)
    ensures |r.kept| + |r.settled| == |waits|
    decreases |waits|
  {
    if waits == [] then Swept([], [])
    else
      var n := |waits| - 1;
      Extend(SweepKey(waits[..n], view, now), waits[n], view, now)
  }

  /** A wait that one key's sweep keeps was pending and was judged `Keep` on that key's view. */
  lemma {:induction false} SweepKeyKeptWasKept(waits: seq<PendingWait>, view: Entries, now: int, w: PendingWait)
    requires w in SweepKey(waits, view, now).kept
    ensures w in waits && Judge(w, view, now).Keep?
    decreases |waits|
  {
    if waits != [] {
      var n := |waits| - 1;
      assert waits == waits[..n] + [waits[n]];
      if w in SweepKey(waits[..n], view, now).kept {
        SweepKeyKeptWasKept(waits[..n], view, now, w);
      }
    }
  }

  /** Every wait judged `Keep` on the view survives one key's sweep. */
  lemma {:induction false} SweepKeyRetains(waits: seq<PendingWait>, view: Entries, now: int, i: nat)
    requires i < |waits| && Judge(waits[i], view, now).Keep?
    ensures waits[i] in SweepKey(waits, view, now).kept
    decreases |waits|
  {
    var n := |waits| - 1;
    if i < n {
      SweepKeyRetains(waits[..n], view, now, i);
      assert waits[..n][i] == waits[i];
    }
  }

  /** Every wait that one key's sweep removes is settled by it, resolved or rejected. */
  lemma {:induction false} SweepKeySettles(waits: seq<PendingWait>, view: Entries, now: int, i: nat)
    requires i < |waits| && !Judge(waits[i], view, now).Keep?
    ensures Settle(waits[i], Judge(waits[i], view, now)) in SweepKey(waits, view, now).settled
    decreases |waits|
  {
    var n := |waits| - 1;
    if i < n {
      SweepKeySettles(waits[..n], view, now, i);
      assert waits[..n][i] == waits[i];
    }
  }

  /** A wait that one key's sweep drops was not judged `Keep`, and its settlement was made. */
  lemma {:induction false} SweepKeyDropped(waits: seq<PendingWait>, view: Entries, now: int, w: PendingWait)
    requires w in waits && w !in SweepKey(waits, view, now).kept
    ensures !Judge(w, view, now).Keep?
    ensures Settle(w, Judge(w, view, now)) in SweepKey(waits, view, now).settled
    decreases |waits|
  {
    var n := |waits| - 1;
    if waits[n] != w {
      assert waits == waits[..n] + [waits[n]];
      SweepKeyDropped(waits[..n], view, now, w);
    }
  }

  /**
   * `msg.changes.forEach(state => ...)` sweeping every changed key in turn, each
   * on its own one-key view. Each wait is either kept or settled once.
   */
  function SweepKeys(waits: seq<PendingWait>, keys: seq<Key>, store: Entries,
                     deleted: map<Key, Option<Entity>>, now: int): (r: Swept)
    ensures |r.kept| + |r.settled| == |waits|
    decreases |keys|
  {
    if keys == [] then Swept(waits, [])
    else
      var n := |keys| - 1;
      var prev := SweepKeys(waits, keys[..n], store, deleted, now);
      var s := SweepKey(prev.kept, OneKeyView(store, deleted, keys[n]), now);
      Swept(s.kept, prev.settled + s.settled)
  }

  /**
   * A wait survives the whole sweep only if it was pending before and was judged
   * `Keep` on every changed key's view.
   */
  lemma {:induction false} SweepKeysKeeps(waits: seq<PendingWait>, keys: seq<Key>, store: Entries,
                                          deleted: map<Key, Option<Entity>>, now: int,
                                          w: PendingWait, i: nat)
    requires w in SweepKeys(waits, keys, store, deleted, now).kept
    ensures w in waits
    ensures i < |keys| ==> Judge(w, OneKeyView(store, deleted, keys[i]), now).Keep?
    decreases |keys|
  {
    if keys != [] {
      var n := |keys| - 1;
      var prev := SweepKeys(waits, keys[..n], store, deleted, now);
      SweepKeyKeptWasKept(prev.kept, OneKeyView(store, deleted, keys[n]), now, w);
      SweepKeysKeeps(waits, keys[..n], store, deleted, now, w, i);
      if i < n {
        assert keys[..n][i] == keys[i];
      }
    }
  }

  /** A pending wait judged `Keep` on every changed key's view survives the whole sweep. */
  lemma {:induction false} SweepKeysRetains(waits: seq<PendingWait>, keys: seq<Key>, store: Entries,
                                            deleted: map<Key, Option<Entity>>, now: int, w: PendingWait)
    requires w in waits
    requires forall i :: 0 <= i < |keys| ==> Judge(w, OneKeyView(store, deleted, keys[i]), now).Keep?
    ensures w in SweepKeys(waits, keys, store, deleted, now).kept
    decreases |keys|
  {
    if keys != [] {
      var n := |keys| - 1;
      forall i | 0 <= i < n
        ensures Judge(w, OneKeyView(store, deleted, keys[..n][i]), now).Keep?
      {
        assert keys[..n][i] == keys[i];
      }
      SweepKeysRetains(waits, keys[..n], store, deleted, now, w);
      var prev := SweepKeys(waits, keys[..n], store, deleted, now);
      var j :| 0 <= j < |prev.kept| && prev.kept[j] == w;
      SweepKeyRetains(prev.kept, OneKeyView(store, deleted, keys[n]), now, j);
    }
  }

  /**
   * A pending wait the whole sweep drops was settled on the view of some
   * changed key where it was not judged `Keep`: resolved there with its
   * predicate's result, or rejected with `'timeout'`.
   */
  lemma {:induction false} SweepKeysSettles(waits: seq<PendingWait>, keys: seq<Key>, store: Entries,
                                            deleted: map<Key, Option<Entity>>, now: int, w: PendingWait)
    requires w in waits && w !in SweepKeys(waits, keys, store, deleted, now).kept
    ensures exists i :: (0 <= i < |keys| &&
      !Judge(w, OneKeyView(store, deleted, keys[i]), now).Keep? &&
      Settle(w, Judge(w, OneKeyView(store, deleted, keys[i]), now)) in SweepKeys(waits, keys, store, deleted, now).settled)
    decreases |keys|
  {
    assert keys != [];
    var n := |keys| - 1;
    var prev := SweepKeys(waits, keys[..n], store, deleted, now);
    var view := OneKeyView(store, deleted, keys[n]);
    var r := SweepKeys(waits, keys, store, deleted, now);
    if w in prev.kept {
      SweepKeyDropped(prev.kept, view, now, w);
      assert !Judge(w, OneKeyView(store, deleted, keys[n]), now).Keep?
        && Settle(w, Judge(w, OneKeyView(store, deleted, keys[n]), now)) in r.settled;
    } else {
      SweepKeysSettles(waits, keys[..n], store, deleted, now, w);
      var i :| 0 <= i < n && !Judge(w, OneKeyView(store, deleted, keys[..n][i]), now).Keep?
        && Settle(w, Judge(w, OneKeyView(store, deleted, keys[..n][i]), now)) in prev.settled;
      assert keys[..n][i] == keys[i];
      assert !Judge(w, OneKeyView(store, deleted, keys[i]), now).Keep?
        && Settle(w, Judge(w, OneKeyView(store, deleted, keys[i]), now)) in r.settled;
    }
  }

  /** The sweep over one more key is the sweep so far followed by that key's sweep. */
  lemma SweepKeysStep(waits: seq<PendingWait>, keys: seq<Key>, store: Entries,
                      deleted: map<Key, Option<Entity>>, now: int, i: nat)
    requires i < |keys|
    ensures var prev := SweepKeys(waits, keys[..i], store, deleted, now);
      var s := SweepKey(prev.kept, OneKeyView(store, deleted, keys[i]), now);
      SweepKeys(waits, keys[..i + 1], store, deleted, now) == Swept(s.kept, prev.settled + s.settled)
  {
    assert keys[..i + 1][..i] == keys[..i];
  }

  /**
   * One key's sweep AS WRITTEN: `worldPromises.forEach((pair, i) => ...
   * worldPromises.splice(i, 1))`. `forEach` visits index `i`, then `i + 1`, of the
   * list as it is now, so after a removal the wait that moved into slot `i` is
   * never visited.
   */
  function SweepAsWritten(waits: seq<PendingWait>, view: Entries, now: int, i: nat): (r: Swept)
    ensures |r.kept| + |r.settled| == |waits|
    decreases |waits| - i
  {
    if i >= |waits| then Swept(waits, [])
    else
      var v := Judge(waits[i], view, now);
      if v.Keep? then SweepAsWritten(waits, view, now, i + 1)
      else
        var rest := SweepAsWritten(waits[..i] + waits[i + 1..], view, now, i + 1);
        Swept(rest.kept, [Settle(waits[i], v)] + rest.settled)
  }

  /**
   * Two waits that the same tick satisfies: as written, only the first is
   * resolved and the second stays pending; the intended sweep resolves both.
   */
  lemma SpliceSkipsNext()
    ensures var always := (view: Entries) => Returned(Bool(true));
      var waits := [PendingWait(0, always, 500), PendingWait(1, always, 500)];
      && SweepAsWritten(waits, map[], 0, 0).kept == [waits[1]]
      && SweepKey(waits, map[], 0).kept == []
  {
    var always := (view: Entries) => Returned(Bool(true));
    var waits := [PendingWait(0, always, 500), PendingWait(1, always, 500)];
    assert waits[..0] + waits[1..] == [waits[1]];
    assert waits[..1] == [waits[0]];
  }

  /**
   * The as-written sweep never drops a wait the intended one keeps: waits before
   * the start index and every wait judged `Keep` survive it. It can only leave
   * extra waits pending.
   */
  lemma {:induction false} AsWrittenKeepsWhatSweepKeeps(waits: seq<PendingWait>, view: Entries, now: int, i: nat)
    ensures forall j :: 0 <= j < |waits| && (j < i || Judge(waits[j], view, now).Keep?) ==>
      waits[j] in SweepAsWritten(waits, view, now, i).kept
    decreases |waits| - i
  {
    if i < |waits| {
      var v := Judge(waits[i], view, now);
      if v.Keep? {
        AsWrittenKeepsWhatSweepKeeps(waits, view, now, i + 1);
      } else {
        var rest := waits[..i] + waits[i + 1..];
        AsWrittenKeepsWhatSweepKeeps(rest, view, now, i + 1);
        forall j | 0 <= j < |waits| && (j < i || Judge(waits[j], view, now).Keep?)
          ensures waits[j] in SweepAsWritten(waits, view, now, i).kept
        {
          if j < i {
            assert rest[j] == waits[j];
          } else {
            assert j > i;
            assert rest[j - 1] == waits[j];
          }
        }
      }
    }
  }

  /** Every wait the as-written sweep leaves pending was pending before. */
  lemma {:induction false} AsWrittenKeptWasPending(waits: seq<PendingWait>, view: Entries, now: int, i: nat, w: PendingWait)
    requires w in SweepAsWritten(waits, view, now, i).kept
    ensures w in waits
    decreases |waits| - i
  {
    if i < |waits| {
      if Judge(waits[i], view, now).Keep? {
        AsWrittenKeptWasPending(waits, view, now, i + 1, w);
      } else {
        var rest := waits[..i] + waits[i + 1..];
        AsWrittenKeptWasPending(rest, view, now, i + 1, w);
        var k :| 0 <= k < |rest| && rest[k] == w;
        if k < i {
          assert waits[k] == w;
        } else {
          assert waits[k + 1] == w;
        }
      }
    }
  }

  /**
   * Every wait the as-written sweep removes was not judged `Keep`, and its
   * promise was settled by it.
   */
  lemma {:induction false} AsWrittenSettlesDropped(waits: seq<PendingWait>, view: Entries, now: int, i: nat, w: PendingWait)
    requires w in waits && w !in SweepAsWritten(waits, view, now, i).kept
    ensures !Judge(w, view, now).Keep?
    ensures Settle(w, Judge(w, view, now)) in SweepAsWritten(waits, view, now, i).settled
    decreases |waits| - i
  {
    assert i < |waits|;
    var v := Judge(waits[i], view, now);
    if v.Keep? {
      AsWrittenSettlesDropped(waits, view, now, i + 1, w);
    } else if waits[i] != w {
      var rest := waits[..i] + waits[i + 1..];
      var k :| 0 <= k < |waits| && waits[k] == w;
      if k < i {
        assert rest[k] == w;
      } else {
        assert rest[k - 1] == w;
      }
      AsWrittenSettlesDropped(rest, view, now, i + 1, w);
    }
  }

  /**
   * `state.key` for one element of a `changes` array: reading it from `null`
   * throws (`None`); an object without the field, and any other value, gives
   * `undefined`, whose property key is "undefined".
   */
  function StateKey(state: Value): (k: Option<Key>)
    ensures k.None? <==> state.Null?
    ensures state.Obj? && "key" in state.fields ==> k == Some(ToPropertyKey(state.fields["key"]))
  {
    match state
    case Null => None
    case Obj(f) => Some(if "key" in f then ToPropertyKey(f["key"]) else "undefined")
    case _ => Some("undefined")
  }

  /** What the as-written sweep leaves, and whether it ended by throwing. */
  datatype Checked = Checked(swept: Swept, threw: bool)

  /**
   * The outer `msg.changes.forEach(state => ...)` AS WRITTEN, over the elements
   * of a `changes` array: each element's key gets the as-written sweep of the
   * waits still pending, and a `null` element throws, which ends the loop with
   * the earlier sweeps done.
   */
  function SweepItemsAsWritten(waits: seq<PendingWait>, items: seq<Value>, store: Entries,
                               deleted: map<Key, Option<Entity>>, now: int): (r: Checked)
    ensures |r.swept.kept| + |r.swept.settled| == |waits|
    ensures r.threw <==> Null in items
    decreases |items|
  {
    if items == [] then Checked(Swept(waits, []), false)
    else
      var n := |items| - 1;
      assert items == items[..n] + [items[n]];
      var prev := SweepItemsAsWritten(waits, items[..n], store, deleted, now);
      if prev.threw then prev
      else match StateKey(items[n])
        case None => Checked(prev.swept, true)
        case Some(k) =>
          var s := SweepAsWritten(prev.swept.kept, OneKeyView(store, deleted, k), now, 0);
          Checked(Swept(s.kept, prev.swept.settled + s.settled), false)
  }

  /** Once an element has thrown, the later elements change nothing. */
  lemma {:induction false} ThrownSweepStops(waits: seq<PendingWait>, items: seq<Value>, store: Entries,
                                            deleted: map<Key, Option<Entity>>, now: int, i: nat)
    requires i <= |items| && SweepItemsAsWritten(waits, items[..i], store, deleted, now).threw
    ensures SweepItemsAsWritten(waits, items, store, deleted, now)
         == SweepItemsAsWritten(waits, items[..i], store, deleted, now)
    decreases |items|
  {
    if i < |items| {
      var n := |items| - 1;
      assert items[..n][..i] == items[..i];
      ThrownSweepStops(waits, items[..n], store, deleted, now, i);
    } else {
      assert items[..i] == items;
    }
  }

  /**
   * `checkWorldPromises(msg, deleted)` AS WRITTEN, on the parsed `changes`
   * value: nothing happens without pending waits; otherwise `changes.forEach`
   * exists only on an array, and on anything else the call throws before any
   * wait is looked at.
   */
  function CheckAsWritten(waits: seq<PendingWait>, changes: Value, store: Entries,
                          deleted: map<Key, Option<Entity>>, now: int): (r: Checked)
    ensures |r.swept.kept| + |r.swept.settled| == |waits|
    ensures r.threw <==> |waits| > 0 && (!changes.Arr? || Null in changes.items)
  {
    if |waits| == 0 then Checked(Swept(waits, []), false)
    else if !changes.Arr? then Checked(Swept(waits, []), true)
    else SweepItemsAsWritten(waits, changes.items, store, deleted, now)
  }

  /**
   * `onWorldTick` reads `changes` as an object keyed by uuid. On such an
   * object, whenever a wait is pending, the as-written check throws and
   * settles nothing: every wait stays pending.
   */
  lemma ObjectChangesSettleNothing(waits: seq<PendingWait>, changes: Fields, store: Entries,
                                   deleted: map<Key, Option<Entity>>, now: int)
    requires |waits| > 0
    ensures var r := CheckAsWritten(waits, Obj(changes), store, deleted, now);
      r.threw && r.swept.kept == waits && r.swept.settled == []
  {
  }
}
