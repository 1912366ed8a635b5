/** PurgeExpired: two statements for the deliveries and two for the orphan
    messages, with other processes running in between; and the attribution that
    the Postgres driver takes from its SELECT instead of its DELETE. */
module Maintenance {
  import opened Collections
  import opened Tables
  import opened DailyStats
  import opened Statements
  import opened Protocol
  import opened Invariants
  import opened RowLife
  import opened LeaseSafety
  import opened Clusters

  // ----------------------------------------------------- counting the purged

  lemma PurgeDeltaAt(db: Db, gone: set<int>, k: StatKey)
    requires gone <= db.deliveries.Keys
    ensures k in PurgeDelta(db, gone) <==>
              k.kind.StatPurged? && RowsIn(db, gone, k.coord.channelId) != {}
              && k.coord.channelId in db.channels && db.channels[k.coord.channelId].topicId == k.coord.topicId
    ensures k in PurgeDelta(db, gone) ==> PurgeDelta(db, gone)[k] == |RowsIn(db, gone, k.coord.channelId)|
  {
    var c := k.coord.channelId;
    var channels := set id | id in gone && db.deliveries[id].channelId in db.channels :: db.deliveries[id].channelId;
    if RowsIn(db, gone, c) != {} && c in db.channels {
      var id := AnyOf(RowsIn(db, gone, c));
      assert db.deliveries[id].channelId in channels;
      assert KeyOf(db, c) in PurgeDelta(db, gone);
    }
    if k in PurgeDelta(db, gone) {
      assert c in channels;
      var id :| id in gone && db.deliveries[id].channelId == c;
      assert id in RowsIn(db, gone, c);
    }
  }

  lemma OneMoreRow(db: Db, gone: set<int>, id: int, c: int)
    requires id !in gone && id in db.deliveries
    ensures var more := RowsIn(db, gone + {id}, c);
            && |more| == |RowsIn(db, gone, c)| + (if db.deliveries[id].channelId == c then 1 else 0)
            && (more == {} <==> RowsIn(db, gone, c) == {} && db.deliveries[id].channelId != c)
  {
    var come := if db.deliveries[id].channelId == c then {id} else {};
    var more := RowsIn(db, gone + {id}, c);
    forall x: int
      ensures x in more <==> x in RowsIn(db, gone, c) || x in come
    {
    }
    CountAfter(RowsIn(db, gone, c), {}, come, more);
    if more == {} || RowsIn(db, gone, c) == {} {
      assert |more| == 0 || |RowsIn(db, gone, c)| == 0;
    }
  }

  function KeyOf(db: Db, c: int): StatKey
    requires c in db.channels
  {
    StatKey(StatCoord(db.channels[c].topicId, c), StatPurged)
  }

  lemma PurgeDeltaGrows(db: Db, gone: set<int>, id: int)
    requires gone <= db.deliveries.Keys && id in db.deliveries && id !in gone
    ensures var c, was := db.deliveries[id].channelId, PurgeDelta(db, gone);
            PurgeDelta(db, gone + {id}) == if c in db.channels then was[KeyOf(db, c) := At(was, KeyOf(db, c)) + 1] else was
  {
    var c, was, next := db.deliveries[id].channelId, PurgeDelta(db, gone), PurgeDelta(db, gone + {id});
    var want := if c in db.channels then was[KeyOf(db, c) := At(was, KeyOf(db, c)) + 1] else was;
    forall k: StatKey
      ensures k in next <==> k in want
      ensures k in next && k in want ==> next[k] == want[k]
    {
      PurgeDeltaAt(db, gone, k);
      PurgeDeltaAt(db, gone + {id}, k);
      OneMoreRow(db, gone, id, k.coord.channelId);
    }
    SameMap(next, want);
  }

  /** The RETURNING loop: a missing channel row still counts as deleted, but records nothing. */
  method CountPurged(db: Db, rows: seq<int>) returns (n: nat, counts: Sink)
    requires NoRepeats(rows) && forall i | 0 <= i < |rows| :: rows[i] in db.deliveries
    ensures n == |rows|
    ensures ToSet(rows) <= db.deliveries.Keys && counts == PurgeDelta(db, ToSet(rows))
  {
    n, counts := 0, map[];
    for i := 0 to |rows|
      invariant n == i && ToSet(rows[..i]) <= db.deliveries.Keys
      invariant counts == PurgeDelta(db, ToSet(rows[..i]))
    {
      var id := rows[i];
      OneMoreMember(rows, i);
      PurgeDeltaGrows(db, ToSet(rows[..i]), id);
      n := n + 1;
      var c := db.deliveries[id].channelId;
      if c in db.channels {
        counts := counts[KeyOf(db, c) := At(counts, KeyOf(db, c)) + 1];
      }
    }
    assert rows[..|rows|] == rows;
  }

  // ---------------------------------------------------------- the purge

  const DEFAULT_LIMIT := 100

  function BatchLimit(limit: int): nat { if limit <= 0 then DEFAULT_LIMIT else limit }

  /** What other processes commit between the four statements. */
  datatype Pauses = Pauses(beforeDelete: seq<Event>, beforeOrphans: seq<Event>, beforeOrphanDelete: seq<Event>)

  /** Every running purge keeps its own orphan selection. */
  ghost predicate LeavesSlot(events: seq<Event>, slot: nat) {
    forall i | 0 <= i < |events| ::
      !(events[i].SelectOrphans? && events[i].slot == slot) && !(events[i].DeleteOrphans? && events[i].slot == slot)
  }

  lemma {:induction false} SelectionSurvives(w: World, events: seq<Event>, slot: nat)
    requires slot < |w.doomed| && LeavesSlot(events, slot)
    ensures |Run(w, events).doomed| == |w.doomed| && Run(w, events).doomed[slot] == w.doomed[slot]
    decreases |events|
  {
    if events != [] {
      var front := events[..|events| - 1];
      forall i | 0 <= i < |front|
        ensures front[i] == events[i]
      {
      }
      SelectionSurvives(w, front, slot);
      SlotStep(Run(w, front), events[|events| - 1], slot);
    }
  }

  lemma SelectionOverTrace(log: seq<Event>, trace: seq<World>, m: nat, n: nat, slot: nat)
    requires Traced(log, trace) && m <= n <= |log| && slot < |trace[m].doomed| && LeavesSlot(log[m..n], slot)
    ensures |trace[n].doomed| == |trace[m].doomed| && trace[n].doomed[slot] == trace[m].doomed[slot]
  {
    TraceBetween(log, trace, m, n);
    SelectionSurvives(trace[m], log[m..n], slot);
  }

  lemma SlotStep(w: World, e: Event, slot: nat)
    requires slot < |w.doomed|
    requires !(e.SelectOrphans? && e.slot == slot) && !(e.DeleteOrphans? && e.slot == slot)
    ensures |Apply(w, e).doomed| == |w.doomed| && Apply(w, e).doomed[slot] == w.doomed[slot]
  {
  }

  /** What DELETE ... RETURNING reports, in any order. */
  method ReturnPurged(db: Db, ids: set<int>) returns (n: nat, counts: Sink)
    ensures n == |PurgeableRows(db, ids)| && counts == PurgeDelta(db, PurgeableRows(db, ids))
  {
    var gone := PurgeableRows(db, ids);
    var returned := AnyOrder(gone);
    forall i | 0 <= i < |returned|
      ensures returned[i] in db.deliveries
    {
      assert returned[i] in gone;
    }
    n, counts := CountPurged(db, returned);
    SameMembers(ToSet(returned), gone);
    ListLength(returned, gone);
  }

  lemma NothingToPurge(db: Db)
    ensures PurgeableRows(db, {}) == {} && db.deliveries - {} == db.deliveries
  {
  }

  lemma SelectedStay(db: Db, orphans: set<int>, chosen: set<int>)
    requires orphans == OrphansAmong(db, db.messages.Keys) && chosen <= orphans
    ensures OrphansAmong(db, chosen) == chosen
  {
    forall m: int
      ensures m in OrphansAmong(db, chosen) <==> m in chosen
    {
      assert m in chosen ==> m in orphans;
    }
    SameMembers(OrphansAmong(db, chosen), chosen);
  }

  class Maintainer {
    const cluster: Cluster
    const owed: nat
    const buffer: nat
    const slot: nat

    constructor (cluster: Cluster, owed: nat, buffer: nat, slot: nat)
      ensures this.cluster == cluster && this.owed == owed && this.buffer == buffer && this.slot == slot
    {
      this.cluster, this.owed, this.buffer, this.slot := cluster, owed, buffer, slot;
    }

    ghost predicate Valid()
      reads this, cluster
    {
      && cluster.Valid()
      && owed < |cluster.w.sinks| && buffer < |cluster.w.sinks| && owed != buffer && slot < |cluster.w.doomed|
    }

    /** SELECT the doomed deliveries, let others run, DELETE what is still
        purgeable, and record exactly the rows the DELETE returned. */
    method PurgeDeliveries(limit: nat, pause: seq<Event>) returns (n: nat, ghost ids: set<int>)
      requires Valid()
      modifies cluster
      ensures Valid() && old(cluster.trace) <= cluster.trace && |old(cluster.log) + pause| < |cluster.trace|
      ensures DoomedBatch(old(cluster.w.db), ids, limit)
      ensures var at := cluster.trace[|old(cluster.log) + pause|].db;
              && n == |PurgeableRows(at, ids)|
              && cluster.w.db.deliveries == at.deliveries - PurgeableRows(at, ids)
              && cluster.log == old(cluster.log) + pause + PurgeEvents(at, owed, buffer, ids)
    {
      var db := cluster.w.db;
      var doomed := TakeLeast(PurgeableRows(db, db.deliveries.Keys), limit, id => DeliveryExpiry(db, id));
      ids := doomed;
      cluster.Interfere(pause);
      if doomed == {} {
        n := 0;
        NothingToPurge(cluster.w.db);
      } else {
        n := DeleteReturning(doomed);
      }
    }

    /** The DELETE ... RETURNING statement and its recordStat calls. */
    method DeleteReturning(ids: set<int>) returns (n: nat)
      requires Valid() && ids != {}
      modifies cluster
      ensures Valid() && old(cluster.trace) <= cluster.trace
      ensures n == |PurgeableRows(old(cluster.w.db), ids)|
      ensures cluster.w.db.deliveries == old(cluster.w.db.deliveries) - PurgeableRows(old(cluster.w.db), ids)
      ensures cluster.log == old(cluster.log) + PurgeEvents(old(cluster.w.db), owed, buffer, ids)
    {
      var counts;
      n, counts := ReturnPurged(cluster.w.db, ids);
      cluster.Commit(PurgeRows(owed, ids));
      cluster.Commit(MoveDeltas(owed, buffer, CoordsOf(counts)));
    }

    /** SELECT the orphan messages, let others run, delete them unchecked.  No
        delivery goes with them, whatever ran in between. */
    method PurgeOrphans(limit: nat, pause: seq<Event>) returns (n: nat, ghost msgs: set<int>)
      requires Valid() && LeavesSlot(pause, slot)
      modifies cluster
      ensures Valid() && old(cluster.trace) <= cluster.trace
      ensures OrphanBatch(old(cluster.w.db), msgs, limit)
      ensures |old(cluster.log) + [SelectOrphans(slot, msgs)] + pause| < |cluster.trace|
      ensures var at := cluster.trace[|old(cluster.log) + [SelectOrphans(slot, msgs)] + pause|].db;
              && cluster.w.db.deliveries == at.deliveries && cluster.w.db.messages == at.messages - msgs
              && n == |msgs * at.messages.Keys|
      ensures cluster.log == old(cluster.log) + [SelectOrphans(slot, msgs)] + pause + (if msgs == {} then [] else [DeleteOrphans(slot)])
    {
      var doomed := SelectBatch(limit);
      msgs := doomed;
      ghost var m := |cluster.log|;
      cluster.Interfere(pause);
      assert cluster.log[m..|cluster.log|] == pause;
      SelectionOverTrace(cluster.log, cluster.trace, m, |cluster.log|, slot);
      n := |doomed * cluster.w.db.messages.Keys|;
      if doomed != {} {
        DeleteSelected(doomed);
      }
    }

    method SelectBatch(limit: nat) returns (msgs: set<int>)
      requires Valid()
      modifies cluster
      ensures Valid() && cluster.w.doomed[slot] == msgs && old(cluster.trace) <= cluster.trace
      ensures OrphanBatch(old(cluster.w.db), msgs, limit)
      ensures cluster.log == old(cluster.log) + [SelectOrphans(slot, msgs)]
    {
      var db := cluster.w.db;
      var orphans := OrphansAmong(db, db.messages.Keys);
      msgs := TakeLeast(orphans, limit, id => MessageExpiry(db, id));
      cluster.Commit(SelectOrphans(slot, msgs));
      SelectedStay(db, orphans, msgs);
    }

    method DeleteSelected(ghost msgs: set<int>)
      requires Valid() && cluster.w.doomed[slot] == msgs
      modifies cluster
      ensures Valid() && old(cluster.trace) <= cluster.trace
      ensures cluster.w.db.deliveries == old(cluster.w.db.deliveries)
      ensures cluster.w.db.messages == old(cluster.w.db.messages) - msgs
      ensures cluster.log == old(cluster.log) + [DeleteOrphans(slot)]
    {
      cluster.Sound();
      OrphanDeleteSparesDeliveries(cluster.w, slot);
      cluster.Commit(DeleteOrphans(slot));
    }

    /** The whole purge.  Each SELECT takes a full batch of what is eligible then,
        oldest first; the DELETE removes, counts and records exactly the rows still
        purgeable when it runs; the orphan DELETE removes exactly the selected
        messages, and no delivery. */
    method PurgeExpired(limit: int, pauses: Pauses) returns (n: nat, ghost ids: set<int>, ghost msgs: set<int>)
      requires Valid() && LeavesSlot(pauses.beforeOrphanDelete, slot)
      modifies cluster
      ensures Valid()
      ensures Purged(cluster.trace, cluster.log, old(cluster.log), owed, buffer, slot, BatchLimit(limit), pauses, ids, msgs, n, cluster.w.db)
    {
      var n1, n2;
      n1, ids := PurgeDeliveries(BatchLimit(limit), pauses.beforeDelete);
      cluster.Interfere(pauses.beforeOrphans);
      n2, msgs := PurgeOrphans(BatchLimit(limit), pauses.beforeOrphanDelete);
      n := n1 + n2;
    }
  }

  /** A full batch of the deliveries that are purgeable now, oldest expiry first. */
  ghost predicate DoomedBatch(db: Db, ids: set<int>, limit: nat) {
    var all := PurgeableRows(db, db.deliveries.Keys);
    && ids <= all && |ids| == (if |all| < limit then |all| else limit)
    && forall x, y | x in ids && y in all && y !in ids :: DeliveryExpiry(db, x) <= DeliveryExpiry(db, y)
  }

  /** A full batch of the messages that are orphans now, oldest expiry first. */
  ghost predicate OrphanBatch(db: Db, msgs: set<int>, limit: nat) {
    var all := OrphansAmong(db, db.messages.Keys);
    && msgs <= all && |msgs| == (if |all| < limit then |all| else limit)
    && forall x, y | x in msgs && y in all && y !in msgs :: MessageExpiry(db, x) <= MessageExpiry(db, y)
  }

  function DeliveryExpiry(db: Db, id: int): int { if id in db.deliveries then db.deliveries[id].expiresAt else 0 }

  function MessageExpiry(db: Db, id: int): int { if id in db.messages then db.messages[id].expiresAt else 0 }

  /** The log up to the DELETE, up to the orphan SELECT, and up to the orphan DELETE. */
  function BeforeDelete(first: seq<Event>, p: Pauses): seq<Event> { first + p.beforeDelete }

  function BeforeOrphans(first: seq<Event>, p: Pauses, at: Db, owed: nat, buffer: nat, ids: set<int>): seq<Event> {
    BeforeDelete(first, p) + PurgeEvents(at, owed, buffer, ids) + p.beforeOrphans
  }

  function BeforeOrphanDelete(first: seq<Event>, p: Pauses, at: Db, owed: nat, buffer: nat, ids: set<int>, slot: nat, msgs: set<int>): seq<Event> {
    BeforeOrphans(first, p, at, owed, buffer, ids) + [SelectOrphans(slot, msgs)] + p.beforeOrphanDelete
  }

  /** A whole purge that started at log `first` and ended in `db`. */
  ghost predicate Purged(trace: seq<World>, log: seq<Event>, first: seq<Event>, owed: nat, buffer: nat, slot: nat, limit: nat, p: Pauses,
                         ids: set<int>, msgs: set<int>, n: nat, db: Db)
  {
    && |first| < |trace| && DoomedBatch(trace[|first|].db, ids, limit)
    && |BeforeDelete(first, p)| < |trace|
    && var at := trace[|BeforeDelete(first, p)|].db;
       var select := BeforeOrphans(first, p, at, owed, buffer, ids);
       var delete := BeforeOrphanDelete(first, p, at, owed, buffer, ids, slot, msgs);
       && |select| < |trace| && OrphanBatch(trace[|select|].db, msgs, limit)
       && |delete| < |trace|
       && log == delete + (if msgs == {} then [] else [DeleteOrphans(slot)])
       && var last := trace[|delete|].db;
          && n == |PurgeableRows(at, ids)| + |msgs * last.messages.Keys|
          && db.deliveries == last.deliveries && db.messages == last.messages - msgs
  }

  /** If anything was selected: the delete with its attribution, and the recording of the returned counts. */
  function PurgeEvents(db: Db, owed: nat, buffer: nat, ids: set<int>): seq<Event> {
    if ids == {} then []
    else [PurgeRows(owed, ids), MoveDeltas(owed, buffer, CoordsOf(PurgeDelta(db, PurgeableRows(db, ids))))]
  }

  // ------------------------------------- attribution taken from the SELECT

  /** A row id names the same row for ever: it never comes back after a delete, and never changes channel. */
  lemma {:induction false} RowKeepsChannel(w: World, events: seq<Event>, id: int)
    requires Inv(w) && id in w.db.deliveries
    ensures id < Run(w, events).db.nextDelivery
    ensures id in Run(w, events).db.deliveries ==> Run(w, events).db.deliveries[id].channelId == w.db.deliveries[id].channelId
    decreases |events|
  {
    if events != [] {
      var front := events[..|events| - 1];
      RowKeepsChannel(w, front, id);
      InvRun(w, front);
      RowStep(Run(w, front), events[|events| - 1], id);
    }
  }

  /** The selected rows of a channel that the DELETE no longer finds purgeable. */
  function Escaped(selected: Db, deleted: Db, ids: set<int>, c: int): set<int> {
    set id | id in RowsIn(selected, ids, c) && id !in PurgeableRows(deleted, ids)
  }

  /** The Postgres purge records what its SELECT saw.  It never records fewer
      rows than it deletes; it records too many by exactly the selected rows
      that were acked, revived, re-leased or removed before the DELETE. */
  lemma SelectAttributionOvercounts(w: World, events: seq<Event>, ids: set<int>, c: int)
    requires Inv(w) && ids <= w.db.deliveries.Keys
    ensures var later := Run(w, events).db;
            |RowsIn(w.db, ids, c)| == |RowsIn(later, PurgeableRows(later, ids), c)| + |Escaped(w.db, later, ids, c)|
  {
    var later := Run(w, events).db;
    var gone := RowsIn(later, PurgeableRows(later, ids), c);
    forall id: int
      ensures id in gone ==> id in RowsIn(w.db, ids, c)
      ensures id in Escaped(w.db, later, ids, c) <==> (id in RowsIn(w.db, ids, c) && id !in gone)
    {
      if id in ids {
        RowKeepsChannel(w, events, id);
      }
    }
    CountAfter(RowsIn(w.db, ids, c), gone, {}, Escaped(w.db, later, ids, c));
  }

  // ------------------------------------------------ the reaper's recheck

  /** The Postgres reaper selects its ids first and rechecks its predicate on the
      newest rows.  A selected row that is under a valid lease when the update
      runs is under another lease than the one selected, and stays as it is; a
      row still under the selected lease goes back to pending. */
  lemma ReapRecheckSparesNewLeases(w: World, events: seq<Event>, ids: set<int>, id: int)
    requires Inv(w) && ids == Reapable(w.db, ids) && id in ids
    ensures var later := Run(w, events);
            && (ValidLease(later.db, id) ==>
                  && later.db.deliveries[id].leaseToken != w.db.deliveries[id].leaseToken
                  && Unchanged(later.db, Apply(later, ReapRows(ids)).db, id))
            && (id in later.db.deliveries && later.db.deliveries[id].leaseToken == w.db.deliveries[id].leaseToken ==>
                  Find(Apply(later, ReapRows(ids)).db, id) == Some(BackToPending(w.db.deliveries[id], later.db.now)))
  {
    var later := Run(w, events);
    assert RowShape(w.db.deliveries[id]);
    InvRun(w, events);
    VersionPinsRows(w, events);
    RowStep(later, ReapRows(ids), id);
    if id in later.db.deliveries && later.db.deliveries[id].leaseToken == w.db.deliveries[id].leaseToken {
      assert RowShape(later.db.deliveries[id]);
      HeldLeaseIsUnchanged(w, events, id, w.db.deliveries[id].leaseToken.value);
    }
  }

  /** What the update would do if it only looked at the ids. */
  function UncheckedReap(db: Db, ids: set<int>): Db {
    db.(deliveries := map id | id in db.deliveries ::
                        if id in ids then BackToPending(db.deliveries[id], db.now) else db.deliveries[id])
  }

  /** Rechecking and not rechecking agree exactly when every selected row that is
      left is still under an expired lease, or already looks like a reaped row. */
  lemma RecheckMattersIff(db: Db, ids: set<int>)
    ensures ReapStmt(db, ids) == UncheckedReap(db, ids) <==>
            forall id | id in ids && id in db.deliveries ::
              db.deliveries[id].LeaseExpired(db.now) || db.deliveries[id] == BackToPending(db.deliveries[id], db.now)
  {
    var a, b := ReapStmt(db, ids).deliveries, UncheckedReap(db, ids).deliveries;
    if forall id | id in ids && id in db.deliveries ::
         db.deliveries[id].LeaseExpired(db.now) || db.deliveries[id] == BackToPending(db.deliveries[id], db.now)
    {
      forall id: int
        ensures id in a <==> id in b
        ensures id in a && id in b ==> a[id] == b[id]
      {
      }
      SameMap(a, b);
    } else {
      var id :| id in ids && id in db.deliveries
                && !db.deliveries[id].LeaseExpired(db.now) && db.deliveries[id] != BackToPending(db.deliveries[id], db.now);
      assert a[id] != b[id];
    }
  }
}
