/** The promises around the flush: one global write order cannot deadlock, a
    flush that starts after a delete brings no counter of the deleted resource
    back, and pruning in batches is one unbounded delete. */
module StatsUpkeep {
  import opened Collections
  import opened Tables
  import opened DailyStats
  import opened Protocol
  import opened Invariants
  import opened Identity
  import opened FlushSink
  import opened FlushStats

  // ------------------------------------------------------------ row locks

  /** A multi-row upsert under way: it has locked the rows before `pos` and asks
      for the one at `pos`; past the end it has committed and released them. */
  datatype Writer = Writer(batch: seq<StatCoord>, pos: nat)
  {
    predicate Active() { pos < |batch| }

    predicate Locks(c: StatCoord) { Active() && c in batch[..pos] }

    function Wanted(): StatCoord
      requires Active()
    {
      batch[pos]
    }
  }

  /** Every statement of every flush locks its rows in the one write order. */
  lemma EveryBatchAscends(coords: set<StatCoord>, live: set<StatCoord>, start: nat, end: nat)
    requires start <= end <= |Keep(WriteOrder(coords), live)|
    ensures CoordsAscend(Keep(WriteOrder(coords), live)[start..end])
  {
    WriteOrderLists(coords);
    KeepOrder(WriteOrder(coords), live, CoordLess);
  }

  /** `a` has to wait until `b` commits. */
  predicate WaitsFor(a: Writer, b: Writer) {
    a.Active() && b.Locks(a.Wanted())
  }

  lemma WaitingClimbs(a: Writer, b: Writer)
    requires WaitsFor(a, b) && CoordsAscend(b.batch)
    ensures CoordLess(a.Wanted(), b.Wanted())
  {
    var i :| 0 <= i < b.pos && b.batch[..b.pos][i] == a.Wanted();
  }

  /** Along a chain of waits the wanted rows only climb. */
  lemma {:induction false} ChainClimbs(chain: seq<Writer>)
    requires |chain| >= 2
    requires forall i | 0 <= i < |chain| :: CoordsAscend(chain[i].batch)
    requires forall i | 0 <= i < |chain| - 1 :: WaitsFor(chain[i], chain[i + 1])
    ensures chain[0].Active() && chain[|chain| - 1].Active()
    ensures CoordLess(chain[0].Wanted(), chain[|chain| - 1].Wanted())
    decreases |chain|
  {
    var last := |chain| - 1;
    WaitingClimbs(chain[last - 1], chain[last]);
    if last > 1 {
      ChainClimbs(chain[..last]);
    }
  }

  /** Flushes that write in one order never wait in a circle. */
  lemma NoWaitCycle(cycle: seq<Writer>)
    requires |cycle| >= 1
    requires forall i | 0 <= i < |cycle| :: CoordsAscend(cycle[i].batch)
    ensures exists i | 0 <= i < |cycle| :: !WaitsFor(cycle[i], cycle[if i + 1 < |cycle| then i + 1 else 0])
  {
    var last := |cycle| - 1;
    if forall i | 0 <= i < last :: WaitsFor(cycle[i], cycle[i + 1]) {
      if last > 0 {
        ChainClimbs(cycle);
      }
      if WaitsFor(cycle[last], cycle[0]) {
        WaitingClimbs(cycle[last], cycle[0]);
        assert false;
      }
      assert !WaitsFor(cycle[last], cycle[if last + 1 < |cycle| then last + 1 else 0]);
    } else {
      var i :| 0 <= i < last && !WaitsFor(cycle[i], cycle[i + 1]);
      assert !WaitsFor(cycle[i], cycle[if i + 1 < |cycle| then i + 1 else 0]);
    }
  }

  /** Without the common order two flushes can block each other. */
  lemma UnorderedWritersCanDeadlock()
    ensures exists a: Writer, b: Writer :: WaitsFor(a, b) && WaitsFor(b, a)
  {
    var c, d := StatCoord(1, 1), StatCoord(1, 2);
    var a, b := Writer([c, d], 1), Writer([d, c], 1);
    assert b.batch[..b.pos][0] == d && a.batch[..a.pos][0] == c;
    assert WaitsFor(a, b) && WaitsFor(b, a);
  }

  predicate CanProceed(writers: seq<Writer>, i: nat)
    requires i < |writers|
  {
    writers[i].Active() && forall j | 0 <= j < |writers| && j != i :: !WaitsFor(writers[i], writers[j])
  }

  /** The writer that wants the highest row is never blocked, so some flush can always go on. */
  lemma SomeWriterProceeds(writers: seq<Writer>)
    requires forall i | 0 <= i < |writers| :: CoordsAscend(writers[i].batch)
    requires exists i | 0 <= i < |writers| :: writers[i].Active()
    ensures exists i | 0 <= i < |writers| :: CanProceed(writers, i)
  {
    var top := HighestWriter(writers, |writers|);
    forall j | 0 <= j < |writers| && j != top
      ensures !WaitsFor(writers[top], writers[j])
    {
      if WaitsFor(writers[top], writers[j]) {
        WaitingClimbs(writers[top], writers[j]);
        assert false;
      }
    }
    assert CanProceed(writers, top);
  }

  lemma {:induction false} HighestWriter(writers: seq<Writer>, n: nat) returns (top: nat)
    requires n <= |writers| && exists i | 0 <= i < n :: writers[i].Active()
    ensures top < n && writers[top].Active()
    ensures forall i | 0 <= i < n && writers[i].Active() :: !CoordLess(writers[top].Wanted(), writers[i].Wanted())
  {
    var last := n - 1;
    if exists i | 0 <= i < last :: writers[i].Active() {
      top := HighestWriter(writers, last);
      if writers[last].Active() && CoordLess(writers[top].Wanted(), writers[last].Wanted()) {
        top := last;
      }
    } else {
      top := last;
    }
  }

  // --------------------------------------------------- deleted resources

  /** No flush that starts after a cascade brings the resource's counters back:
      if every page of the liveness read sees a state reached after the resource
      was deleted, nothing of its coordinate is sent, and its sums grow by what
      others land and by nothing of this flush. */
  lemma FlushAfterCascadeSendsNothing(w: World, later: nat -> seq<Event>, c: StatCoord, sched: Schedule, n: nat,
                                      pending: Sink, f: Fates, ok: bool, before: Reading, after: Reading)
    requires Inv(w) && Buried(w.db, c)
    requires forall i: nat :: sched(i).seen == Run(w, later(i)).db
    requires Parts(f, CoordsOf(pending)) && Ended(f, sched, n, ok)
    requires DropsExactlyDead(f, WriteOrder(CoordsOf(pending)), sched, true)
    requires Gained(before, after, sched, 0, n, pending, f.sent)
    ensures c !in f.sent && (f.read && c in CoordsOf(pending) ==> c in f.dropped)
    ensures forall kind :: after(StatKey(c, kind)) == before(StatKey(c, kind)) + OthersLanded(sched, n, StatKey(c, kind))
  {
    if f.read && c in CoordsOf(pending) {
      var order := WriteOrder(CoordsOf(pending));
      WriteOrderLists(CoordsOf(pending));
      var i :| 0 <= i < |order| && order[i] == c;
      DeletedStaysDeleted(w, later(i / STATS_FLUSH_BATCH), c);
    }
    assert c in f.sent ==> c in CoordsOf(pending);
    forall kind
      ensures after(StatKey(c, kind)) == before(StatKey(c, kind)) + OthersLanded(sched, n, StatKey(c, kind))
    {
      assert OthersLanded(sched, 0, StatKey(c, kind)) == 0;
    }
  }

  // ----------------------------------------------------------------- prune

  const STATS_PRUNE_BATCH := 500

  type StatTable = map<StatRow, Counters>

  /** The rows of days before the cutoff. */
  function OldRows(table: StatTable, cutoff: int): set<StatRow> {
    set r | r in table && r.day < cutoff
  }

  /** What other processes' flushes land between two prune statements: rows of their current day. */
  datatype Write = Write(day: int, deltas: Sink)

  function Written(table: StatTable, w: Write): StatTable {
    Upsert(table, w.day, w.deltas, CoordsOf(w.deltas))
  }

  /** The table with the first `n` foreign writes and no prune. */
  ghost function WithWrites(table: StatTable, writes: nat -> Write, n: nat): StatTable {
    if n == 0 then table else Written(WithWrites(table, writes, n - 1), writes(n - 1))
  }

  class StatsPruner {
    var table: StatTable

    constructor (table: StatTable)
      ensures this.table == table
    {
      this.table := table;
    }

    /** The batched delete; `cutoffs` are the day boundaries its statements see.
        Whatever other flushes write in between (each writes its current day, which
        no cutoff of that moment has passed), it is one unbounded delete at the
        boundary of its last statement, with the same total. */
    method PruneStats(retentionDays: int, cutoffs: nat -> int, writes: nat -> Write, ghost horizon: int)
      returns (total: Option<nat>, statements: nat)
      requires forall i: nat, j: nat | i <= j :: cutoffs(i) <= cutoffs(j) <= horizon
      requires forall i: nat :: cutoffs(i) <= writes(i).day
      modifies this
      ensures total.None? <==> retentionDays <= 0
      ensures total.None? ==> table == old(table)
      ensures total.Some? ==>
                && statements > 0
                && var all := WithWrites(old(table), writes, statements);
                   var stale := OldRows(all, cutoffs(statements - 1));
                   && table == all - stale && total.value == |stale|
                   && statements == total.value / STATS_PRUNE_BATCH + 1
    {
      statements := 0;
      if retentionDays <= 0 {
        return None, 0;
      }
      var deleted := 0;
      ghost var gone: set<StatRow> := {};
      while true
        invariant Pruned(old(table), writes, cutoffs, statements, gone) && table == WithWrites(old(table), writes, statements) - gone
        invariant deleted == |gone| == statements * STATS_PRUNE_BATCH
        decreases horizon - cutoffs(statements), |OldRows(table, cutoffs(statements))|
      {
        ghost var batch;
        var n;
        n, batch := PruneOnce(old(table), cutoffs, writes, statements, gone);
        gone := gone + batch;
        statements := statements + 1;
        deleted := deleted + n;
        if n < STATS_PRUNE_BATCH {
          return Some(deleted), statements;
        }
      }
    }

    /** One statement of the loop, after others have written. */
    method PruneOnce(ghost first: StatTable, cutoffs: nat -> int, writes: nat -> Write, i: nat, ghost gone: set<StatRow>)
      returns (n: nat, ghost batch: set<StatRow>)
      requires forall i: nat, j: nat | i <= j :: cutoffs(i) <= cutoffs(j)
      requires cutoffs(i) <= writes(i).day
      requires Pruned(first, writes, cutoffs, i, gone) && table == WithWrites(first, writes, i) - gone
      modifies this
      ensures n == |batch| <= STATS_PRUNE_BATCH && |gone + batch| == |gone| + n
      ensures Pruned(first, writes, cutoffs, i + 1, gone + batch) && table == WithWrites(first, writes, i + 1) - (gone + batch)
      ensures |OldRows(table, cutoffs(i))| == |OldRows(old(table), cutoffs(i))| - n
      ensures n < STATS_PRUNE_BATCH ==> gone + batch == OldRows(WithWrites(first, writes, i + 1), cutoffs(i))
    {
      WritesSparePast(first, writes, cutoffs, i, gone);
      table := Written(table, writes(i));
      var chosen := TakeLeast(OldRows(table, cutoffs(i)), STATS_PRUNE_BATCH, (r: StatRow) => r.day);
      batch := chosen;
      BatchGoes(first, writes, cutoffs, i, gone, chosen);
      LessIsLeft(table, cutoffs(i), chosen);
      table := table - chosen;
      n := |chosen|;
    }
  }

  /** The rows deleted by `n` statements were old for the last of them. */
  ghost predicate Pruned(first: StatTable, writes: nat -> Write, cutoffs: nat -> int, n: nat, gone: set<StatRow>) {
    && gone <= WithWrites(first, writes, n).Keys
    && (n == 0 ==> gone == {})
    && (n > 0 ==> forall r | r in gone :: r.day < cutoffs(n - 1))
  }

  /** A write of the current day neither touches what was pruned nor what could be pruned now. */
  lemma WritesSparePast(first: StatTable, writes: nat -> Write, cutoffs: nat -> int, n: nat, gone: set<StatRow>)
    requires forall i: nat, j: nat | i <= j :: cutoffs(i) <= cutoffs(j)
    requires cutoffs(n) <= writes(n).day && Pruned(first, writes, cutoffs, n, gone)
    ensures var before, after := WithWrites(first, writes, n), WithWrites(first, writes, n + 1);
            && Written(before - gone, writes(n)) == after - gone
            && gone <= after.Keys
            && OldRows(Written(before - gone, writes(n)), cutoffs(n)) == OldRows(before - gone, cutoffs(n))
  {
    var before, w := WithWrites(first, writes, n), writes(n);
    var rows := RowsFor(w.day, CoordsOf(w.deltas));
    forall r | r in gone
      ensures r !in rows
    {
      assert n > 0 && cutoffs(n - 1) <= cutoffs(n);
      TouchedRows(w.day, CoordsOf(w.deltas), r);
    }
    forall r: StatRow
      ensures r in rows ==> r.day == w.day
    {
      TouchedRows(w.day, CoordsOf(w.deltas), r);
    }
    assert Written(before - gone, w) == Written(before, w) - gone;
  }

  lemma BatchGoes(first: StatTable, writes: nat -> Write, cutoffs: nat -> int, n: nat, gone: set<StatRow>, batch: set<StatRow>)
    requires forall i: nat, j: nat | i <= j :: cutoffs(i) <= cutoffs(j)
    requires Pruned(first, writes, cutoffs, n, gone) && gone <= WithWrites(first, writes, n + 1).Keys
    requires var stale := OldRows(WithWrites(first, writes, n + 1) - gone, cutoffs(n));
             batch <= stale && |batch| == if |stale| < STATS_PRUNE_BATCH then |stale| else STATS_PRUNE_BATCH
    ensures var all := WithWrites(first, writes, n + 1);
            && Pruned(first, writes, cutoffs, n + 1, gone + batch)
            && all - gone - batch == all - (gone + batch) && |gone + batch| == |gone| + |batch|
            && (|batch| < STATS_PRUNE_BATCH ==> gone + batch == OldRows(all, cutoffs(n)))
  {
    Union(gone, batch);
    if n > 0 {
      assert cutoffs(n - 1) <= cutoffs(n);
    }
    GoneIsOld(WithWrites(first, writes, n + 1), gone, batch, cutoffs(n));
  }

  lemma LessIsLeft(table: StatTable, cutoff: int, batch: set<StatRow>)
    requires batch <= OldRows(table, cutoff)
    ensures |OldRows(table - batch, cutoff)| == |OldRows(table, cutoff)| - |batch|
  {
    Minus(OldRows(table, cutoff), batch);
    assert OldRows(table - batch, cutoff) == OldRows(table, cutoff) - batch;
  }

  lemma GoneIsOld(all: StatTable, gone: set<StatRow>, batch: set<StatRow>, cutoff: int)
    requires gone <= all.Keys && (forall r | r in gone :: r.day < cutoff) && batch <= OldRows(all - gone, cutoff)
    requires |batch| == if |OldRows(all - gone, cutoff)| < STATS_PRUNE_BATCH then |OldRows(all - gone, cutoff)| else STATS_PRUNE_BATCH
    ensures all - gone - batch == all - (gone + batch)
    ensures |batch| < STATS_PRUNE_BATCH ==> gone + batch == OldRows(all, cutoff)
  {
    if |batch| < STATS_PRUNE_BATCH {
      Minus(OldRows(all - gone, cutoff), batch);
      assert OldRows(all - gone, cutoff) - batch == {};
      forall r: StatRow
        ensures r in gone + batch <==> r in OldRows(all, cutoff)
      {
        assert r in OldRows(all - gone, cutoff) <==> r in OldRows(all, cutoff) && r !in gone;
      }
    }
  }
}
