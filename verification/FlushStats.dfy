/** FlushStats: swap the buffer out, coalesce, sort, filter dead coordinates in
    place, upsert in batches, and merge back what never landed. */
module FlushStats {
  import opened Collections
  import opened Tables
  import opened DailyStats
  import opened Statements
  import opened FlushSink

  type Buffered = s: Sink | ValidSink(s) witness map[]

  /** What happens around one statement of a flush: the net recordStat calls of
      other goroutines and the rows other flushes land just before it, the day
      and the tables it sees, whether it reaches the database, and whether its
      reply comes back.  A statement that commits and loses its reply fails too. */
  datatype Meanwhile = Meanwhile(recorded: Buffered, landed: Sink, day: int, seen: Db, reaches: bool, replies: bool)
  {
    predicate Fails() { !reaches || !replies }
  }

  type Schedule = nat -> Meanwhile

  ghost function Arrived(sched: Schedule, n: nat, k: StatKey): int {
    if n == 0 then 0 else Arrived(sched, n - 1, k) + At(sched(n - 1).recorded, k)
  }

  ghost function OthersLanded(sched: Schedule, n: nat, k: StatKey): int {
    if n == 0 then 0 else OthersLanded(sched, n - 1, k) + At(sched(n - 1).landed, k)
  }

  // ------------------------------------------------------------ statements

  /** One multi-row upsert: the proposed values are added onto the stored row of the day. */
  function UpsertBatch(stats: map<StatRow, Counters>, day: int, rows: map<StatCoord, Counters>): map<StatRow, Counters> {
    map r | r in stats.Keys + RowsFor(day, rows.Keys) ::
      if r in RowsFor(day, rows.Keys) && r.coord in rows then Plus(CountersAt(stats, r), rows[r.coord]) else CountersAt(stats, r)
  }

  lemma BatchLands(stats: map<StatRow, Counters>, day: int, rows: map<StatCoord, Counters>, pending: Sink)
    requires forall c | c in rows :: rows[c] == Coalesced(pending, c)
    ensures UpsertBatch(stats, day, rows) == Upsert(stats, day, pending, rows.Keys)
  {
  }

  lemma BatchReads(stats: map<StatRow, Counters>, day: int, rows: map<StatCoord, Counters>, pending: Sink, k: StatKey)
    requires forall c | c in rows :: rows[c] == Coalesced(pending, c)
    ensures Landed(UpsertBatch(stats, day, rows), k) == Landed(stats, k) + (if k.coord in rows then At(pending, k) else 0)
  {
    BatchLands(stats, day, rows, pending);
    LandedUpsert(stats, day, pending, rows.Keys, k);
  }

  /** One page of the liveness read: real coordinates must match a channel row,
      sentinels only their topic row. */
  method ReadPage(db: Db, page: seq<StatCoord>) returns (found: set<StatCoord>)
    ensures forall c :: c in found <==> c in page && LiveCoord(db, c)
  {
    var pairs: seq<StatCoord>, sentinels: seq<StatCoord> := [], [];
    for i := 0 to |page|
      invariant forall c :: c in pairs <==> c in page[..i] && c.channelId != 0
      invariant forall c :: c in sentinels <==> c in page[..i] && c.channelId == 0
    {
      if page[i].channelId == 0 {
        sentinels := sentinels + [page[i]];
      } else {
        pairs := pairs + [page[i]];
      }
      assert page[..i + 1] == page[..i] + [page[i]];
    }
    assert page[..|page|] == page;
    var channels := set c | c in pairs && c.channelId in db.channels && db.channels[c.channelId].topicId == c.topicId;
    var topics := set c | c in sentinels && c.topicId in db.topics;
    found := channels + topics;
  }

  // -------------------------------------------------- in-place compaction

  lemma KeepCoordsAscend(s: seq<StatCoord>, live: set<StatCoord>)
    requires CoordsAscend(s)
    ensures CoordsAscend(Keep(s, live))
  {
    KeepOrder(s, live, CoordLess);
  }

  /** kept := order[:0]; the survivors move to the front of the same array, and
      the counts of the others are deleted. */
  method Compact(order: array<StatCoord>, live: set<StatCoord>, counts: map<StatCoord, Counters>)
    returns (kept: nat, rest: map<StatCoord, Counters>)
    modifies order
    ensures kept <= order.Length && order[..kept] == Keep(old(order[..]), live)
    ensures forall c :: c in rest <==> c in counts && (c in live || c !in old(order[..]))
    ensures forall c | c in rest :: c in counts && rest[c] == counts[c]
  {
    ghost var was := order[..];
    kept, rest := 0, counts;
    for i := 0 to order.Length
      invariant kept <= i && order[..kept] == Keep(was[..i], live)
      invariant forall j | i <= j < order.Length :: order[j] == was[j]
      invariant forall c :: c in rest <==> c in counts && (c in live || c !in was[..i])
      invariant forall c | c in rest :: c in counts && rest[c] == counts[c]
    {
      var c := order[i];
      assert c == was[i] && was[..i + 1] == was[..i] + [c];
      assert was[..i + 1][..i] == was[..i];
      if c in live {
        order[kept] := c;
        assert order[..kept + 1] == order[..kept] + [c];
        kept := kept + 1;
      } else {
        rest := rest - {c};
      }
    }
    assert was[..order.Length] == was;
  }

  // ------------------------------------------------------------- the flush

  type Reading = StatKey -> int

  /** Between statements `m` and `n` the table gained exactly what other flushes
      landed, plus the pending deltas of the coordinates in `sent`. */
  ghost predicate Gained(before: Reading, after: Reading, sched: Schedule, m: nat, n: nat, pending: Sink, sent: set<StatCoord>) {
    forall k {:trigger after(k)} :: after(k) == before(k) + OthersLanded(sched, n, k) - OthersLanded(sched, m, k)
                            + (if k.coord in sent then At(pending, k) else 0)
  }

  /** Between statements `m` and `n` the buffer gained exactly what other goroutines recorded. */
  ghost predicate Heard(before: Sink, after: Sink, sched: Schedule, m: nat, n: nat) {
    forall k {:trigger At(after, k)} :: At(after, k) == At(before, k) + Arrived(sched, n, k) - Arrived(sched, m, k)
  }

  /** Statements `m` to `n` all succeed. */
  ghost predicate Succeed(sched: Schedule, m: nat, n: nat) {
    n <= m || (Succeed(sched, m, n - 1) && !sched(n - 1).Fails())
  }

  lemma {:induction false} SucceedChain(sched: Schedule, m: nat, n: nat)
    requires m <= n && Succeed(sched, 0, m) && Succeed(sched, m, n)
    ensures Succeed(sched, 0, n)
  {
    if m < n {
      SucceedChain(sched, m, n - 1);
    }
  }

  /** `found` are those of the first `upto` coordinates that were live when their page was read. */
  ghost predicate ReadLive(coords: seq<StatCoord>, upto: int, sched: Schedule, found: set<StatCoord>)
    requires 0 <= upto <= |coords|
  {
    && (forall c :: c in found ==> c in coords[..upto])
    && (forall i | 0 <= i < upto :: coords[i] in found <==> LiveCoord(sched(i / STATS_FLUSH_BATCH).seen, coords[i]))
  }

  function Min(a: int, b: int): int { if a < b then a else b }

  /** The coordinates of the first `n` rows. */
  ghost function Sent(order: seq<StatCoord>, n: nat): set<StatCoord> {
    ToSet(order[..Min(n, |order|)])
  }

  /** The coalesced row of every listed coordinate. */
  ghost predicate Holds(counts: map<StatCoord, Counters>, pending: Sink, coords: seq<StatCoord>) {
    forall i | 0 <= i < |coords| :: coords[i] in counts && counts[coords[i]] == Coalesced(pending, coords[i])
  }

  method Narrow(order: array<StatCoord>, live: set<StatCoord>, counts: map<StatCoord, Counters>, ghost pending: Sink)
    returns (kept: seq<StatCoord>, rest: map<StatCoord, Counters>)
    requires Holds(counts, pending, order[..])
    modifies order
    ensures kept == Keep(old(order[..]), live) && Holds(rest, pending, kept)
  {
    ghost var all := order[..];
    var len;
    len, rest := Compact(order, live, counts);
    kept := order[..len];
    KeepLists(all, live);
    forall i | 0 <= i < |kept|
      ensures kept[i] in rest && rest[kept[i]] == Coalesced(pending, kept[i])
    {
      assert kept[i] in all && kept[i] in live;
    }
  }

  /** Coalesces a swapped-out buffer and sorts its coordinates. */
  method Drain(pending: Sink) returns (counts: map<StatCoord, Counters>, order: array<StatCoord>)
    ensures fresh(order) && order[..] == WriteOrder(CoordsOf(pending))
    ensures Holds(counts, pending, order[..])
  {
    var met: seq<StatCoord>;
    counts, met := Coalesce(pending);
    SameMembers(ToSet(met), CoordsOf(pending));
    var sorted := WriteOrder(ToSet(met));
    order := new StatCoord[|sorted|](i requires 0 <= i < |sorted| => sorted[i]);
    WriteOrderLists(CoordsOf(pending));
    assert forall i | 0 <= i < |sorted| :: sorted[i] in counts;
  }

  class StatsStore {
    /** SQLite drops the coordinates of deleted resources; MySQL writes everything. */
    const dropsDead: bool
    var statBuf: Buffered
    var table: map<StatRow, Counters>

    /** What the SUM over the table's retained days reads. */
    ghost var landed: Reading

    ghost predicate Valid()
      reads this
    {
      forall k {:trigger Landed(table, k)} :: landed(k) == Landed(table, k)
    }

    constructor (dropsDead: bool)
      ensures Valid() && this.dropsDead == dropsDead && statBuf == map[] && table == map[]
    {
      this.dropsDead, statBuf, table := dropsDead, map[], map[];
      landed := k => Landed(map[], k);
    }

    /** A valid key gains the delta; nothing else in the buffer moves. */
    method RecordStat(k: StatKey, n: int)
      modifies this`statBuf
      ensures forall q :: At(statBuf, q) == At(old(statBuf), q) + (if q == k && ValidKey(k) then n else 0)
      ensures forall q :: q in statBuf <==> q in old(statBuf) || (q == k && ValidKey(k) && n != 0)
    {
      if n == 0 || k.coord.topicId <= 0 || k.coord.channelId < 0 {
        return;
      }
      statBuf := statBuf[k := At(statBuf, k) + n];
    }

    /** Some flush's upsert statement: the coalesced rows of its sink. */
    method Land(day: int, rows: map<StatCoord, Counters>, ghost s: Sink)
      requires Valid() && forall c | c in rows :: rows[c] == Coalesced(s, c)
      modifies this`table, this`landed
      ensures Valid() && table == UpsertBatch(old(table), day, rows)
      ensures forall k :: landed(k) == old(landed)(k) + (if k.coord in rows then At(s, k) else 0)
    {
      forall k
        ensures Landed(UpsertBatch(table, day, rows), k) == Landed(table, k) + (if k.coord in rows then At(s, k) else 0)
      {
        BatchReads(table, day, rows, s, k);
      }
      ghost var was := landed;
      landed := k => was(k) + (if k.coord in rows then At(s, k) else 0);
      table := UpsertBatch(table, day, rows);
    }

    /** The others get their turn before statement `n`. */
    method Meet(sched: Schedule, n: nat)
      requires Valid()
      modifies this
      ensures Valid()
      ensures Heard(old(statBuf), statBuf, sched, n, n + 1)
      ensures Gained(old(landed), landed, sched, n, n + 1, map[], {})
    {
      var m := sched(n);
      statBuf := Merge(statBuf, m.recorded);
      assert forall k | k in m.landed :: k.coord in CoordsOf(m.landed);
      Land(m.day, map c | c in CoordsOf(m.landed) :: Coalesced(m.landed, c), m.landed);
    }

    /** Reads which coordinates still name a row, one page of coordinates a
        statement; each page sees the tables of its own moment. */
    method LiveStatsCoords(coords: seq<StatCoord>, sched: Schedule)
      returns (live: Option<set<StatCoord>>, n: nat)
      requires Valid() && NoRepeats(coords)
      modifies this
      ensures Valid()
      ensures Heard(old(statBuf), statBuf, sched, 0, n)
      ensures Gained(old(landed), landed, sched, 0, n, map[], {})
      ensures live.Some? ==> ReadLive(coords, |coords|, sched, live.value) && Succeed(sched, 0, n)
      ensures live.None? ==> n > 0 && Succeed(sched, 0, n - 1) && sched(n - 1).Fails()
    {
      n := 0;
      var found: set<StatCoord> := {};
      var start := 0;
      while start < |coords|
        invariant Valid() && start == n * STATS_FLUSH_BATCH
        invariant Heard(old(statBuf), statBuf, sched, 0, n)
        invariant Gained(old(landed), landed, sched, 0, n, map[], {})
        invariant Succeed(sched, 0, n)
        invariant ReadLive(coords, Min(start, |coords|), sched, found)
        decreases |coords| - start
      {
        var end := Min(start + STATS_FLUSH_BATCH, |coords|);
        ghost var buf, reading := statBuf, landed;
        Meet(sched, n);
        HeardThen(old(statBuf), buf, statBuf, sched, 0, n);
        GainedWhole(old(landed), reading, landed, sched, n, n + 1, map[], {});
        n := n + 1;
        if sched(n - 1).Fails() {
          return None, n;
        }
        var page := ReadPage(sched(n - 1).seen, coords[start..end]);
        PageJoins(coords, start, end, n - 1, sched, found, page);
        found := found + page;
        start := start + STATS_FLUSH_BATCH;
      }
      live := Some(found);
    }

    /** Hands the deltas of the remaining coordinates back to recordStat. */
    method MergeBack(pending: Buffered, remaining: set<StatCoord>)
      modifies this`statBuf
      ensures forall k :: At(statBuf, k) == At(old(statBuf), k) + (if k.coord in remaining then At(pending, k) else 0)
    {
      var keys := AnyOrder(pending.Keys);
      for i := 0 to |keys|
        invariant forall k :: At(statBuf, k) == At(old(statBuf), k) + (if k in keys[..i] && k.coord in remaining then At(pending, k) else 0)
      {
        var k := keys[i];
        assert keys[..i + 1] == keys[..i] + [k];
        assert k in keys && k in pending;
        assert k !in keys[..i];
        if k.coord in remaining {
          RecordStat(k, pending[k]);
        }
      }
      assert keys[..|keys|] == keys;
    }

    /** One upsert statement that commits. */
    method WriteBatch(batch: seq<StatCoord>, counts: map<StatCoord, Counters>, ghost pending: Sink, day: int)
      requires Valid()
      requires Holds(counts, pending, batch)
      modifies this`table, this`landed
      ensures Valid()
      ensures forall k :: landed(k) == old(landed)(k) + (if k.coord in ToSet(batch) then At(pending, k) else 0)
    {
      var coords := ToSet(batch);
      var rows := map c | c in coords :: counts[c];
      Land(day, rows, pending);
    }

    /** One statement of the batch loop: it lands its whole batch if it reaches the
        database, and succeeds if its reply comes back too. */
    method SendBatch(batch: seq<StatCoord>, counts: map<StatCoord, Counters>, ghost pending: Sink, sched: Schedule, n: nat)
      returns (ok: bool)
      requires Valid()
      requires Holds(counts, pending, batch)
      modifies this
      ensures Valid() && ok == !sched(n).Fails()
      ensures Heard(old(statBuf), statBuf, sched, n, n + 1)
      ensures Gained(old(landed), landed, sched, n, n + 1, pending, if sched(n).reaches then ToSet(batch) else {})
    {
      Meet(sched, n);
      ok := !sched(n).Fails();
      if sched(n).reaches {
        WriteBatch(batch, counts, pending, sched(n).day);
      }
    }

    /** The batch loop: batches first to last, stopping at the first failure.  A
        failing statement may have landed its batch all the same. */
    method SendBatches(order: seq<StatCoord>, counts: map<StatCoord, Counters>, ghost pending: Sink, sched: Schedule, m: nat)
      returns (ok: bool, n: nat, start: nat)
      requires Valid() && NoRepeats(order)
      requires Holds(counts, pending, order)
      modifies this
      ensures Valid() && m <= n
      ensures Heard(old(statBuf), statBuf, sched, m, n)
      ensures Gained(old(landed), landed, sched, m, n, pending, Sent(order, LandedTo(sched, n, ok, start)))
      ensures ok ==> Succeed(sched, m, n) && |order| <= start
      ensures !ok ==> n > m && Succeed(sched, m, n - 1) && sched(n - 1).Fails() && start == (n - 1 - m) * STATS_FLUSH_BATCH < |order|
    {
      n, start := m, 0;
      while start < |order|
        invariant Valid() && n >= m && start == (n - m) * STATS_FLUSH_BATCH
        invariant Heard(old(statBuf), statBuf, sched, m, n)
        invariant Gained(old(landed), landed, sched, m, n, pending, Sent(order, start))
        invariant Succeed(sched, m, n)
        decreases |order| - start
      {
        var end := Min(start + STATS_FLUSH_BATCH, |order|);
        ghost var buf, reading := statBuf, landed;
        ok := SendBatch(order[start..end], counts, pending, sched, n);
        HeardThen(old(statBuf), buf, statBuf, sched, m, n);
        GainedThen(old(landed), reading, landed, sched, m, n, pending, order, start, end, sched(n).reaches);
        n := n + 1;
        if !ok {
          return;
        }
        start := start + STATS_FLUSH_BATCH;
      }
      ok := true;
    }

    /** The liveness filter: the live part of `order`, kept in write order.  MySQL has no filter. */
    method SelectLive(order: array<StatCoord>, counts: map<StatCoord, Counters>, ghost pending: Sink, sched: Schedule)
      returns (read: bool, kept: seq<StatCoord>, rest: map<StatCoord, Counters>, n: nat, ghost live: set<StatCoord>)
      requires Valid() && NoRepeats(order[..]) && Holds(counts, pending, order[..])
      modifies this, order
      ensures Valid()
      ensures Heard(old(statBuf), statBuf, sched, 0, n)
      ensures Gained(old(landed), landed, sched, 0, n, map[], {})
      ensures !read ==> n > 0 && Succeed(sched, 0, n - 1) && sched(n - 1).Fails() && dropsDead && kept == old(order[..])
      ensures read ==> Succeed(sched, 0, n) && kept == Keep(old(order[..]), live) && Holds(rest, pending, kept)
      ensures read ==> if dropsDead then ReadLive(old(order[..]), order.Length, sched, live) else live == ToSet(old(order[..]))
    {
      n, kept, rest, live := 0, order[..], counts, ToSet(order[..]);
      if !dropsDead {
        KeepAll(order[..], live);
        return true, kept, rest, n, live;
      }
      var found;
      found, n := LiveStatsCoords(order[..], sched);
      read := found.Some?;
      if read {
        live := found.value;
        kept, rest := Narrow(order, found.value, counts, pending);
      }
    }

    /** Sends the batches and merges back the failed one and all later ones. */
    method SendOrKeep(order: seq<StatCoord>, counts: map<StatCoord, Counters>, pending: Buffered, sched: Schedule, m: nat)
      returns (ok: bool, n: nat, ghost cut: nat, ghost end: nat)
      requires Valid() && NoRepeats(order)
      requires Holds(counts, pending, order)
      modifies this
      ensures Valid() && m <= n && cut <= end <= |order|
      ensures forall k :: At(statBuf, k) == At(old(statBuf), k) + Arrived(sched, n, k) - Arrived(sched, m, k)
                                            + (if k.coord in ToSet(order[cut..]) then At(pending, k) else 0)
      ensures Gained(old(landed), landed, sched, m, n, pending, ToSet(order[..end]))
      ensures end == Min(LandedTo(sched, n, ok, cut), |order|)
      ensures ok ==> Succeed(sched, m, n) && cut == |order|
      ensures !ok ==> n > m && Succeed(sched, m, n - 1) && sched(n - 1).Fails() && cut == (n - 1 - m) * STATS_FLUSH_BATCH < |order|
    {
      var start;
      ok, n, start := SendBatches(order, counts, pending, sched, m);
      cut, end := Min(start, |order|), Min(LandedTo(sched, n, ok, start), |order|);
      if !ok {
        MergeBack(pending, ToSet(order[start..]));
      } else {
        assert order[cut..] == [];
      }
    }

    /** Flushes a buffer that has just been swapped out. */
    method FlushPending(pending: Buffered, sched: Schedule) returns (ok: bool, n: nat, ghost f: Fates)
      requires Valid() && statBuf == map[]
      modifies this
      ensures Valid()
      ensures Parts(f, CoordsOf(pending)) && SentFirst(f)
      ensures Gained(old(landed), landed, sched, 0, n, pending, f.sent)
      ensures Kept(statBuf, pending, sched, n, f.kept)
      ensures DropsExactlyDead(f, WriteOrder(CoordsOf(pending)), sched, dropsDead)
      ensures Ended(f, sched, n, ok)
    {
      var counts, order := Drain(pending);
      ghost var all := order[..];
      WriteOrderLists(CoordsOf(pending));
      SameMembers(ToSet(all), CoordsOf(pending));
      var read, kept, m;
      ghost var live;
      read, kept, counts, m, live := SelectLive(order, counts, pending, sched);
      if !read {
        MergeBack(pending, ToSet(kept));
        f := Fates({}, ToSet(all), {}, {}, false);
        return false, m, f;
      }
      ghost var buf, reading := statBuf, landed;
      KeepLists(all, live);
      ghost var cut, end;
      ok, n, cut, end := SendOrKeep(kept, counts, pending, sched, m);
      f := Fates(ToSet(kept[..end]), ToSet(kept[cut..]), ToSet(all) - live, ToSet(kept[cut..end]), true);
      FatesArePartition(all, live, cut, end);
      GainedWhole(old(landed), reading, landed, sched, m, n, pending, f.sent);
      KeptWhole(buf, statBuf, sched, m, n, pending, f.kept);
      SucceedChain(sched, m, if ok then n else n - 1);
      DroppedAreDead(f, all, live, sched, dropsDead);
    }

    /** The whole flush.  The deltas of each coordinate landed, came back to the
        buffer, or were dropped; only those of a batch that landed without a reply
        did two of these. */
    method FlushStats(sched: Schedule) returns (ok: bool, n: nat, ghost f: Fates)
      requires Valid()
      modifies this
      ensures Valid()
      ensures Parts(f, CoordsOf(old(statBuf))) && SentFirst(f)
      ensures Gained(old(landed), landed, sched, 0, n, old(statBuf), f.sent)
      ensures Kept(statBuf, old(statBuf), sched, n, f.kept)
      ensures DropsExactlyDead(f, WriteOrder(CoordsOf(old(statBuf))), sched, dropsDead)
      ensures Ended(f, sched, n, ok)
    {
      if statBuf == map[] {
        WriteOrderLists(CoordsOf(statBuf));
        return true, 0, Fates({}, {}, {}, {}, true);
      }
      var pending := statBuf;
      statBuf := map[];
      ok, n, f := FlushPending(pending, sched);
    }
  }

  /** Rows land in write order: what came back sorts after everything that landed
      and did not come back. */
  ghost predicate SentFirst(f: Fates) {
    forall c, d | c in f.sent && c !in f.echoed && d in f.kept :: CoordLess(c, d)
  }

  /** A flush fails exactly at its first failing statement, and only a failed flush
      keeps anything.  Deltas both land and come back exactly if the failing
      statement is an upsert that reached the database. */
  ghost predicate Ended(f: Fates, sched: Schedule, n: nat, ok: bool) {
    && (!f.read ==> f.sent == {} && f.dropped == {} && !ok)
    && (f.echoed != {} <==> !ok && f.read && n > 0 && sched(n - 1).reaches)
    && if ok then f.kept == {} && Succeed(sched, 0, n)
       else n > 0 && Succeed(sched, 0, n - 1) && sched(n - 1).Fails()
  }

  /** How many rows have landed when the loop has stopped at row `start`. */
  ghost function LandedTo(sched: Schedule, n: nat, ok: bool, start: nat): nat {
    if !ok && n > 0 && sched(n - 1).reaches then start + STATS_FLUSH_BATCH else start
  }

  /** Whatever fails and whatever arrives meanwhile, landed plus buffered plus
      dropped stays what it was, plus once more exactly the deltas of a batch that
      landed without a reply. */
  lemma FlushConserves(f: Fates, pending: Sink, before: Reading, after: Reading, buf: Sink, sched: Schedule, n: nat, k: StatKey)
    requires Parts(f, CoordsOf(pending))
    requires Gained(before, after, sched, 0, n, pending, f.sent) && Kept(buf, pending, sched, n, f.kept)
    ensures after(k) + At(buf, k) + (if k.coord in f.dropped then At(pending, k) else 0) ==
            before(k) + At(pending, k) + Arrived(sched, n, k) + OthersLanded(sched, n, k)
            + (if k.coord in f.echoed then At(pending, k) else 0)
  {
    if k in pending {
      assert k.coord in CoordsOf(pending);
      assert k.coord in f.sent || k.coord in f.kept || k.coord in f.dropped;
    }
  }

  lemma GainedWhole(first: Reading, middle: Reading, last: Reading, sched: Schedule, m: nat, n: nat, pending: Sink, sent: set<StatCoord>)
    requires Gained(first, middle, sched, 0, m, map[], {}) && Gained(middle, last, sched, m, n, pending, sent)
    ensures Gained(first, last, sched, 0, n, pending, sent)
  {
  }

  lemma KeptWhole(middle: Sink, last: Sink, sched: Schedule, m: nat, n: nat, pending: Sink, kept: set<StatCoord>)
    requires Heard(map[], middle, sched, 0, m)
    requires forall k :: At(last, k) == At(middle, k) + Arrived(sched, n, k) - Arrived(sched, m, k)
                                        + (if k.coord in kept then At(pending, k) else 0)
    ensures Kept(last, pending, sched, n, kept)
  {
  }

  lemma DroppedAreDead(f: Fates, all: seq<StatCoord>, live: set<StatCoord>, sched: Schedule, dropsDead: bool)
    requires f.dropped == ToSet(all) - live && f.read
    requires if dropsDead then ReadLive(all, |all|, sched, live) else live == ToSet(all)
    ensures DropsExactlyDead(f, all, sched, dropsDead)
  {
  }

  /** The buffer holds what others recorded meanwhile and the deltas of the kept coordinates. */
  ghost predicate Kept(after: Sink, before: Sink, sched: Schedule, n: nat, kept: set<StatCoord>) {
    forall k :: At(after, k) == Arrived(sched, n, k) + (if k.coord in kept then At(before, k) else 0)
  }

  lemma FatesArePartition(all: seq<StatCoord>, live: set<StatCoord>, cut: nat, end: nat)
    requires CoordsAscend(all) && cut <= end <= |Keep(all, live)|
    ensures var kept := Keep(all, live);
            var f := Fates(ToSet(kept[..end]), ToSet(kept[cut..]), ToSet(all) - live, ToSet(kept[cut..end]), true);
            Parts(f, ToSet(all)) && SentFirst(f) && (f.echoed != {} <==> cut < end)
  {
    KeepLists(all, live);
    KeepCoordsAscend(all, live);
    var kept := Keep(all, live);
    Overlap(kept, cut, end);
    BeforeCut(kept, cut);
    assert ToSet(kept[..end]) + ToSet(kept[cut..]) == ToSet(kept);
  }

  /** The rows up to `end` and those from `cut` on share the rows in between. */
  lemma Overlap(s: seq<StatCoord>, cut: nat, end: nat)
    requires CoordsAscend(s) && cut <= end <= |s|
    ensures ToSet(s[..end]) * ToSet(s[cut..]) == ToSet(s[cut..end])
    ensures ToSet(s[..end]) + ToSet(s[cut..]) == ToSet(s)
    ensures forall c | c in s[..end] && c !in s[cut..end] :: c in s[..cut]
    ensures ToSet(s[cut..end]) != {} <==> cut < end
  {
    assert s == s[..cut] + s[cut..end] + s[end..];
    assert s[..end] == s[..cut] + s[cut..end];
    assert s[cut..] == s[cut..end] + s[end..];
    BeforeCut(s, cut);
    BeforeCut(s, end);
    if cut < end {
      assert s[cut..end][0] in ToSet(s[cut..end]);
    }
  }

  lemma BeforeCut(s: seq<StatCoord>, cut: nat)
    requires CoordsAscend(s) && cut <= |s|
    ensures forall c, d | c in s[..cut] && d in s[cut..] :: CoordLess(c, d)
    ensures ToSet(s[..cut]) !! ToSet(s[cut..])
  {
    forall c, d | c in s[..cut] && d in s[cut..]
      ensures CoordLess(c, d) && c != d
    {
      var i :| 0 <= i < cut && s[i] == c;
      var j :| cut <= j < |s| && s[j] == d;
    }
  }

  /** What became of the coordinates of a drained buffer: those that landed, those
      that came back, those that were dropped, and those that both landed and came
      back; `read` tells whether the liveness read went through. */
  datatype Fates = Fates(sent: set<StatCoord>, kept: set<StatCoord>, dropped: set<StatCoord>, echoed: set<StatCoord>, read: bool)

  ghost predicate Parts(f: Fates, all: set<StatCoord>) {
    f.sent + f.kept + f.dropped == all && f.sent * f.kept == f.echoed && f.sent !! f.dropped && f.kept !! f.dropped
  }

  /** A coordinate is dropped exactly when the filter is on, its read succeeded
      and the tables of that moment had no row for it. */
  ghost predicate DropsExactlyDead(f: Fates, order: seq<StatCoord>, sched: Schedule, dropsDead: bool) {
    forall i | 0 <= i < |order| ::
      order[i] in f.dropped <==> dropsDead && f.read && !LiveCoord(sched(i / STATS_FLUSH_BATCH).seen, order[i])
  }

  lemma HeardThen(first: Sink, before: Sink, after: Sink, sched: Schedule, m: nat, n: nat)
    requires Heard(first, before, sched, m, n) && Heard(before, after, sched, n, n + 1)
    ensures Heard(first, after, sched, m, n + 1)
  {
  }

  lemma GainedThen(first: Reading, before: Reading, after: Reading, sched: Schedule, m: nat, n: nat,
                   pending: Sink, order: seq<StatCoord>, start: nat, end: nat, ok: bool)
    requires NoRepeats(order) && start < end == Min(start + STATS_FLUSH_BATCH, |order|)
    requires Gained(first, before, sched, m, n, pending, Sent(order, start))
    requires Gained(before, after, sched, n, n + 1, pending, if ok then ToSet(order[start..end]) else {})
    ensures Gained(first, after, sched, m, n + 1, pending, Sent(order, if ok then start + STATS_FLUSH_BATCH else start))
  {
    BatchJoins(order, start, end);
  }

  lemma BatchJoins(order: seq<StatCoord>, start: nat, end: nat)
    requires NoRepeats(order) && start <= end <= |order|
    ensures Sent(order, end) == Sent(order, start) + ToSet(order[start..end])
    ensures Sent(order, start) !! ToSet(order[start..end])
  {
    assert order[..end] == order[..start] + order[start..end];
  }

  lemma PageJoins(coords: seq<StatCoord>, start: nat, end: nat, page: nat, sched: Schedule,
                  found: set<StatCoord>, more: set<StatCoord>)
    requires NoRepeats(coords)
    requires start == page * STATS_FLUSH_BATCH && start < end <= |coords| && end <= start + STATS_FLUSH_BATCH
    requires ReadLive(coords, start, sched, found)
    requires forall c :: c in more <==> c in coords[start..end] && LiveCoord(sched(page).seen, c)
    ensures ReadLive(coords, end, sched, found + more)
  {
    assert coords[..end] == coords[..start] + coords[start..end];
    forall i | 0 <= i < end
      ensures coords[i] in found + more <==> LiveCoord(sched(i / STATS_FLUSH_BATCH).seen, coords[i])
    {
      if i < start {
        assert coords[i] !in coords[start..end];
      } else {
        assert coords[i] == coords[start..end][i - start];
        assert coords[i] !in coords[..start];
        assert i / STATS_FLUSH_BATCH == page;
      }
    }
  }
}
