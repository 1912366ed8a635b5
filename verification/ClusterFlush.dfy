/** FlushStats inside the cluster: the flush is a sequence of the protocol's own
    events, whatever other processes commit between its statements, so the
    counter equations of whole runs cover it. */
module ClusterFlush {
  import opened Collections
  import opened Tables
  import opened DailyStats
  import opened Statements
  import opened Protocol
  import opened Invariants
  import opened Identity
  import opened Clusters
  import opened FlushSink
  import opened FlushStats

  // ---------------------------------------------- keys that recordStat accepts

  /** The key names a topic and a channel (or the sentinel) that have existed. */
  ghost predicate KnownKey(db: Db, k: StatKey) {
    0 < k.coord.topicId < db.nextTopic && 0 <= k.coord.channelId < db.nextChannel
  }

  ghost predicate KnownKeys(db: Db, s: Sink) {
    forall k | k in s :: KnownKey(db, k)
  }

  ghost predicate AllKnown(w: World) {
    forall i | 0 <= i < |w.sinks| :: KnownKeys(w.db, w.sinks[i])
  }

  lemma DeltaKeys(w: World, e: Event)
    requires References(w.db) && WellAddressed(w, e)
    ensures KnownKeys(w.db, Delta(w.db, e))
  {
    if e.PublishTo? && PublishLands(w.db, e.topicId, e.opts) && Lists(e.order, ChannelsOf(w.db, e.topicId)) {
      forall c | c in e.order
        ensures 0 < c < w.db.nextChannel
      {
        assert c in ToSet(e.order);
        assert c in ChannelsOf(w.db, e.topicId);
      }
    }
  }

  lemma KnownLater(a: Db, b: Db, s: Sink)
    requires KnownKeys(a, s) && a.nextTopic <= b.nextTopic && a.nextChannel <= b.nextChannel
    ensures KnownKeys(b, s)
  {
  }

  lemma SinkKeys(w: World, e: Event, i: nat)
    requires References(w.db) && AllKnown(w) && WellAddressed(w, e) && i < |w.sinks|
    ensures KnownKeys(w.db, NextSinks(w, e)[i])
  {
    DeltaKeys(w, e);
    assert KnownKeys(w.db, w.sinks[i]);
    if e.MoveDeltas? {
      assert KnownKeys(w.db, w.sinks[e.source]);
    }
  }

  lemma AllKnownStep(w: World, e: Event)
    requires Inv(w) && AllKnown(w)
    ensures AllKnown(Apply(w, e))
  {
    if WellAddressed(w, e) {
      IdsStep(w, e, "");
      forall i | 0 <= i < |w.sinks|
        ensures KnownKeys(Apply(w, e).db, Apply(w, e).sinks[i])
      {
        SinkKeys(w, e, i);
        KnownLater(w.db, Apply(w, e).db, NextSinks(w, e)[i]);
      }
    }
  }

  /** In every reachable state every buffered key passes recordStat's guard. */
  lemma {:induction false} EveryKeyIsKnown(w: World, events: seq<Event>)
    requires Initial(w)
    ensures AllKnown(Run(w, events))
    decreases |events|
  {
    if events != [] {
      var front := events[..|events| - 1];
      EveryKeyIsKnown(w, front);
      EveryReachableStateIsSound(w, front);
      AllKnownStep(Run(w, front), events[|events| - 1]);
    }
  }

  // -------------------------------------------------- the sink of the flush

  /** Nobody but the flush touches the map it has swapped out. */
  predicate Spares(e: Event, sink: nat) {
    && (Records(e) ==> e.sink != sink)
    && (e.MoveDeltas? ==> e.source != sink && e.target != sink)
    && (e.LandDeltas? || e.LandUnanswered? || e.DropDeltas? ==> e.source != sink)
    && (e.DiscardTopic? || e.DiscardChannel? ==> e.sink != sink)
  }

  ghost predicate SparesSink(events: seq<Event>, sink: nat) {
    forall i | 0 <= i < |events| :: Spares(events[i], sink)
  }

  lemma SinkStep(w: World, e: Event, sink: nat)
    requires sink < |w.sinks| && Spares(e, sink)
    ensures |Apply(w, e).sinks| == |w.sinks| && Apply(w, e).sinks[sink] == w.sinks[sink]
  {
  }

  lemma {:induction false} SinkSurvives(w: World, events: seq<Event>, sink: nat)
    requires sink < |w.sinks| && SparesSink(events, sink)
    ensures |Run(w, events).sinks| == |w.sinks| && Run(w, events).sinks[sink] == w.sinks[sink]
    decreases |events|
  {
    if events != [] {
      var front := events[..|events| - 1];
      forall i | 0 <= i < |front|
        ensures front[i] == events[i]
      {
      }
      SinkSurvives(w, front, sink);
      SinkStep(Run(w, front), events[|events| - 1], sink);
    }
  }

  lemma SinkOverTrace(log: seq<Event>, trace: seq<World>, m: nat, n: nat, sink: nat)
    requires Traced(log, trace) && m <= n <= |log| && sink < |trace[m].sinks| && SparesSink(log[m..n], sink)
    ensures |trace[n].sinks| == |trace[m].sinks| && trace[n].sinks[sink] == trace[m].sinks[sink]
  {
    TraceBetween(log, trace, m, n);
    SinkSurvives(trace[m], log[m..n], sink);
  }

  // ------------------------------------------- what each event does to it

  /** The swap moves the whole buffer. */
  lemma SwapStep(w: World, buffer: nat, flight: nat)
    requires buffer < |w.sinks| && flight < |w.sinks| && buffer != flight && w.sinks[flight] == map[]
    ensures var after := Apply(w, MoveDeltas(buffer, flight, CoordsOf(w.sinks[buffer])));
            && after.db == w.db && |after.sinks| == |w.sinks|
            && after.sinks[flight] == w.sinks[buffer] && after.sinks[buffer] == map[]
  {
    var pending := w.sinks[buffer];
    assert forall k | k in pending :: k.coord in CoordsOf(pending);
    assert Merge(map[], Only(pending, CoordsOf(pending))) == pending;
    assert Except(pending, CoordsOf(pending)) == map[];
  }

  /** Dropping coordinates that are all dead. */
  lemma DropStep(w: World, flight: nat, pending: Sink, dead: set<StatCoord>)
    requires flight < |w.sinks| && w.sinks[flight] == pending && forall c | c in dead :: !LiveCoord(w.db, c)
    ensures var after := Apply(w, DropDeltas(flight, dead));
            after.db == w.db && |after.sinks| == |w.sinks| && after.sinks[flight] == Except(pending, dead)
  {
    assert DeadCoords(w.db, dead) == dead;
  }

  lemma ExceptMore(pending: Sink, gone: set<StatCoord>, more: set<StatCoord>)
    ensures Except(Except(pending, gone), more) == Except(pending, gone + more)
  {
  }

  /** The coalesced rows of a batch are what the sink still holds for it. */
  lemma BatchIsCoalesced(pending: Sink, gone: set<StatCoord>, batch: set<StatCoord>)
    requires batch !! gone && batch <= CoordsOf(pending)
    ensures batch * CoordsOf(Except(pending, gone)) == batch
    ensures forall c | c in batch :: Coalesced(Except(pending, gone), c) == Coalesced(pending, c)
  {
    forall c | c in batch
      ensures c in CoordsOf(Except(pending, gone))
    {
      var k :| k in pending && k.coord == c;
      assert k in Except(pending, gone);
    }
  }

  /** The multi-row upsert of a batch is the event that lands it. */
  lemma LandStep(w: World, flight: nat, pending: Sink, gone: set<StatCoord>, rows: map<StatCoord, Counters>)
    requires flight < |w.sinks| && w.sinks[flight] == Except(pending, gone)
    requires rows.Keys !! gone && rows.Keys <= CoordsOf(pending) && forall c | c in rows :: rows[c] == Coalesced(pending, c)
    ensures var after := Apply(w, LandDeltas(flight, rows.Keys));
            && |after.sinks| == |w.sinks| && after.sinks[flight] == Except(pending, gone + rows.Keys)
            && after.db == w.db.(stats := UpsertBatch(w.db.stats, Today(w.db), rows))
  {
    BatchIsCoalesced(pending, gone, rows.Keys);
    BatchLands(w.db.stats, Today(w.db), rows, w.sinks[flight]);
    ExceptMore(pending, gone, rows.Keys);
  }

  /** If the reply is lost the table has the batch, and so has the flush's map. */
  lemma EchoStep(w: World, flight: nat, pending: Sink, gone: set<StatCoord>, rows: map<StatCoord, Counters>)
    requires flight < |w.sinks| && w.sinks[flight] == Except(pending, gone)
    requires rows.Keys !! gone && rows.Keys <= CoordsOf(pending) && forall c | c in rows :: rows[c] == Coalesced(pending, c)
    ensures var after := Apply(w, LandUnanswered(flight, rows.Keys));
            && |after.sinks| == |w.sinks| && after.sinks[flight] == w.sinks[flight]
            && after.db == w.db.(stats := UpsertBatch(w.db.stats, Today(w.db), rows))
  {
    BatchIsCoalesced(pending, gone, rows.Keys);
    BatchLands(w.db.stats, Today(w.db), rows, w.sinks[flight]);
  }

  /** Merging back what is left empties the flush's map. */
  lemma BackStep(w: World, flight: nat, buffer: nat, pending: Sink, gone: set<StatCoord>, rest: set<StatCoord>)
    requires flight < |w.sinks| && buffer < |w.sinks| && flight != buffer && w.sinks[flight] == Except(pending, gone)
    requires CoordsOf(pending) <= gone + rest
    ensures var after := Apply(w, MoveDeltas(flight, buffer, rest));
            after.db == w.db && |after.sinks| == |w.sinks| && after.sinks[flight] == map[]
  {
    assert forall k | k in pending :: k.coord in CoordsOf(pending);
    assert Except(Except(pending, gone), rest) == map[];
  }

  // ----------------------------------------------------------- the log

  /** What other processes commit before statement i of the flush, whether that
      statement reaches the database, and whether its reply comes back. */
  datatype Pause = Pause(events: seq<Event>, reaches: bool, replies: bool)
  {
    predicate Fails() { !reaches || !replies }
  }

  /** Statements `m` to `n` all succeed. */
  ghost predicate AllSucceed(plan: Plan, m: nat, n: nat) {
    n <= m || (AllSucceed(plan, m, n - 1) && !plan(n - 1).Fails())
  }

  type Plan = nat -> Pause

  /** Everything foreign before statements `m` to `n`. */
  function Pauses(plan: Plan, m: nat, n: nat): seq<Event> {
    if n <= m then [] else Pauses(plan, m, n - 1) + plan(n - 1).events
  }

  function BatchNo(order: seq<StatCoord>, i: nat): seq<StatCoord> {
    order[Min(i * STATS_FLUSH_BATCH, |order|)..Min((i + 1) * STATS_FLUSH_BATCH, |order|)]
  }

  /** The event of a batch that commits. */
  function LandEvent(flight: nat, answered: bool, batch: seq<StatCoord>): Event {
    if answered then LandDeltas(flight, ToSet(batch)) else LandUnanswered(flight, ToSet(batch))
  }

  /** One statement of the batch loop in the log: nothing of its own unless it reaches the database. */
  function BatchEvents(flight: nat, pause: Pause, batch: seq<StatCoord>): seq<Event> {
    pause.events + (if pause.reaches then [LandEvent(flight, pause.replies, batch)] else [])
  }

  /** The log after `b` statements of the batch loop. */
  function BatchesLanded(base: seq<Event>, flight: nat, plan: Plan, m: nat, order: seq<StatCoord>, b: nat): seq<Event> {
    if b == 0 then base
    else BatchesLanded(base, flight, plan, m, order, b - 1) + BatchEvents(flight, plan(m + b - 1), BatchNo(order, b - 1))
  }

  /** The rows of the first `b` batches. */
  ghost function FirstBatches(order: seq<StatCoord>, b: nat): set<StatCoord> {
    ToSet(order[..Min(b * STATS_FLUSH_BATCH, |order|)])
  }

  /** The first `b` statements of the batch loop went through: what the log
      holds, and what is left in the flight sink. */
  ghost predicate Landing(log: seq<Event>, sink: Sink, first: seq<Event>, flight: nat, pending: Sink, dropped: set<StatCoord>,
                          plan: Plan, m: nat, order: seq<StatCoord>, b: nat)
  {
    && AllSucceed(plan, m, m + b) && (b > 0 ==> (b - 1) * STATS_FLUSH_BATCH < |order|)
    && sink == Except(pending, dropped + FirstBatches(order, b))
    && log == BatchesLanded(first, flight, plan, m, order, b)
  }

  lemma NothingLanded(first: seq<Event>, flight: nat, pending: Sink, dropped: set<StatCoord>, plan: Plan, m: nat, order: seq<StatCoord>)
    ensures Landing(first, Except(pending, dropped), first, flight, pending, dropped, plan, m, order, 0)
  {
    assert FirstBatches(order, 0) == {} && dropped + {} == dropped;
  }

  lemma OneMoreBatch(log: seq<Event>, sink: Sink, log2: seq<Event>, sink2: Sink, first: seq<Event>, flight: nat, pending: Sink,
                     dropped: set<StatCoord>, plan: Plan, m: nat, order: seq<StatCoord>, b: nat)
    requires Landing(log, sink, first, flight, pending, dropped, plan, m, order, b) && b * STATS_FLUSH_BATCH < |order|
    requires sink2 == Except(pending, dropped + FirstBatches(order, if plan(m + b).Fails() then b else b + 1))
    requires log2 == log + BatchEvents(flight, plan(m + b), BatchNo(order, b))
    ensures log2 == BatchesLanded(first, flight, plan, m, order, b + 1)
    ensures !plan(m + b).Fails() ==> Landing(log2, sink2, first, flight, pending, dropped, plan, m, order, b + 1)
  {
  }

  lemma BatchFollows(order: seq<StatCoord>, b: nat)
    requires NoRepeats(order)
    ensures FirstBatches(order, b + 1) == FirstBatches(order, b) + ToSet(BatchNo(order, b))
    ensures FirstBatches(order, b) !! ToSet(BatchNo(order, b))
    ensures forall c | c in BatchNo(order, b) :: c in order
  {
    var start, end := Min(b * STATS_FLUSH_BATCH, |order|), Min((b + 1) * STATS_FLUSH_BATCH, |order|);
    assert order[..end] == order[..start] + order[start..end];
  }

  // -------------------------------------------------------- the flusher

  class Flusher {
    const cluster: Cluster
    const buffer: nat
    /** The map a running flush has swapped out. */
    const flight: nat
    const dropsDead: bool

    constructor (cluster: Cluster, buffer: nat, flight: nat, dropsDead: bool)
      ensures this.cluster == cluster && this.buffer == buffer && this.flight == flight && this.dropsDead == dropsDead
    {
      this.cluster, this.buffer, this.flight, this.dropsDead := cluster, buffer, flight, dropsDead;
    }

    ghost predicate Valid()
      reads this, cluster
    {
      cluster.Valid() && buffer < |cluster.w.sinks| && flight < |cluster.w.sinks| && buffer != flight
    }

    /** Others run; the flush's map stays. */
    method Wait(events: seq<Event>)
      requires Valid() && SparesSink(events, flight)
      modifies cluster
      ensures Valid() && cluster.log == old(cluster.log) + events && old(cluster.trace) <= cluster.trace
      ensures cluster.w.sinks[flight] == old(cluster.w.sinks[flight])
    {
      ghost var m := |cluster.log|;
      cluster.Interfere(events);
      assert cluster.log[m..|cluster.log|] == events;
      SinkOverTrace(cluster.log, cluster.trace, m, |cluster.log|, flight);
    }

    /** One upsert of the batch loop that commits, with or without a reply. */
    method LandBatch(batch: seq<StatCoord>, counts: map<StatCoord, Counters>, answered: bool, ghost pending: Sink, ghost gone: set<StatCoord>)
      requires Valid() && Holds(counts, pending, batch) && cluster.w.sinks[flight] == Except(pending, gone)
      requires ToSet(batch) !! gone && ToSet(batch) <= CoordsOf(pending)
      modifies cluster
      ensures Valid() && cluster.log == old(cluster.log) + [LandEvent(flight, answered, batch)] && old(cluster.trace) <= cluster.trace
      ensures cluster.w.sinks[flight] == Except(pending, if answered then gone + ToSet(batch) else gone)
      ensures exists rows: map<StatCoord, Counters> ::
                && rows.Keys == ToSet(batch) && (forall c | c in rows :: c in counts && rows[c] == counts[c])
                && cluster.w.db == old(cluster.w.db).(stats := UpsertBatch(old(cluster.w.db.stats), Today(old(cluster.w.db)), rows))
    {
      var coords := ToSet(batch);
      var rows := map c | c in coords :: counts[c];
      assert rows.Keys == coords;
      if answered {
        LandStep(cluster.w, flight, pending, gone, rows);
        cluster.Commit(LandDeltas(flight, coords));
      } else {
        EchoStep(cluster.w, flight, pending, gone, rows);
        cluster.Commit(LandUnanswered(flight, coords));
      }
    }

    /** One statement of the batch loop, after others have run. */
    method SendBatch(order: seq<StatCoord>, counts: map<StatCoord, Counters>, ghost pending: Sink, ghost dropped: set<StatCoord>, pause: Pause, b: nat)
      requires Valid() && NoRepeats(order) && Holds(counts, pending, order)
      requires ToSet(order) !! dropped && ToSet(order) <= CoordsOf(pending) && SparesSink(pause.events, flight)
      requires cluster.w.sinks[flight] == Except(pending, dropped + FirstBatches(order, b))
      modifies cluster
      ensures Valid() && old(cluster.trace) <= cluster.trace
      ensures cluster.w.sinks[flight] == Except(pending, dropped + FirstBatches(order, if pause.Fails() then b else b + 1))
      ensures cluster.log == old(cluster.log) + BatchEvents(flight, pause, BatchNo(order, b))
    {
      Wait(pause.events);
      if pause.reaches {
        BatchFollows(order, b);
        BatchHolds(order, counts, pending, b);
        LandBatch(BatchNo(order, b), counts, pause.replies, pending, dropped + FirstBatches(order, b));
        assert dropped + FirstBatches(order, b) + ToSet(BatchNo(order, b)) == dropped + FirstBatches(order, b + 1);
      }
    }

    /** The batch loop: full batches first to last, up to the first failure. */
    method LandBatches(order: seq<StatCoord>, counts: map<StatCoord, Counters>, ghost pending: Sink, ghost dropped: set<StatCoord>,
                       plan: Plan, m: nat)
      returns (ok: bool, b: nat)
      requires Valid() && NoRepeats(order) && Holds(counts, pending, order) && cluster.w.sinks[flight] == Except(pending, dropped)
      requires ToSet(order) !! dropped && ToSet(order) <= CoordsOf(pending)
      requires forall i: nat :: SparesSink(plan(i).events, flight)
      modifies cluster
      ensures Valid() && old(cluster.trace) <= cluster.trace
      ensures AllSucceed(plan, m, m + b)
      ensures if ok then b * STATS_FLUSH_BATCH >= |order| && (b > 0 ==> (b - 1) * STATS_FLUSH_BATCH < |order|)
              else plan(m + b).Fails() && b * STATS_FLUSH_BATCH < |order|
      ensures cluster.w.sinks[flight] == Except(pending, dropped + FirstBatches(order, b))
      ensures cluster.log == BatchesLanded(old(cluster.log), flight, plan, m, order, if ok then b else b + 1)
    {
      b := 0;
      ghost var first := cluster.log;
      NothingLanded(first, flight, pending, dropped, plan, m, order);
      while b * STATS_FLUSH_BATCH < |order|
        invariant Valid() && old(cluster.trace) <= cluster.trace
        invariant Landing(cluster.log, cluster.w.sinks[flight], first, flight, pending, dropped, plan, m, order, b)
        decreases |order| - b * STATS_FLUSH_BATCH
      {
        ghost var log, sink := cluster.log, cluster.w.sinks[flight];
        SendBatch(order, counts, pending, dropped, plan(m + b), b);
        OneMoreBatch(log, sink, cluster.log, cluster.w.sinks[flight], first, flight, pending, dropped, plan, m, order, b);
        if plan(m + b).Fails() {
          return false, b;
        }
        b := b + 1;
      }
      ok := true;
    }

    /** The liveness read, a page of coordinates a statement; each page sees the
        state of its own moment. */
    method ReadLive(coords: seq<StatCoord>, plan: Plan) returns (live: Option<set<StatCoord>>, n: nat)
      requires Valid() && NoRepeats(coords) && forall i: nat :: SparesSink(plan(i).events, flight)
      modifies cluster
      ensures Valid() && old(cluster.trace) <= cluster.trace
      ensures cluster.w.sinks[flight] == old(cluster.w.sinks[flight])
      ensures cluster.log == old(cluster.log) + Pauses(plan, 0, n)
      ensures live.Some? ==> PagesSeen(cluster.trace, old(cluster.log), plan, coords, |coords|, live.value)
                             && AllSucceed(plan, 0, n) && (n - 1) * STATS_FLUSH_BATCH < |coords| <= n * STATS_FLUSH_BATCH
      ensures live.None? ==> n > 0 && plan(n - 1).Fails() && AllSucceed(plan, 0, n - 1)
    {
      n := 0;
      var found: set<StatCoord> := {};
      while n * STATS_FLUSH_BATCH < |coords|
        invariant Valid() && old(cluster.trace) <= cluster.trace
        invariant cluster.w.sinks[flight] == old(cluster.w.sinks[flight])
        invariant cluster.log == old(cluster.log) + Pauses(plan, 0, n)
        invariant AllSucceed(plan, 0, n)
        invariant (n - 1) * STATS_FLUSH_BATCH < |coords| || n == 0
        invariant PagesSeen(cluster.trace, old(cluster.log), plan, coords, Min(n * STATS_FLUSH_BATCH, |coords|), found)
        decreases |coords| - n * STATS_FLUSH_BATCH
      {
        ghost var before := cluster.trace;
        Wait(plan(n).events);
        Regroup(old(cluster.log), Pauses(plan, 0, n), plan(n).events);
        n := n + 1;
        if plan(n - 1).Fails() {
          return None, n;
        }
        var start, end := (n - 1) * STATS_FLUSH_BATCH, Min(n * STATS_FLUSH_BATCH, |coords|);
        var page := ReadPage(cluster.w.db, coords[start..end]);
        PageAdds(before, cluster.trace, old(cluster.log), plan, coords, n - 1, end, found, page);
        found := found + page;
      }
      live := Some(found);
    }

    /** Deletes the deltas of the coordinates that the read found dead: nothing has
        brought one of them back since its page was read. */
    method DropDead(order: seq<StatCoord>, live: set<StatCoord>, ghost pending: Sink, plan: Plan, ghost base: seq<Event>, n: nat)
      requires Valid() && cluster.log == base + Pauses(plan, 0, n) && forall i: nat :: SparesSink(plan(i).events, flight)
      requires |base| < |cluster.trace| && flight < |cluster.trace[|base|].sinks| && cluster.trace[|base|].sinks[flight] == pending
      requires cluster.w.sinks[flight] == pending && order == WriteOrder(CoordsOf(pending)) && |order| <= n * STATS_FLUSH_BATCH
      requires PagesSeen(cluster.trace, base, plan, order, |order|, live)
      modifies cluster
      ensures Valid() && old(cluster.trace) <= cluster.trace
      ensures cluster.log == old(cluster.log) + [DropDeltas(flight, ToSet(order) - live)]
      ensures cluster.w.sinks[flight] == Except(pending, ToSet(order) - live)
    {
      forall c | c in ToSet(order) - live
        ensures !LiveCoord(cluster.w.db, c)
      {
        DeadNow(cluster.log, cluster.trace, base, plan, n, flight, pending, order, live, c);
      }
      DropStep(cluster.w, flight, pending, ToSet(order) - live);
      cluster.Commit(DropDeltas(flight, ToSet(order) - live));
    }

    /** Hands the remaining deltas back to the buffer. */
    method MergeBack(rest: set<StatCoord>, ghost pending: Sink, ghost gone: set<StatCoord>)
      requires Valid() && cluster.w.sinks[flight] == Except(pending, gone) && CoordsOf(pending) <= gone + rest
      modifies cluster
      ensures Valid() && cluster.w.sinks[flight] == map[] && old(cluster.trace) <= cluster.trace
      ensures cluster.log == old(cluster.log) + [MoveDeltas(flight, buffer, rest)]
    {
      BackStep(cluster.w, flight, buffer, pending, gone, rest);
      cluster.Commit(MoveDeltas(flight, buffer, rest));
    }

    /** The filter: reads which coordinates are live and drops the others.  A failed
        read merges everything back.  MySQL has no filter. */
    method Filter(order: array<StatCoord>, counts: map<StatCoord, Counters>, ghost pending: Sink, plan: Plan)
      returns (kept: seq<StatCoord>, rest: map<StatCoord, Counters>, n: nat, ghost fl: Flushed, read: bool)
      requires Valid() && order[..] == WriteOrder(CoordsOf(pending)) && Holds(counts, pending, order[..])
      requires cluster.w.sinks[flight] == pending && forall i: nat :: SparesSink(plan(i).events, flight)
      modifies cluster, order
      ensures Valid() && old(cluster.trace) <= cluster.trace && n == fl.pages && read == fl.read
      ensures FilterTold(cluster.trace, old(cluster.log), plan, dropsDead, old(order[..]), fl)
      ensures cluster.log == AfterFilter(old(cluster.log), buffer, flight, plan, dropsDead, old(order[..]), fl)
      ensures !fl.read ==> cluster.w.sinks[flight] == map[]
      ensures fl.read ==>
                && kept == Keep(old(order[..]), fl.live) && Holds(rest, pending, kept)
                && cluster.w.sinks[flight] == Except(pending, ToSet(old(order[..])) - fl.live)
    {
      WriteOrderLists(CoordsOf(pending));
      ghost var all, base := order[..], cluster.log;
      kept, rest, n, read := order[..], counts, 0, true;
      fl := Flushed(true, 0, ToSet(all), 0);
      assert Except(pending, {}) == pending && ToSet(all) - ToSet(all) == {};
      if !dropsDead {
        KeepAll(all, ToSet(all));
        return;
      }
      var live;
      live, n := ReadLive(order[..], plan);
      if live.None? {
        fl, read := Flushed(false, n, {}, 0), false;
        SameMembers(ToSet(all), CoordsOf(pending));
        MergeBack(ToSet(kept), pending, {});
        return;
      }
      fl := Flushed(true, n, live.value, 0);
      DropDead(order[..], live.value, pending, plan, base, n);
      kept, rest := Narrow(order, live.value, counts, pending);
    }

    /** Lands the batches and merges back what did not land. */
    method SendKept(kept: seq<StatCoord>, counts: map<StatCoord, Counters>, ghost pending: Sink, plan: Plan, n: nat,
                    ghost all: seq<StatCoord>, ghost fl: Flushed)
      returns (ok: bool, ghost done: Flushed)
      requires Valid() && all == WriteOrder(CoordsOf(pending)) && fl.read && n == fl.pages
      requires kept == Keep(all, fl.live) && Holds(counts, pending, kept)
      requires cluster.w.sinks[flight] == Except(pending, ToSet(all) - fl.live)
      requires forall i: nat :: SparesSink(plan(i).events, flight)
      modifies cluster
      ensures Valid() && cluster.w.sinks[flight] == map[] && old(cluster.trace) <= cluster.trace
      ensures done == fl.(batches := done.batches)
      ensures BatchesTold(cluster.log, old(cluster.log), buffer, flight, plan, kept, done, ok)
    {
      WriteOrderLists(CoordsOf(pending));
      KeptApart(all, fl.live, CoordsOf(pending));
      ghost var dead := ToSet(all) - fl.live;
      var b;
      ok, b := LandBatches(kept, counts, pending, dead, plan, n);
      done := fl.(batches := b);
      if ok {
        AllGone(all, kept, fl.live, pending, b);
      } else {
        RestIsLeft(all, kept, fl.live, CoordsOf(pending), b);
        MergeBack(ToSet(kept[b * STATS_FLUSH_BATCH..]), pending, dead + FirstBatches(kept, b));
      }
    }

    /** The whole flush as protocol events: one that swaps the buffer out, one that
        drops what the liveness read found dead, one for each batch that lands, with
        or without a reply, and one that brings the rest back after a failure.  Its
        map is empty again at the end. */
    method FlushStats(plan: Plan) returns (ok: bool, ghost fl: Flushed)
      requires Valid() && cluster.w.sinks[flight] == map[] && forall i: nat :: SparesSink(plan(i).events, flight)
      modifies cluster
      ensures Valid() && cluster.w.sinks[flight] == map[]
      ensures FlushTold(cluster.trace, cluster.log, old(cluster.log), buffer, flight, plan, dropsDead, old(cluster.w.sinks[buffer]), fl, ok)
    {
      fl := Flushed(true, 0, {}, 0);
      var pending := cluster.w.sinks[buffer];
      if pending == map[] {
        return true, fl;
      }
      SwapStep(cluster.w, buffer, flight);
      cluster.Commit(MoveDeltas(buffer, flight, CoordsOf(pending)));
      var counts, order := Drain(pending);
      ghost var all, base := order[..], cluster.log;
      WriteOrderLists(CoordsOf(pending));
      var kept, n, read;
      kept, counts, n, fl, read := Filter(order, counts, pending, plan);
      if !read {
        return false, fl;
      }
      ghost var before := cluster.trace;
      ok, fl := SendKept(kept, counts, pending, plan, n, all, fl);
      FilterStays(before, cluster.trace, base, plan, dropsDead, all, fl);
    }
  }

  lemma KeptApart(all: seq<StatCoord>, live: set<StatCoord>, coords: set<StatCoord>)
    requires NoRepeats(all) && forall c :: c in all <==> c in coords
    ensures var kept := Keep(all, live);
            NoRepeats(kept) && ToSet(kept) !! ToSet(all) - live && ToSet(kept) <= coords && ToSet(all) == coords
  {
    KeepLists(all, live);
    SameMembers(ToSet(all), coords);
  }

  lemma RestIsLeft(all: seq<StatCoord>, kept: seq<StatCoord>, live: set<StatCoord>, coords: set<StatCoord>, b: nat)
    requires kept == Keep(all, live) && b * STATS_FLUSH_BATCH < |kept| && forall c :: c in all <==> c in coords
    ensures coords <= (ToSet(all) - live) + FirstBatches(kept, b) + ToSet(kept[b * STATS_FLUSH_BATCH..])
  {
    KeepLists(all, live);
    assert kept == kept[..b * STATS_FLUSH_BATCH] + kept[b * STATS_FLUSH_BATCH..];
  }

  lemma AllGone(all: seq<StatCoord>, kept: seq<StatCoord>, live: set<StatCoord>, pending: Sink, b: nat)
    requires kept == Keep(all, live) && b * STATS_FLUSH_BATCH >= |kept| && forall c :: c in all <==> c in CoordsOf(pending)
    ensures Except(pending, (ToSet(all) - live) + FirstBatches(kept, b)) == map[]
  {
    KeepLists(all, live);
    assert kept[..|kept|] == kept;
    assert forall k | k in pending :: k.coord in CoordsOf(pending);
  }

  lemma FilterStays(before: seq<World>, after: seq<World>, base: seq<Event>, plan: Plan, dropsDead: bool, order: seq<StatCoord>, fl: Flushed)
    requires before <= after && FilterTold(before, base, plan, dropsDead, order, fl.(batches := 0))
    ensures FilterTold(after, base, plan, dropsDead, order, fl)
  {
    if dropsDead && fl.read {
      forall i | 0 <= i < |order|
        ensures PageSaw(after, base, plan, i / STATS_FLUSH_BATCH, order[i], order[i] in fl.live)
      {
        assert PageSaw(before, base, plan, i / STATS_FLUSH_BATCH, order[i], order[i] in fl.live);
      }
    }
  }

  /** A whole flush of `pending` that started at log `first`. */
  ghost predicate FlushTold(trace: seq<World>, log: seq<Event>, first: seq<Event>, buffer: nat, flight: nat, plan: Plan, dropsDead: bool,
                            pending: Sink, fl: Flushed, ok: bool)
  {
    if pending == map[] then ok && log == first
    else
      var order := WriteOrder(CoordsOf(pending));
      var base := first + [MoveDeltas(buffer, flight, CoordsOf(pending))];
      var filtered := AfterFilter(base, buffer, flight, plan, dropsDead, order, fl);
      && FilterTold(trace, base, plan, dropsDead, order, fl)
      && if !fl.read then !ok && log == filtered
         else BatchesTold(log, filtered, buffer, flight, plan, Keep(order, fl.live), fl, ok)
  }

  /** The batches before the first failing statement landed for good; the failing
      one and the rest came back, the failing one also if it had landed. */
  ghost predicate BatchesTold(log: seq<Event>, filtered: seq<Event>, buffer: nat, flight: nat, plan: Plan, kept: seq<StatCoord>, fl: Flushed, ok: bool) {
    var m, b := fl.pages, fl.batches;
    && AllSucceed(plan, m, m + b)
    && if ok then
         && |kept| <= b * STATS_FLUSH_BATCH && (b > 0 ==> (b - 1) * STATS_FLUSH_BATCH < |kept|)
         && log == BatchesLanded(filtered, flight, plan, m, kept, b)
       else
         && plan(m + b).Fails() && b * STATS_FLUSH_BATCH < |kept|
         && log == BatchesLanded(filtered, flight, plan, m, kept, b + 1) + [MoveDeltas(flight, buffer, ToSet(kept[b * STATS_FLUSH_BATCH..]))]
  }

  /** How a flush went: whether its liveness read went through and in how many
      pages, what that found alive, and how many batches landed. */
  datatype Flushed = Flushed(read: bool, pages: nat, live: set<StatCoord>, batches: nat)

  /** The filter, from the states its pages saw. */
  ghost predicate FilterTold(trace: seq<World>, base: seq<Event>, plan: Plan, dropsDead: bool, order: seq<StatCoord>, fl: Flushed) {
    if !dropsDead then fl.read && fl.pages == 0 && fl.live == ToSet(order)
    else if fl.read then
      && PagesSeen(trace, base, plan, order, |order|, fl.live) && AllSucceed(plan, 0, fl.pages)
      && (fl.pages - 1) * STATS_FLUSH_BATCH < |order| <= fl.pages * STATS_FLUSH_BATCH
    else fl.pages > 0 && plan(fl.pages - 1).Fails() && AllSucceed(plan, 0, fl.pages - 1)
  }

  function AfterFilter(base: seq<Event>, buffer: nat, flight: nat, plan: Plan, dropsDead: bool, order: seq<StatCoord>, fl: Flushed): seq<Event> {
    if !dropsDead then base
    else if fl.read then base + Pauses(plan, 0, fl.pages) + [DropDeltas(flight, ToSet(order) - fl.live)]
    else base + Pauses(plan, 0, fl.pages) + [MoveDeltas(flight, buffer, ToSet(order))]
  }

  /** A coordinate found dead by its page is still dead when the read is over. */
  lemma DeadNow(log: seq<Event>, trace: seq<World>, base: seq<Event>, plan: Plan, n: nat, flight: nat, pending: Sink,
                order: seq<StatCoord>, live: set<StatCoord>, c: StatCoord)
    requires Traced(log, trace) && log == base + Pauses(plan, 0, n) && forall i: nat :: SparesSink(plan(i).events, flight)
    requires flight < |trace[|base|].sinks| && trace[|base|].sinks[flight] == pending
    requires order == WriteOrder(CoordsOf(pending)) && |order| <= n * STATS_FLUSH_BATCH
    requires PagesSeen(trace, base, plan, order, |order|, live) && c in order && c !in live
    ensures !LiveCoord(trace[|log|].db, c)
  {
    var i :| 0 <= i < |order| && order[i] == c;
    var p := i / STATS_FLUSH_BATCH;
    assert PageSaw(trace, base, plan, p, c, false);
    PausesPrefix(plan, p + 1, n);
    var prefix := base + Pauses(plan, 0, p + 1);
    var m := |prefix|;
    assert log[..m] == prefix && log[|base|..m] == Pauses(plan, 0, p + 1);
    PausesSpare(plan, p + 1, flight);
    SinkOverTrace(log, trace, |base|, m, flight);
    TraceIsRun(log, trace, m);
    EveryKeyIsKnown(trace[0], log[..m]);
    EveryReachableStateIsSound(trace[0], log[..m]);
    KnownCoord(trace[m].db, pending, c);
    TraceBetween(log, trace, m, |log|);
    DeletedStaysDeleted(trace[m], log[m..|log|], c);
  }

  lemma KnownCoord(db: Db, pending: Sink, c: StatCoord)
    requires KnownKeys(db, pending) && c in WriteOrder(CoordsOf(pending)) && !LiveCoord(db, c)
    ensures Buried(db, c)
  {
    WriteOrderLists(CoordsOf(pending));
    var k :| k in pending && k.coord == c;
  }

  lemma {:induction false} PausesPrefix(plan: Plan, a: nat, b: nat)
    requires a <= b
    ensures Pauses(plan, 0, a) <= Pauses(plan, 0, b)
  {
    if a < b {
      PausesPrefix(plan, a, b - 1);
    }
  }

  lemma {:induction false} PausesSpare(plan: Plan, n: nat, sink: nat)
    requires forall i: nat :: SparesSink(plan(i).events, sink)
    ensures SparesSink(Pauses(plan, 0, n), sink)
  {
    if n > 0 {
      PausesSpare(plan, n - 1, sink);
      var front, last := Pauses(plan, 0, n - 1), plan(n - 1).events;
      forall i | 0 <= i < |front + last|
        ensures Spares((front + last)[i], sink)
      {
        assert SparesSink(last, sink);
        if i >= |front| {
          assert (front + last)[i] == last[i - |front|];
        }
      }
    }
  }

  /** `c` was live exactly if `found`, in the state that page `p` of the read saw. */
  ghost predicate PageSaw(trace: seq<World>, base: seq<Event>, plan: Plan, p: nat, c: StatCoord, found: bool) {
    var prefix := base + Pauses(plan, 0, p + 1);
    |prefix| < |trace| && (found <==> LiveCoord(trace[|prefix|].db, c))
  }

  /** The first `upto` coordinates have been read, page by page. */
  ghost predicate PagesSeen(trace: seq<World>, base: seq<Event>, plan: Plan, coords: seq<StatCoord>, upto: int, found: set<StatCoord>)
    requires 0 <= upto <= |coords|
  {
    && (forall c | c in found :: c in coords[..upto])
    && (forall i | 0 <= i < upto :: PageSaw(trace, base, plan, i / STATS_FLUSH_BATCH, coords[i], coords[i] in found))
  }

  lemma PageAdds(before: seq<World>, after: seq<World>, base: seq<Event>, plan: Plan, coords: seq<StatCoord>, p: nat, end: nat,
                 found: set<StatCoord>, more: set<StatCoord>)
    requires NoRepeats(coords) && before <= after
    requires p * STATS_FLUSH_BATCH < end == Min((p + 1) * STATS_FLUSH_BATCH, |coords|)
    requires PagesSeen(before, base, plan, coords, p * STATS_FLUSH_BATCH, found)
    requires |base + Pauses(plan, 0, p + 1)| < |after|
    requires forall c :: c in more <==> c in coords[p * STATS_FLUSH_BATCH..end] && LiveCoord(after[|base + Pauses(plan, 0, p + 1)|].db, c)
    ensures PagesSeen(after, base, plan, coords, end, found + more)
  {
    var start := p * STATS_FLUSH_BATCH;
    assert coords[..end] == coords[..start] + coords[start..end];
    forall i | 0 <= i < end
      ensures PageSaw(after, base, plan, i / STATS_FLUSH_BATCH, coords[i], coords[i] in found + more)
    {
      if i < start {
        assert coords[i] !in coords[start..end];
        assert PageSaw(before, base, plan, i / STATS_FLUSH_BATCH, coords[i], coords[i] in found);
      } else {
        assert coords[i] == coords[start..end][i - start];
        assert coords[i] !in coords[..start];
        assert i / STATS_FLUSH_BATCH == p;
      }
    }
  }

  lemma BatchHolds(order: seq<StatCoord>, counts: map<StatCoord, Counters>, pending: Sink, b: nat)
    requires Holds(counts, pending, order)
    ensures Holds(counts, pending, BatchNo(order, b))
  {
  }

  /** A flush that starts after a resource was deleted lands none of its deltas,
      whatever happens while it runs: its coordinate is in none of the batches. */
  lemma FlushSkipsDeleted(trace: seq<World>, log: seq<Event>, first: seq<Event>, buffer: nat, flight: nat, plan: Plan,
                          pending: Sink, fl: Flushed, ok: bool, c: StatCoord)
    requires Traced(log, trace) && |first| <= |log| && Buried(trace[|first|].db, c)
    requires FlushTold(trace, log, first, buffer, flight, plan, true, pending, fl, ok) && pending != map[] && fl.read
    ensures c !in Keep(WriteOrder(CoordsOf(pending)), fl.live)
    ensures forall i: nat :: c !in BatchNo(Keep(WriteOrder(CoordsOf(pending)), fl.live), i)
  {
    var order := WriteOrder(CoordsOf(pending));
    var base := first + [MoveDeltas(buffer, flight, CoordsOf(pending))];
    KeepLists(order, fl.live);
    if c in order {
      var i :| 0 <= i < |order| && order[i] == c;
      var p := i / STATS_FLUSH_BATCH;
      assert PageSaw(trace, base, plan, p, c, c in fl.live);
      var m := |base + Pauses(plan, 0, p + 1)|;
      TraceSound(log, trace, |first|);
      TraceBetween(log, trace, |first|, m);
      DeletedStaysDeleted(trace[|first|], log[|first|..m], c);
    }
    var kept := Keep(order, fl.live);
    forall i: nat
      ensures c !in BatchNo(kept, i)
    {
      assert forall d | d in BatchNo(kept, i) :: d in kept;
    }
  }
}
