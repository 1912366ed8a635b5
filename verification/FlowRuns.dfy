/** The flow equations over whole runs: at every reachable state the rows of a
    channel are exactly those its counters account for, wherever the deltas
    currently are. */
module FlowRuns {
  import opened Collections
  import opened Tables
  import opened DailyStats
  import opened Statements
  import opened Protocol
  import opened Invariants
  import opened Ledger
  import opened Flow

  // ------------------------------------------- channels not yet created

  /** Every delta and every statistics row names a channel that has been created. */
  ghost predicate KnownCoords(w: World) {
    && (forall r | r in w.db.stats :: r.coord.channelId < w.db.nextChannel)
    && (forall i | 0 <= i < |w.sinks| :: KnownSink(w.sinks[i], w.db.nextChannel))
  }

  ghost predicate KnownSink(s: Sink, bound: int) {
    forall k | k in s :: k.coord.channelId < bound
  }

  lemma DeltaIsKnown(w: World, e: Event)
    requires References(w.db) && WellAddressed(w, e)
    ensures KnownSink(Delta(w.db, e), w.db.nextChannel)
  {
    if e.PublishTo? && PublishLands(w.db, e.topicId, e.opts) && Lists(e.order, ChannelsOf(w.db, e.topicId)) {
      forall c | c in e.order
        ensures c < w.db.nextChannel
      {
        assert c in (set x | x in e.order);
        assert c in ChannelsOf(w.db, e.topicId);
      }
    }
  }

  lemma NextChannelGrows(w: World, e: Event)
    requires References(w.db)
    ensures w.db.nextChannel <= Apply(w, e).db.nextChannel
  {
    if e.RemoveTopic? {
      TopicCascade(w.db, e.topicId);
    } else if e.RemoveChannel? {
      ChannelCascade(w.db, e.channelId);
    } else if WellAddressed(w, e) {
      NoCascade(w, e);
    }
  }

  lemma NoCascade(w: World, e: Event)
    requires WellAddressed(w, e) && !e.RemoveTopic? && !e.RemoveChannel?
    ensures w.db.nextChannel <= NextDb(w, e).nextChannel
  {
  }

  lemma KnownStats(w: World, e: Event)
    requires References(w.db) && KnownCoords(w) && WellAddressed(w, e)
    ensures forall r | r in NextDb(w, e).stats :: r.coord.channelId < w.db.nextChannel
  {
    if e.LandDeltas? || e.LandUnanswered? {
      assert KnownSink(w.sinks[e.source], w.db.nextChannel);
      forall r | r in NextDb(w, e).stats
        ensures r.coord.channelId < w.db.nextChannel
      {
        TouchedRows(Today(w.db), e.coords * CoordsOf(w.sinks[e.source]), r);
      }
    } else if e.RemoveTopic? {
      TopicCascade(w.db, e.topicId);
    } else if e.RemoveChannel? {
      ChannelCascade(w.db, e.channelId);
    } else if !e.PruneStats? {
      StatsUntouched(w, e);
    }
  }

  lemma KnownSinks(w: World, e: Event)
    requires References(w.db) && KnownCoords(w) && WellAddressed(w, e)
    ensures forall i | 0 <= i < |w.sinks| :: KnownSink(NextSinks(w, e)[i], w.db.nextChannel)
  {
    DeltaIsKnown(w, e);
    forall i | 0 <= i < |w.sinks|
      ensures KnownSink(NextSinks(w, e)[i], w.db.nextChannel)
    {
      assert KnownSink(w.sinks[i], w.db.nextChannel);
      if e.MoveDeltas? {
        assert KnownSink(w.sinks[e.source], w.db.nextChannel);
      }
    }
  }

  lemma KnownCoordsStep(w: World, e: Event)
    requires References(w.db) && KnownCoords(w)
    ensures KnownCoords(Apply(w, e))
  {
    if WellAddressed(w, e) {
      NextChannelGrows(w, e);
      KnownStats(w, e);
      KnownSinks(w, e);
      forall i | 0 <= i < |w.sinks|
        ensures KnownSink(Apply(w, e).sinks[i], Apply(w, e).db.nextChannel)
      {
        assert KnownSink(NextSinks(w, e)[i], w.db.nextChannel);
      }
    }
  }

  lemma {:induction false} HeldZero(sinks: seq<Sink>, bound: int, k: StatKey)
    requires forall i | 0 <= i < |sinks| :: KnownSink(sinks[i], bound)
    requires k.coord.channelId >= bound
    ensures Held(sinks, k) == 0
  {
    if sinks != [] {
      assert KnownSink(sinks[0], bound);
      HeldZero(sinks[1..], bound, k);
    }
  }

  lemma FutureBalanceIsZero(w: World, k: StatKey)
    requires KnownCoords(w) && k.coord.channelId >= w.db.nextChannel
    ensures Balance(w, k) == 0
  {
    HeldZero(w.sinks, w.db.nextChannel, k);
    assert Buckets(w.db.stats, k) == map[];
  }

  lemma FutureChannelHasNoRows(db: Db, c: int)
    requires References(db) && c >= db.nextChannel
    ensures CountsOf(db, c) == Counts(0, 0, 0)
  {
    forall st: Status
      ensures |Rows(db, c, st)| == 0
    {
      forall id: int
        ensures id !in Rows(db, c, st)
      {
        assert id in db.deliveries ==> WellPlaced(db, db.deliveries[id]);
      }
      SameCount(Rows(db, c, st), {});
    }
  }

  // ------------------------------------------------ movements over a run

  /** How far one step takes a counter of the channel away from what was recorded. */
  function DriftOf(w: World, e: Event, c: int, kind: StatKind): int {
    if c in w.db.channels then Drift(w, e, Key(w.db, c, kind)) else 0
  }

  /** The movements of one step that no counter shows: those it does not tell
      apart, and in the six counter fields the drift. */
  function Hidden(w: World, e: Event, c: int): Moves {
    NO_MOVES.(publish := DriftOf(w, e, c, StatPublish), claim := DriftOf(w, e, c, StatClaim), ack := DriftOf(w, e, c, StatAck),
              requeue := DriftOf(w, e, c, StatRequeue), dead := DriftOf(w, e, c, StatDead), purged := DriftOf(w, e, c, StatPurged),
              reaped := Reaped(w, e, c), revived := Revived(w, e, c),
              purgedPending := |PurgedRows(w, e, c, Pending)|,
              purgedInFlight := |PurgedRows(w, e, c, InFlight)|,
              purgedDead := |PurgedRows(w, e, c, Dead)|)
  }

  function Add(a: Moves, b: Moves): Moves {
    Moves(a.publish + b.publish, a.claim + b.claim, a.ack + b.ack, a.requeue + b.requeue, a.dead + b.dead,
          a.purged + b.purged, a.reaped + b.reaped, a.revived + b.revived, a.purgedPending + b.purgedPending,
          a.purgedInFlight + b.purgedInFlight, a.purgedDead + b.purgedDead)
  }

  function TotalHidden(w: World, events: seq<Event>, c: int): Moves
    decreases |events|
  {
    if events == [] then NO_MOVES
    else
      var front := events[..|events| - 1];
      Add(TotalHidden(w, front, c), Hidden(Run(w, front), events[|events| - 1], c))
  }

  lemma FutureChannelDoesNotMove(w: World, e: Event, c: int)
    requires References(w.db) && c >= w.db.nextChannel
    ensures Still(Hidden(w, e, c))
  {
    FutureChannelHasNoRows(w.db, c);
    forall id: int
      ensures id in w.db.deliveries ==> w.db.deliveries[id].channelId != c
    {
      assert id in w.db.deliveries ==> WellPlaced(w.db, w.db.deliveries[id]);
    }
    if e.ReapRows? {
      SameCount(RowsIn(w.db, Reapable(w.db, e.ids), c), {});
    }
    forall st: Status
      ensures |PurgedRows(w, e, c, st)| == 0
    {
      forall id: int
        ensures id !in PurgedRows(w, e, c, st)
      {
        assert e.RemoveDead? ==> !DeadIn(w.db, e.id, c);
      }
      SameCount(PurgedRows(w, e, c, st), {});
    }
  }

  // ----------------------------------------------------- the equations

  /** The six counters of a channel as the whole cluster knows them, corrected by
      the drift, with the hidden movements of the run. */
  ghost function Account(w: World, c: int, hidden: Moves): Moves
    requires c in w.db.channels
  {
    hidden.(publish := Balance(w, Key(w.db, c, StatPublish)) + hidden.publish, claim := Balance(w, Key(w.db, c, StatClaim)) + hidden.claim,
            ack := Balance(w, Key(w.db, c, StatAck)) + hidden.ack, requeue := Balance(w, Key(w.db, c, StatRequeue)) + hidden.requeue,
            dead := Balance(w, Key(w.db, c, StatDead)) + hidden.dead, purged := Balance(w, Key(w.db, c, StatPurged)) + hidden.purged)
  }

  lemma ChannelStays(w: World, e: Event, c: int)
    requires References(w.db) && c in Apply(w, e).db.channels
    ensures c in w.db.channels ==> Apply(w, e).db.channels[c] == w.db.channels[c]
    ensures c !in w.db.channels ==> e.AddChannel? && c == w.db.nextChannel
  {
    if WellAddressed(w, e) {
      if IsRowEvent(e) {
        RowEventsKeepPlaces(w, e);
      } else {
        match e
        case RemoveTopic(topicId) => TopicCascade(w.db, topicId);
        case RemoveChannel(channelId) => ChannelCascade(w.db, channelId);
        case _ =>
      }
    }
  }

  /** Apart from the counters two movements are the same. */
  predicate SameApartFromCounters(h: Moves, m: Moves) {
    h.(publish := 0, claim := 0, ack := 0, requeue := 0, dead := 0, purged := 0) ==
    m.(publish := 0, claim := 0, ack := 0, requeue := 0, dead := 0, purged := 0)
  }

  /** One more step on the account: `m` is all the step did, `h` its hidden part. */
  lemma AccountGrows(w: World, after: World, c: int, hidden: Moves, h: Moves, m: Moves)
    requires c in w.db.channels && c in after.db.channels && after.db.channels[c] == w.db.channels[c]
    requires SameApartFromCounters(h, m)
    requires Balance(after, Key(w.db, c, StatPublish)) == Balance(w, Key(w.db, c, StatPublish)) + m.publish - h.publish
    requires Balance(after, Key(w.db, c, StatClaim)) == Balance(w, Key(w.db, c, StatClaim)) + m.claim - h.claim
    requires Balance(after, Key(w.db, c, StatAck)) == Balance(w, Key(w.db, c, StatAck)) + m.ack - h.ack
    requires Balance(after, Key(w.db, c, StatRequeue)) == Balance(w, Key(w.db, c, StatRequeue)) + m.requeue - h.requeue
    requires Balance(after, Key(w.db, c, StatDead)) == Balance(w, Key(w.db, c, StatDead)) + m.dead - h.dead
    requires Balance(after, Key(w.db, c, StatPurged)) == Balance(w, Key(w.db, c, StatPurged)) + m.purged - h.purged
    ensures Account(after, c, Add(hidden, h)) == Add(Account(w, c, hidden), m)
  {
  }

  lemma HiddenPart(w: World, e: Event, c: int)
    requires c in w.db.channels
    ensures SameApartFromCounters(Hidden(w, e, c), MovesOf(w, e, c))
  {
  }

  lemma BalanceStep(w: World, e: Event, c: int, kind: StatKind)
    requires Inv(w) && c in w.db.channels && c in Apply(w, e).db.channels && !PrunesChannel(w, e, c)
    ensures Balance(Apply(w, e), Key(w.db, c, kind)) ==
            Balance(w, Key(w.db, c, kind)) + At(Recorded(w, e), Key(w.db, c, kind)) - DriftOf(w, e, c, kind)
  {
    ChannelStays(w, e, c);
    CountersAreConserved(w, e, Key(w.db, c, kind));
  }

  lemma AccountStep(w: World, e: Event, c: int, hidden: Moves)
    requires Inv(w) && c in w.db.channels && c in Apply(w, e).db.channels
    requires !PrunesChannel(w, e, c)
    ensures Account(Apply(w, e), c, Add(hidden, Hidden(w, e, c))) == Add(Account(w, c, hidden), MovesOf(w, e, c))
  {
    ChannelStays(w, e, c);
    HiddenPart(w, e, c);
    BalanceStep(w, e, c, StatPublish);
    BalanceStep(w, e, c, StatClaim);
    BalanceStep(w, e, c, StatAck);
    BalanceStep(w, e, c, StatRequeue);
    BalanceStep(w, e, c, StatDead);
    BalanceStep(w, e, c, StatPurged);
    AccountGrows(w, Apply(w, e), c, hidden, Hidden(w, e, c), MovesOf(w, e, c));
  }

  lemma FollowsChain(m1: Moves, m2: Moves, a: Counts, b: Counts)
    requires Follows(Counts(0, 0, 0), m1, a) && Follows(a, m2, b)
    ensures Follows(Counts(0, 0, 0), Add(m1, m2), b)
  {
  }

  ghost predicate NeverPruned(w: World, events: seq<Event>, c: int) {
    forall i | 0 <= i < |events| :: !PrunesChannel(Run(w, events[..i]), events[i], c)
  }

  /** What a run from an empty database establishes about channel `c` at its end. */
  ghost predicate Accounted(w: World, c: int, hidden: Moves) {
    && (c >= w.db.nextChannel ==> Still(hidden))
    && (c in w.db.channels ==> Follows(Counts(0, 0, 0), Account(w, c, hidden), CountsOf(w.db, c)))
  }

  lemma SurvivorStep(w: World, e: Event, c: int, hidden: Moves)
    requires Inv(w) && Accounted(w, c, hidden) && !PrunesChannel(w, e, c)
    requires c in w.db.channels && c in Apply(w, e).db.channels
    ensures Follows(Counts(0, 0, 0), Account(Apply(w, e), c, Add(hidden, Hidden(w, e, c))), CountsOf(Apply(w, e).db, c))
  {
    AccountStep(w, e, c, hidden);
    StepFlow(w, e, c);
    FollowsChain(Account(w, c, hidden), MovesOf(w, e, c), CountsOf(w.db, c), CountsOf(Apply(w, e).db, c));
  }

  predicate Still(m: Moves) { m == NO_MOVES }

  lemma AddStill(a: Moves, b: Moves)
    requires Still(a) && Still(b)
    ensures Still(Add(a, b))
  {
  }

  lemma BirthStep(w: World, e: Event, c: int, hidden: Moves)
    requires Inv(w) && KnownCoords(w) && Accounted(w, c, hidden)
    requires c !in w.db.channels && c in Apply(w, e).db.channels
    ensures Follows(Counts(0, 0, 0), Account(Apply(w, e), c, Add(hidden, Hidden(w, e, c))), CountsOf(Apply(w, e).db, c))
  {
    ChannelStays(w, e, c);
    FutureChannelDoesNotMove(w, e, c);
    AddStill(hidden, Hidden(w, e, c));
    NewChannelStartsEmpty(w, e, c, Add(hidden, Hidden(w, e, c)));
  }

  lemma HiddenGrows(w: World, e: Event, c: int, hidden: Moves)
    requires References(w.db) && (c >= w.db.nextChannel ==> Still(hidden))
    ensures c >= w.db.nextChannel ==> Still(Add(hidden, Hidden(w, e, c)))
  {
    if c >= w.db.nextChannel {
      FutureChannelDoesNotMove(w, e, c);
      AddStill(hidden, Hidden(w, e, c));
    }
  }

  lemma FollowsStep(w: World, e: Event, c: int, hidden: Moves)
    requires Inv(w) && KnownCoords(w) && Accounted(w, c, hidden) && !PrunesChannel(w, e, c)
    requires c in Apply(w, e).db.channels
    ensures Follows(Counts(0, 0, 0), Account(Apply(w, e), c, Add(hidden, Hidden(w, e, c))), CountsOf(Apply(w, e).db, c))
  {
    if c in w.db.channels {
      SurvivorStep(w, e, c, hidden);
    } else {
      BirthStep(w, e, c, hidden);
    }
  }

  lemma AccountedStep(w: World, e: Event, c: int, hidden: Moves)
    requires Inv(w) && KnownCoords(w) && Accounted(w, c, hidden) && !PrunesChannel(w, e, c)
    ensures Accounted(Apply(w, e), c, Add(hidden, Hidden(w, e, c)))
  {
    NextChannelGrows(w, e);
    HiddenGrows(w, e, c, hidden);
    if c in Apply(w, e).db.channels {
      FollowsStep(w, e, c, hidden);
    }
  }

  lemma NewChannelStartsEmpty(w: World, e: Event, c: int, hidden: Moves)
    requires Inv(w) && KnownCoords(w) && e.AddChannel? && c == w.db.nextChannel && c in Apply(w, e).db.channels
    requires Still(hidden)
    ensures Follows(Counts(0, 0, 0), Account(Apply(w, e), c, hidden), CountsOf(Apply(w, e).db, c))
  {
    var after := Apply(w, e);
    forall kind: StatKind
      ensures Balance(after, Key(after.db, c, kind)) == 0
    {
      FutureBalanceIsZero(w, Key(after.db, c, kind));
    }
    FutureChannelHasNoRows(w.db, c);
    assert CountsOf(after.db, c) == CountsOf(w.db, c);
  }

  lemma {:induction false} AccountedRun(w: World, events: seq<Event>, c: int)
    requires Initial(w) && NeverPruned(w, events, c)
    ensures Inv(Run(w, events)) && KnownCoords(Run(w, events))
    ensures Accounted(Run(w, events), c, TotalHidden(w, events, c))
    decreases |events|
  {
    EveryReachableStateIsSound(w, events);
    if events != [] {
      var front, last := events[..|events| - 1], events[|events| - 1];
      forall i | 0 <= i < |front|
        ensures front[..i] == events[..i] && front[i] == events[i]
      {
      }
      AccountedRun(w, front, c);
      KnownCoordsStep(Run(w, front), last);
      AccountedStep(Run(w, front), last, c, TotalHidden(w, front, c));
    }
  }

  function Total(n: Counts): int { n.pending + n.inFlight + n.dead }

  /** A counter as the whole cluster knows it: the daily table plus every buffer,
      flush and unfinished call. */
  ghost function Counter(w: World, c: int, kind: StatKind): int
    requires c in w.db.channels
  {
    Balance(w, Key(w.db, c, kind))
  }

  /** The row counts that the counters, corrected by the drift, and the uncounted moves predict. */
  ghost function Predicted(w: World, c: int, h: Moves): Counts
    requires c in w.db.channels
  {
    var a := Account(w, c, h);
    Counts(a.publish + a.requeue + a.reaped - a.claim - a.purgedPending,
           a.claim - a.dead - a.ack - (a.requeue - a.revived) - a.reaped - a.purgedInFlight,
           a.dead - a.revived - a.purgedDead)
  }

  /** For every channel that exists and never had statistics pruned, after any run
      of any number of processes: its rows are the publishes minus acks minus
      purges, and each status obeys its own equation, once every counter is
      corrected by what sweeps took from it and lost replies added to it. */
  lemma {:induction false} RowsAreWhatTheCountersSay(w: World, events: seq<Event>, c: int)
    requires Initial(w) && NeverPruned(w, events, c) && c in Run(w, events).db.channels
    ensures var now, h := Run(w, events), TotalHidden(w, events, c);
            && CountsOf(now.db, c) == Predicted(now, c, h)
            && Counter(now, c, StatPurged) + h.purged == h.purgedPending + h.purgedInFlight + h.purgedDead
            && Total(CountsOf(now.db, c)) ==
               Counter(now, c, StatPublish) + h.publish - (Counter(now, c, StatAck) + h.ack) - (Counter(now, c, StatPurged) + h.purged)
  {
    AccountedRun(w, events, c);
  }
}
