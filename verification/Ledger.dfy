/** The counters of the whole cluster: what has landed in the daily table plus
    what every buffer, flush and unfinished call still holds. */
module Ledger {
  import opened Tables
  import opened DailyStats
  import opened Statements
  import opened Protocol
  import opened Invariants

  // ------------------------------------------------------------- balances

  ghost function Held(sinks: seq<Sink>, k: StatKey): int {
    if sinks == [] then 0 else At(sinks[0], k) + Held(sinks[1..], k)
  }

  ghost function Balance(w: World, k: StatKey): int {
    Landed(w.db.stats, k) + Held(w.sinks, k)
  }

  lemma {:induction false} HeldUpdate(sinks: seq<Sink>, i: nat, s: Sink, k: StatKey)
    requires i < |sinks|
    ensures Held(sinks[i := s], k) == Held(sinks, k) + At(s, k) - At(sinks[i], k)
  {
    if i > 0 {
      HeldUpdate(sinks[1..], i - 1, s, k);
      assert sinks[i := s][1..] == sinks[1..][i - 1 := s];
    } else {
      assert sinks[i := s][1..] == sinks[1..];
    }
  }

  /** The deltas an event really records: none when it is addressed to nothing. */
  function Recorded(w: World, e: Event): Sink {
    if WellAddressed(w, e) then Delta(w.db, e) else map[]
  }

  predicate PrunesChannel(w: World, e: Event, channelId: int) {
    e.PruneStats? && exists r | r in Prunable(w.db, e.cutoff, e.rows) :: r.coord.channelId == channelId
  }

  /** What a discard sweep takes from a counter. */
  function Discarded(w: World, e: Event, k: StatKey): int {
    if WellAddressed(w, e) && ((e.DiscardTopic? && e.topicId == k.coord.topicId) || (e.DiscardChannel? && e.channelId == k.coord.channelId))
    then At(w.sinks[e.sink], k)
    else 0
  }

  /** What an upsert without a reply adds: it lands, and its flush still holds it. */
  function Doubled(w: World, e: Event, k: StatKey): int {
    if WellAddressed(w, e) && e.LandUnanswered? && k.coord in e.coords then At(w.sinks[e.source], k) else 0
  }

  /** How far an event takes a counter away from what was recorded. */
  function Drift(w: World, e: Event, k: StatKey): int { Discarded(w, e, k) - Doubled(w, e, k) }

  /** The event brings a sink's deltas for the key into the table. */
  predicate Lands(e: Event, k: StatKey) {
    (e.LandDeltas? || e.LandUnanswered?) && k.coord in e.coords
  }

  lemma SinksStep(w: World, e: Event, k: StatKey)
    requires WellAddressed(w, e) && LiveCoord(w.db, k.coord)
    ensures Held(NextSinks(w, e), k) == Held(w.sinks, k) + At(Delta(w.db, e), k) - Discarded(w, e, k)
            - (if e.LandDeltas? && k.coord in e.coords then At(w.sinks[e.source], k) else 0)
  {
    if Records(e) {
      HeldUpdate(w.sinks, e.sink, Merge(w.sinks[e.sink], Delta(w.db, e)), k);
    } else if e.MoveDeltas? {
      MovingKeepsTotal(w.sinks, e.source, e.target, e.coords, k);
    } else {
      ShrinkingSinks(w, e, k);
    }
  }

  lemma ShrinkingSinks(w: World, e: Event, k: StatKey)
    requires WellAddressed(w, e) && LiveCoord(w.db, k.coord) && !Records(e) && !e.MoveDeltas?
    ensures Delta(w.db, e) == map[]
    ensures Held(NextSinks(w, e), k) == Held(w.sinks, k) - Discarded(w, e, k)
            - (if e.LandDeltas? && k.coord in e.coords then At(w.sinks[e.source], k) else 0)
  {
    match e
    case LandDeltas(i, coords) => HeldUpdate(w.sinks, i, Except(w.sinks[i], coords), k);
    case DropDeltas(i, coords) => HeldUpdate(w.sinks, i, Except(w.sinks[i], DeadCoords(w.db, coords)), k);
    case DiscardTopic(i, topicId) => HeldUpdate(w.sinks, i, WithoutTopic(w.sinks[i], topicId), k);
    case DiscardChannel(i, channelId) => HeldUpdate(w.sinks, i, WithoutChannel(w.sinks[i], channelId), k);
    case _ =>
  }

  lemma MovingKeepsTotal(sinks: seq<Sink>, i: nat, j: nat, coords: set<StatCoord>, k: StatKey)
    requires i < |sinks| && j < |sinks| && i != j
    ensures Held(sinks[i := Except(sinks[i], coords)][j := Merge(sinks[j], Only(sinks[i], coords))], k) == Held(sinks, k)
  {
    var less := sinks[i := Except(sinks[i], coords)];
    HeldUpdate(sinks, i, Except(sinks[i], coords), k);
    HeldUpdate(less, j, Merge(sinks[j], Only(sinks[i], coords)), k);
  }

  lemma StatsStep(w: World, e: Event, k: StatKey)
    requires References(w.db) && WellAddressed(w, e)
    requires k.coord.channelId != 0 && LiveCoord(w.db, k.coord) && LiveCoord(NextDb(w, e), k.coord)
    requires !PrunesChannel(w, e, k.coord.channelId)
    ensures Landed(NextDb(w, e).stats, k) == Landed(w.db.stats, k) + (if Lands(e, k) then At(w.sinks[e.source], k) else 0)
  {
    if e.LandDeltas? || e.LandUnanswered? {
      LandedUpsert(w.db.stats, Today(w.db), w.sinks[e.source], e.coords * CoordsOf(w.sinks[e.source]), k);
    } else if e.PruneStats? {
      LandedElsewhere(w.db.stats, Prunable(w.db, e.cutoff, e.rows), k);
    } else if e.RemoveTopic? || e.RemoveChannel? {
      CascadeStats(w, e, k);
    } else {
      StatsUntouched(w, e);
    }
  }

  lemma CascadeStats(w: World, e: Event, k: StatKey)
    requires References(w.db) && (e.RemoveTopic? || e.RemoveChannel?)
    requires k.coord.channelId != 0 && LiveCoord(w.db, k.coord) && LiveCoord(NextDb(w, e), k.coord)
    ensures Landed(NextDb(w, e).stats, k) == Landed(w.db.stats, k)
  {
    if e.RemoveTopic? {
      TopicCascade(w.db, e.topicId);
      LandedElsewhere(w.db.stats, StatsOfTopic(w.db, e.topicId), k);
    } else {
      ChannelCascade(w.db, e.channelId);
      LandedElsewhere(w.db.stats, StatsOfChannel(w.db, e.channelId), k);
    }
  }

  lemma StatsUntouched(w: World, e: Event)
    requires WellAddressed(w, e)
    requires !(e.LandDeltas? || e.LandUnanswered? || e.PruneStats? || e.RemoveTopic? || e.RemoveChannel?)
    ensures NextDb(w, e).stats == w.db.stats
  {
  }

  /** As long as a channel lives and its buckets are not pruned, every event
      moves its counters by exactly what the event records: buffering, draining,
      merging back and landing change nothing.  The exceptions are exact: a sweep
      loses what it finds for the live channel, and an upsert without a reply adds
      what it landed. */
  lemma CountersAreConserved(w: World, e: Event, k: StatKey)
    requires References(w.db) && k.coord.channelId != 0
    requires LiveCoord(w.db, k.coord) && LiveCoord(Apply(w, e).db, k.coord)
    requires !PrunesChannel(w, e, k.coord.channelId)
    ensures Balance(Apply(w, e), k) == Balance(w, k) + At(Recorded(w, e), k) - Drift(w, e, k)
  {
    if WellAddressed(w, e) {
      SinksStep(w, e, k);
      StatsStep(w, e, k);
    }
  }
}
