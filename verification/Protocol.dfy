/** The queue as a state machine.  Every committed statement or transaction of
    any process is one event; `Run` folds any finite interleaving of them. */
module Protocol {
  import opened Tables
  import opened DailyStats
  import opened Delay
  import opened Statements

  /** `version` is the commit counter of the database file: it moves on every
      commit that writes a row.  `sinks` are all the places that hold counter
      deltas not yet in the table: the buffer of each process, the drained map
      of each running flush, and the delta of each mutation that has committed
      but not yet reached its recordStat.  `doomed` are the orphan ids that
      running purges have selected and not yet deleted. */
  datatype World = World(db: Db, version: nat, sinks: seq<Sink>, doomed: seq<set<int>>)

  /** LandUnanswered is an upsert that commits and whose reply is lost: its flush
      still holds the deltas.  The Discard events are the sweeps of a buffer after
      a cascade; nothing in them looks at the tables. */
  datatype Event =
    | Tick(seconds: nat)
    | AddTopic(topic: string)
    | AddChannel(topicId: int, channel: string)
    | PublishTo(sink: nat, topicId: int, body: string, opts: PublishOpts, order: seq<int>)
    | ClaimRows(sink: nat, channelId: int, owner: string, leaseSec: int, ids: set<int>, tokens: map<int, Token>)
    | AckRow(sink: nat, id: int, token: Token)
    | RequeueRow(sink: nat, id: int, token: Token, at: Option<int>)
    | ReapRows(ids: set<int>)
    | PurgeRows(sink: nat, ids: set<int>)
    | SelectOrphans(slot: nat, ids: set<int>)
    | DeleteOrphans(slot: nat)
    | ReviveDead(sink: nat, id: int, channelId: int, ttlSec: int)
    | RemoveDead(sink: nat, id: int, channelId: int)
    | RemoveTopic(topicId: int)
    | RemoveChannel(channelId: int)
    | MoveDeltas(source: nat, target: nat, coords: set<StatCoord>)
    | LandDeltas(source: nat, coords: set<StatCoord>)
    | LandUnanswered(source: nat, coords: set<StatCoord>)
    | DropDeltas(source: nat, coords: set<StatCoord>)
    | DiscardTopic(sink: nat, topicId: int)
    | DiscardChannel(sink: nat, channelId: int)
    | PruneStats(cutoff: int, rows: set<StatRow>)

  /** The mutations that record counters, each into a sink of its caller. */
  predicate Records(e: Event) {
    e.PublishTo? || e.ClaimRows? || e.AckRow? || e.RequeueRow? || e.PurgeRows? || e.ReviveDead? || e.RemoveDead?
  }

  /** An event names only sinks and slots that exist; any other event does nothing. */
  predicate WellAddressed(w: World, e: Event) {
    if Records(e) then e.sink < |w.sinks|
    else
      match e
      case MoveDeltas(s, t, _) => s < |w.sinks| && t < |w.sinks| && s != t
      case LandDeltas(s, _) => s < |w.sinks|
      case LandUnanswered(s, _) => s < |w.sinks|
      case DropDeltas(s, _) => s < |w.sinks|
      case DiscardTopic(s, _) => s < |w.sinks|
      case DiscardChannel(s, _) => s < |w.sinks|
      case SelectOrphans(slot, _) => slot < |w.doomed|
      case DeleteOrphans(slot) => slot < |w.doomed|
      case _ => true
  }

  /** The tables after the event. */
  function NextDb(w: World, e: Event): Db
    requires WellAddressed(w, e)
  {
    var db := w.db;
    match e
    case Tick(seconds) => db.(now := db.now + seconds)
    case AddTopic(topic) => InsertTopic(db, topic)
    case AddChannel(topicId, channel) => InsertChannel(db, topicId, channel)
    case PublishTo(_, topicId, body, opts, order) => PublishTx(db, topicId, body, opts, order)
    case ClaimRows(_, channelId, owner, leaseSec, ids, tokens) => ClaimTx(db, channelId, owner, leaseSec, ids, tokens)
    case AckRow(_, id, token) => AckStmt(db, id, token)
    case RequeueRow(_, id, token, at) => RequeueStmt(db, id, token, at)
    case ReapRows(ids) => ReapStmt(db, ids)
    case PurgeRows(_, ids) => PurgeStmt(db, ids)
    case SelectOrphans(_, _) => db
    case DeleteOrphans(slot) => DeleteMessages(db, w.doomed[slot])
    case ReviveDead(_, id, channelId, ttlSec) => ReviveTx(db, id, channelId, ttlSec)
    case RemoveDead(_, id, channelId) => RemoveDeadStmt(db, id, channelId)
    case RemoveTopic(topicId) => Committed(db, DeleteTopicTx(db, topicId))
    case RemoveChannel(channelId) => Committed(db, DeleteChannelTx(db, channelId))
    case MoveDeltas(_, _, _) => db
    case LandDeltas(s, coords) => db.(stats := Upsert(db.stats, Today(db), w.sinks[s], coords * CoordsOf(w.sinks[s])))
    case LandUnanswered(s, coords) => db.(stats := Upsert(db.stats, Today(db), w.sinks[s], coords * CoordsOf(w.sinks[s])))
    case DropDeltas(_, _) => db
    case DiscardTopic(_, _) => db
    case DiscardChannel(_, _) => db
    case PruneStats(cutoff, rows) => db.(stats := db.stats - Prunable(db, cutoff, rows))
  }

  function Prunable(db: Db, cutoff: int, rows: set<StatRow>): set<StatRow> {
    set r | r in rows && r in db.stats && r.day < cutoff
  }

  function PublishDelta(topicId: int, order: seq<int>): Sink {
    if order == [] then map[StatKey(StatCoord(topicId, 0), StatPublish) := 1]
    else
      var keys := set c | c in order :: StatKey(StatCoord(topicId, c), StatPublish);
      map k | k in keys :: 1
  }

  function RowsIn(db: Db, ids: set<int>, channelId: int): set<int> {
    set id | id in ids && id in db.deliveries && db.deliveries[id].channelId == channelId
  }

  /** One delta per channel that lost rows. */
  function PurgeDelta(db: Db, gone: set<int>): Sink
    requires gone <= db.deliveries.Keys
  {
    var channels := set id | id in gone && db.deliveries[id].channelId in db.channels :: db.deliveries[id].channelId;
    map k | k in (set c | c in channels :: StatKey(StatCoord(db.channels[c].topicId, c), StatPurged))
      :: |RowsIn(db, gone, k.coord.channelId)|
  }

  /** The counter deltas that a committed event hands to recordStat. */
  function Delta(db: Db, e: Event): Sink {
    match e
    case PublishTo(_, topicId, _, opts, order) =>
      if PublishLands(db, topicId, opts) && Lists(order, ChannelsOf(db, topicId)) then PublishDelta(topicId, order) else map[]
    case ClaimRows(_, channelId, _, _, ids, tokens) =>
      var rows := Leasable(db, channelId, ids);
      if FreshTokens(db, rows, tokens)
      then Merge(Attribution(db, channelId, StatClaim, |rows|), Attribution(db, channelId, StatDead, |Killed(db, rows)|))
      else map[]
    case AckRow(_, id, token) =>
      if HoldsLease(db, id, token) then Attribution(db, db.deliveries[id].channelId, StatAck, 1) else map[]
    case RequeueRow(_, id, token, _) =>
      if HoldsLease(db, id, token) then Attribution(db, db.deliveries[id].channelId, StatRequeue, 1) else map[]
    case PurgeRows(_, ids) => PurgeDelta(db, PurgeableRows(db, ids))
    case ReviveDead(_, id, channelId, _) =>
      if DeadIn(db, id, channelId) then Attribution(db, channelId, StatRequeue, 1) else map[]
    case RemoveDead(_, id, channelId) =>
      if DeadIn(db, id, channelId) then Attribution(db, channelId, StatPurged, 1) else map[]
    case _ => map[]
  }

  function DeadCoords(db: Db, coords: set<StatCoord>): set<StatCoord> {
    set c | c in coords && !LiveCoord(db, c)
  }

  function NextSinks(w: World, e: Event): seq<Sink>
    requires WellAddressed(w, e)
  {
    var s := w.sinks;
    if Records(e) then s[e.sink := Merge(s[e.sink], Delta(w.db, e))]
    else
      match e
      case MoveDeltas(i, j, coords) => s[i := Except(s[i], coords)][j := Merge(s[j], Only(s[i], coords))]
      case LandDeltas(i, coords) => s[i := Except(s[i], coords)]
      case DropDeltas(i, coords) => s[i := Except(s[i], DeadCoords(w.db, coords))]
      case DiscardTopic(i, topicId) => s[i := WithoutTopic(s[i], topicId)]
      case DiscardChannel(i, channelId) => s[i := WithoutChannel(s[i], channelId)]
      case _ => s
  }

  function NextDoomed(w: World, e: Event): seq<set<int>>
    requires WellAddressed(w, e)
  {
    match e
    case SelectOrphans(slot, ids) => w.doomed[slot := OrphansAmong(w.db, ids)]
    case DeleteOrphans(slot) => w.doomed[slot := {}]
    case _ => w.doomed
  }

  /** Two databases hold the same rows, whatever their clocks say. */
  predicate SameRows(a: Db, b: Db) { a.(now := b.now) == b }

  function Apply(w: World, e: Event): World {
    if !WellAddressed(w, e) then w
    else
      var db := NextDb(w, e);
      World(db, if SameRows(w.db, db) then w.version else w.version + 1, NextSinks(w, e), NextDoomed(w, e))
  }

  function Run(w: World, events: seq<Event>): World
    decreases |events|
  {
    if events == [] then w
    else Apply(Run(w, events[..|events| - 1]), events[|events| - 1])
  }

  /** A freshly migrated database and any number of idle processes. */
  predicate Initial(w: World) {
    && w.db == EmptyDb(w.db.now)
    && (forall i | 0 <= i < |w.sinks| :: w.sinks[i] == map[])
    && (forall i | 0 <= i < |w.doomed| :: w.doomed[i] == {})
  }

  lemma {:induction false} RunConcat(w: World, a: seq<Event>, b: seq<Event>)
    ensures Run(w, a + b) == Run(Run(w, a), b)
    decreases |b|
  {
    if b == [] {
      assert a + b == a;
    } else {
      var front := b[..|b| - 1];
      assert (a + b)[..|a + b| - 1] == a + front;
      RunConcat(w, a, front);
    }
  }

  lemma RunSnoc(w: World, a: seq<Event>, e: Event)
    ensures Run(w, a + [e]) == Apply(Run(w, a), e)
  {
    assert (a + [e])[..|a + [e]| - 1] == a;
  }

  lemma RunCons(w: World, e: Event, events: seq<Event>)
    ensures Run(w, [e] + events) == Run(Apply(w, e), events)
  {
    RunConcat(w, [e], events);
    assert [e][..0] == [];
  }

  lemma RunTwo(w: World, events: seq<Event>, a: Event, b: Event)
    ensures Run(w, events + [a, b]) == Apply(Apply(Run(w, events), a), b)
  {
    RunSnoc(w, events, a);
    RunSnoc(w, events + [a], b);
    assert events + [a] + [b] == events + [a, b];
  }

  lemma RunThree(w: World, events: seq<Event>, a: Event, b: Event, c: Event)
    ensures Run(w, events + [a, b, c]) == Apply(Apply(Apply(Run(w, events), a), b), c)
  {
    RunTwo(w, events, a, b);
    RunSnoc(w, events + [a, b], c);
    assert events + [a, b] + [c] == events + [a, b, c];
  }
}
