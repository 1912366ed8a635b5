/** The flow equations: for every channel the number of rows in each status is
    determined by what its counters say, at every point of every run. */
module Flow {
  import opened Collections
  import opened Tables
  import opened Statements
  import opened Protocol
  import opened Invariants
  import opened RowLife
  import opened Ledger

  function Rows(db: Db, c: int, st: Status): set<int> {
    set id | id in db.deliveries && db.deliveries[id].channelId == c && db.deliveries[id].status == st
  }

  function Key(db: Db, c: int, kind: StatKind): StatKey
    requires c in db.channels
  {
    StatKey(StatCoord(db.channels[c].topicId, c), kind)
  }

  /** Everything one step does to one channel's rows: what its six counters
      record, and the movements that no counter tells apart: rows the lease
      reaper returns to pending (counted nowhere), dead rows an administrator
      revives (counted as requeues), and the status purged rows had. */
  datatype Moves = Moves(publish: int, claim: int, ack: int, requeue: int, dead: int, purged: int,
                         reaped: int, revived: int, purgedPending: int, purgedInFlight: int, purgedDead: int)

  const NO_MOVES := Moves(0, 0, 0, 0, 0, 0, 0, 0, 0, 0, 0)

  function MovesOf(w: World, e: Event, c: int): Moves
    requires c in w.db.channels
  {
    Moves(At(Recorded(w, e), Key(w.db, c, StatPublish)), At(Recorded(w, e), Key(w.db, c, StatClaim)),
          At(Recorded(w, e), Key(w.db, c, StatAck)), At(Recorded(w, e), Key(w.db, c, StatRequeue)),
          At(Recorded(w, e), Key(w.db, c, StatDead)), At(Recorded(w, e), Key(w.db, c, StatPurged)),
          Reaped(w, e, c), Revived(w, e, c),
          |PurgedRows(w, e, c, Pending)|, |PurgedRows(w, e, c, InFlight)|, |PurgedRows(w, e, c, Dead)|)
  }

  function Reaped(w: World, e: Event, c: int): nat {
    if e.ReapRows? then |RowsIn(w.db, Reapable(w.db, e.ids), c)| else 0
  }

  function Revived(w: World, e: Event, c: int): nat {
    if WellAddressed(w, e) && e.ReviveDead? && e.channelId == c && DeadIn(w.db, e.id, c) then 1 else 0
  }

  /** Rows of one status that the purge or an administrator deletes. */
  function PurgedRows(w: World, e: Event, c: int, st: Status): set<int> {
    if !WellAddressed(w, e) then {}
    else if e.PurgeRows? then (set id | id in PurgeableRows(w.db, e.ids) && id in Rows(w.db, c, st))
    else if e.RemoveDead? && e.channelId == c && DeadIn(w.db, e.id, c) && st.Dead? then {e.id}
    else {}
  }

  /** The row counts of one channel. */
  datatype Counts = Counts(pending: int, inFlight: int, dead: int)

  function CountsOf(db: Db, c: int): Counts {
    Counts(|Rows(db, c, Pending)|, |Rows(db, c, InFlight)|, |Rows(db, c, Dead)|)
  }

  /** The flow equations: each status gains and loses exactly these rows. */
  predicate Follows(before: Counts, m: Moves, after: Counts) {
    && after.pending == before.pending + m.publish + m.requeue + m.reaped - m.claim - m.purgedPending
    && after.inFlight == before.inFlight + m.claim - m.dead - m.ack - (m.requeue - m.revived) - m.reaped - m.purgedInFlight
    && after.dead == before.dead + m.dead - m.revived - m.purgedDead
    && m.purged == m.purgedPending + m.purgedInFlight + m.purgedDead
  }

  // ------------------------------------------------------ one event each

  lemma ClaimedRow(w: World, e: Event, c: int, id: int)
    requires Inv(w) && e.ClaimRows? && WellAddressed(w, e) && c == e.channelId
    requires FreshTokens(w.db, Leasable(w.db, c, e.ids), e.tokens)
    ensures var db, after, leased := w.db, Apply(w, e).db, Leasable(w.db, c, e.ids);
            && (id in leased ==> id in Rows(db, c, Pending))
            && (id in Rows(after, c, Pending) <==> id in Rows(db, c, Pending) && id !in leased)
            && (id in Rows(after, c, InFlight) <==> id in Rows(db, c, InFlight) || (id in leased && id !in Killed(db, leased)))
            && (id in Rows(after, c, Dead) <==> id in Rows(db, c, Dead) || id in Killed(db, leased))
  {
    PlainRowStep(w, e, id);
  }

  lemma ClaimCounts(w: World, e: Event, c: int)
    requires Inv(w) && e.ClaimRows? && WellAddressed(w, e) && c == e.channelId
    requires FreshTokens(w.db, Leasable(w.db, c, e.ids), e.tokens)
    ensures var db, after, leased := w.db, Apply(w, e).db, Leasable(w.db, c, e.ids);
            && |Rows(after, c, Pending)| == |Rows(db, c, Pending)| - |leased|
            && |Rows(after, c, InFlight)| == |Rows(db, c, InFlight)| + |leased| - |Killed(db, leased)|
            && |Rows(after, c, Dead)| == |Rows(db, c, Dead)| + |Killed(db, leased)|
  {
    var db, after := w.db, Apply(w, e).db;
    var leased := Leasable(db, c, e.ids);
    var killed := Killed(db, leased);
    forall id: int
      ensures id in leased ==> id in Rows(db, c, Pending)
      ensures id in Rows(after, c, Pending) <==> id in Rows(db, c, Pending) && id !in leased
      ensures id in Rows(after, c, InFlight) <==> id in Rows(db, c, InFlight) || (id in leased && id !in killed)
      ensures id in Rows(after, c, Dead) <==> id in Rows(db, c, Dead) || id in killed
    {
      ClaimedRow(w, e, c, id);
    }
    CountAfter(Rows(db, c, Pending), leased, {}, Rows(after, c, Pending));
    CountAfter(Rows(db, c, InFlight), {}, leased - killed, Rows(after, c, InFlight));
    CountAfter(Rows(db, c, Dead), {}, killed, Rows(after, c, Dead));
    CountAfter(leased, killed, {}, leased - killed);
  }

  lemma AttributionAt(db: Db, c0: int, kind0: StatKind, n: int, c: int, kind: StatKind)
    requires c in db.channels && c0 in db.channels
    ensures At(Attribution(db, c0, kind0, n), Key(db, c, kind)) == if c0 == c && kind0 == kind then n else 0
  {
  }

  lemma MergeAt(a: Sink, b: Sink, k: StatKey)
    ensures At(Merge(a, b), k) == At(a, k) + At(b, k)
  {
  }

  lemma ClaimRecords(w: World, e: Event, c: int, kind: StatKind)
    requires e.ClaimRows? && WellAddressed(w, e) && e.channelId in w.db.channels && c in w.db.channels
    requires FreshTokens(w.db, Leasable(w.db, e.channelId, e.ids), e.tokens)
    ensures var leased := Leasable(w.db, e.channelId, e.ids);
            At(Recorded(w, e), Key(w.db, c, kind)) ==
            if e.channelId != c then 0
            else if kind.StatClaim? then |leased|
            else if kind.StatDead? then |Killed(w.db, leased)|
            else 0
  {
    var leased := Leasable(w.db, e.channelId, e.ids);
    var n, k := |leased|, |Killed(w.db, leased)|;
    MergeAt(Attribution(w.db, e.channelId, StatClaim, n), Attribution(w.db, e.channelId, StatDead, k), Key(w.db, c, kind));
    AttributionAt(w.db, e.channelId, StatClaim, n, c, kind);
    AttributionAt(w.db, e.channelId, StatDead, k, c, kind);
  }

  lemma ClaimFlow(w: World, e: Event, c: int)
    requires Inv(w) && e.ClaimRows? && WellAddressed(w, e) && c == e.channelId && c in w.db.channels
    requires FreshTokens(w.db, Leasable(w.db, c, e.ids), e.tokens)
    ensures Follows(CountsOf(w.db, c), MovesOf(w, e, c), CountsOf(Apply(w, e).db, c))
  {
    ClaimCounts(w, e, c);
    forall kind: StatKind
      ensures At(Recorded(w, e), Key(w.db, c, kind)) == if kind.StatClaim? then |Leasable(w.db, c, e.ids)|
                                                       else if kind.StatDead? then |Killed(w.db, Leasable(w.db, c, e.ids))| else 0
    {
      ClaimRecords(w, e, c, kind);
    }
  }

  predicate RowIn(d: Option<Delivery>, c: int, st: Status) {
    d.Some? && d.value.channelId == c && d.value.status == st
  }

  /** One row changed or went. */
  lemma OneRow(db: Db, after: Db, c: int, st: Status, id: int)
    requires forall k: int | k != id :: Find(after, k) == Find(db, k)
    ensures |Rows(after, c, st)| == |Rows(db, c, st)| - (if RowIn(Find(db, id), c, st) then 1 else 0)
                                                      + (if RowIn(Find(after, id), c, st) then 1 else 0)
  {
    var was, is_ := RowIn(Find(db, id), c, st), RowIn(Find(after, id), c, st);
    forall k: int
      ensures k in Rows(after, c, st) <==> if k == id then is_ else k in Rows(db, c, st)
    {
      assert k != id ==> Find(after, k) == Find(db, k);
    }
    CountAfter(Rows(db, c, st), if was && !is_ then {id} else {}, if is_ && !was then {id} else {}, Rows(after, c, st));
  }

  lemma SingleRowStep(w: World, e: Event, c: int)
    requires Inv(w) && WellAddressed(w, e) && c in w.db.channels
    requires e.AckRow? || e.RequeueRow? || e.ReviveDead? || e.RemoveDead?
    ensures var db, after := w.db, Apply(w, e).db;
            forall st :: |Rows(after, c, st)| == |Rows(db, c, st)| - (if RowIn(Find(db, e.id), c, st) then 1 else 0)
                                                                   + (if RowIn(Find(after, e.id), c, st) then 1 else 0)
  {
    var db, after := w.db, Apply(w, e).db;
    forall k: int | k != e.id
      ensures Find(after, k) == Find(db, k)
    {
      PlainRowStep(w, e, k);
    }
    forall st: Status {
      OneRow(db, after, c, st, e.id);
    }
  }

  /** The kind a single-row event records. */
  function KindOf(e: Event): StatKind {
    if e.AckRow? then StatAck else if e.RemoveDead? then StatPurged else StatRequeue
  }

  predicate Hits(db: Db, e: Event) {
    match e
    case AckRow(_, id, token) => HoldsLease(db, id, token)
    case RequeueRow(_, id, token, _) => HoldsLease(db, id, token)
    case ReviveDead(_, id, channelId, _) => DeadIn(db, id, channelId)
    case RemoveDead(_, id, channelId) => DeadIn(db, id, channelId)
    case _ => false
  }

  lemma SingleRowRecords(w: World, e: Event, c: int, kind: StatKind)
    requires References(w.db) && WellAddressed(w, e) && c in w.db.channels
    requires e.AckRow? || e.RequeueRow? || e.ReviveDead? || e.RemoveDead?
    ensures At(Recorded(w, e), Key(w.db, c, kind)) ==
            if Hits(w.db, e) && w.db.deliveries[e.id].channelId == c && kind == KindOf(e) then 1 else 0
  {
    if Hits(w.db, e) {
      assert WellPlaced(w.db, w.db.deliveries[e.id]);
      AttributionAt(w.db, w.db.deliveries[e.id].channelId, KindOf(e), 1, c, kind);
    }
  }

  /** Where a single-row event takes its row from, and where to. */
  lemma SingleRowFate(w: World, e: Event, c: int)
    requires Inv(w) && WellAddressed(w, e)
    requires e.AckRow? || e.RequeueRow? || e.ReviveDead? || e.RemoveDead?
    ensures !Hits(w.db, e) ==> Find(Apply(w, e).db, e.id) == Find(w.db, e.id)
    ensures Hits(w.db, e) ==>
              && w.db.deliveries[e.id].status == (if e.AckRow? || e.RequeueRow? then InFlight else Dead)
              && (e.AckRow? || e.RemoveDead? ==> Find(Apply(w, e).db, e.id).None?)
              && (e.RequeueRow? || e.ReviveDead? ==>
                    RowIn(Find(Apply(w, e).db, e.id), w.db.deliveries[e.id].channelId, Pending))
  {
    PlainRowStep(w, e, e.id);
  }

  lemma SingleRowFlow(w: World, e: Event, c: int)
    requires Inv(w) && WellAddressed(w, e) && c in w.db.channels
    requires (e.AckRow? || e.RequeueRow? || e.ReviveDead? || e.RemoveDead?) && Hits(w.db, e)
    ensures Follows(CountsOf(w.db, c), MovesOf(w, e, c), CountsOf(Apply(w, e).db, c))
  {
    SingleRowStep(w, e, c);
    SingleRowFate(w, e, c);
    forall kind: StatKind
      ensures At(Recorded(w, e), Key(w.db, c, kind)) ==
              if Hits(w.db, e) && w.db.deliveries[e.id].channelId == c && kind == KindOf(e) then 1 else 0
    {
      SingleRowRecords(w, e, c, kind);
    }
  }

  lemma ReapFlow(w: World, e: Event, c: int)
    requires Inv(w) && e.ReapRows? && c in w.db.channels
    ensures Follows(CountsOf(w.db, c), MovesOf(w, e, c), CountsOf(Apply(w, e).db, c))
  {
    var db, after := w.db, Apply(w, e).db;
    var reaped := RowsIn(db, Reapable(db, e.ids), c);
    forall id: int
      ensures id in reaped ==> id in Rows(db, c, InFlight)
      ensures id in Rows(after, c, Pending) <==> id in Rows(db, c, Pending) || id in reaped
      ensures id in Rows(after, c, InFlight) <==> id in Rows(db, c, InFlight) && id !in reaped
      ensures id in Rows(after, c, Dead) <==> id in Rows(db, c, Dead)
    {
      PlainRowStep(w, e, id);
    }
    CountAfter(Rows(db, c, Pending), {}, reaped, Rows(after, c, Pending));
    CountAfter(Rows(db, c, InFlight), reaped, {}, Rows(after, c, InFlight));
    CountAfter(Rows(db, c, Dead), {}, {}, Rows(after, c, Dead));
  }

  lemma PurgeCounts(w: World, e: Event, c: int, st: Status)
    requires Inv(w) && e.PurgeRows? && WellAddressed(w, e)
    ensures |Rows(Apply(w, e).db, c, st)| == |Rows(w.db, c, st)| - |PurgedRows(w, e, c, st)|
  {
    var db, after := w.db, Apply(w, e).db;
    forall id: int
      ensures id in Rows(after, c, st) <==> id in Rows(db, c, st) && id !in PurgedRows(w, e, c, st)
    {
      PlainRowStep(w, e, id);
    }
    CountAfter(Rows(db, c, st), PurgedRows(w, e, c, st), {}, Rows(after, c, st));
  }

  lemma PurgeRecords(w: World, e: Event, c: int, kind: StatKind)
    requires References(w.db) && e.PurgeRows? && WellAddressed(w, e) && c in w.db.channels
    ensures At(Recorded(w, e), Key(w.db, c, kind)) ==
            if kind.StatPurged? then |RowsIn(w.db, PurgeableRows(w.db, e.ids), c)| else 0
  {
    var gone := PurgeableRows(w.db, e.ids);
    var channels := set id | id in gone && w.db.deliveries[id].channelId in w.db.channels :: w.db.deliveries[id].channelId;
    if c in channels {
      assert Key(w.db, c, StatPurged) in PurgeDelta(w.db, gone);
    } else {
      forall id: int
        ensures id !in RowsIn(w.db, gone, c)
      {
        if id in gone {
          assert w.db.deliveries[id].channelId in w.db.channels ==> w.db.deliveries[id].channelId in channels;
        }
      }
      CountAfter({}, {}, {}, RowsIn(w.db, gone, c));
    }
  }

  lemma PurgeSplit(w: World, e: Event, c: int)
    requires e.PurgeRows? && WellAddressed(w, e)
    ensures |RowsIn(w.db, PurgeableRows(w.db, e.ids), c)| ==
            |PurgedRows(w, e, c, Pending)| + |PurgedRows(w, e, c, InFlight)| + |PurgedRows(w, e, c, Dead)|
  {
    var p, i, d := PurgedRows(w, e, c, Pending), PurgedRows(w, e, c, InFlight), PurgedRows(w, e, c, Dead);
    forall id: int
      ensures id in i ==> id !in p
      ensures id in d ==> id !in p + i
      ensures id in RowsIn(w.db, PurgeableRows(w.db, e.ids), c) <==> id in p + i || id in d
    {
      assert id in w.db.deliveries ==>
          w.db.deliveries[id].status.Pending? || w.db.deliveries[id].status.InFlight? || w.db.deliveries[id].status.Dead?;
    }
    CountAfter(p, {}, i, p + i);
    CountAfter(p + i, {}, d, RowsIn(w.db, PurgeableRows(w.db, e.ids), c));
  }

  lemma PurgeFlow(w: World, e: Event, c: int)
    requires Inv(w) && e.PurgeRows? && WellAddressed(w, e) && c in w.db.channels
    ensures Follows(CountsOf(w.db, c), MovesOf(w, e, c), CountsOf(Apply(w, e).db, c))
  {
    PurgeCounts(w, e, c, Pending);
    PurgeCounts(w, e, c, InFlight);
    PurgeCounts(w, e, c, Dead);
    PurgeSplit(w, e, c);
    forall kind: StatKind
      ensures At(Recorded(w, e), Key(w.db, c, kind)) ==
              if kind.StatPurged? then |RowsIn(w.db, PurgeableRows(w.db, e.ids), c)| else 0
    {
      PurgeRecords(w, e, c, kind);
    }
  }

  lemma PublishRecords(w: World, e: Event, c: int, kind: StatKind)
    requires References(w.db) && e.PublishTo? && WellAddressed(w, e) && c in w.db.channels
    requires PublishLands(w.db, e.topicId, e.opts) && Lists(e.order, ChannelsOf(w.db, e.topicId))
    ensures At(Recorded(w, e), Key(w.db, c, kind)) == if kind.StatPublish? && c in ChannelsOf(w.db, e.topicId) then 1 else 0
  {
    assert c in e.order <==> c in (set x | x in e.order);
  }

  /** Row `id` of the state after a publish is an old row, or the new one for `c`. */
  lemma FannedOutRow(w: World, e: Event, c: int, st: Status, id: int)
    requires Inv(w) && e.PublishTo? && WellAddressed(w, e)
    requires PublishLands(w.db, e.topicId, e.opts) && Lists(e.order, ChannelsOf(w.db, e.topicId))
    ensures var j := id - w.db.nextDelivery;
            id in Rows(Apply(w, e).db, c, st) <==>
            id in Rows(w.db, c, st) || (st.Pending? && 0 <= j < |e.order| && e.order[j] == c)
    ensures id in w.db.deliveries ==> id < w.db.nextDelivery
  {
  }

  lemma PublishCounts(w: World, e: Event, c: int, st: Status)
    requires Inv(w) && e.PublishTo? && WellAddressed(w, e)
    requires PublishLands(w.db, e.topicId, e.opts) && Lists(e.order, ChannelsOf(w.db, e.topicId))
    ensures |Rows(Apply(w, e).db, c, st)| ==
            |Rows(w.db, c, st)| + (if st.Pending? && c in ChannelsOf(w.db, e.topicId) then 1 else 0)
  {
    var db, after := w.db, Apply(w, e).db;
    assert c in e.order <==> c in (set x | x in e.order);
    var come: set<int> := {};
    if st.Pending? && c in ChannelsOf(db, e.topicId) {
      var j :| 0 <= j < |e.order| && e.order[j] == c;
      come := {db.nextDelivery + j};
    }
    forall id: int
      ensures id in come ==> id !in Rows(db, c, st)
      ensures id in Rows(after, c, st) <==> id in Rows(db, c, st) || id in come
    {
      FannedOutRow(w, e, c, st, id);
    }
    CountAfter(Rows(db, c, st), {}, come, Rows(after, c, st));
  }

  lemma PublishFlow(w: World, e: Event, c: int)
    requires Inv(w) && e.PublishTo? && WellAddressed(w, e) && c in w.db.channels
    requires PublishLands(w.db, e.topicId, e.opts) && Lists(e.order, ChannelsOf(w.db, e.topicId))
    ensures Follows(CountsOf(w.db, c), MovesOf(w, e, c), CountsOf(Apply(w, e).db, c))
  {
    forall kind: StatKind
      ensures At(Recorded(w, e), Key(w.db, c, kind)) == if kind.StatPublish? && c in ChannelsOf(w.db, e.topicId) then 1 else 0
    {
      PublishRecords(w, e, c, kind);
    }
    PublishCounts(w, e, c, Pending);
    PublishCounts(w, e, c, InFlight);
    PublishCounts(w, e, c, Dead);
  }

  // ------------------------------------------------------ any event

  /** The events that neither touch a row of a surviving channel nor record anything. */
  predicate Quiet(w: World, e: Event) {
    || !WellAddressed(w, e)
    || (!Records(e) && !e.ReapRows?)
    || (e.PublishTo? && !(PublishLands(w.db, e.topicId, e.opts) && Lists(e.order, ChannelsOf(w.db, e.topicId))))
    || (e.ClaimRows? && !FreshTokens(w.db, Leasable(w.db, e.channelId, e.ids), e.tokens))
    || ((e.AckRow? || e.RequeueRow? || e.ReviveDead? || e.RemoveDead?) && !Hits(w.db, e))
  }

  lemma QuietRow(w: World, e: Event, c: int, st: Status, id: int)
    requires Inv(w) && Quiet(w, e) && c in Apply(w, e).db.channels && c in w.db.channels
    ensures id in Rows(Apply(w, e).db, c, st) <==> id in Rows(w.db, c, st)
  {
    if e.RemoveTopic? || e.RemoveChannel? {
      CascadeElsewhere(w, e, c, st, id);
    } else if WellAddressed(w, e) {
      if Records(e) {
        MissedRow(w, e, id);
      } else {
        UncountedRow(w, e, id);
      }
    }
  }

  /** A cascade that leaves the channel leaves its rows. */
  lemma CascadeElsewhere(w: World, e: Event, c: int, st: Status, id: int)
    requires Inv(w) && (e.RemoveTopic? || e.RemoveChannel?) && c in Apply(w, e).db.channels && c in w.db.channels
    ensures id in Rows(Apply(w, e).db, c, st) <==> id in Rows(w.db, c, st)
  {
    if e.RemoveTopic? {
      TopicCascade(w.db, e.topicId);
    } else {
      ChannelCascade(w.db, e.channelId);
    }
  }

  /** A mutation whose guard matches nothing. */
  lemma MissedRow(w: World, e: Event, id: int)
    requires Inv(w) && Quiet(w, e) && WellAddressed(w, e) && Records(e)
    ensures Find(Apply(w, e).db, id) == Find(w.db, id)
  {
    RowStep(w, e, id);
  }

  /** Everything that neither records nor deletes rows. */
  lemma UncountedRow(w: World, e: Event, id: int)
    requires Inv(w) && Quiet(w, e) && WellAddressed(w, e) && !Records(e) && !e.RemoveTopic? && !e.RemoveChannel?
    ensures Find(Apply(w, e).db, id) == Find(w.db, id)
  {
    RowStep(w, e, id);
  }

  lemma QuietMoves(w: World, e: Event, c: int)
    requires Quiet(w, e) && c in w.db.channels && (WellAddressed(w, e) || !e.ReapRows?)
    ensures MovesOf(w, e, c) == NO_MOVES
  {
  }

  lemma QuietFlow(w: World, e: Event, c: int)
    requires Inv(w) && Quiet(w, e) && c in Apply(w, e).db.channels && c in w.db.channels
    ensures Follows(CountsOf(w.db, c), MovesOf(w, e, c), CountsOf(Apply(w, e).db, c))
  {
    var after := Apply(w, e).db;
    forall st: Status
      ensures |Rows(after, c, st)| == |Rows(w.db, c, st)|
    {
      forall id: int
        ensures id in Rows(after, c, st) <==> id in Rows(w.db, c, st)
      {
        QuietRow(w, e, c, st, id);
      }
      SameCount(Rows(after, c, st), Rows(w.db, c, st));
    }
    QuietMoves(w, e, c);
    assert CountsOf(after, c) == CountsOf(w.db, c);
  }

  lemma OtherChannelClaim(w: World, e: Event, c: int)
    requires Inv(w) && WellAddressed(w, e) && e.ClaimRows? && c != e.channelId && c in w.db.channels
    requires FreshTokens(w.db, Leasable(w.db, e.channelId, e.ids), e.tokens)
    ensures Follows(CountsOf(w.db, c), MovesOf(w, e, c), CountsOf(Apply(w, e).db, c))
  {
    forall st: Status
      ensures |Rows(Apply(w, e).db, c, st)| == |Rows(w.db, c, st)|
    {
      forall id: int
        ensures id in Rows(Apply(w, e).db, c, st) <==> id in Rows(w.db, c, st)
      {
        PlainRowStep(w, e, id);
      }
      SameCount(Rows(Apply(w, e).db, c, st), Rows(w.db, c, st));
    }
    forall kind: StatKind
      ensures At(Recorded(w, e), Key(w.db, c, kind)) == 0
    {
      if e.channelId in w.db.channels {
        ClaimRecords(w, e, c, kind);
      }
    }
  }

  /** Every event moves a surviving channel's row counts by exactly what it
      records, together with its reaped, revived and purged rows. */
  lemma StepFlow(w: World, e: Event, c: int)
    requires Inv(w) && c in w.db.channels && c in Apply(w, e).db.channels
    ensures Follows(CountsOf(w.db, c), MovesOf(w, e, c), CountsOf(Apply(w, e).db, c))
  {
    if Quiet(w, e) {
      QuietFlow(w, e, c);
      return;
    }
    match e
    case PublishTo(_, _, _, _, _) => PublishFlow(w, e, c);
    case ClaimRows(_, channelId, _, _, _, _) =>
      if channelId == c { ClaimFlow(w, e, c); } else { OtherChannelClaim(w, e, c); }
    case ReapRows(_) => ReapFlow(w, e, c);
    case PurgeRows(_, _) => PurgeFlow(w, e, c);
    case _ => SingleRowFlow(w, e, c);
  }
}
