/** The life of one delivery row: what each event does to it, and where rows
    come from.  The lemmas about leases, losses and counters all rest on this
    one row-by-row account. */
module RowLife {
  import opened Tables
  import opened Statements
  import opened Protocol
  import opened Invariants

  function Find(db: Db, id: int): Option<Delivery> {
    if id in db.deliveries then Some(db.deliveries[id]) else None
  }

  /** What becomes of row `id`.  Deleting orphan messages is absent: it never
      takes a delivery with it. */
  ghost function RowAfter(db: Db, e: Event, id: int): Option<Delivery>
    requires References(db) && id in db.deliveries
  {
    var d := db.deliveries[id];
    assert WellPlaced(db, d);
    match e
    case ClaimRows(_, channelId, owner, leaseSec, ids, tokens) =>
      var rows := Leasable(db, channelId, ids);
      if id in rows && FreshTokens(db, rows, tokens)
      then Some(ClaimRow(d, owner, tokens[id], db.now + leaseSec))
      else Some(d)
    case AckRow(_, k, token) => if k == id && HoldsLease(db, id, token) then None else Some(d)
    case RequeueRow(_, k, token, at) =>
      if k == id && HoldsLease(db, id, token)
      then Some(BackToPending(d, if at.None? then db.now else at.value))
      else Some(d)
    case ReapRows(ids) => if id in ids && d.LeaseExpired(db.now) then Some(BackToPending(d, db.now)) else Some(d)
    case PurgeRows(_, ids) => if id in ids && d.Purgeable(db.now) then None else Some(d)
    case ReviveDead(_, k, channelId, ttlSec) =>
      if k == id && DeadIn(db, id, channelId) then Some(ReviveRow(d, db.now, ttlSec)) else Some(d)
    case RemoveDead(_, k, channelId) => if k == id && DeadIn(db, id, channelId) then None else Some(d)
    case RemoveTopic(topicId) => if db.channels[d.channelId].topicId == topicId then None else Some(d)
    case RemoveChannel(channelId) => if d.channelId == channelId then None else Some(d)
    case _ => Some(d)
  }

  /** A publish is the only source of rows, and it uses ids never used before. */
  ghost predicate NewRow(w: World, e: Event, id: int, d: Delivery) {
    && e.PublishTo?
    && PublishLands(w.db, e.topicId, e.opts)
    && Lists(e.order, ChannelsOf(w.db, e.topicId))
    && w.db.nextDelivery <= id < w.db.nextDelivery + |e.order|
    && d == NewDelivery(w.db, e.order[id - w.db.nextDelivery], e.opts)
  }

  /** The events that rewrite or remove single rows of the deliveries table. */
  lemma PlainRowStep(w: World, e: Event, id: int)
    requires References(w.db) && WellAddressed(w, e) && IsRowEvent(e)
    ensures NextDb(w, e).nextDelivery == w.db.nextDelivery
    ensures id in NextDb(w, e).deliveries ==> id in w.db.deliveries
    ensures id in w.db.deliveries ==> Find(NextDb(w, e), id) == RowAfter(w.db, e, id)
  {
    if IsCounterEvent(e) {
      CounterEventsKeepRows(w, e);
    } else {
      DeliveryRowStep(w, e, id);
    }
  }

  lemma DeliveryRowStep(w: World, e: Event, id: int)
    requires References(w.db) && WellAddressed(w, e) && IsRowEvent(e) && !IsCounterEvent(e)
    ensures NextDb(w, e).nextDelivery == w.db.nextDelivery
    ensures id in NextDb(w, e).deliveries ==> id in w.db.deliveries
    ensures id in w.db.deliveries ==> Find(NextDb(w, e), id) == RowAfter(w.db, e, id)
  {
  }

  lemma CascadeRowStep(w: World, e: Event, id: int)
    requires Inv(w) && (e.RemoveTopic? || e.RemoveChannel?)
    ensures NextDb(w, e).nextDelivery == w.db.nextDelivery
    ensures id in NextDb(w, e).deliveries ==> id in w.db.deliveries
    ensures id in w.db.deliveries ==> Find(NextDb(w, e), id) == RowAfter(w.db, e, id)
  {
    assert id in w.db.deliveries ==> WellPlaced(w.db, w.db.deliveries[id]);
    if e.RemoveTopic? {
      TopicCascade(w.db, e.topicId);
    } else {
      ChannelCascade(w.db, e.channelId);
    }
  }

  /** The unguarded orphan delete takes no delivery along, whatever ran since its SELECT. */
  lemma OrphanDeleteSparesDeliveries(w: World, slot: nat)
    requires Inv(w) && slot < |w.doomed|
    ensures DeleteMessages(w.db, w.doomed[slot]).deliveries == w.db.deliveries
  {
    assert Orphans(w.db, w.doomed[slot]);
    forall id | id in w.db.deliveries
      ensures w.db.deliveries[id].messageId !in w.doomed[slot]
    {
      assert HasDelivery(w.db, w.db.deliveries[id].messageId);
    }
  }

  lemma AddingRowStep(w: World, e: Event, id: int)
    requires Inv(w) && WellAddressed(w, e) && (e.AddTopic? || e.AddChannel? || e.PublishTo?)
    ensures w.db.nextDelivery <= NextDb(w, e).nextDelivery
    ensures id in w.db.deliveries ==> Find(NextDb(w, e), id) == RowAfter(w.db, e, id)
    ensures id !in w.db.deliveries && id in NextDb(w, e).deliveries ==> NewRow(w, e, id, NextDb(w, e).deliveries[id])
  {
  }

  lemma RowStep(w: World, e: Event, id: int)
    requires Inv(w)
    ensures w.db.nextDelivery <= Apply(w, e).db.nextDelivery
    ensures id in w.db.deliveries && WellAddressed(w, e) ==>
              Find(Apply(w, e).db, id) == RowAfter(w.db, e, id)
    ensures id !in w.db.deliveries && id in Apply(w, e).db.deliveries ==>
              NewRow(w, e, id, Apply(w, e).db.deliveries[id])
  {
    if !WellAddressed(w, e) { return; }
    if IsRowEvent(e) {
      PlainRowStep(w, e, id);
    } else if e.RemoveTopic? || e.RemoveChannel? {
      CascadeRowStep(w, e, id);
    } else if e.DeleteOrphans? {
      OrphanDeleteSparesDeliveries(w, e.slot);
    } else {
      AddingRowStep(w, e, id);
    }
  }
}
