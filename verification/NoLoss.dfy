/** No delivery is lost silently, and administrative deletes remove exactly
    what they name. */
module NoLoss {
  import opened Collections
  import opened Tables
  import opened Delay
  import opened Statements
  import opened Protocol
  import opened Invariants
  import opened RowLife
  import opened LeaseSafety
  import opened Sorting
  import opened Polling

  /** The TTL purge takes the row: strictly after its expiry. */
  predicate Purges(db: Db, e: Event, id: int) {
    e.PurgeRows? && id in e.ids && id in db.deliveries && db.deliveries[id].Purgeable(db.now)
  }

  /** Somebody asks for the row to go: its holder, or an administrator. */
  predicate Asked(db: Db, e: Event, id: int) {
    && id in db.deliveries
    && db.deliveries[id].channelId in db.channels
    && match e
       case AckRow(_, k, token) => k == id && HoldsLease(db, id, token)
       case RemoveDead(_, k, channelId) => k == id && DeadIn(db, id, channelId)
       case RemoveTopic(topicId) => db.channels[db.deliveries[id].channelId].topicId == topicId
       case RemoveChannel(channelId) => db.deliveries[id].channelId == channelId
       case _ => false
  }

  lemma RowGoesOnlyForAReason(w: World, e: Event, id: int)
    requires Inv(w) && WellAddressed(w, e) && id in w.db.deliveries
    ensures id !in Apply(w, e).db.deliveries <==> Purges(w.db, e, id) || Asked(w.db, e, id)
  {
    assert WellPlaced(w.db, w.db.deliveries[id]);
    RowStep(w, e, id);
  }

  /** Whenever a row that existed is missing after a run, some step of that
      run removed it for one of the five reasons. */
  lemma {:induction false} EveryLossHasAReason(w: World, events: seq<Event>, id: int) returns (k: nat)
    requires Inv(w) && id in w.db.deliveries && id !in Run(w, events).db.deliveries
    ensures k < |events|
    ensures var before := Run(w, events[..k]);
            && WellAddressed(before, events[k])
            && (Purges(before.db, events[k], id) || Asked(before.db, events[k], id))
    decreases |events|
  {
    var front := events[..|events| - 1];
    InvRun(w, front);
    if id in Run(w, front).db.deliveries {
      k := |front|;
      RowGoesOnlyForAReason(Run(w, front), events[k], id);
    } else {
      k := EveryLossHasAReason(w, front, id);
      assert front[..k] == events[..k];
    }
  }

  ghost predicate NeverAsked(w: World, events: seq<Event>, id: int) {
    forall i | 0 <= i < |events| :: !Asked(Run(w, events[..i]).db, events[i], id)
  }

  /** Only a revival moves a row's expiry. */
  lemma ExpiryStep(w: World, e: Event, id: int)
    requires Inv(w) && id in w.db.deliveries && !Revives(w, e, id) && !Asked(w.db, e, id)
    requires w.db.now <= w.db.deliveries[id].expiresAt
    ensures id in Apply(w, e).db.deliveries
    ensures Apply(w, e).db.deliveries[id].expiresAt == w.db.deliveries[id].expiresAt
    ensures Apply(w, e).db.deliveries[id].messageId == w.db.deliveries[id].messageId
  {
    assert WellPlaced(w.db, w.db.deliveries[id]);
    RowStep(w, e, id);
    if WellAddressed(w, e) {
      ExpiryAfter(w, e, id);
    }
  }

  lemma ExpiryAfter(w: World, e: Event, id: int)
    requires References(w.db) && id in w.db.deliveries && w.db.deliveries[id].channelId in w.db.channels
    requires WellAddressed(w, e) && !Revives(w, e, id) && !Asked(w.db, e, id)
    requires w.db.now <= w.db.deliveries[id].expiresAt
    ensures var d, next := w.db.deliveries[id], RowAfter(w.db, e, id);
            next.Some? && next.value.expiresAt == d.expiresAt && next.value.messageId == d.messageId
  {
  }

  /** Until its expiry has passed on the database clock, a row that nobody asks
      to remove stays, and so does its message, whatever purges are running. */
  lemma {:induction false} RowLivesUntilExpiry(w: World, events: seq<Event>, id: int)
    requires Inv(w) && id in w.db.deliveries
    requires NeverAsked(w, events, id) && NeverRevived(w, events, id)
    requires Run(w, events).db.now <= w.db.deliveries[id].expiresAt
    ensures var d, db := w.db.deliveries[id], Run(w, events).db;
            && id in db.deliveries
            && db.deliveries[id].expiresAt == d.expiresAt
            && db.deliveries[id].messageId == d.messageId
            && d.messageId in db.messages
    decreases |events|
  {
    InvRun(w, events);
    if events == [] {
      assert WellPlaced(w.db, w.db.deliveries[id]);
    } else {
      var front, last := events[..|events| - 1], events[|events| - 1];
      forall i | 0 <= i < |front|
        ensures front[..i] == events[..i] && front[i] == events[i]
      {
      }
      ClockNeverGoesBack(Run(w, front), last);
      RowLivesUntilExpiry(w, front, id);
      InvRun(w, front);
      ExpiryStep(Run(w, front), last, id);
      assert WellPlaced(Run(w, events).db, Run(w, events).db.deliveries[id]);
    }
  }

  /** A revived row and its message get the whole fresh TTL, even when a purge
      had already selected the row before it was revived. */
  lemma {:induction false} RevivedRowGetsItsFreshTTL(w: World, e: Event, events: seq<Event>)
    requires Inv(w) && e.ReviveDead? && Revives(w, e, e.id)
    requires var live := Apply(w, e);
             && NeverAsked(live, events, e.id) && NeverRevived(live, events, e.id)
             && Run(live, events).db.now <= w.db.now + e.ttlSec
    ensures var db := Run(Apply(w, e), events).db;
            && e.id in db.deliveries
            && db.deliveries[e.id].messageId == w.db.deliveries[e.id].messageId
            && w.db.deliveries[e.id].messageId in db.messages
  {
    RowStep(w, e, e.id);
    InvStep(w, e);
    RowLivesUntilExpiry(Apply(w, e), events, e.id);
  }

  // ------------------------------------------------- back in the queue

  /** The event hands row `id` back to the queue. */
  predicate HandsBack(w: World, e: Event, id: int) {
    && WellAddressed(w, e) && id in w.db.deliveries
    && (|| (e.RequeueRow? && e.id == id && HoldsLease(w.db, id, e.token))
        || (e.ReapRows? && id in e.ids && w.db.deliveries[id].LeaseExpired(w.db.now))
        || Revives(w, e, id))
  }

  /** From when on it can be claimed: a requeue may name a time, everything else means now. */
  function ClaimableFrom(db: Db, e: Event): int {
    if e.RequeueRow? && e.at.Some? then e.at.value else db.now
  }

  /** A row handed back is claimed by nobody and can be polled exactly from that
      time to its expiry; only a revival gives it a fresh expiry and attempts. */
  lemma HandedBackIsClaimable(w: World, e: Event, id: int, t: int)
    requires Inv(w) && HandsBack(w, e, id)
    ensures var db, was := Apply(w, e).db, w.db.deliveries[id];
            var expiry := if e.ReviveDead? then db.now + e.ttlSec else was.expiresAt;
            && id in db.deliveries && db.deliveries[id].Unleased()
            && db.deliveries[id].attempts == (if e.ReviveDead? then 0 else was.attempts)
            && (Rank(ClaimableFrom(w.db, e), id) in ReadyRanks(AtClock(db, t), was.channelId) <==> ClaimableFrom(w.db, e) <= t < expiry)
  {
    RowStep(w, e, id);
    RankOf(AtClock(Apply(w, e).db, t), w.db.deliveries[id].channelId, Rank(ClaimableFrom(w.db, e), id));
  }

  /** A published row can be claimed from the end of its delay to its expiry, by the columns the validation looked at. */
  lemma PublishedIsClaimable(w: World, e: Event, id: int, t: int)
    requires Inv(w) && WellAddressed(w, e) && id !in w.db.deliveries && id in Apply(w, e).db.deliveries
    ensures e.PublishTo? && ValidatePublishDelay(e.opts, w.db.now).None?
    ensures var d := Apply(w, e).db.deliveries[id];
            && (d.Ready(t) <==> StoredAvailable(e.opts, w.db.now) <= t < StoredExpiry(e.opts, w.db.now))
            && d.channelId in ChannelsOf(w.db, e.topicId) && d.attempts == 0
  {
    RowStep(w, e, id);
    var i := id - w.db.nextDelivery;
    assert e.order[i] in e.order;
    assert e.order[i] in ToSet(e.order);
  }

  /** After a topic delete nothing refers to the topic, and no other topic's rows moved. */
  lemma TopicDeleteIsComplete(w: World, topicId: int)
    requires Inv(w)
    ensures var db := Apply(w, RemoveTopic(topicId)).db;
            && topicId !in db.topics
            && ChannelsOf(db, topicId) == {} && MessagesOf(db, topicId) == {} && StatsOfTopic(db, topicId) == {}
            && db.topics == w.db.topics - {topicId}
            && (forall c | c in w.db.channels && w.db.channels[c].topicId != topicId ::
                  c in db.channels && db.channels[c] == w.db.channels[c])
            && (forall m | m in w.db.messages && w.db.messages[m].topicId != topicId ::
                  m in db.messages && db.messages[m] == w.db.messages[m])
            && (forall id | id in w.db.deliveries ::
                  id in db.deliveries <==> w.db.channels[w.db.deliveries[id].channelId].topicId != topicId)
            && (forall id | id in db.deliveries :: Unchanged(w.db, db, id))
            && References(db)
  {
    TopicCascade(w.db, topicId);
    InvStep(w, RemoveTopic(topicId));
  }

  /** A channel delete removes its own rows and touches neither a message nor a sibling's delivery. */
  lemma ChannelDeleteSparesSiblings(w: World, channelId: int)
    requires Inv(w)
    ensures var db := Apply(w, RemoveChannel(channelId)).db;
            && channelId !in db.channels && StatsOfChannel(db, channelId) == {}
            && db.messages == w.db.messages && db.topics == w.db.topics
            && (forall id | id in w.db.deliveries ::
                  if w.db.deliveries[id].channelId == channelId then id !in db.deliveries else Unchanged(w.db, db, id))
            && (forall id | id in db.deliveries :: id in w.db.deliveries)
  {
    ChannelCascade(w.db, channelId);
  }
}
