/** What every reachable state keeps: referential integrity, the shape of each
    delivery row, the uniqueness of lease tokens and of names, and the safety
    of a purge's orphan selection. */
module Invariants {
  import opened Tables
  import opened Delay
  import opened Statements
  import opened Protocol

  /** Foreign keys hold, ids are below their sequences, and each delivery's
      message and channel belong to the same topic. */
  ghost predicate References(db: Db) {
    && db.nextTopic >= 1 && db.nextChannel >= 1 && db.nextMessage >= 1 && db.nextDelivery >= 1
    && (forall t | t in db.topics :: 1 <= t < db.nextTopic)
    && (forall c | c in db.channels :: 1 <= c < db.nextChannel && db.channels[c].topicId in db.topics)
    && (forall m | m in db.messages :: 1 <= m < db.nextMessage && db.messages[m].topicId in db.topics)
    && (forall id | id in db.deliveries :: 1 <= id < db.nextDelivery && WellPlaced(db, db.deliveries[id]))
  }

  ghost predicate WellPlaced(db: Db, d: Delivery) {
    && d.messageId in db.messages
    && d.channelId in db.channels
    && db.messages[d.messageId].topicId == db.channels[d.channelId].topicId
  }

  /** Attempts and lease columns fit the status. */
  ghost predicate RowShape(d: Delivery) {
    && d.maxAttempts >= 1
    && match d.status
       case Pending => 0 <= d.attempts <= d.maxAttempts && d.Unleased()
       case InFlight => 1 <= d.attempts <= d.maxAttempts
                        && d.leaseOwner.Some? && d.leaseToken.Some? && d.leaseUntil.Some?
       case Dead => d.attempts == d.maxAttempts + 1 && d.Unleased()
  }

  ghost predicate Shapes(db: Db) {
    forall id | id in db.deliveries :: RowShape(db.deliveries[id])
  }

  /** Every token in use was issued, and no two rows share one. */
  ghost predicate Tokens(db: Db) {
    && (forall id | id in db.deliveries && db.deliveries[id].leaseToken.Some? ::
          db.deliveries[id].leaseToken.value in db.issued)
    && (forall i, j | i in db.deliveries && j in db.deliveries && i != j && db.deliveries[i].leaseToken.Some? ::
          db.deliveries[i].leaseToken != db.deliveries[j].leaseToken)
  }

  ghost predicate UniqueNames(db: Db) {
    && (forall s, t | s in db.topics && t in db.topics && db.topics[s] == db.topics[t] :: s == t)
    && (forall c, d | c in db.channels && d in db.channels && db.channels[c] == db.channels[d] :: c == d)
  }

  /** No selected orphan can own a delivery any more. */
  ghost predicate OrphansStayOrphans(w: World) {
    forall slot | 0 <= slot < |w.doomed| :: Orphans(w.db, w.doomed[slot])
  }

  ghost predicate Orphans(db: Db, ids: set<int>) {
    forall m | m in ids :: m < db.nextMessage && !HasDelivery(db, m)
  }

  ghost predicate DbInv(db: Db) {
    References(db) && Shapes(db) && Tokens(db) && UniqueNames(db)
  }

  ghost predicate Inv(w: World) {
    DbInv(w.db) && OrphansStayOrphans(w)
  }

  /** Under referential integrity a topic's cascade never aborts: its messages
      own every delivery of its channels. */
  lemma TopicCascade(db: Db, topicId: int)
    requires References(db)
    ensures DeleteTopicTx(db, topicId).Some?
    ensures var after := DeleteTopicTx(db, topicId).value;
            && after.topics == db.topics - {topicId}
            && after.channels == db.channels - ChannelsOf(db, topicId)
            && after.messages == db.messages - MessagesOf(db, topicId)
            && after.deliveries == (map id | id in db.deliveries && db.deliveries[id].channelId !in ChannelsOf(db, topicId) :: db.deliveries[id])
            && after.stats == db.stats - StatsOfTopic(db, topicId)
            && after == db.(topics := after.topics, channels := after.channels, messages := after.messages,
                            deliveries := after.deliveries, stats := after.stats)
  {
    var db1 := DeleteMessages(db, MessagesOf(db, topicId));
    assert ChannelsOf(db1, topicId) == ChannelsOf(db, topicId);
    forall id | id in db.deliveries
      ensures db.deliveries[id].messageId in MessagesOf(db, topicId) <==> db.deliveries[id].channelId in ChannelsOf(db, topicId)
    {
      assert WellPlaced(db, db.deliveries[id]);
    }
    assert DeleteChannels(db1, ChannelsOf(db1, topicId)).Some?;
  }

  /** A channel's cascade never aborts, and removes only that channel's rows. */
  lemma ChannelCascade(db: Db, channelId: int)
    ensures DeleteChannelTx(db, channelId).Some?
    ensures DeleteChannelTx(db, channelId).value ==
            db.(channels := db.channels - {channelId},
                deliveries := map id | id in db.deliveries && db.deliveries[id].channelId != channelId :: db.deliveries[id],
                stats := db.stats - StatsOfChannel(db, channelId))
  {
  }

  /** The events that touch only delivery rows, statistics or the clock. */
  predicate IsRowEvent(e: Event) {
    !(e.AddTopic? || e.AddChannel? || e.PublishTo? || e.DeleteOrphans? || e.RemoveTopic? || e.RemoveChannel?)
  }

  /** No row is added, and no surviving row changes its message or channel. */
  ghost predicate KeepsPlaces(a: Db, b: Db) {
    && b.topics == a.topics && b.channels == a.channels
    && b.messages.Keys == a.messages.Keys
    && (forall m | m in a.messages :: b.messages[m].topicId == a.messages[m].topicId)
    && b.nextTopic == a.nextTopic && b.nextChannel == a.nextChannel
    && b.nextMessage == a.nextMessage && b.nextDelivery == a.nextDelivery
    && (forall id | id in b.deliveries ::
          && id in a.deliveries
          && b.deliveries[id].messageId == a.deliveries[id].messageId
          && b.deliveries[id].channelId == a.deliveries[id].channelId)
  }

  /** The events that move counters only. */
  predicate IsCounterEvent(e: Event) {
    e.MoveDeltas? || e.LandDeltas? || e.LandUnanswered? || e.DropDeltas? || e.DiscardTopic? || e.DiscardChannel? || e.PruneStats?
  }

  lemma CounterEventsKeepRows(w: World, e: Event)
    requires IsCounterEvent(e) && WellAddressed(w, e)
    ensures NextDb(w, e) == w.db.(stats := NextDb(w, e).stats)
  {
  }

  lemma RowEventsKeepPlaces(w: World, e: Event)
    requires IsRowEvent(e) && WellAddressed(w, e)
    ensures KeepsPlaces(w.db, NextDb(w, e))
  {
    if IsCounterEvent(e) {
      CounterEventsKeepRows(w, e);
    } else {
      DeliveryEventsKeepPlaces(w, e);
    }
  }

  lemma DeliveryEventsKeepPlaces(w: World, e: Event)
    requires IsRowEvent(e) && !IsCounterEvent(e) && WellAddressed(w, e)
    ensures KeepsPlaces(w.db, NextDb(w, e))
  {
  }

  lemma PlacesKeepReferences(a: Db, b: Db)
    requires References(a) && KeepsPlaces(a, b)
    ensures References(b)
  {
  }

  lemma ReferencesStep(w: World, e: Event)
    requires References(w.db) && WellAddressed(w, e)
    ensures References(NextDb(w, e))
  {
    if IsRowEvent(e) {
      RowEventsKeepPlaces(w, e);
      PlacesKeepReferences(w.db, NextDb(w, e));
      return;
    }
    match e
    case AddTopic(_) =>
    case AddChannel(_, _) =>
    case PublishTo(_, topicId, body, opts, order) =>
      if PublishLands(w.db, topicId, opts) && Lists(order, ChannelsOf(w.db, topicId)) {
        PublishReferences(w.db, topicId, body, opts, order);
      }
    case DeleteOrphans(slot) => MessageDeleteReferences(w.db, w.doomed[slot]);
    case RemoveTopic(topicId) => TopicReferences(w.db, topicId);
    case RemoveChannel(channelId) => ChannelReferences(w.db, channelId);
  }

  lemma MessageDeleteReferences(db: Db, ids: set<int>)
    requires References(db)
    ensures References(DeleteMessages(db, ids))
  {
  }

  lemma TopicReferences(db: Db, topicId: int)
    requires References(db)
    ensures References(Committed(db, DeleteTopicTx(db, topicId)))
  {
    TopicCascade(db, topicId);
    var after := DeleteTopicTx(db, topicId).value;
    forall id | id in after.deliveries
      ensures WellPlaced(after, after.deliveries[id])
    {
      assert WellPlaced(db, db.deliveries[id]);
    }
  }

  lemma ChannelReferences(db: Db, channelId: int)
    requires References(db)
    ensures References(Committed(db, DeleteChannelTx(db, channelId)))
  {
    ChannelCascade(db, channelId);
  }

  lemma PublishReferences(db: Db, topicId: int, body: string, opts: PublishOpts, order: seq<int>)
    requires References(db) && PublishLands(db, topicId, opts) && Lists(order, ChannelsOf(db, topicId))
    ensures References(PublishTx(db, topicId, body, opts, order))
  {
    var after := PublishTx(db, topicId, body, opts, order);
    forall id | id in after.deliveries
      ensures 1 <= id < after.nextDelivery && WellPlaced(after, after.deliveries[id])
    {
      if id < db.nextDelivery {
        assert id in db.deliveries;
      } else {
        assert order[id - db.nextDelivery] in order;
        assert order[id - db.nextDelivery] in ChannelsOf(db, topicId);
      }
    }
  }

  lemma ShapesStep(w: World, e: Event)
    requires Shapes(w.db) && WellAddressed(w, e)
    ensures Shapes(NextDb(w, e))
  {
    if IsCounterEvent(e) {
      CounterEventsKeepRows(w, e);
    } else {
      RowShapesStep(w, e);
    }
  }

  lemma RowShapesStep(w: World, e: Event)
    requires Shapes(w.db) && WellAddressed(w, e) && !IsCounterEvent(e)
    ensures Shapes(NextDb(w, e))
  {
    match e
    case RemoveChannel(channelId) => ChannelCascade(w.db, channelId);
    case _ =>
  }

  lemma ClaimTokens(db: Db, c: int, owner: string, leaseSec: int, ids: set<int>, tokens: map<int, Token>)
    requires Tokens(db)
    ensures Tokens(ClaimTx(db, c, owner, leaseSec, ids, tokens))
    ensures db.issued <= ClaimTx(db, c, owner, leaseSec, ids, tokens).issued
  {
  }

  /** No row gains a token, and the issued ones stay issued. */
  ghost predicate TokensOnlyFade(a: Db, b: Db) {
    && a.issued == b.issued
    && forall id | id in b.deliveries && b.deliveries[id].leaseToken.Some? ::
         id in a.deliveries && a.deliveries[id].leaseToken == b.deliveries[id].leaseToken
  }

  lemma TokensFade(w: World, e: Event)
    requires WellAddressed(w, e) && !e.ClaimRows?
    ensures TokensOnlyFade(w.db, NextDb(w, e))
  {
    if IsCounterEvent(e) {
      CounterEventsKeepRows(w, e);
    } else {
      RowTokensFade(w, e);
    }
  }

  lemma RowTokensFade(w: World, e: Event)
    requires WellAddressed(w, e) && !e.ClaimRows? && !IsCounterEvent(e)
    ensures TokensOnlyFade(w.db, NextDb(w, e))
  {
    match e
    case RemoveChannel(channelId) => ChannelCascade(w.db, channelId);
    case _ =>
  }

  lemma TokensStep(w: World, e: Event)
    requires Tokens(w.db) && WellAddressed(w, e)
    ensures Tokens(NextDb(w, e))
    ensures w.db.issued <= NextDb(w, e).issued
  {
    if e.ClaimRows? {
      ClaimTokens(w.db, e.channelId, e.owner, e.leaseSec, e.ids, e.tokens);
    } else {
      TokensFade(w, e);
    }
  }

  lemma NamesStep(w: World, e: Event)
    requires References(w.db) && UniqueNames(w.db) && WellAddressed(w, e)
    ensures UniqueNames(NextDb(w, e))
  {
    match e
    case RemoveTopic(topicId) => TopicCascade(w.db, topicId);
    case RemoveChannel(channelId) => ChannelCascade(w.db, channelId);
    case _ =>
  }

  /** A message without deliveries never regains one, whatever happens. */
  lemma MessageNeverRegainsDelivery(w: World, e: Event, m: int)
    requires References(w.db) && m < w.db.nextMessage && !HasDelivery(w.db, m)
    ensures m < Apply(w, e).db.nextMessage && !HasDelivery(Apply(w, e).db, m)
  {
    if WellAddressed(w, e) {
      if IsRowEvent(e) {
        RowEventsKeepPlaces(w, e);
      } else if e.RemoveTopic? {
        TopicCascade(w.db, e.topicId);
      } else if e.RemoveChannel? {
        ChannelCascade(w.db, e.channelId);
      } else {
        PlaceEventsAddNoDelivery(w, e, m);
      }
    }
  }

  lemma PlaceEventsAddNoDelivery(w: World, e: Event, m: int)
    requires References(w.db) && m < w.db.nextMessage && !HasDelivery(w.db, m)
    requires WellAddressed(w, e) && (e.AddTopic? || e.AddChannel? || e.PublishTo? || e.DeleteOrphans?)
    ensures m < NextDb(w, e).nextMessage && !HasDelivery(NextDb(w, e), m)
  {
  }

  lemma OrphansStep(w: World, e: Event)
    requires References(w.db) && OrphansStayOrphans(w)
    ensures OrphansStayOrphans(Apply(w, e))
  {
    var after := Apply(w, e);
    forall slot | 0 <= slot < |after.doomed|
      ensures Orphans(after.db, after.doomed[slot])
    {
      assert after.doomed[slot] == w.doomed[slot] || after.doomed[slot] == {}
             || (e.SelectOrphans? && after.doomed[slot] == OrphansAmong(w.db, e.ids));
      assert Orphans(w.db, after.doomed[slot]);
      forall m | m in after.doomed[slot]
        ensures m < after.db.nextMessage && !HasDelivery(after.db, m)
      {
        MessageNeverRegainsDelivery(w, e, m);
      }
    }
  }

  lemma InvStep(w: World, e: Event)
    requires Inv(w)
    ensures Inv(Apply(w, e))
  {
    if WellAddressed(w, e) {
      ReferencesStep(w, e);
      ShapesStep(w, e);
      TokensStep(w, e);
      NamesStep(w, e);
    }
    OrphansStep(w, e);
  }

  lemma {:induction false} InvRun(w: World, events: seq<Event>)
    requires Inv(w)
    ensures Inv(Run(w, events))
    decreases |events|
  {
    if events != [] {
      InvRun(w, events[..|events| - 1]);
      InvStep(Run(w, events[..|events| - 1]), events[|events| - 1]);
    }
  }

  /** Every state any run can reach satisfies the invariant. */
  lemma {:induction false} EveryReachableStateIsSound(w: World, events: seq<Event>)
    requires Initial(w)
    ensures Inv(Run(w, events))
  {
    InvRun(w, events);
  }
}
