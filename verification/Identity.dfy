/** Ids are never reused and names never change: what a topic id, a channel id or
    a counter coordinate stands for over any run. */
module Identity {
  import opened Tables
  import opened Statements
  import opened Protocol
  import opened Invariants

  // ----------------------------------------------------- topics and channels

  /** The event deletes the topic of this name. */
  predicate DeletesName(w: World, e: Event, name: string) {
    e.RemoveTopic? && e.topicId in w.db.topics && w.db.topics[e.topicId] == name
  }

  /** The topics and channels of `b` that are not newer than `a` are those of `a`. */
  ghost predicate OnlyNewIds(a: Db, b: Db) {
    && a.nextTopic <= b.nextTopic && a.nextChannel <= b.nextChannel
    && (forall t | t in b.topics && t < a.nextTopic :: t in a.topics && b.topics[t] == a.topics[t])
    && (forall c | c in b.channels && c < a.nextChannel :: c in a.channels && b.channels[c] == a.channels[c])
  }

  /** The events other than cascades that touch more than delivery rows. */
  lemma PlaceEvents(w: World, e: Event)
    requires References(w.db) && WellAddressed(w, e) && (e.AddTopic? || e.AddChannel? || e.PublishTo? || e.DeleteOrphans?)
    ensures OnlyNewIds(w.db, NextDb(w, e)) && forall t | t in w.db.topics :: t in NextDb(w, e).topics
  {
  }

  lemma Cascades(w: World, e: Event, name: string)
    requires References(w.db) && (e.RemoveTopic? || e.RemoveChannel?)
    ensures OnlyNewIds(w.db, NextDb(w, e))
    ensures !DeletesName(w, e, name) ==> forall t | t in w.db.topics && w.db.topics[t] == name :: t in NextDb(w, e).topics
  {
    if e.RemoveTopic? {
      TopicCascade(w.db, e.topicId);
    } else {
      ChannelCascade(w.db, e.channelId);
    }
  }

  lemma IdsStep(w: World, e: Event, name: string)
    requires References(w.db)
    ensures OnlyNewIds(w.db, Apply(w, e).db)
    ensures !DeletesName(w, e, name) ==> forall t | t in w.db.topics && w.db.topics[t] == name :: t in Apply(w, e).db.topics
  {
    if WellAddressed(w, e) {
      if IsRowEvent(e) {
        RowEventsKeepPlaces(w, e);
      } else if e.RemoveTopic? || e.RemoveChannel? {
        Cascades(w, e, name);
      } else {
        PlaceEvents(w, e);
      }
    }
  }

  /** No event of the run deletes the topic of this name. */
  ghost predicate KeepsName(w: World, events: seq<Event>, name: string)
    decreases |events|
  {
    events == [] || (KeepsName(w, events[..|events| - 1], name) && !DeletesName(Run(w, events[..|events| - 1]), events[|events| - 1], name))
  }

  /** A topic id keeps its name, is never reused, and goes only when the topic of
      that name is deleted; a channel id keeps its topic and name. */
  lemma {:induction false} IdsOverRun(w: World, events: seq<Event>, name: string)
    requires Inv(w)
    ensures OnlyNewIds(w.db, Run(w, events).db)
    ensures KeepsName(w, events, name) ==> forall t | t in w.db.topics && w.db.topics[t] == name :: t in Run(w, events).db.topics
    decreases |events|
  {
    if events != [] {
      var front := events[..|events| - 1];
      IdsOverRun(w, front, name);
      InvRun(w, front);
      IdsStep(Run(w, front), events[|events| - 1], name);
      assert forall t | t in w.db.topics :: t < w.db.nextTopic;
    }
  }

  // --------------------------------------------------------- coordinates

  /** A coordinate whose ids were handed out and whose row is gone. */
  ghost predicate Buried(db: Db, c: StatCoord) {
    c.topicId < db.nextTopic && c.channelId < db.nextChannel && !LiveCoord(db, c)
  }

  lemma BuriedStep(w: World, e: Event, c: StatCoord)
    requires Inv(w) && Buried(w.db, c)
    ensures Buried(Apply(w, e).db, c)
  {
    IdsStep(w, e, "");
  }

  /** Ids are never reused, so every flush that starts after a cascade has
      committed, in any process, still finds the coordinate dead and drops it. */
  lemma {:induction false} DeletedStaysDeleted(w: World, events: seq<Event>, c: StatCoord)
    requires Inv(w) && Buried(w.db, c)
    ensures Inv(Run(w, events)) && Buried(Run(w, events).db, c)
    decreases |events|
  {
    if events != [] {
      DeletedStaysDeleted(w, events[..|events| - 1], c);
      InvRun(w, events);
      InvRun(w, events[..|events| - 1]);
      BuriedStep(Run(w, events[..|events| - 1]), events[|events| - 1], c);
    }
  }

  /** What a cascade removes is buried from then on. */
  lemma CascadeBuries(w: World, e: Event, c: StatCoord)
    requires Inv(w) && LiveCoord(w.db, c)
    requires (e.RemoveTopic? && e.topicId == c.topicId) || (e.RemoveChannel? && c.channelId != 0 && e.channelId == c.channelId)
    ensures Buried(Apply(w, e).db, c)
  {
    match e
    case RemoveTopic(topicId) => TopicCascade(w.db, topicId);
    case RemoveChannel(channelId) => ChannelCascade(w.db, channelId);
  }
}
