/** A sweep of an id that had not been handed out when its cascade ran: other
    goroutines can create that very id before the sweep, and it takes their
    counters.  With this, a delete is safe exactly for ids already handed out. */
module EarlySweeps {
  import opened Collections
  import opened Tables
  import opened Delay
  import opened Statements
  import opened Protocol
  import opened Invariants
  import opened Ledger
  import opened FlowRuns
  import opened Discards

  // ------------------------------------------------- ids can be used up

  ghost predicate SamePlaces(a: World, b: World) {
    b.sinks == a.sinks && b.db.topics == a.db.topics && b.db.channels == a.db.channels && References(b.db)
  }

  lemma NoChannels(db: Db, t: int)
    requires References(db) && t !in db.topics
    ensures ChannelsOf(db, t) == {}
  {
    forall c: int
      ensures c !in ChannelsOf(db, t)
    {
    }
    SameMembers(ChannelsOf(db, t), {});
  }

  lemma SameChannels(a: World, b: World, t: int)
    requires SamePlaces(a, b)
    ensures ChannelsOf(b.db, t) == ChannelsOf(a.db, t)
  {
  }

  /** Deleting an id that is not there commits and changes no place. */
  lemma EmptyTopicCascade(w: World, t: int)
    requires References(w.db) && t !in w.db.topics
    ensures var after := Apply(w, RemoveTopic(t));
            SamePlaces(w, after) && after.db.nextTopic == w.db.nextTopic && after.db.nextChannel == w.db.nextChannel
  {
    TopicCascade(w.db, t);
    TopicReferences(w.db, t);
    NoChannels(w.db, t);
    assert w.db.topics - {t} == w.db.topics;
  }

  lemma EmptyChannelCascade(w: World, c: int)
    requires References(w.db) && c !in w.db.channels
    ensures var after := Apply(w, RemoveChannel(c));
            SamePlaces(w, after) && after.db.nextTopic == w.db.nextTopic && after.db.nextChannel == w.db.nextChannel
  {
    ChannelCascade(w.db, c);
    ChannelReferences(w.db, c);
    assert w.db.channels - {c} == w.db.channels;
  }

  lemma NewTopic(w: World, name: string)
    requires References(w.db) && ValidName(name) && name !in w.db.topics.Values
    ensures var t, after := w.db.nextTopic, Apply(w, AddTopic(name));
            && after.sinks == w.sinks && after.db == w.db.(topics := w.db.topics[t := name], nextTopic := t + 1)
            && References(after.db) && ChannelsOf(after.db, t) == {}
  {
    NoChannels(w.db, w.db.nextTopic);
    SameMembers(ChannelsOf(Apply(w, AddTopic(name)).db, w.db.nextTopic), {});
  }

  lemma NewChannel(w: World, t: int)
    requires References(w.db) && t in w.db.topics && ChannelsOf(w.db, t) == {}
    ensures var c, after := w.db.nextChannel, Apply(w, AddChannel(t, "c"));
            && after.sinks == w.sinks && after.db == w.db.(channels := w.db.channels[c := Channel(t, "c")], nextChannel := c + 1)
            && References(after.db) && ChannelsOf(after.db, t) == {c}
  {
    assert NameChar("c"[0]);
    assert ValidName("c");
    var c, after := w.db.nextChannel, Apply(w, AddChannel(t, "c"));
    forall x | x in w.db.channels
      ensures w.db.channels[x].topicId != t
    {
      assert x !in ChannelsOf(w.db, t);
    }
    forall x: int
      ensures x in ChannelsOf(after.db, t) <==> x == c
    {
    }
    SameMembers(ChannelsOf(after.db, t), {c});
  }

  /** Creating and deleting a topic leaves the tables as they were, one id later. */
  lemma SpendTopicId(w: World, name: string)
    requires References(w.db) && ValidName(name) && name !in w.db.topics.Values
    ensures var after := Apply(Apply(w, AddTopic(name)), RemoveTopic(w.db.nextTopic));
            SamePlaces(w, after) && after.db.nextTopic == w.db.nextTopic + 1 && after.db.nextChannel == w.db.nextChannel
  {
    NewTopic(w, name);
    var t, mid := w.db.nextTopic, Apply(w, AddTopic(name));
    TopicCascade(mid.db, t);
    TopicReferences(mid.db, t);
    assert mid.db.topics - {t} == w.db.topics;
  }

  lemma SpendChannelId(w: World, t: int)
    requires References(w.db) && t in w.db.topics && ChannelsOf(w.db, t) == {}
    ensures var after := Apply(Apply(w, AddChannel(t, "c")), RemoveChannel(w.db.nextChannel));
            SamePlaces(w, after) && after.db.nextTopic == w.db.nextTopic && after.db.nextChannel == w.db.nextChannel + 1
  {
    NewChannel(w, t);
    var c, mid := w.db.nextChannel, Apply(w, AddChannel(t, "c"));
    ChannelCascade(mid.db, c);
    ChannelReferences(mid.db, c);
    assert mid.db.channels - {c} == w.db.channels;
  }

  lemma {:induction false} SpendTopicIds(w: World, name: string, n: nat) returns (events: seq<Event>)
    requires References(w.db) && ValidName(name) && name !in w.db.topics.Values
    ensures var after := Run(w, events);
            SamePlaces(w, after) && after.db.nextTopic == w.db.nextTopic + n && after.db.nextChannel == w.db.nextChannel
  {
    events := [];
    if n > 0 {
      var front := SpendTopicIds(w, name, n - 1);
      var mid := Run(w, front);
      SpendTopicId(mid, name);
      RunTwo(w, front, AddTopic(name), RemoveTopic(mid.db.nextTopic));
      events := front + [AddTopic(name), RemoveTopic(mid.db.nextTopic)];
    }
  }

  lemma {:induction false} SpendChannelIds(w: World, t: int, n: nat) returns (events: seq<Event>)
    requires References(w.db) && t in w.db.topics && ChannelsOf(w.db, t) == {}
    ensures var after := Run(w, events);
            SamePlaces(w, after) && after.db.nextTopic == w.db.nextTopic && after.db.nextChannel == w.db.nextChannel + n
  {
    events := [];
    if n > 0 {
      var front := SpendChannelIds(w, t, n - 1);
      var mid := Run(w, front);
      SpendChannelId(mid, t);
      RunTwo(w, front, AddChannel(t, "c"), RemoveChannel(mid.db.nextChannel));
      events := front + [AddChannel(t, "c"), RemoveChannel(mid.db.nextChannel)];
    }
  }

  // -------------------------------------------- a publish before the sweep

  function Opts(): PublishOpts { PublishOpts(100 * SECOND, None, 0, 5) }

  function FirstPublish(sink: nat, t: int, c: int): Event { PublishTo(sink, t, "", Opts(), [c]) }

  function PublishKey(t: int, c: int): StatKey { StatKey(StatCoord(t, c), StatPublish) }

  lemma PublishRecordsOne(w: World, sink: nat, t: int, c: int)
    requires sink < |w.sinks| && 0 < t && t in w.db.topics && ChannelsOf(w.db, t) == {c}
    ensures var after := Apply(w, FirstPublish(sink, t, c));
            && after.db.topics == w.db.topics && after.db.channels == w.db.channels && |after.sinks| == |w.sinks|
            && At(after.sinks[sink], PublishKey(t, c)) == At(w.sinks[sink], PublishKey(t, c)) + 1
  {
    SameMembers(ToSet([c]), {c});
    assert c in [c];
    assert PublishKey(t, c) in PublishDelta(t, [c]);
  }

  /** The key is live in `w`, and the sink holds one delta for it. */
  ghost predicate HoldsOneLive(w: World, sink: nat, k: StatKey) {
    sink < |w.sinks| && LiveCoord(w.db, k.coord) && At(w.sinks[sink], k) == 1
  }

  lemma ChannelThenPublish(w: World, sink: nat, t: int)
    requires References(w.db) && sink < |w.sinks| && t in w.db.topics && ChannelsOf(w.db, t) == {}
    requires At(w.sinks[sink], PublishKey(t, w.db.nextChannel)) == 0
    ensures var c := w.db.nextChannel;
            HoldsOneLive(Apply(Apply(w, AddChannel(t, "c")), FirstPublish(sink, t, c)), sink, PublishKey(t, c))
  {
    NewChannel(w, t);
    PublishRecordsOne(Apply(w, AddChannel(t, "c")), sink, t, w.db.nextChannel);
  }

  // ------------------------------------------------ safe exactly if known

  /** Whatever runs between the cascade of a topic and its sweep, the sweep finds nothing live. */
  ghost predicate TopicSweepIsSafe(w: World, sink: nat, t: int) {
    forall pause: seq<Event>, k: StatKey ::
      LiveCoord(Run(Apply(w, RemoveTopic(t)), pause).db, k.coord) ==>
        Discarded(Run(Apply(w, RemoveTopic(t)), pause), DiscardTopic(sink, t), k) == 0
  }

  ghost predicate ChannelSweepIsSafe(w: World, sink: nat, c: int) {
    forall pause: seq<Event>, k: StatKey ::
      LiveCoord(Run(Apply(w, RemoveChannel(c)), pause).db, k.coord) ==>
        Discarded(Run(Apply(w, RemoveChannel(c)), pause), DiscardChannel(sink, c), k) == 0
  }

  /** From every reachable state and for every id to come: a run between cascade
      and sweep after which the sweep takes the counter of a live channel. */
  lemma EarlyTopicDelete(w: World, sink: nat, t: int, name: string) returns (pause: seq<Event>)
    requires References(w.db) && KnownCoords(w) && sink < |w.sinks| && ValidName(name) && name !in w.db.topics.Values
    requires t >= w.db.nextTopic
    ensures HoldsOneLive(Run(Apply(w, RemoveTopic(t)), pause), sink, PublishKey(t, w.db.nextChannel))
  {
    var gone, c := Apply(w, RemoveTopic(t)), w.db.nextChannel;
    EmptyTopicCascade(w, t);
    var spent := SpendTopicIds(gone, name, t - w.db.nextTopic);
    var mid := Run(gone, spent);
    NewTopic(mid, name);
    assert KnownSink(w.sinks[sink], c);
    ChannelThenPublish(Apply(mid, AddTopic(name)), sink, t);
    RunThree(gone, spent, AddTopic(name), AddChannel(t, "c"), FirstPublish(sink, t, c));
    pause := spent + [AddTopic(name), AddChannel(t, "c"), FirstPublish(sink, t, c)];
  }

  lemma StartsWith(w: World, e: Event, rest: seq<Event>, sink: nat, k: StatKey) returns (events: seq<Event>)
    requires HoldsOneLive(Run(Apply(w, e), rest), sink, k)
    ensures HoldsOneLive(Run(w, events), sink, k)
  {
    RunCons(w, e, rest);
    events := [e] + rest;
  }

  lemma EndsWith(w: World, front: seq<Event>, a: Event, b: Event, sink: nat, k: StatKey) returns (events: seq<Event>)
    requires HoldsOneLive(Apply(Apply(Run(w, front), a), b), sink, k)
    ensures HoldsOneLive(Run(w, events), sink, k)
  {
    RunTwo(w, front, a, b);
    events := front + [a, b];
  }

  /** Once the topic is there: use up channel ids, then create the one in question and publish. */
  lemma ReachChannel(w: World, sink: nat, t: int, c: int) returns (events: seq<Event>)
    requires References(w.db) && sink < |w.sinks| && t in w.db.topics && ChannelsOf(w.db, t) == {}
    requires c >= w.db.nextChannel && At(w.sinks[sink], PublishKey(t, c)) == 0
    ensures HoldsOneLive(Run(w, events), sink, PublishKey(t, c))
  {
    var spent := SpendChannelIds(w, t, c - w.db.nextChannel);
    SameChannels(w, Run(w, spent), t);
    ChannelThenPublish(Run(w, spent), sink, t);
    events := EndsWith(w, spent, AddChannel(t, "c"), FirstPublish(sink, t, c), sink, PublishKey(t, c));
  }

  lemma EarlyChannelDelete(w: World, sink: nat, c: int, name: string) returns (pause: seq<Event>)
    requires References(w.db) && KnownCoords(w) && sink < |w.sinks| && ValidName(name) && name !in w.db.topics.Values
    requires c >= w.db.nextChannel
    ensures HoldsOneLive(Run(Apply(w, RemoveChannel(c)), pause), sink, PublishKey(w.db.nextTopic, c))
  {
    var gone, t := Apply(w, RemoveChannel(c)), w.db.nextTopic;
    EmptyChannelCascade(w, c);
    NewTopic(gone, name);
    assert KnownSink(w.sinks[sink], w.db.nextChannel);
    var rest := ReachChannel(Apply(gone, AddTopic(name)), sink, t, c);
    pause := StartsWith(gone, AddTopic(name), rest, sink, PublishKey(t, c));
  }

  /** Such a sweep leaves the channel's counter one short of what was recorded. */
  lemma EarlySweepLosesOne(w: World, sink: nat, k: StatKey)
    requires References(w.db) && HoldsOneLive(w, sink, k) && k.coord.channelId != 0
    ensures Balance(Apply(w, DiscardTopic(sink, k.coord.topicId)), k) == Balance(w, k) - 1
    ensures Balance(Apply(w, DiscardChannel(sink, k.coord.channelId)), k) == Balance(w, k) - 1
  {
    CountersAreConserved(w, DiscardTopic(sink, k.coord.topicId), k);
    CountersAreConserved(w, DiscardChannel(sink, k.coord.channelId), k);
  }

  /** As long as one valid topic name is free: deleting a topic id is safe for the
      counters of everything that lives exactly if the id had been handed out. */
  lemma TopicSweepIsSafeIff(w: World, sink: nat, t: int, name: string)
    requires Inv(w) && KnownCoords(w) && sink < |w.sinks| && ValidName(name) && name !in w.db.topics.Values
    ensures TopicSweepIsSafe(w, sink, t) <==> t < w.db.nextTopic
  {
    if t < w.db.nextTopic {
      forall pause: seq<Event>, k: StatKey
        ensures LiveCoord(Run(Apply(w, RemoveTopic(t)), pause).db, k.coord) ==> k.coord.topicId != t
      {
        if k.coord.topicId == t {
          DeletedTopicIsDead(w, t, pause, k.coord);
        }
      }
    } else {
      var pause := EarlyTopicDelete(w, sink, t, name);
      assert Discarded(Run(Apply(w, RemoveTopic(t)), pause), DiscardTopic(sink, t), PublishKey(t, w.db.nextChannel)) == 1;
    }
  }

  lemma ChannelSweepIsSafeIff(w: World, sink: nat, c: int, name: string)
    requires Inv(w) && KnownCoords(w) && sink < |w.sinks| && ValidName(name) && name !in w.db.topics.Values && c > 0
    ensures ChannelSweepIsSafe(w, sink, c) <==> c < w.db.nextChannel
  {
    if c < w.db.nextChannel {
      forall pause: seq<Event>, k: StatKey
        ensures LiveCoord(Run(Apply(w, RemoveChannel(c)), pause).db, k.coord) ==> k.coord.channelId != c
      {
        if k.coord.channelId == c {
          DeletedChannelIsDead(w, c, pause, k.coord);
        }
      }
    } else {
      var pause := EarlyChannelDelete(w, sink, c, name);
      assert Discarded(Run(Apply(w, RemoveChannel(c)), pause), DiscardChannel(sink, c), PublishKey(w.db.nextTopic, c)) == 1;
    }
  }
}
