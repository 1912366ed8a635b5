/** Deleting a topic or channel: the cascade commits, other goroutines run, and then
    the process sweeps its own buffer without looking at the tables again. */
module Discards {
  import opened Collections
  import opened Tables
  import opened Statements
  import opened Protocol
  import opened Invariants
  import opened Identity
  import opened Flow
  import opened FlowRuns
  import opened Clusters

  // ------------------------------------------------------------ the sweeps

  /** discardTopicStats: ranges over the buffer and deletes the topic's keys. */
  method DiscardTopicStats(buf: Sink, topicId: int) returns (rest: Sink)
    ensures rest == WithoutTopic(buf, topicId)
  {
    var keys := AnyOrder(buf.Keys);
    rest := buf;
    for i := 0 to |keys|
      invariant forall k :: k in rest <==> k in buf && !(k in keys[..i] && k.coord.topicId == topicId)
      invariant forall k | k in rest :: rest[k] == buf[k]
    {
      assert keys[..i + 1] == keys[..i] + [keys[i]];
      if keys[i].coord.topicId == topicId {
        rest := rest - {keys[i]};
      }
    }
    assert keys[..|keys|] == keys;
  }

  /** discardChannelStats: the same for a channel. */
  method DiscardChannelStats(buf: Sink, channelId: int) returns (rest: Sink)
    ensures rest == WithoutChannel(buf, channelId)
  {
    var keys := AnyOrder(buf.Keys);
    rest := buf;
    for i := 0 to |keys|
      invariant forall k :: k in rest <==> k in buf && !(k in keys[..i] && k.coord.channelId == channelId)
      invariant forall k | k in rest :: rest[k] == buf[k]
    {
      assert keys[..i + 1] == keys[..i] + [keys[i]];
      if keys[i].coord.channelId == channelId {
        rest := rest - {keys[i]};
      }
    }
    assert keys[..|keys|] == keys;
  }

  // ------------------------------------------ what a sweep can hit

  /** An id that had been handed out when its cascade ran is dead ever after: no
      delta that the later sweep finds belongs to anything that exists. */
  lemma DeletedTopicIsDead(w: World, topicId: int, events: seq<Event>, coord: StatCoord)
    requires Inv(w) && topicId < w.db.nextTopic && coord.topicId == topicId
    ensures !LiveCoord(Run(Apply(w, RemoveTopic(topicId)), events).db, coord)
  {
    var gone := Apply(w, RemoveTopic(topicId));
    TopicCascade(w.db, topicId);
    InvStep(w, RemoveTopic(topicId));
    InvRun(gone, events);
    IdsOverRun(gone, events, "");
    assert References(Run(gone, events).db);
  }

  lemma DeletedChannelIsDead(w: World, channelId: int, events: seq<Event>, coord: StatCoord)
    requires Inv(w) && channelId < w.db.nextChannel && coord.channelId == channelId != 0
    ensures !LiveCoord(Run(Apply(w, RemoveChannel(channelId)), events).db, coord)
  {
    var gone := Apply(w, RemoveChannel(channelId));
    ChannelCascade(w.db, channelId);
    InvStep(w, RemoveChannel(channelId));
    IdsOverRun(gone, events, "");
  }

  lemma DeletedTopicOverTrace(log: seq<Event>, trace: seq<World>, m: nat, n: nat, topicId: int, coord: StatCoord)
    requires Traced(log, trace) && m < n <= |log| && log[m] == RemoveTopic(topicId)
    requires topicId < trace[m].db.nextTopic && coord.topicId == topicId
    ensures !LiveCoord(trace[n].db, coord)
  {
    TraceSound(log, trace, m);
    assert IsStep(log, trace, m);
    TraceBetween(log, trace, m + 1, n);
    DeletedTopicIsDead(trace[m], topicId, log[m + 1..n], coord);
  }

  lemma DeletedChannelOverTrace(log: seq<Event>, trace: seq<World>, m: nat, n: nat, channelId: int, coord: StatCoord)
    requires Traced(log, trace) && m < n <= |log| && log[m] == RemoveChannel(channelId)
    requires channelId < trace[m].db.nextChannel && coord.channelId == channelId != 0
    ensures !LiveCoord(trace[n].db, coord)
  {
    TraceSound(log, trace, m);
    assert IsStep(log, trace, m);
    TraceBetween(log, trace, m + 1, n);
    DeletedChannelIsDead(trace[m], channelId, log[m + 1..n], coord);
  }

  datatype DeleteResult = Deleted | BadId

  /** The keys of a buffer that a sweep deletes name nothing that exists. */
  ghost predicate OnlyDead(w: World, buffer: nat, after: Sink) {
    buffer < |w.sinks| && forall k | k in w.sinks[buffer] && k !in after :: !LiveCoord(w.db, k.coord)
  }

  class Admin {
    const cluster: Cluster
    const buffer: nat

    constructor (cluster: Cluster, buffer: nat)
      ensures this.cluster == cluster && this.buffer == buffer
    {
      this.cluster, this.buffer := cluster, buffer;
    }

    ghost predicate Valid()
      reads this, cluster
    {
      cluster.Valid() && buffer < |cluster.w.sinks|
    }

    method SweepTopic(topicId: int)
      requires Valid()
      modifies cluster
      ensures Valid() && cluster.log == old(cluster.log) + [DiscardTopic(buffer, topicId)] && old(cluster.trace) <= cluster.trace
      ensures cluster.w.db == old(cluster.w.db) && cluster.w.sinks[buffer] == WithoutTopic(old(cluster.w.sinks[buffer]), topicId)
    {
      var rest := DiscardTopicStats(cluster.w.sinks[buffer], topicId);
      cluster.Commit(DiscardTopic(buffer, topicId));
      assert cluster.w.sinks[buffer] == rest;
    }

    method SweepChannel(channelId: int)
      requires Valid()
      modifies cluster
      ensures Valid() && cluster.log == old(cluster.log) + [DiscardChannel(buffer, channelId)] && old(cluster.trace) <= cluster.trace
      ensures cluster.w.db == old(cluster.w.db) && cluster.w.sinks[buffer] == WithoutChannel(old(cluster.w.sinks[buffer]), channelId)
    {
      var rest := DiscardChannelStats(cluster.w.sinks[buffer], channelId);
      cluster.Commit(DiscardChannel(buffer, channelId));
      assert cluster.w.sinks[buffer] == rest;
    }

    /** DeleteTopic: cascade, whatever happens meanwhile, sweep.  If the id had been
        handed out when the cascade ran, the sweep deletes only dead deltas. */
    method DeleteTopic(topicId: int, pause: seq<Event>) returns (r: DeleteResult)
      requires Valid()
      modifies cluster
      ensures Valid() && (r.BadId? <==> topicId <= 0)
      ensures r.BadId? ==> cluster.log == old(cluster.log)
      ensures r.Deleted? ==>
                var swept := old(cluster.log) + [RemoveTopic(topicId)] + pause;
                && cluster.log == swept + [DiscardTopic(buffer, topicId)] && |swept| < |cluster.trace|
                && buffer < |cluster.trace[|swept|].sinks|
                && cluster.w.sinks[buffer] == WithoutTopic(cluster.trace[|swept|].sinks[buffer], topicId)
                && (topicId < old(cluster.w.db.nextTopic) ==> OnlyDead(cluster.trace[|swept|], buffer, cluster.w.sinks[buffer]))
    {
      if topicId <= 0 {
        return BadId;
      }
      ghost var m := |cluster.log|;
      cluster.Commit(RemoveTopic(topicId));
      cluster.Interfere(pause);
      if topicId < cluster.trace[m].db.nextTopic {
        forall k: StatKey | k.coord.topicId == topicId
          ensures !LiveCoord(cluster.w.db, k.coord)
        {
          DeletedTopicOverTrace(cluster.log, cluster.trace, m, |cluster.log|, topicId, k.coord);
        }
      }
      SweepTopic(topicId);
      r := Deleted;
    }

    /** DeleteChannel: the same for a channel. */
    method DeleteChannel(channelId: int, pause: seq<Event>) returns (r: DeleteResult)
      requires Valid()
      modifies cluster
      ensures Valid() && (r.BadId? <==> channelId <= 0)
      ensures r.BadId? ==> cluster.log == old(cluster.log)
      ensures r.Deleted? ==>
                var swept := old(cluster.log) + [RemoveChannel(channelId)] + pause;
                && cluster.log == swept + [DiscardChannel(buffer, channelId)] && |swept| < |cluster.trace|
                && buffer < |cluster.trace[|swept|].sinks|
                && cluster.w.sinks[buffer] == WithoutChannel(cluster.trace[|swept|].sinks[buffer], channelId)
                && (channelId < old(cluster.w.db.nextChannel) ==> OnlyDead(cluster.trace[|swept|], buffer, cluster.w.sinks[buffer]))
    {
      if channelId <= 0 {
        return BadId;
      }
      ghost var m := |cluster.log|;
      cluster.Commit(RemoveChannel(channelId));
      cluster.Interfere(pause);
      if channelId < cluster.trace[m].db.nextChannel {
        forall k: StatKey | k.coord.channelId == channelId
          ensures !LiveCoord(cluster.w.db, k.coord)
        {
          DeletedChannelOverTrace(cluster.log, cluster.trace, m, |cluster.log|, channelId, k.coord);
        }
      }
      SweepChannel(channelId);
      r := Deleted;
    }
  }

  // ------------------------------------------- runs whose sweeps are safe

  /** Every sweep of the run follows a cascade of the same id that had been handed
      out by then, and every upsert got its reply. */
  ghost predicate Tidy(w: World, events: seq<Event>)
    decreases |events|
  {
    events == [] || (Tidy(w, events[..|events| - 1]) && TidyEvent(w, events[..|events| - 1], events[|events| - 1]))
  }

  ghost predicate TidyEvent(w: World, before: seq<Event>, e: Event) {
    && !e.LandUnanswered?
    && (e.DiscardTopic? ==> exists j | 0 <= j < |before| :: before[j] == RemoveTopic(e.topicId) && e.topicId < Run(w, before[..j]).db.nextTopic)
    && (e.DiscardChannel? ==>
          e.channelId != 0 && exists j | 0 <= j < |before| :: before[j] == RemoveChannel(e.channelId) && e.channelId < Run(w, before[..j]).db.nextChannel)
  }

  /** In such a run no event takes a live channel's counter away from what was recorded. */
  lemma TidyEventHasNoDrift(w: World, before: seq<Event>, e: Event, c: int, kind: StatKind)
    requires Initial(w) && TidyEvent(w, before, e)
    ensures DriftOf(Run(w, before), e, c, kind) == 0
  {
    var now := Run(w, before);
    EveryReachableStateIsSound(w, before);
    if c in now.db.channels {
      assert LiveCoord(now.db, Key(now.db, c, kind).coord);
      if e.DiscardTopic? {
        var j :| 0 <= j < |before| && before[j] == RemoveTopic(e.topicId) && e.topicId < Run(w, before[..j]).db.nextTopic;
        SweptTopicIsDead(w, before, j, e.topicId, Key(now.db, c, kind).coord);
      } else if e.DiscardChannel? {
        var j :| 0 <= j < |before| && before[j] == RemoveChannel(e.channelId) && e.channelId < Run(w, before[..j]).db.nextChannel;
        SweptChannelIsDead(w, before, j, e.channelId, Key(now.db, c, kind).coord);
      }
    }
  }

  lemma RunFrom(w: World, events: seq<Event>, j: nat)
    requires j < |events|
    ensures Run(w, events) == Run(Apply(Run(w, events[..j]), events[j]), events[j + 1..])
  {
    RunSnoc(w, events[..j], events[j]);
    RunConcat(w, events[..j] + [events[j]], events[j + 1..]);
    assert events[..j] + [events[j]] + events[j + 1..] == events;
  }

  lemma SweptTopicIsDead(w: World, events: seq<Event>, j: nat, topicId: int, coord: StatCoord)
    requires Initial(w) && j < |events| && events[j] == RemoveTopic(topicId) && topicId < Run(w, events[..j]).db.nextTopic
    ensures coord.topicId == topicId ==> !LiveCoord(Run(w, events).db, coord)
  {
    if coord.topicId == topicId {
      EveryReachableStateIsSound(w, events[..j]);
      RunFrom(w, events, j);
      DeletedTopicIsDead(Run(w, events[..j]), topicId, events[j + 1..], coord);
    }
  }

  lemma SweptChannelIsDead(w: World, events: seq<Event>, j: nat, channelId: int, coord: StatCoord)
    requires Initial(w) && j < |events| && events[j] == RemoveChannel(channelId) && channelId < Run(w, events[..j]).db.nextChannel
    requires channelId != 0
    ensures coord.channelId == channelId ==> !LiveCoord(Run(w, events).db, coord)
  {
    if coord.channelId == channelId {
      EveryReachableStateIsSound(w, events[..j]);
      RunFrom(w, events, j);
      DeletedChannelIsDead(Run(w, events[..j]), channelId, events[j + 1..], coord);
    }
  }

  /** Nothing has drifted. */
  predicate Undrifted(h: Moves) {
    h.publish == h.claim == h.ack == h.requeue == h.dead == h.purged == 0
  }

  lemma {:induction false} TidyRunHasNoDrift(w: World, events: seq<Event>, c: int)
    requires Initial(w) && Tidy(w, events)
    ensures Undrifted(TotalHidden(w, events, c))
    decreases |events|
  {
    if events != [] {
      var front, last := events[..|events| - 1], events[|events| - 1];
      TidyRunHasNoDrift(w, front, c);
      forall kind: StatKind
        ensures DriftOf(Run(w, front), last, c, kind) == 0
      {
        TidyEventHasNoDrift(w, front, last, c, kind);
      }
    }
  }

  /** In every run whose sweeps follow cascades of ids that had been handed out and
      whose upserts got their replies: delivery rows = publish - ack - purge, and
      the pending, in-flight and dead rows obey their own equations. */
  lemma TidyRowsAreTheCounters(w: World, events: seq<Event>, c: int)
    requires Initial(w) && Tidy(w, events) && NeverPruned(w, events, c) && c in Run(w, events).db.channels
    ensures var now, h := Run(w, events), TotalHidden(w, events, c);
            && Total(CountsOf(now.db, c)) == Counter(now, c, StatPublish) - Counter(now, c, StatAck) - Counter(now, c, StatPurged)
            && CountsOf(now.db, c).pending ==
               Counter(now, c, StatPublish) + Counter(now, c, StatRequeue) + h.reaped - Counter(now, c, StatClaim) - h.purgedPending
            && CountsOf(now.db, c).inFlight ==
               Counter(now, c, StatClaim) - Counter(now, c, StatDead) - Counter(now, c, StatAck)
               - (Counter(now, c, StatRequeue) - h.revived) - h.reaped - h.purgedInFlight
            && CountsOf(now.db, c).dead == Counter(now, c, StatDead) - h.revived - h.purgedDead
  {
    TidyRunHasNoDrift(w, events, c);
    RowsAreWhatTheCountersSay(w, events, c);
  }

  /** In any run the plain equation holds exactly if the drifts cancel out. */
  lemma PlainEquationIff(w: World, events: seq<Event>, c: int)
    requires Initial(w) && NeverPruned(w, events, c) && c in Run(w, events).db.channels
    ensures var now, h := Run(w, events), TotalHidden(w, events, c);
            Total(CountsOf(now.db, c)) == Counter(now, c, StatPublish) - Counter(now, c, StatAck) - Counter(now, c, StatPurged)
            <==> h.publish == h.ack + h.purged
  {
    RowsAreWhatTheCountersSay(w, events, c);
  }
}
