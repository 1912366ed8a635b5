/** Client.Publish: publish under a memoized topic id, and when another process
    has deleted that topic, evict, re-ensure and retry once. */
module SelfHeal {
  import opened Collections
  import opened Tables
  import opened DailyStats
  import opened Delay
  import opened Statements
  import opened Protocol
  import opened Invariants
  import opened Identity
  import opened Clusters
  import EnsureCache

  // ------------------------------------------------ topics over foreign runs

  /** A memoized id was once the id of its name; the row may be gone by now. */
  ghost predicate OnceValid(db: Db, topics: map<string, int>) {
    forall n | n in topics :: 0 < topics[n] < db.nextTopic && (topics[n] in db.topics ==> db.topics[topics[n]] == n)
  }

  /** Between the m-th and the n-th state nobody deletes the topic of this name. */
  ghost predicate NameKept(log: seq<Event>, trace: seq<World>, m: nat, n: nat, name: string)
    requires n <= |log| < |trace|
    decreases n
  {
    n <= m || (NameKept(log, trace, m, n - 1, name) && !DeletesName(trace[n - 1], log[n - 1], name))
  }

  lemma {:induction false} NameKeptStays(log: seq<Event>, trace: seq<World>, more: seq<Event>, later: seq<World>, m: nat, n: nat, name: string)
    requires n <= |log| < |trace| && log <= more && trace <= later && |more| < |later|
    ensures NameKept(log, trace, m, n, name) == NameKept(more, later, m, n, name)
    decreases n
  {
    if n > m {
      NameKeptStays(log, trace, more, later, m, n - 1, name);
    }
  }

  /** The topic that has this name in `a` is still there in `b`. */
  ghost predicate NameLives(a: Db, b: Db, name: string) {
    forall t | t in a.topics && a.topics[t] == name :: t in b.topics
  }

  /** Ids between two states of a trace. */
  lemma {:induction false} IdsOverTrace(log: seq<Event>, trace: seq<World>, m: nat, n: nat, name: string)
    requires Traced(log, trace) && m <= n <= |log|
    ensures OnlyNewIds(trace[m].db, trace[n].db)
    ensures NameKept(log, trace, m, n, name) ==> NameLives(trace[m].db, trace[n].db, name)
    decreases n
  {
    if m < n {
      IdsOverTrace(log, trace, m, n - 1, name);
      TraceSound(log, trace, m);
      TraceSound(log, trace, n - 1);
      assert IsStep(log, trace, n - 1);
      IdsGoOn(trace[m].db, trace[n - 1], log[n - 1], trace[n], name);
    }
  }

  lemma IdsGoOn(first: Db, w: World, e: Event, next: World, name: string)
    requires References(first) && References(w.db) && OnlyNewIds(first, w.db) && next == Apply(w, e)
    ensures OnlyNewIds(first, next.db)
    ensures NameLives(first, w.db, name) && !DeletesName(w, e, name) ==> NameLives(first, next.db, name)
  {
    IdsStep(w, e, name);
    forall t | t in first.topics && first.topics[t] == name && t in w.db.topics
      ensures w.db.topics[t] == name
    {
      assert t < first.nextTopic;
    }
  }

  lemma CacheSurvives(log: seq<Event>, trace: seq<World>, m: nat, n: nat, topics: map<string, int>)
    requires Traced(log, trace) && m <= n <= |log| && OnceValid(trace[m].db, topics)
    ensures OnceValid(trace[n].db, topics)
  {
    IdsOverTrace(log, trace, m, n, "");
  }

  // ---------------------------------------------------- the log of a publish

  datatype EnsureReply = TopicId(id: int) | BadName | NoRow

  datatype StoreReply = Sent(id: int) | Gone | Refused(error: DelayError)

  datatype PublishResult = Published(id: int) | Failed(why: EnsureReply) | Rejected(error: DelayError) | TopicGone

  /** What other processes commit inside the first EnsureTopic, before the first
      send, inside the second EnsureTopic, and before the retry. */
  datatype Pauses = Pauses(ensuring: seq<Event>, sending: seq<Event>, healing: seq<Event>, retrying: seq<Event>)

  /** One publish transaction that was sent: its topic id, and the order in which
      its fan-out met the channels.  If the topic is gone it aborts without effect. */
  datatype Sending = Sending(topicId: int, order: seq<int>)

  /** What a whole publish is about. */
  datatype Job = Job(topic: string, body: string, opts: PublishOpts)

  /** A miss inserts the name; a hit or a bad name commits nothing. */
  function EnsureTrail(name: string, known: bool, pause: seq<Event>): seq<Event> {
    if known || !ValidName(name) then [] else [AddTopic(name)] + pause
  }

  function SendEvent(owed: nat, s: Sending, job: Job): Event {
    PublishTo(owed, s.topicId, job.body, job.opts, s.order)
  }

  function Recording(owed: nat, buffer: nat, s: Sending): seq<Event> {
    [MoveDeltas(owed, buffer, CoordsOf(PublishDelta(s.topicId, s.order)))]
  }

  /** The state after a prefix of the log has the topic under this id. */
  ghost predicate LiveAfter(trace: seq<World>, prefix: seq<Event>, name: string, t: int) {
    |prefix| < |trace| && t in trace[|prefix|].db.topics && trace[|prefix|].db.topics[t] == name
  }

  /** A publish sent after a prefix of the log meets a state in which its topic is
      live under the job's name, and stores message `id`. */
  ghost predicate LandsThere(trace: seq<World>, prefix: seq<Event>, job: Job, s: Sending, id: int) {
    && LiveAfter(trace, prefix, job.topic, s.topicId)
    && var db := trace[|prefix|].db;
       PublishLands(db, s.topicId, job.opts) && Lists(s.order, ChannelsOf(db, s.topicId)) && id == db.nextMessage
  }

  /** It meets a state without its topic, so it changes nothing. */
  ghost predicate Missed(trace: seq<World>, prefix: seq<Event>, s: Sending) {
    |prefix| < |trace| && s.topicId !in trace[|prefix|].db.topics
  }

  /** The log up to the first send, and up to the retry. */
  function BeforeSend(log: seq<Event>, job: Job, known: bool, p: Pauses): seq<Event> {
    log + EnsureTrail(job.topic, known, p.ensuring) + p.sending
  }

  function BeforeHealed(log: seq<Event>, job: Job, known: bool, p: Pauses, owed: nat, s: Sending): seq<Event> {
    BeforeSend(log, job, known, p) + [SendEvent(owed, s, job)] + EnsureTrail(job.topic, false, p.healing)
  }

  function BeforeRetry(log: seq<Event>, job: Job, known: bool, p: Pauses, owed: nat, s: Sending): seq<Event> {
    BeforeHealed(log, job, known, p, owed, s) + p.retrying
  }

  /** Everything that stands in the log after the call: the inserts of its misses,
      the pauses, the publishes it sent, and the recording of the one that landed. */
  function PublishLog(log: seq<Event>, job: Job, known: bool, p: Pauses, owed: nat, buffer: nat, tried: seq<Sending>, landed: bool): seq<Event> {
    if |tried| == 0 then log + EnsureTrail(job.topic, known, p.ensuring)
    else if |tried| == 1 && landed then
      BeforeSend(log, job, known, p) + [SendEvent(owed, tried[0], job)] + Recording(owed, buffer, tried[0])
    else if |tried| == 1 then BeforeHealed(log, job, known, p, owed, tried[0])
    else
      BeforeRetry(log, job, known, p, owed, tried[0]) + [SendEvent(owed, tried[1], job)]
      + (if landed then Recording(owed, buffer, tried[1]) else [])
  }

  /** Which publishes a call sent, and what each of them met: the first uses the
      memoized id or the one its EnsureTopic found live; a retry uses the id that
      was live after healing; only the last can land, and only under the job's name. */
  ghost predicate SentAsPromised(trace: seq<World>, log: seq<Event>, job: Job, known: bool, knownId: int, p: Pauses, owed: nat,
                                 tried: seq<Sending>, r: PublishResult)
  {
    && |tried| <= 2
    && (tried != [] ==> if known then tried[0].topicId == knownId
                        else LiveAfter(trace, log + EnsureTrail(job.topic, known, p.ensuring), job.topic, tried[0].topicId))
    && (|tried| == 1 && r.Published? ==> LandsThere(trace, BeforeSend(log, job, known, p), job, tried[0], r.id))
    && (|tried| == 2 || (|tried| == 1 && !r.Published?) ==> Missed(trace, BeforeSend(log, job, known, p), tried[0]))
    && (|tried| == 2 ==>
          && LiveAfter(trace, BeforeHealed(log, job, known, p, owed, tried[0]), job.topic, tried[1].topicId)
          && if r.Published? then LandsThere(trace, BeforeRetry(log, job, known, p, owed, tried[0]), job, tried[1], r.id)
             else Missed(trace, BeforeRetry(log, job, known, p, owed, tried[0]), tried[1]))
  }

  /** The topic of the job's name was deleted where that hurts: inside the first
      EnsureTopic, inside the second one, or before the retry. */
  ghost predicate NameDeleted(log: seq<Event>, trace: seq<World>, first: seq<Event>, job: Job, known: bool, p: Pauses, owed: nat, tried: seq<Sending>)
    requires |log| < |trace|
  {
    if |tried| == 0 then
      var ensured := |first + EnsureTrail(job.topic, known, p.ensuring)|;
      ensured <= |log| && !NameKept(log, trace, |first| + 1, ensured, job.topic)
    else
      var sent := |BeforeSend(first, job, known, p) + [SendEvent(owed, tried[0], job)]|;
      var healed, retry := |BeforeHealed(first, job, known, p, owed, tried[0])|, |BeforeRetry(first, job, known, p, owed, tried[0])|;
      if |tried| == 1 then healed <= |log| && !NameKept(log, trace, sent + 1, healed, job.topic)
      else retry <= |log| && !NameKept(log, trace, healed, retry, job.topic)
  }

  /** The message is in the table. */
  ghost predicate Stored(db: Db, id: int, topicId: int, body: string) {
    id in db.messages && db.messages[id].topicId == topicId && db.messages[id].body == body
  }

  // ----------------------------------------------------------- the client

  class Client {
    const cluster: Cluster
    const owed: nat
    const buffer: nat
    const defaults: Defaults
    var topics: map<string, int>
    var channels: map<string, int>

    constructor (cluster: Cluster, owed: nat, buffer: nat, defaults: Defaults)
      ensures this.cluster == cluster && this.owed == owed && this.buffer == buffer && this.defaults == defaults
      ensures topics == map[] && channels == map[]
    {
      this.cluster, this.owed, this.buffer, this.defaults := cluster, owed, buffer, defaults;
      topics, channels := map[], map[];
    }

    ghost predicate Valid()
      reads this, cluster
    {
      && cluster.Valid() && owed < |cluster.w.sinks| && buffer < |cluster.w.sinks| && owed != buffer
      && OnceValid(cluster.w.db, topics) && defaults.ttl > 0
    }

    method Wait(events: seq<Event>)
      requires Valid()
      modifies cluster
      ensures Valid() && cluster.log == old(cluster.log) + events && old(cluster.trace) <= cluster.trace
    {
      cluster.Interfere(events);
      CacheSurvives(cluster.log, cluster.trace, |old(cluster.log)|, |cluster.log|, topics);
    }

    /** INSERT OR IGNORE: afterwards the name has a row. */
    method Insert(name: string) returns (ghost t: int)
      requires Valid() && ValidName(name)
      modifies cluster
      ensures Valid() && cluster.log == old(cluster.log) + [AddTopic(name)] && old(cluster.trace) <= cluster.trace
      ensures t in cluster.w.db.topics && cluster.w.db.topics[t] == name && t < cluster.w.db.nextTopic
    {
      cluster.Sound();
      IdsStep(cluster.w, AddTopic(name), name);
      EnsureCache.InsertedTopic(cluster.w.db, name);
      cluster.Commit(AddTopic(name));
      cluster.Sound();
      t := EnsureCache.KeyOf(cluster.w.db.topics, name);
    }

    /** SELECT id WHERE name = ?. */
    method Lookup(name: string) returns (r: EnsureReply)
      requires Valid()
      ensures !r.BadName?
      ensures r.TopicId? ==> r.id in cluster.w.db.topics && cluster.w.db.topics[r.id] == name && 0 < r.id < cluster.w.db.nextTopic
      ensures r.NoRow? <==> name !in cluster.w.db.topics.Values
    {
      cluster.Sound();
      if name in cluster.w.db.topics.Values {
        r := TopicId(EnsureCache.KeyOf(cluster.w.db.topics, name));
      } else {
        r := NoRow;
      }
    }

    /** A hit asks nobody; a miss inserts the name and reads its id back. */
    method EnsureTopic(name: string, pause: seq<Event>) returns (r: EnsureReply)
      requires Valid()
      modifies cluster, this`topics
      ensures Valid() && old(cluster.trace) <= cluster.trace
      ensures cluster.log == old(cluster.log) + EnsureTrail(name, name in old(topics), pause)
      ensures topics == if r.TopicId? then old(topics)[name := r.id] else old(topics)
      ensures name in old(topics) ==> r == TopicId(old(topics)[name])
      ensures name !in old(topics) && r.TopicId? ==> LiveAfter(cluster.trace, cluster.log, name, r.id)
      ensures r.BadName? <==> name !in old(topics) && !ValidName(name)
      ensures r.NoRow? ==> name !in cluster.w.db.topics.Values && !NameKept(cluster.log, cluster.trace, |old(cluster.log)| + 1, |cluster.log|, name)
    {
      if name in topics {
        return TopicId(topics[name]);
      }
      if !ValidName(name) {
        return BadName;
      }
      ghost var t := Insert(name);
      ghost var m := |cluster.log|;
      Wait(pause);
      IdsOverTrace(cluster.log, cluster.trace, m, |cluster.log|, name);
      r := Lookup(name);
      if r.TopicId? {
        topics := topics[name := r.id];
      }
    }

    /** The publish transaction of the driver, and its counters. */
    method Send(job: Job, topicId: int) returns (r: StoreReply, ghost s: Sending)
      requires Valid() && topicId > 0
      modifies cluster
      ensures Valid() && old(cluster.trace) <= cluster.trace
      ensures r.Refused? <==> ValidatePublishDelay(job.opts, old(cluster.w.db.now)).Some?
      ensures r.Refused? ==> cluster.log == old(cluster.log)
      ensures !r.Refused? ==>
                && s.topicId == topicId && Lists(s.order, ChannelsOf(old(cluster.w.db), topicId))
                && cluster.log == old(cluster.log) + [SendEvent(owed, s, job)] + (if r.Sent? then Recording(owed, buffer, s) else [])
                && (r.Sent? <==> topicId in old(cluster.w.db.topics))
                && cluster.w.db == PublishTx(old(cluster.w.db), topicId, job.body, job.opts, s.order)
      ensures r.Sent? ==>
                && PublishLands(old(cluster.w.db), topicId, job.opts) && r.id == old(cluster.w.db.nextMessage)
                && cluster.w.db.messages == old(cluster.w.db.messages)[r.id := Message(topicId, job.body, StoredExpiry(job.opts, old(cluster.w.db.now)))]
                && cluster.w.db.deliveries == old(cluster.w.db.deliveries) + Fanout(old(cluster.w.db), job.opts, s.order)
    {
      var db := cluster.w.db;
      s := Sending(topicId, []);
      var verdict := ValidatePublishDelay(job.opts, db.now);
      if verdict.Some? {
        return Refused(verdict.value), s;
      }
      var order := FanoutOrder(db, topicId);
      s := Sending(topicId, order);
      cluster.Commit(PublishTo(owed, topicId, job.body, job.opts, order));
      if topicId !in db.topics {
        return Gone, s;
      }
      RecordFanout(topicId, order);
      r := Sent(db.nextMessage);
    }

    /** One publish per channel, or one on the topic's sentinel when there is none. */
    method RecordFanout(topicId: int, order: seq<int>)
      requires Valid()
      modifies cluster
      ensures Valid() && cluster.w.db == old(cluster.w.db) && old(cluster.trace) <= cluster.trace
      ensures cluster.log == old(cluster.log) + Recording(owed, buffer, Sending(topicId, order))
    {
      cluster.Commit(MoveDeltas(owed, buffer, CoordsOf(PublishDelta(topicId, order))));
    }

    /** One send under the memoized id of the job's topic. */
    method Attempt(job: Job, hostNow: int, pause: seq<Event>) returns (r: StoreReply, ghost s: Sending)
      requires Valid() && job.topic in topics
      requires job.opts.ttl > 0 && ValidatePublishDelay(job.opts, hostNow).None?
      modifies cluster
      ensures Valid() && !r.Refused? && old(cluster.trace) <= cluster.trace
      ensures s.topicId == topics[job.topic]
      ensures cluster.log == old(cluster.log) + pause + [SendEvent(owed, s, job)] + (if r.Sent? then Recording(owed, buffer, s) else [])
      ensures r.Sent? ==> LandsThere(cluster.trace, old(cluster.log) + pause, job, s, r.id) && Stored(cluster.w.db, r.id, s.topicId, job.body)
      ensures r.Gone? ==> Missed(cluster.trace, old(cluster.log) + pause, s)
      ensures r.Gone? && LiveAfter(old(cluster.trace), old(cluster.log), job.topic, s.topicId) ==>
                !NameKept(cluster.log, cluster.trace, |old(cluster.log)|, |old(cluster.log) + pause|, job.topic)
    {
      ghost var m := |cluster.log|;
      Wait(pause);
      ghost var log, trace := cluster.log, cluster.trace;
      IdsOverTrace(log, trace, m, |log|, job.topic);
      VerdictIgnoresClock(job.opts, hostNow, cluster.w.db.now);
      r, s := Send(job, topics[job.topic]);
      NameKeptStays(log, trace, cluster.log, cluster.trace, m, |log|, job.topic);
    }

    /** The topic behind the first send is gone: evict, ensure again, send again.
        `first` is the log before the whole call. */
    method Heal(job: Job, hostNow: int, p: Pauses, ghost first: seq<Event>, ghost known: bool, ghost s: Sending)
      returns (e: EnsureReply, r: StoreReply, ghost again: Sending)
      requires Valid() && cluster.log == BeforeSend(first, job, known, p) + [SendEvent(owed, s, job)]
      requires job.opts.ttl > 0 && ValidatePublishDelay(job.opts, hostNow).None?
      modifies cluster, this
      ensures Valid() && old(cluster.trace) <= cluster.trace && !r.Refused?
      ensures e.BadName? ==> !ValidName(job.topic)
      ensures !e.TopicId? ==> cluster.log == BeforeHealed(first, job, known, p, owed, s)
      ensures e.NoRow? ==> !NameKept(cluster.log, cluster.trace, |old(cluster.log)| + 1, |cluster.log|, job.topic)
      ensures e.TopicId? ==>
                && cluster.log == BeforeRetry(first, job, known, p, owed, s) + [SendEvent(owed, again, job)]
                                  + (if r.Sent? then Recording(owed, buffer, again) else [])
                && LiveAfter(cluster.trace, BeforeHealed(first, job, known, p, owed, s), job.topic, again.topicId)
                && job.topic in topics && topics[job.topic] == again.topicId
                && (forall c :: EnsureCache.ChannelKey(job.topic, c) !in channels)
                && (r.Sent? ==> LandsThere(cluster.trace, BeforeRetry(first, job, known, p, owed, s), job, again, r.id)
                                && Stored(cluster.w.db, r.id, again.topicId, job.body))
                && (r.Gone? ==> Missed(cluster.trace, BeforeRetry(first, job, known, p, owed, s), again)
                                && !NameKept(cluster.log, cluster.trace, |BeforeHealed(first, job, known, p, owed, s)|,
                                             |BeforeRetry(first, job, known, p, owed, s)|, job.topic))
    {
      again, r := s, Gone;
      Evict(job.topic);
      e := EnsureTopic(job.topic, p.healing);
      if e.TopicId? {
        ghost var healed, log := cluster.trace, cluster.log;
        r, again := Attempt(job, hostNow, p.retrying);
        SameLater(healed, cluster.trace, log);
      }
    }

    /** Publishes under the name, healing once.  Whatever deletes and re-creates
        run in between, the log shows at most two publishes of this call, of which
        only the last can land, and only under the live topic of that name; and a
        valid publish succeeds unless the topic of this name is deleted inside one of
        the two EnsureTopic calls or between the second one and the retry. */
    method Publish(topic: string, body: string, ttl: int, delay: int, maxAttempts: int, hostNow: int, p: Pauses)
      returns (r: PublishResult, sends: nat, ghost tried: seq<Sending>)
      requires Valid()
      modifies cluster, this
      ensures Valid() && sends == |tried| <= 2
      ensures var job, known := Job(topic, body, ClientOpts(ttl, delay, maxAttempts, defaults)), topic in old(topics);
              && cluster.log == PublishLog(old(cluster.log), job, known, p, owed, buffer, tried, r.Published?)
              && SentAsPromised(cluster.trace, old(cluster.log), job, known, if known then old(topics)[topic] else 0, p, owed, tried, r)
      ensures r.Published? ==>
                && tried != [] && topic in topics && topics[topic] == tried[|tried| - 1].topicId
                && Stored(cluster.w.db, r.id, topics[topic], body)
      ensures r.Published? && sends == 2 ==> forall c :: EnsureCache.ChannelKey(topic, c) !in channels
      ensures r.TopicGone? ==> sends == 2
      ensures r.Rejected? <==> sends == 0 && !r.Failed?
      ensures r.Rejected? ==> ValidatePublishDelay(ClientOpts(ttl, delay, maxAttempts, defaults), hostNow) == Some(r.error)
      ensures r.Failed? ==> !r.why.TopicId? && (r.why.BadName? ==> !ValidName(topic))
      ensures (r.Failed? && r.why.NoRow?) || r.TopicGone? ==>
                NameDeleted(cluster.log, cluster.trace, old(cluster.log), Job(topic, body, ClientOpts(ttl, delay, maxAttempts, defaults)),
                            topic in old(topics), p, owed, tried)
    {
      sends, tried := 0, [];
      ghost var first, known := cluster.log, topic in topics;
      var e := EnsureTopic(topic, p.ensuring);
      if !e.TopicId? {
        return Failed(e), sends, tried;
      }
      var job := Job(topic, body, ClientOpts(ttl, delay, maxAttempts, defaults));
      var verdict := ValidatePublishDelay(job.opts, hostNow);
      if verdict.Some? {
        return Rejected(verdict.value), sends, tried;
      }
      ghost var ensured, log := cluster.trace, cluster.log;
      var s;
      ghost var sending;
      s, sending := Attempt(job, hostNow, p.sending);
      SameLater(ensured, cluster.trace, log);
      sends, tried := 1, [sending];
      if s.Sent? {
        return Published(s.id), sends, tried;
      }
      ghost var missed := cluster.trace;
      ghost var again;
      e, s, again := Heal(job, hostNow, p, first, known, sending);
      SameLater(missed, cluster.trace, log);
      SameLater(missed, cluster.trace, BeforeSend(first, job, known, p));
      if !e.TopicId? {
        return Failed(e), sends, tried;
      }
      sends, tried := 2, [sending, again];
      r := if s.Sent? then Published(s.id) else TopicGone;
    }

    /** Drops the memoized id of the name and of every channel under it. */
    method Evict(name: string)
      requires Valid()
      modifies this
      ensures Valid() && topics == old(topics) - {name}
      ensures forall c :: EnsureCache.ChannelKey(name, c) !in channels
    {
      topics := topics - {name};
      channels := EnsureCache.Sweep(channels, [EnsureCache.Prefix(name)]);
      forall c
        ensures EnsureCache.ChannelKey(name, c) !in channels
      {
        EnsureCache.OnePrefix(EnsureCache.ChannelKey(name, c), EnsureCache.Prefix(name));
        assert EnsureCache.ChannelKey(name, c) == EnsureCache.Prefix(name) + c;
      }
    }
  }

  /** A state once in the trace stays there. */
  lemma SameLater(before: seq<World>, after: seq<World>, prefix: seq<Event>)
    requires before <= after && |prefix| < |before|
    ensures |prefix| < |after| && after[|prefix|] == before[|prefix|]
  {
  }

  /** The channels of a topic in the order the fan-out meets them. */
  method FanoutOrder(db: Db, topicId: int) returns (order: seq<int>)
    ensures Lists(order, ChannelsOf(db, topicId))
  {
    var channels := ChannelsOf(db, topicId);
    order := AnyOrder(channels);
    SameMembers((set x | x in order), channels);
  }
}
