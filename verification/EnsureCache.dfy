/** CachingStore: memoized topic and channel ids around the SQLite store, for
    one process that is the only writer. */
module EnsureCache {
  import opened Collections
  import opened Tables
  import opened Statements
  import opened Protocol
  import opened Invariants

  datatype Op =
    | EnsureTopic(topic: string)
    | EnsureChannel(topic: string, channel: string)
    | DeleteTopic(id: int)
    | DeleteChannel(id: int)
    | InvalidateTopic(topic: string)

  datatype Reply = Id(id: int) | Done | BadTopicName | BadChannelName | BadId

  // ----------------------------------------------------- the uncached store

  predicate HasTopic(db: Db, name: string) { name in db.topics.Values }

  /** The key of a value in a map without repeated values. */
  function KeyOf<K(==), V(==)>(m: map<K, V>, v: V): (k: K)
    requires v in m.Values
    requires forall a, b | a in m && b in m && m[a] == m[b] :: a == b
    ensures k in m && m[k] == v
  {
    var k :| k in m && m[k] == v;
    k
  }

  lemma InsertedTopic(db: Db, name: string)
    requires DbInv(db) && ValidName(name)
    ensures DbInv(InsertTopic(db, name)) && HasTopic(InsertTopic(db, name), name)
  {
    var w := World(db, 0, [], []);
    InvStep(w, AddTopic(name));
    var after := InsertTopic(db, name);
    if !HasTopic(db, name) {
      assert after.topics[db.nextTopic] == name;
    }
  }

  lemma InsertedChannel(db: Db, t: int, name: string)
    requires DbInv(db) && ValidName(name) && t in db.topics
    ensures DbInv(InsertChannel(db, t, name)) && Channel(t, name) in InsertChannel(db, t, name).channels.Values
  {
    var w := World(db, 0, [], []);
    InvStep(w, AddChannel(t, name));
    var after := InsertChannel(db, t, name);
    if Channel(t, name) !in db.channels.Values {
      assert after.channels[db.nextChannel] == Channel(t, name);
    }
  }

  lemma TopicDeleted(db: Db, id: int)
    requires DbInv(db)
    ensures DbInv(Committed(db, DeleteTopicTx(db, id)))
  {
    InvStep(World(db, 0, [], []), RemoveTopic(id));
  }

  lemma ChannelDeleted(db: Db, id: int)
    requires DbInv(db)
    ensures DbInv(Committed(db, DeleteChannelTx(db, id)))
  {
    InvStep(World(db, 0, [], []), RemoveChannel(id));
  }

  /** The tables after an operation on the store without a cache. */
  function After(db: Db, op: Op): (after: Db)
    requires DbInv(db)
    ensures DbInv(after)
  {
    match op
    case EnsureTopic(topic) =>
      if ValidName(topic) then InsertedTopic(db, topic); InsertTopic(db, topic) else db
    case EnsureChannel(topic, channel) =>
      if ValidName(channel) && ValidName(topic) then
        InsertedTopic(db, topic);
        var db1 := InsertTopic(db, topic);
        var t := KeyOf(db1.topics, topic);
        InsertedChannel(db1, t, channel);
        InsertChannel(db1, t, channel)
      else db
    case DeleteTopic(id) => TopicDeleted(db, id); if id <= 0 then db else Committed(db, DeleteTopicTx(db, id))
    case DeleteChannel(id) => ChannelDeleted(db, id); if id <= 0 then db else Committed(db, DeleteChannelTx(db, id))
    case InvalidateTopic(_) => db
  }

  /** Its answer. */
  function Answer(db: Db, op: Op): Reply
    requires DbInv(db)
  {
    match op
    case EnsureTopic(topic) =>
      if ValidName(topic) then InsertedTopic(db, topic); Id(KeyOf(InsertTopic(db, topic).topics, topic)) else BadTopicName
    case EnsureChannel(topic, channel) =>
      if !ValidName(channel) then BadChannelName
      else if !ValidName(topic) then BadTopicName
      else
        InsertedTopic(db, topic);
        var db1 := InsertTopic(db, topic);
        var t := KeyOf(db1.topics, topic);
        InsertedChannel(db1, t, channel);
        Id(KeyOf(InsertChannel(db1, t, channel).channels, Channel(t, channel)))
    case DeleteTopic(id) => if id <= 0 then BadId else Done
    case DeleteChannel(id) => if id <= 0 then BadId else Done
    case InvalidateTopic(_) => Done
  }

  // --------------------------------------------------------------- the keys

  const SEPARATOR := '\0'

  function ChannelKey(topic: string, channel: string): string { topic + [SEPARATOR] + channel }

  function Prefix(topic: string): string { topic + [SEPARATOR] }

  predicate Plain(name: string) { forall i | 0 <= i < |name| :: name[i] != SEPARATOR }

  lemma ValidNamesArePlain(name: string)
    requires ValidName(name)
    ensures Plain(name)
  {
    forall i | 0 <= i < |name|
      ensures name[i] != SEPARATOR
    {
      assert NameChar(name[i]);
    }
  }

  /** The prefix sweep for any name hits exactly the channel keys of that topic. */
  lemma SweepHitsOneTopic(swept: string, topic: string, channel: string)
    requires Plain(topic) && Plain(channel)
    ensures Prefix(swept) <= ChannelKey(topic, channel) <==> swept == topic
  {
    var key := ChannelKey(topic, channel);
    if Prefix(swept) <= key {
      assert key[|swept|] == Prefix(swept)[|swept|] == SEPARATOR;
      assert |swept| == |topic|;
      assert swept == Prefix(swept)[..|swept|] == key[..|topic|] == topic;
    }
    if swept == topic {
      assert key == Prefix(swept) + channel;
    }
  }

  /** No other pair of names, valid or not, shares the key of two valid names. */
  lemma KeyNamesOnePair(t: string, c: string, topic: string, channel: string)
    requires Plain(topic) && Plain(channel)
    ensures ChannelKey(t, c) == ChannelKey(topic, channel) <==> t == topic && c == channel
  {
    if ChannelKey(t, c) == ChannelKey(topic, channel) {
      assert ChannelKey(t, c) == Prefix(t) + c;
      SweepHitsOneTopic(t, topic, channel);
      assert c == ChannelKey(t, c)[|t| + 1..] == ChannelKey(topic, channel)[|topic| + 1..] == channel;
    }
  }

  // -------------------------------------------------------------- the cache

  /** Every memoized topic id names the live row of that name. */
  ghost predicate TopicsAgree(db: Db, topics: map<string, int>) {
    forall n | n in topics :: ValidName(n) && topics[n] in db.topics && db.topics[topics[n]] == n
  }

  /** Every memoized channel id names its live row, under a memoized topic. */
  ghost predicate ChannelsAgree(db: Db, topics: map<string, int>, channels: map<string, int>) {
    forall key | key in channels :: Memoized(db, topics, key, channels[key])
  }

  ghost predicate Memoized(db: Db, topics: map<string, int>, key: string, id: int) {
    exists t, c :: key == ChannelKey(t, c) && Resolves(db, topics, t, c, id)
  }

  ghost predicate Resolves(db: Db, topics: map<string, int>, t: string, c: string, id: int) {
    t in topics && ValidName(t) && ValidName(c) && id in db.channels && db.channels[id] == Channel(topics[t], c)
  }

  predicate HasAnyPrefix(key: string, prefixes: seq<string>) {
    exists i | 0 <= i < |prefixes| :: prefixes[i] <= key
  }

  /** channels.Range with deletes: drops every key under one of the prefixes. */
  method Sweep(channels: map<string, int>, prefixes: seq<string>) returns (rest: map<string, int>)
    ensures rest == map key | key in channels && !HasAnyPrefix(key, prefixes) :: channels[key]
  {
    var keys := AnyOrder(channels.Keys);
    rest := channels;
    for i := 0 to |keys|
      invariant forall key :: key in rest <==> key in channels && !(key in keys[..i] && HasAnyPrefix(key, prefixes))
      invariant forall key | key in rest :: rest[key] == channels[key]
    {
      assert keys[..i + 1] == keys[..i] + [keys[i]];
      var j := 0;
      while j < |prefixes| && !(prefixes[j] <= keys[i])
        invariant j <= |prefixes| && forall k | 0 <= k < j :: !(prefixes[k] <= keys[i])
      {
        j := j + 1;
      }
      if j < |prefixes| {
        rest := rest - {keys[i]};
      }
    }
    assert keys[..|keys|] == keys;
  }

  /** topics.Range with deletes: drops every name of the id and remembers its prefix. */
  method DropTopicId(topics: map<string, int>, id: int)
    returns (rest: map<string, int>, prefixes: seq<string>, ghost dropped: seq<string>)
    ensures rest == map n | n in topics && topics[n] != id :: topics[n]
    ensures forall n :: n in dropped <==> n in topics && topics[n] == id
    ensures |prefixes| == |dropped| && forall k | 0 <= k < |dropped| :: prefixes[k] == Prefix(dropped[k])
    ensures (forall n | n in topics :: topics[n] != id) ==> prefixes == []
  {
    var names := AnyOrder(topics.Keys);
    rest, prefixes, dropped := topics, [], [];
    for i := 0 to |names|
      invariant forall n :: n in rest <==> n in topics && n !in dropped
      invariant forall n | n in rest :: rest[n] == topics[n]
      invariant forall n :: n in dropped <==> n in names[..i] && n in topics && topics[n] == id
      invariant |prefixes| == |dropped| && forall k | 0 <= k < |dropped| :: prefixes[k] == Prefix(dropped[k])
      invariant (forall n | n in topics :: topics[n] != id) ==> prefixes == []
    {
      var n := names[i];
      assert names[..i + 1] == names[..i] + [n];
      assert n in topics;
      if topics[n] == id {
        rest := rest - {n};
        prefixes := prefixes + [Prefix(n)];
        dropped := dropped + [n];
      }
    }
    assert names[..|names|] == names;
  }

  /** channels.Range with deletes: drops every key of the id. */
  method DropChannelId(channels: map<string, int>, id: int) returns (rest: map<string, int>)
    ensures rest == map key | key in channels && channels[key] != id :: channels[key]
  {
    var keys := AnyOrder(channels.Keys);
    rest := channels;
    for i := 0 to |keys|
      invariant forall key :: key in rest <==> key in channels && !(key in keys[..i] && channels[key] == id)
      invariant forall key | key in rest :: rest[key] == channels[key]
    {
      assert keys[..i + 1] == keys[..i] + [keys[i]];
      assert keys[i] in channels;
      if channels[keys[i]] == id {
        rest := rest - {keys[i]};
      }
    }
    assert keys[..|keys|] == keys;
  }

  /** A miss with a bad channel name makes the difference: the cached store
      ensures the topic before the inner store looks at the channel name. */
  predicate Agrees(db: Db, topic: string, channel: string) {
    ValidName(channel) || (ValidName(topic) && HasTopic(db, topic))
  }

  lemma TopicHit(db: Db, topics: map<string, int>, name: string)
    requires DbInv(db) && TopicsAgree(db, topics) && name in topics
    ensures After(db, EnsureTopic(name)) == db && Answer(db, EnsureTopic(name)) == Id(topics[name])
  {
    assert HasTopic(db, name);
    var t := KeyOf(db.topics, name);
  }

  lemma TopicMiss(db: Db, topics: map<string, int>, channels: map<string, int>, name: string)
    requires DbInv(db) && TopicsAgree(db, topics) && ChannelsAgree(db, topics, channels) && ValidName(name) && name !in topics
    ensures var after, r := After(db, EnsureTopic(name)), Answer(db, EnsureTopic(name));
            r.Id? && TopicsAgree(after, topics[name := r.id]) && ChannelsAgree(after, topics[name := r.id], channels)
  {
    var after, r := After(db, EnsureTopic(name)), Answer(db, EnsureTopic(name));
    var more := topics[name := r.id];
    forall key | key in channels
      ensures Memoized(after, more, key, channels[key])
    {
      var t, c :| key == ChannelKey(t, c) && Resolves(db, topics, t, c, channels[key]);
      assert Resolves(after, more, t, c, channels[key]);
    }
  }

  lemma ChannelHit(db: Db, topics: map<string, int>, t: string, c: string, id: int)
    requires DbInv(db) && TopicsAgree(db, topics) && Memoized(db, topics, ChannelKey(t, c), id)
    ensures Resolves(db, topics, t, c, id)
    ensures After(db, EnsureChannel(t, c)) == db && Answer(db, EnsureChannel(t, c)) == Id(id)
  {
    var t1, c1 :| ChannelKey(t, c) == ChannelKey(t1, c1) && Resolves(db, topics, t1, c1, id);
    ValidNamesArePlain(t1);
    ValidNamesArePlain(c1);
    KeyNamesOnePair(t, c, t1, c1);
    assert HasTopic(db, t);
    var topicId := KeyOf(db.topics, t);
    assert topicId == topics[t];
    assert Channel(topicId, c) in db.channels.Values;
    var channelId := KeyOf(db.channels, Channel(topicId, c));
  }

  /** After its topic is ensured, ensuring the channel is the inner store's own second half. */
  lemma SecondHalf(db: Db, t: string, c: string)
    requires DbInv(db) && ValidName(t)
    ensures var db1 := After(db, EnsureTopic(t));
            && Answer(db1, EnsureChannel(t, c)) == Answer(db, EnsureChannel(t, c))
            && (ValidName(c) ==> After(db1, EnsureChannel(t, c)) == After(db, EnsureChannel(t, c)))
            && (!ValidName(c) ==> After(db1, EnsureChannel(t, c)) == db1)
            && (db1 == db <==> HasTopic(db, t))
  {
    InsertedTopic(db, t);
    var db1 := InsertTopic(db, t);
    assert InsertTopic(db1, t) == db1;
  }

  lemma ChannelMiss(db: Db, topics: map<string, int>, channels: map<string, int>, t: string, c: string)
    requires DbInv(db) && TopicsAgree(db, topics) && ChannelsAgree(db, topics, channels) && t in topics && ValidName(c)
    ensures var after, r := After(db, EnsureChannel(t, c)), Answer(db, EnsureChannel(t, c));
            r.Id? && TopicsAgree(after, topics) && ChannelsAgree(after, topics, channels[ChannelKey(t, c) := r.id])
  {
    var after, r := After(db, EnsureChannel(t, c)), Answer(db, EnsureChannel(t, c));
    TopicHit(db, topics, t);
    assert InsertTopic(db, t) == db;
    assert Resolves(after, topics, t, c, r.id);
    forall key | key in channels
      ensures Memoized(after, topics, key, channels[key])
    {
      var t1, c1 :| key == ChannelKey(t1, c1) && Resolves(db, topics, t1, c1, channels[key]);
      assert Resolves(after, topics, t1, c1, channels[key]);
    }
  }

  /** What is left after evicting one topic name and its channels. */
  lemma EvictTopic(db: Db, after: Db, topics: map<string, int>, channels: map<string, int>, rest: map<string, int>,
                   kept: map<string, int>, name: string)
    requires TopicsAgree(db, topics) && ChannelsAgree(db, topics, channels)
    requires rest == map n | n in topics && n != name :: topics[n]
    requires kept == map key | key in channels && !(Prefix(name) <= key) :: channels[key]
    requires forall n | n in rest :: rest[n] in after.topics && after.topics[rest[n]] == n
    requires forall id | id in db.channels && (forall n | n == name && n in topics :: db.channels[id].topicId != topics[n]) ::
               id in after.channels && after.channels[id] == db.channels[id]
    ensures TopicsAgree(after, rest) && ChannelsAgree(after, rest, kept)
  {
    forall key | key in kept
      ensures Memoized(after, rest, key, kept[key])
    {
      var t, c :| key == ChannelKey(t, c) && Resolves(db, topics, t, c, channels[key]);
      assert key == Prefix(t) + c;
      assert t != name;
      assert name in topics ==> topics[t] != topics[name];
      assert Resolves(after, rest, t, c, kept[key]);
    }
  }

  lemma DroppedPrefix(dropped: seq<string>, prefixes: seq<string>, t: string, c: string)
    requires |prefixes| == |dropped| && forall k | 0 <= k < |dropped| :: prefixes[k] == Prefix(dropped[k])
    ensures t in dropped ==> HasAnyPrefix(ChannelKey(t, c), prefixes)
  {
    if t in dropped {
      var k :| 0 <= k < |dropped| && dropped[k] == t;
      assert prefixes[k] + c == ChannelKey(t, c);
    }
  }

  lemma OnePrefix(key: string, prefix: string)
    ensures HasAnyPrefix(key, [prefix]) <==> prefix <= key
  {
    assert [prefix][0] == prefix;
  }

  /** DeleteTopic's two sweeps leave no entry behind that the cascade made stale. */
  lemma TopicSwept(db: Db, topics: map<string, int>, channels: map<string, int>, id: int, rest: map<string, int>,
                   dropped: seq<string>, prefixes: seq<string>, kept: map<string, int>)
    requires DbInv(db) && TopicsAgree(db, topics) && ChannelsAgree(db, topics, channels)
    requires rest == map n | n in topics && topics[n] != id :: topics[n]
    requires forall n :: n in dropped <==> n in topics && topics[n] == id
    requires |prefixes| == |dropped| && forall k | 0 <= k < |dropped| :: prefixes[k] == Prefix(dropped[k])
    requires kept == map key | key in channels && !HasAnyPrefix(key, prefixes) :: channels[key]
    ensures var after := Committed(db, DeleteTopicTx(db, id));
            TopicsAgree(after, rest) && ChannelsAgree(after, rest, kept)
  {
    TopicCascade(db, id);
    var after := Committed(db, DeleteTopicTx(db, id));
    forall key | key in kept
      ensures Memoized(after, rest, key, kept[key])
    {
      var t, c :| key == ChannelKey(t, c) && Resolves(db, topics, t, c, channels[key]);
      DroppedPrefix(dropped, prefixes, t, c);
      assert topics[t] != id;
      assert Resolves(after, rest, t, c, kept[key]);
    }
  }

  lemma ChannelSwept(db: Db, topics: map<string, int>, channels: map<string, int>, id: int, kept: map<string, int>)
    requires DbInv(db) && TopicsAgree(db, topics) && ChannelsAgree(db, topics, channels)
    requires kept == map key | key in channels && channels[key] != id :: channels[key]
    ensures var after := Committed(db, DeleteChannelTx(db, id));
            TopicsAgree(after, topics) && ChannelsAgree(after, topics, kept)
  {
    ChannelCascade(db, id);
    var after := Committed(db, DeleteChannelTx(db, id));
    forall key | key in kept
      ensures Memoized(after, topics, key, kept[key])
    {
      var t, c :| key == ChannelKey(t, c) && Resolves(db, topics, t, c, channels[key]);
      assert Resolves(after, topics, t, c, kept[key]);
    }
  }

  /** No cached id is out of range, so the sweeps of a rejected delete find nothing. */
  lemma BadIdSweepsNothing(db: Db, topics: map<string, int>, channels: map<string, int>, id: int)
    requires DbInv(db) && TopicsAgree(db, topics) && ChannelsAgree(db, topics, channels) && id <= 0
    ensures forall n | n in topics :: topics[n] != id
    ensures forall key | key in channels :: channels[key] != id
  {
    forall key | key in channels
      ensures channels[key] != id
    {
      var t, c :| key == ChannelKey(t, c) && Resolves(db, topics, t, c, channels[key]);
    }
  }

  class CachingStore {
    /** The tables behind the inner store. */
    var db: Db
    var topics: map<string, int>
    var channels: map<string, int>

    ghost predicate Valid()
      reads this
    {
      DbInv(db) && TopicsAgree(db, topics) && ChannelsAgree(db, topics, channels)
    }

    constructor (db: Db)
      requires DbInv(db)
      ensures Valid() && this.db == db && topics == map[] && channels == map[]
    {
      this.db, topics, channels := db, map[], map[];
    }

    method EnsureTopicId(name: string) returns (r: Reply)
      requires Valid()
      modifies this
      ensures Valid()
      ensures r == Answer(old(db), EnsureTopic(name)) && db == After(old(db), EnsureTopic(name))
      ensures channels == old(channels)
      ensures r.Id? ==> topics == old(topics)[name := r.id] && ValidName(name)
    {
      if name in topics {
        TopicHit(db, topics, name);
        r := Id(topics[name]);
        return;
      }
      r := Answer(db, EnsureTopic(name));
      if r.Id? {
        TopicMiss(db, topics, channels, name);
        db := After(db, EnsureTopic(name));
        topics := topics[name := r.id];
      }
    }

    /** The cached call answers and changes the tables as the uncached one would,
        exactly when the channel name is good or the topic exists already. */
    method EnsureChannelId(topic: string, channel: string) returns (r: Reply)
      requires Valid()
      modifies this
      ensures Valid()
      ensures r == CachedAnswer(old(db), EnsureChannel(topic, channel)) && db == CachedAfter(old(db), EnsureChannel(topic, channel))
      ensures Agrees(old(db), topic, channel) <==>
              r == Answer(old(db), EnsureChannel(topic, channel)) && db == After(old(db), EnsureChannel(topic, channel))
      ensures !Agrees(old(db), topic, channel) ==>
                r == (if ValidName(topic) then BadChannelName else BadTopicName) && db == After(old(db), EnsureTopic(topic))
    {
      var key := ChannelKey(topic, channel);
      if key in channels {
        ChannelHit(db, topics, topic, channel, channels[key]);
        r := Id(channels[key]);
        return;
      }
      r := EnsureTopicId(topic);
      if !r.Id? {
        return;
      }
      SecondHalf(old(db), topic, channel);
      r := Answer(db, EnsureChannel(topic, channel));
      if r.Id? {
        ChannelMiss(db, topics, channels, topic, channel);
        db := After(db, EnsureChannel(topic, channel));
        channels := channels[key := r.id];
      }
    }

    method RemoveTopicById(id: int) returns (r: Reply)
      requires Valid()
      modifies this
      ensures Valid()
      ensures r == Answer(old(db), DeleteTopic(id)) && db == After(old(db), DeleteTopic(id))
    {
      var rest, prefixes;
      ghost var dropped;
      rest, prefixes, dropped := DropTopicId(topics, id);
      var kept := channels;
      if |prefixes| > 0 {
        kept := Sweep(channels, prefixes);
      }
      if id <= 0 {
        BadIdSweepsNothing(db, topics, channels, id);
      } else {
        TopicSwept(db, topics, channels, id, rest, dropped, prefixes, kept);
      }
      topics, channels := rest, kept;
      r := Answer(db, DeleteTopic(id));
      db := After(db, DeleteTopic(id));
    }

    method RemoveChannelById(id: int) returns (r: Reply)
      requires Valid()
      modifies this
      ensures Valid()
      ensures r == Answer(old(db), DeleteChannel(id)) && db == After(old(db), DeleteChannel(id))
    {
      var kept := DropChannelId(channels, id);
      if id <= 0 {
        BadIdSweepsNothing(db, topics, channels, id);
      } else {
        ChannelSwept(db, topics, channels, id, kept);
      }
      channels := kept;
      r := Answer(db, DeleteChannel(id));
      db := After(db, DeleteChannel(id));
    }

    /** Evicts a name and every channel under it, whatever the name is. */
    method Evict(name: string)
      requires Valid()
      modifies this`topics, this`channels
      ensures Valid()
      ensures name !in topics && forall c :: ChannelKey(name, c) !in channels
    {
      var kept := Sweep(channels, [Prefix(name)]);
      var rest := map n | n in topics && n != name :: topics[n];
      forall key: string
        ensures HasAnyPrefix(key, [Prefix(name)]) <==> Prefix(name) <= key
      {
        OnePrefix(key, Prefix(name));
      }
      EvictTopic(db, db, topics, channels, rest, kept, name);
      topics, channels := rest, kept;
      forall c
        ensures ChannelKey(name, c) !in channels
      {
        assert ChannelKey(name, c) == Prefix(name) + c;
      }
    }

    method Execute(op: Op) returns (r: Reply)
      requires Valid()
      modifies this
      ensures Valid() && r == CachedAnswer(old(db), op) && db == CachedAfter(old(db), op)
    {
      match op
      case EnsureTopic(topic) => r := EnsureTopicId(topic);
      case EnsureChannel(topic, channel) => r := EnsureChannelId(topic, channel);
      case DeleteTopic(id) => r := RemoveTopicById(id);
      case DeleteChannel(id) => r := RemoveChannelById(id);
      case InvalidateTopic(topic) =>
        Evict(topic);
        r := Done;
    }

    /** Any sequence of operations: what is memoized never shows, the answers and
        the tables depend on the tables alone. */
    method ExecuteAll(ops: seq<Op>) returns (replies: seq<Reply>)
      requires Valid()
      modifies this
      ensures Valid() && db == CachedAll(old(db), ops) && replies == CachedAnswers(old(db), ops)
    {
      replies := [];
      for i := 0 to |ops|
        invariant Valid() && db == CachedAll(old(db), ops[..i]) && replies == CachedAnswers(old(db), ops[..i])
      {
        CachedOneMore(old(db), ops, i);
        var r := Execute(ops[i]);
        replies := replies + [r];
      }
      assert ops[..|ops|] == ops;
    }
  }

  // -------------------------------------------- cached against uncached runs

  /** What the cached store does: the uncached operation, except that a bad channel
      name with a topic that is missing or bad is noticed only after EnsureTopic. */
  function CachedAfter(db: Db, op: Op): (after: Db)
    requires DbInv(db)
    ensures DbInv(after)
  {
    if op.EnsureChannel? && !Agrees(db, op.topic, op.channel) then After(db, EnsureTopic(op.topic)) else After(db, op)
  }

  function CachedAnswer(db: Db, op: Op): Reply
    requires DbInv(db)
  {
    if op.EnsureChannel? && !Agrees(db, op.topic, op.channel) then (if ValidName(op.topic) then BadChannelName else BadTopicName)
    else Answer(db, op)
  }

  ghost predicate OpAgrees(db: Db, op: Op) {
    op.EnsureChannel? ==> Agrees(db, op.topic, op.channel)
  }

  /** One operation of the two stores agrees exactly under that condition. */
  lemma AgreeIff(db: Db, op: Op)
    requires DbInv(db)
    ensures CachedAfter(db, op) == After(db, op) && CachedAnswer(db, op) == Answer(db, op) <==> OpAgrees(db, op)
  {
    if op.EnsureChannel? && ValidName(op.topic) {
      SecondHalf(db, op.topic, op.channel);
    }
  }

  ghost function CachedAll(db: Db, ops: seq<Op>): (after: Db)
    requires DbInv(db)
    ensures DbInv(after)
    decreases |ops|
  {
    if ops == [] then db else CachedAfter(CachedAll(db, ops[..|ops| - 1]), ops[|ops| - 1])
  }

  ghost function CachedAnswers(db: Db, ops: seq<Op>): seq<Reply>
    requires DbInv(db)
    decreases |ops|
  {
    if ops == [] then []
    else CachedAnswers(db, ops[..|ops| - 1]) + [CachedAnswer(CachedAll(db, ops[..|ops| - 1]), ops[|ops| - 1])]
  }

  lemma CachedOneMore(db: Db, ops: seq<Op>, i: nat)
    requires DbInv(db) && i < |ops|
    ensures CachedAll(db, ops[..i + 1]) == CachedAfter(CachedAll(db, ops[..i]), ops[i])
    ensures CachedAnswers(db, ops[..i + 1]) == CachedAnswers(db, ops[..i]) + [CachedAnswer(CachedAll(db, ops[..i]), ops[i])]
  {
    assert ops[..i + 1][..i] == ops[..i];
  }

  /** The uncached store after a sequence of operations, and its answers. */
  ghost function AfterAll(db: Db, ops: seq<Op>): (after: Db)
    requires DbInv(db)
    ensures DbInv(after)
    decreases |ops|
  {
    if ops == [] then db else After(AfterAll(db, ops[..|ops| - 1]), ops[|ops| - 1])
  }

  ghost function Answers(db: Db, ops: seq<Op>): seq<Reply>
    requires DbInv(db)
    decreases |ops|
  {
    if ops == [] then []
    else Answers(db, ops[..|ops| - 1]) + [Answer(AfterAll(db, ops[..|ops| - 1]), ops[|ops| - 1])]
  }

  /** The condition holds before every operation of the uncached run. */
  ghost predicate AllAgree(db: Db, ops: seq<Op>)
    requires DbInv(db)
    decreases |ops|
  {
    ops == [] || (AllAgree(db, ops[..|ops| - 1]) && OpAgrees(AfterAll(db, ops[..|ops| - 1]), ops[|ops| - 1]))
  }

  /** After every operation of the sequence the two stores have given the same
      answers and hold the same tables. */
  ghost predicate InStep(db: Db, ops: seq<Op>)
    requires DbInv(db)
    decreases |ops|
  {
    && (ops == [] || InStep(db, ops[..|ops| - 1]))
    && CachedAll(db, ops) == AfterAll(db, ops) && CachedAnswers(db, ops) == Answers(db, ops)
  }

  /** Over a whole sequence the cached store stays in step with the uncached one
      exactly when no operation names a bad channel of a missing or bad topic. */
  lemma {:induction false} InStepIff(db: Db, ops: seq<Op>)
    requires DbInv(db)
    ensures InStep(db, ops) <==> AllAgree(db, ops)
    decreases |ops|
  {
    if ops != [] {
      var front, last := ops[..|ops| - 1], ops[|ops| - 1];
      InStepIff(db, front);
      AgreeIff(AfterAll(db, front), last);
      if InStep(db, front) {
        LastAnswers(db, ops);
      }
    }
  }

  lemma LastAnswers(db: Db, ops: seq<Op>)
    requires DbInv(db) && ops != [] && CachedAnswers(db, ops[..|ops| - 1]) == Answers(db, ops[..|ops| - 1])
    ensures CachedAnswers(db, ops) == Answers(db, ops) <==>
            CachedAnswer(CachedAll(db, ops[..|ops| - 1]), ops[|ops| - 1]) == Answer(AfterAll(db, ops[..|ops| - 1]), ops[|ops| - 1])
  {
    var a, b := CachedAnswers(db, ops), Answers(db, ops);
    if a == b {
      assert a[|a| - 1] == b[|b| - 1];
    }
  }

  /** With a bad channel name and a new topic the cached store leaves a topic behind that the uncached store does not. */
  method BadChannelNameCreatesTopic() returns (cached: Db, uncached: Db)
    ensures HasTopic(cached, "t") && !HasTopic(uncached, "t")
  {
    var empty := EmptyDb(0);
    var store := new CachingStore(empty);
    assert NameChar("t"[0]);
    assert ValidName("t");
    InsertedTopic(empty, "t");
    var r := store.EnsureChannelId("t", "");
    cached := store.db;
    uncached := After(empty, EnsureChannel("t", ""));
  }
}
