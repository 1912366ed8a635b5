/** The rows of the queue's SQL tables, as values.  All clocks are whole Unix
    seconds on the database clock; ids come from AUTOINCREMENT columns. */
module Tables {

  datatype Option<+T> = None | Some(value: T)

  /** A lease token: an opaque value that the database never issues twice. */
  type Token = nat

  datatype Status = Pending | InFlight | Dead

  datatype Channel = Channel(topicId: int, name: string)

  datatype Message = Message(topicId: int, body: string, expiresAt: int)

  datatype Delivery = Delivery(
    messageId: int,
    channelId: int,
    status: Status,
    availableAt: int,
    expiresAt: int,
    attempts: int,
    maxAttempts: int,
    leaseOwner: Option<string>,
    leaseToken: Option<Token>,
    leaseUntil: Option<int>)
  {
    /** No lease column is set. */
    predicate Unleased() {
      leaseOwner.None? && leaseToken.None? && leaseUntil.None?
    }

    function WithoutLease(): Delivery {
      this.(leaseOwner := None, leaseToken := None, leaseUntil := None)
    }

    /** The eligibility both the poll and the lease statement test. */
    predicate Ready(now: int) {
      status.Pending? && availableAt <= now && now < expiresAt
    }

    /** The eligibility of the lease reaper. */
    predicate LeaseExpired(now: int) {
      status.InFlight? && leaseUntil.Some? && leaseUntil.value < now
    }

    /** The eligibility of the TTL purge: expired, and not under a valid lease. */
    predicate Purgeable(now: int) {
      && expiresAt < now
      && (status.InFlight? ==> leaseUntil.None? || leaseUntil.value < now)
    }
  }

  /** The counter columns of the daily statistics table. */
  datatype StatKind = StatPublish | StatClaim | StatAck | StatRequeue | StatDead | StatPurged

  /** channelId 0 is the sentinel for publishes that reached no channel. */
  datatype StatCoord = StatCoord(topicId: int, channelId: int)

  datatype StatKey = StatKey(coord: StatCoord, kind: StatKind)

  datatype StatRow = StatRow(day: int, coord: StatCoord)

  const ALL_KINDS: set<StatKind> := {StatPublish, StatClaim, StatAck, StatRequeue, StatDead, StatPurged}

  /** The counter columns of one row; a missing column reads as zero. */
  type Counters = map<StatKind, int>

  function Of(c: Counters, kind: StatKind): int {
    if kind in c then c[kind] else 0
  }

  function Plus(a: Counters, b: Counters): Counters {
    map kind | kind in a.Keys + b.Keys :: Of(a, kind) + Of(b, kind)
  }

  /** Counter deltas waiting to reach the table: an absent key holds zero. */
  type Sink = map<StatKey, int>

  function At(s: Sink, k: StatKey): int {
    if k in s then s[k] else 0
  }

  function Merge(s: Sink, delta: Sink): Sink {
    map k | k in s.Keys + delta.Keys :: At(s, k) + At(delta, k)
  }

  /** The part of a sink whose coordinates are in `coords`, and the rest. */
  function Only(s: Sink, coords: set<StatCoord>): Sink {
    map k | k in s && k.coord in coords :: s[k]
  }

  function Except(s: Sink, coords: set<StatCoord>): Sink {
    map k | k in s && k.coord !in coords :: s[k]
  }

  /** What discardTopicStats and discardChannelStats leave of a buffer. */
  function WithoutTopic(s: Sink, topicId: int): Sink {
    map k | k in s && k.coord.topicId != topicId :: s[k]
  }

  function WithoutChannel(s: Sink, channelId: int): Sink {
    map k | k in s && k.coord.channelId != channelId :: s[k]
  }

  /** The whole database.  `issued` remembers every lease token ever handed
      out; the `next` fields are the AUTOINCREMENT sequences. */
  datatype Db = Db(
    now: int,
    topics: map<int, string>,
    channels: map<int, Channel>,
    messages: map<int, Message>,
    deliveries: map<int, Delivery>,
    stats: map<StatRow, Counters>,
    nextTopic: int,
    nextChannel: int,
    nextMessage: int,
    nextDelivery: int,
    issued: set<Token>)

  const SECONDS_PER_DAY := 86400

  function Today(db: Db): int { db.now / SECONDS_PER_DAY }

  /** A database right after migration, at clock `now`. */
  function EmptyDb(now: int): Db {
    Db(now, map[], map[], map[], map[], map[], 1, 1, 1, 1, {})
  }
}
