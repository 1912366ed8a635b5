/** What each SQL statement or single transaction of the SQLite driver does to
    the database, as total functions: a statement whose guard matches no row,
    or that violates a foreign key, leaves the database as it was. */
module Statements {
  import opened Collections
  import opened Tables
  import opened Delay

  const DEFAULT_MAX_ATTEMPTS := 5

  // ---------------------------------------------------------------- ensure

  /** Names the driver accepts: 1 to 64 letters, digits, dots, underscores or dashes. */
  predicate ValidName(name: string) {
    && 1 <= |name| <= 64
    && forall i | 0 <= i < |name| :: NameChar(name[i])
  }

  predicate NameChar(c: char) {
    || 'a' <= c <= 'z' || 'A' <= c <= 'Z' || '0' <= c <= '9'
    || c == '.' || c == '_' || c == '-'
  }

  /** INSERT OR IGNORE INTO novaque_topics: names are unique. */
  function InsertTopic(db: Db, name: string): Db {
    if !ValidName(name) || name in db.topics.Values then db
    else db.(topics := db.topics[db.nextTopic := name], nextTopic := db.nextTopic + 1)
  }

  /** INSERT OR IGNORE INTO novaque_channels: (topic, name) is unique and the topic must exist. */
  function InsertChannel(db: Db, topicId: int, name: string): Db {
    if !ValidName(name) || topicId !in db.topics || Channel(topicId, name) in db.channels.Values then db
    else db.(channels := db.channels[db.nextChannel := Channel(topicId, name)], nextChannel := db.nextChannel + 1)
  }

  // --------------------------------------------------------------- publish

  function ChannelsOf(db: Db, topicId: int): set<int> {
    set c | c in db.channels && db.channels[c].topicId == topicId
  }

  /** `order` lists each member of `s` once: an order in which the engine may visit a set of rows. */
  predicate Lists(order: seq<int>, s: set<int>) {
    NoRepeats(order) && ToSet(order) == s
  }

  function AttemptLimit(opts: PublishOpts): int {
    if opts.maxAttempts <= 0 then DEFAULT_MAX_ATTEMPTS else opts.maxAttempts
  }

  /** The publish transaction commits: the delay is valid and the topic key holds. */
  predicate PublishLands(db: Db, topicId: int, opts: PublishOpts) {
    && topicId > 0
    && ValidatePublishDelay(opts, db.now).None?
    && topicId in db.topics
  }

  function NewDelivery(db: Db, channelId: int, opts: PublishOpts): Delivery {
    Delivery(db.nextMessage, channelId, Pending, StoredAvailable(opts, db.now), StoredExpiry(opts, db.now),
             0, AttemptLimit(opts), None, None, None)
  }

  /** The rows of the fan-out, inserted one channel after another under consecutive ids. */
  function Fanout(db: Db, opts: PublishOpts, order: seq<int>): (rows: map<int, Delivery>)
    ensures forall id :: id in rows <==> db.nextDelivery <= id < db.nextDelivery + |order|
    ensures forall id | id in rows :: rows[id] == NewDelivery(db, order[id - db.nextDelivery], opts)
  {
    if order == [] then map[]
    else
      var last := |order| - 1;
      Fanout(db, opts, order[..last])[db.nextDelivery + last := NewDelivery(db, order[last], opts)]
  }

  /** One message and one delivery per channel the topic has now; `order` is
      the order in which the fan-out meets those channels. */
  function PublishTx(db: Db, topicId: int, body: string, opts: PublishOpts, order: seq<int>): Db {
    if !PublishLands(db, topicId, opts) || !Lists(order, ChannelsOf(db, topicId)) then db
    else
      db.(messages := db.messages[db.nextMessage := Message(topicId, body, StoredExpiry(opts, db.now))],
          deliveries := db.deliveries + Fanout(db, opts, order),
          nextMessage := db.nextMessage + 1,
          nextDelivery := db.nextDelivery + |order|)
  }

  // ----------------------------------------------------------------- claim

  function LeaseRow(d: Delivery, owner: string, token: Token, until: int): Delivery {
    d.(status := InFlight, attempts := d.attempts + 1,
       leaseOwner := Some(owner), leaseToken := Some(token), leaseUntil := Some(until))
  }

  predicate Poisoned(d: Delivery) { d.attempts > d.maxAttempts }

  function Bury(d: Delivery): Delivery {
    d.(status := Dead).WithoutLease()
  }

  function BuryStmt(db: Db, ids: set<int>): Db {
    db.(deliveries := map id | id in db.deliveries ::
                        if id in ids then Bury(db.deliveries[id]) else db.deliveries[id])
  }

  /** A row after a whole claim transaction: leased, and buried if that attempt was one too many. */
  function ClaimRow(d: Delivery, owner: string, token: Token, until: int): Delivery {
    var leased := LeaseRow(d, owner, token, until);
    if Poisoned(leased) then Bury(leased) else leased
  }

  /** The polled rows the lease statement still finds eligible. */
  function Leasable(db: Db, channelId: int, ids: set<int>): set<int> {
    set id | id in ids && id in db.deliveries && db.deliveries[id].channelId == channelId && db.deliveries[id].Ready(db.now)
  }

  /** Every leasable row gets a token of its own, never issued before. */
  predicate FreshTokens(db: Db, rows: set<int>, tokens: map<int, Token>) {
    && rows <= tokens.Keys
    && (forall id | id in rows :: tokens[id] !in db.issued)
    && (forall i, j | i in rows && j in rows && i != j :: tokens[i] != tokens[j])
  }

  function TokensOf(rows: set<int>, tokens: map<int, Token>): set<Token>
    requires rows <= tokens.Keys
  {
    set id | id in rows :: tokens[id]
  }

  function ClaimTx(db: Db, channelId: int, owner: string, leaseSec: int, ids: set<int>, tokens: map<int, Token>): Db {
    var rows := Leasable(db, channelId, ids);
    if !FreshTokens(db, rows, tokens) then db
    else
      db.(deliveries := map id | id in db.deliveries ::
                          if id in rows then ClaimRow(db.deliveries[id], owner, tokens[id], db.now + leaseSec)
                          else db.deliveries[id],
          issued := db.issued + TokensOf(rows, tokens))
  }

  /** The rows one more attempt kills. */
  function Killed(db: Db, rows: set<int>): set<int>
    requires rows <= db.deliveries.Keys
  {
    set id | id in rows && db.deliveries[id].attempts + 1 > db.deliveries[id].maxAttempts
  }

  // --------------------------------------------------------- ack / requeue

  /** The row an ack or requeue addresses is in flight under exactly this token. */
  predicate HoldsLease(db: Db, id: int, token: Token) {
    id in db.deliveries && db.deliveries[id].status.InFlight? && db.deliveries[id].leaseToken == Some(token)
  }

  function AckStmt(db: Db, id: int, token: Token): Db {
    if HoldsLease(db, id, token) then db.(deliveries := db.deliveries - {id}) else db
  }

  function BackToPending(d: Delivery, availableAt: int): Delivery {
    d.(status := Pending, availableAt := availableAt).WithoutLease()
  }

  /** A missing time means "now". */
  function RequeueStmt(db: Db, id: int, token: Token, at: Option<int>): Db {
    if !HoldsLease(db, id, token) then db
    else
      db.(deliveries := db.deliveries[id := BackToPending(db.deliveries[id], if at.None? then db.now else at.value)])
  }

  // ------------------------------------------------------------ maintenance

  function Reapable(db: Db, ids: set<int>): set<int> {
    set id | id in ids && id in db.deliveries && db.deliveries[id].LeaseExpired(db.now)
  }

  function ReapStmt(db: Db, ids: set<int>): Db {
    var rows := Reapable(db, ids);
    db.(deliveries := map id | id in db.deliveries ::
                        if id in rows then BackToPending(db.deliveries[id], db.now) else db.deliveries[id])
  }

  /** The rows of a purge batch that the DELETE still finds purgeable. */
  function PurgeableRows(db: Db, ids: set<int>): set<int> {
    set id | id in ids && id in db.deliveries && db.deliveries[id].Purgeable(db.now)
  }

  function PurgeStmt(db: Db, ids: set<int>): Db {
    db.(deliveries := db.deliveries - PurgeableRows(db, ids))
  }

  predicate HasDelivery(db: Db, messageId: int) {
    exists id | id in db.deliveries :: db.deliveries[id].messageId == messageId
  }

  /** The messages of `ids` that the orphan SELECT reports. */
  function OrphansAmong(db: Db, ids: set<int>): set<int> {
    set m | m in ids && m in db.messages && db.messages[m].expiresAt < db.now && !HasDelivery(db, m)
  }

  /** DELETE FROM novaque_messages WHERE id IN (...): no recheck, and every
      delivery of a deleted message goes with it (ON DELETE CASCADE). */
  function DeleteMessages(db: Db, ids: set<int>): Db {
    db.(messages := db.messages - ids,
        deliveries := map id | id in db.deliveries && db.deliveries[id].messageId !in ids :: db.deliveries[id])
  }

  // ------------------------------------------------------------- dead rows

  predicate DeadIn(db: Db, id: int, channelId: int) {
    id in db.deliveries && db.deliveries[id].channelId == channelId && db.deliveries[id].status.Dead?
  }

  function ReviveRow(d: Delivery, now: int, ttlSec: int): Delivery {
    d.(status := Pending, attempts := 0, availableAt := now, expiresAt := now + ttlSec).WithoutLease()
  }

  function ReviveTx(db: Db, id: int, channelId: int, ttlSec: int): Db {
    if !DeadIn(db, id, channelId) then db
    else
      var d := db.deliveries[id];
      db.(deliveries := db.deliveries[id := ReviveRow(d, db.now, ttlSec)],
          messages := if d.messageId in db.messages
                      then db.messages[d.messageId := db.messages[d.messageId].(expiresAt := db.now + ttlSec)]
                      else db.messages)
  }

  function RemoveDeadStmt(db: Db, id: int, channelId: int): Db {
    if DeadIn(db, id, channelId) then db.(deliveries := db.deliveries - {id}) else db
  }

  // -------------------------------------------------------------- cascades

  function MessagesOf(db: Db, topicId: int): set<int> {
    set m | m in db.messages && db.messages[m].topicId == topicId
  }

  /** DELETE FROM novaque_channels: refused while a delivery still points at one of them. */
  function DeleteChannels(db: Db, ids: set<int>): Option<Db> {
    if exists id | id in db.deliveries :: db.deliveries[id].channelId in ids then None
    else Some(db.(channels := db.channels - ids))
  }

  /** DELETE FROM novaque_topics: refused while a channel or message still points at it. */
  function DeleteTopicRow(db: Db, topicId: int): Option<Db> {
    if ChannelsOf(db, topicId) != {} || MessagesOf(db, topicId) != {} then None
    else Some(db.(topics := db.topics - {topicId}))
  }

  function StatsOfTopic(db: Db, topicId: int): set<StatRow> {
    set r | r in db.stats && r.coord.topicId == topicId
  }

  function StatsOfChannel(db: Db, channelId: int): set<StatRow> {
    set r | r in db.stats && r.coord.channelId == channelId
  }

  /** Messages, channels, statistics, topic, in one transaction; None is a foreign-key abort. */
  function DeleteTopicTx(db: Db, topicId: int): Option<Db> {
    var db1 := DeleteMessages(db, MessagesOf(db, topicId));
    match DeleteChannels(db1, ChannelsOf(db1, topicId))
    case None => None
    case Some(db2) => DeleteTopicRow(db2.(stats := db2.stats - StatsOfTopic(db2, topicId)), topicId)
  }

  /** Deliveries, statistics, channel, in one transaction. */
  function DeleteChannelTx(db: Db, channelId: int): Option<Db> {
    var kept := map id | id in db.deliveries && db.deliveries[id].channelId != channelId :: db.deliveries[id];
    var db1 := db.(deliveries := kept, stats := db.stats - StatsOfChannel(db, channelId));
    DeleteChannels(db1, {channelId})
  }

  function Committed(db: Db, tx: Option<Db>): Db {
    if tx.Some? then tx.value else db
  }

  // ------------------------------------------------------------ statistics

  /** A coordinate still names a live channel, or for the sentinel a live topic. */
  predicate LiveCoord(db: Db, c: StatCoord) {
    if c.channelId == 0 then c.topicId in db.topics
    else c.channelId in db.channels && db.channels[c.channelId].topicId == c.topicId
  }

  /** The attribution a RETURNING clause yields: none if the channel row is missing. */
  function Attribution(db: Db, channelId: int, kind: StatKind, n: int): Sink {
    if channelId in db.channels && n != 0
    then map[StatKey(StatCoord(db.channels[channelId].topicId, channelId), kind) := n]
    else map[]
  }
}
