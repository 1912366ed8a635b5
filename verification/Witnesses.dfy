/** Reachable states in which something a reader might hope for fails: each is
    the end of a concrete run from a migrated database. */
module Witnesses {
  import opened Collections
  import opened Tables
  import opened Delay
  import opened Statements
  import opened Protocol
  import opened LeaseSafety
  import opened Sorting
  import opened Polling
  import opened Maintenance

  const FRESH := World(EmptyDb(0), 0, [map[]], [])

  function Opts(ttlSec: int): PublishOpts { PublishOpts(ttlSec * SECOND, None, 0, 5) }

  /** A topic with one channel. */
  const SETUP: seq<Event> := [AddTopic("t"), AddChannel(1, "c")]

  const SETUP_DB: Db :=
    EmptyDb(0).(topics := map[1 := "t"], channels := map[1 := Channel(1, "c")], nextTopic := 2, nextChannel := 2)

  lemma Setup()
    ensures Run(FRESH, SETUP).db == SETUP_DB && |Run(FRESH, SETUP).sinks| == 1
  {
    assert NameChar("t"[0]) && NameChar("c"[0]);
    assert ValidName("t") && ValidName("c");
    RunSnoc(FRESH, [], AddTopic("t"));
    RunSnoc(FRESH, [AddTopic("t")], AddChannel(1, "c"));
    assert [] + [AddTopic("t")] == [AddTopic("t")] && [AddTopic("t")] + [AddChannel(1, "c")] == SETUP;
    assert Run(FRESH, []) == FRESH;
    assert Run(FRESH, [AddTopic("t")]).db == EmptyDb(0).(topics := map[1 := "t"], nextTopic := 2);
  }

  function Row(message: int, expiresAt: int): Delivery {
    Delivery(message, 1, Pending, 0, expiresAt, 0, 5, None, None, None)
  }

  function Published(db: Db, ttlSec: int): Db {
    db.(messages := db.messages[db.nextMessage := Message(1, "", ttlSec)],
        deliveries := db.deliveries[db.nextDelivery := Row(db.nextMessage, ttlSec)],
        nextMessage := db.nextMessage + 1, nextDelivery := db.nextDelivery + 1)
  }

  lemma PublishEffect(db: Db, ttlSec: int)
    requires db.now == 0 && db.topics == SETUP_DB.topics && db.channels == SETUP_DB.channels && ttlSec >= 1
    ensures PublishTx(db, 1, "", Opts(ttlSec), [1]) == Published(db, ttlSec)
  {
    assert ChannelsOf(db, 1) == {1};
    SameMembers(ToSet([1]), {1});
    assert StoredExpiry(Opts(ttlSec), 0) == ttlSec && StoredAvailable(Opts(ttlSec), 0) == 0;
    assert Fanout(db, Opts(ttlSec), [1]) == map[db.nextDelivery := Row(db.nextMessage, ttlSec)];
  }

  /** Publishing to that channel, from any such state at clock zero. */
  lemma Publishes(w: World, ttlSec: int)
    requires |w.sinks| == 1 && ttlSec >= 1
    requires w.db.now == 0 && w.db.topics == SETUP_DB.topics && w.db.channels == SETUP_DB.channels
    ensures var after := Apply(w, PublishTo(0, 1, "", Opts(ttlSec), [1]));
            |after.sinks| == 1 && after.db == Published(w.db, ttlSec)
  {
    PublishEffect(w.db, ttlSec);
  }

  // --------------------------------------- a claim that comes back too short

  /** Two messages, the first of which lives for five seconds. */
  const TWO_WAITING: seq<Event> := SETUP + [PublishTo(0, 1, "", Opts(5), [1]), PublishTo(0, 1, "", Opts(100), [1])]

  const TWO_WAITING_DB: Db :=
    SETUP_DB.(messages := map[1 := Message(1, "", 5), 2 := Message(1, "", 100)],
              deliveries := map[1 := Row(1, 5), 2 := Row(2, 100)], nextMessage := 3, nextDelivery := 3)

  lemma PublishesTwo(w: World)
    requires |w.sinks| == 1 && w.db == SETUP_DB
    ensures Apply(Apply(w, PublishTo(0, 1, "", Opts(5), [1])), PublishTo(0, 1, "", Opts(100), [1])).db == TWO_WAITING_DB
  {
    Publishes(w, 5);
    Publishes(Apply(w, PublishTo(0, 1, "", Opts(5), [1])), 100);
  }

  lemma TwoWaiting()
    ensures Initial(FRESH) && Run(FRESH, TWO_WAITING).db == TWO_WAITING_DB
  {
    Setup();
    RunTwo(FRESH, SETUP, PublishTo(0, 1, "", Opts(5), [1]), PublishTo(0, 1, "", Opts(100), [1]));
    PublishesTwo(Run(FRESH, SETUP));
  }

  lemma WaitingRanks(db: Db)
    requires db == TWO_WAITING_DB
    ensures PollRanks(AtClock(db, 0), 1, 1) == [Rank(0, 1)]
    ensures PollRanks(AtClock(db, 5), 1, 1) == [Rank(0, 2)]
    ensures Rank(0, 1) !in ReadyRanks(AtClock(db, 5), 1)
  {
    assert ReadyRanks(AtClock(db, 0), 1) == {Rank(0, 1), Rank(0, 2)} by {
      forall r: Rank {
        RankOf(AtClock(db, 0), 1, r);
      }
    }
    assert ReadyRanks(AtClock(db, 5), 1) == {Rank(0, 2)} by {
      forall r: Rank {
        RankOf(AtClock(db, 5), 1, r);
      }
    }
    SortIsUnique([Rank(0, 1), Rank(0, 2)], ReadyRanks(AtClock(db, 0), 1));
    SortIsUnique([Rank(0, 2)], ReadyRanks(AtClock(db, 5), 1));
    assert [Rank(0, 1), Rank(0, 2)][..1] == [Rank(0, 1)];
  }

  /** The claim polls the first message and leases five seconds later, when it has
      expired: it hands out nothing, although the second message is ready. */
  lemma ExpiryMidClaimShortensBatch()
    ensures var db := Run(FRESH, TWO_WAITING).db;
            && Initial(FRESH)
            && LeasedRanks(db, 1, 1, db.now, db.now + 5) == []
            && PollRanks(AtClock(db, db.now + 5), 1, 1) == [Rank(0, 2)]
  {
    TwoWaiting();
    WaitingRanks(Run(FRESH, TWO_WAITING).db);
  }

  // ------------------------------------------ a reaper without its recheck

  /** A delivery whose lease of one second has run out. */
  const RUN_OUT: seq<Event> := SETUP + [PublishTo(0, 1, "", Opts(1000), [1]), ClaimRows(0, 1, "a", 1, {1}, map[1 := 7]), Tick(2)]

  /** Its holder requeues it after all, and another consumer claims it. */
  const RELEASED: seq<Event> := [RequeueRow(0, 1, 7, None), ClaimRows(0, 1, "b", 100, {1}, map[1 := 8])]

  function Leased(availableAt: int, attempts: int, owner: string, token: Token, until: int): Delivery {
    Delivery(1, 1, InFlight, availableAt, 1000, attempts, 5, Some(owner), Some(token), Some(until))
  }

  const ONE_MESSAGE: Db := SETUP_DB.(messages := map[1 := Message(1, "", 1000)], nextMessage := 2, nextDelivery := 2)

  lemma ClaimEffect(db: Db, owner: string, leaseSec: int, token: Token, row: Delivery)
    requires db.deliveries == map[1 := row] && token !in db.issued
    requires row.channelId == 1 && row.Ready(db.now) && row.attempts < row.maxAttempts
    ensures ClaimTx(db, 1, owner, leaseSec, {1}, map[1 := token]) ==
            db.(deliveries := map[1 := LeaseRow(row, owner, token, db.now + leaseSec)], issued := db.issued + {token})
  {
    assert Leasable(db, 1, {1}) == {1};
    assert TokensOf({1}, map[1 := token]) == {token};
  }

  lemma Claims(w: World, owner: string, leaseSec: int, token: Token, row: Delivery)
    requires |w.sinks| == 1 && w.db.deliveries == map[1 := row] && token !in w.db.issued
    requires row.channelId == 1 && row.Ready(w.db.now) && row.attempts < row.maxAttempts
    ensures var after := Apply(w, ClaimRows(0, 1, owner, leaseSec, {1}, map[1 := token]));
            && |after.sinks| == 1
            && after.db == w.db.(deliveries := map[1 := LeaseRow(row, owner, token, w.db.now + leaseSec)], issued := w.db.issued + {token})
  {
    ClaimEffect(w.db, owner, leaseSec, token, row);
  }

  const RUN_OUT_DB: Db := ONE_MESSAGE.(now := 2, deliveries := map[1 := Leased(0, 1, "a", 7, 1)], issued := {7})

  const RELEASED_DB: Db := ONE_MESSAGE.(now := 2, deliveries := map[1 := Leased(2, 2, "b", 8, 102)], issued := {7, 8})

  lemma RunsOut(w: World)
    requires |w.sinks| == 1 && w.db == SETUP_DB
    ensures var claimed := Apply(Apply(w, PublishTo(0, 1, "", Opts(1000), [1])), ClaimRows(0, 1, "a", 1, {1}, map[1 := 7]));
            && |Apply(claimed, Tick(2)).sinks| == 1
            && Apply(claimed, Tick(2)).db == RUN_OUT_DB
  {
    Publishes(w, 1000);
    var published := Apply(w, PublishTo(0, 1, "", Opts(1000), [1]));
    Claims(published, "a", 1, 7, Row(1, 1000));
  }

  lemma Releases(w: World)
    requires |w.sinks| == 1 && w.db == RUN_OUT_DB
    ensures Apply(Apply(w, RequeueRow(0, 1, 7, None)), ClaimRows(0, 1, "b", 100, {1}, map[1 := 8])).db == RELEASED_DB
  {
    var row := BackToPending(Leased(0, 1, "a", 7, 1), 2);
    var requeued := Apply(w, RequeueRow(0, 1, 7, None));
    assert requeued.db == RUN_OUT_DB.(deliveries := map[1 := row]);
    Claims(requeued, "b", 100, 8, row);
  }

  lemma RunOut()
    ensures Run(FRESH, RUN_OUT).db == RUN_OUT_DB && |Run(FRESH, RUN_OUT).sinks| == 1
  {
    Setup();
    RunThree(FRESH, SETUP, PublishTo(0, 1, "", Opts(1000), [1]), ClaimRows(0, 1, "a", 1, {1}, map[1 := 7]), Tick(2));
    RunsOut(Run(FRESH, SETUP));
  }

  lemma Released(w: World)
    requires |w.sinks| == 1 && w.db == RUN_OUT_DB
    ensures Run(w, RELEASED).db == RELEASED_DB
  {
    RunTwo(w, [], RequeueRow(0, 1, 7, None), ClaimRows(0, 1, "b", 100, {1}, map[1 := 8]));
    assert [] + RELEASED == RELEASED;
    Releases(w);
  }

  /** The reaper selects the run-out lease; before its update the row is requeued
      and claimed again.  The recheck leaves the new lease alone; an update by id
      alone would take the row from its new holder. */
  lemma UncheckedReapTakesAValidLease()
    ensures var selected, later := Run(FRESH, RUN_OUT), Run(Run(FRESH, RUN_OUT), RELEASED);
            && Initial(FRESH) && Reapable(selected.db, {1}) == {1}
            && ValidLease(later.db, 1)
            && ReapStmt(later.db, {1}) == later.db
            && UncheckedReap(later.db, {1}).deliveries[1].status.Pending?
  {
    RunOut();
    Released(Run(FRESH, RUN_OUT));
    Sparing(RUN_OUT_DB, RELEASED_DB);
  }

  lemma Sparing(selected: Db, later: Db)
    requires selected == RUN_OUT_DB && later == RELEASED_DB
    ensures Reapable(selected, {1}) == {1} && ValidLease(later, 1) && ReapStmt(later, {1}) == later
    ensures 1 in UncheckedReap(later, {1}).deliveries && UncheckedReap(later, {1}).deliveries[1].status.Pending?
  {
    assert selected.deliveries[1].LeaseExpired(2);
    assert Reapable(later, {1}) == {};
    SameMap(ReapStmt(later, {1}).deliveries, later.deliveries);
  }
}
