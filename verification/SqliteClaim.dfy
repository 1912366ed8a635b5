/** The SQLite driver's optimistic claim: a transaction polls a snapshot, and
    its lease statement succeeds only if no other commit has moved the database
    since; otherwise the whole transaction is retried. */
module SqliteClaim {
  import opened Collections
  import opened Tables
  import opened Delay
  import opened Statements
  import opened Protocol
  import opened Invariants
  import opened LeaseSafety
  import opened Sorting
  import opened Polling
  import opened ClaimAssembly
  import opened Clusters

  const CLAIM_MAX_ATTEMPTS := 10
  const DEFAULT_LEASE := 30 * SECOND

  /** What the world does during one attempt: the commits of other processes
      before the poll and between poll and lease, how the begin and the poll
      end, whether the lease meets a locked database or any other failure,
      whether the caller's context is cancelled before a retry, and how long the
      write lock is held. */
  datatype Attempt =
    Attempt(before: seq<Event>, between: seq<Event>, poll: PollOutcome, locked: bool, broken: bool, cancelled: bool, hold: nat)

  /** The begin and the poll go through, meet a locked database, or fail in any
      other way (a context cancelled before the first attempt among them). */
  datatype PollOutcome = Polls | PollBusy | PollFails

  const CALM := Attempt([], [], Polls, false, false, false, 0)

  /** The attempt is over with its poll: there is nothing to lease. */
  predicate EndsAtPoll(a: Attempt, ids: seq<int>) { a.poll.Polls? && ids == [] }

  function Nth(schedule: seq<Attempt>, i: nat): Attempt {
    if i < |schedule| then schedule[i] else CALM
  }

  /** Everything other processes commit during the first `n` attempts. */
  function Foreign(schedule: seq<Attempt>, n: nat): seq<Event> {
    if n == 0 then []
    else Foreign(schedule, n - 1) + Nth(schedule, n - 1).before + Nth(schedule, n - 1).between
  }

  datatype TxResult =
    | Leased(out: seq<Handed>, topicId: int, claimed: nat, dead: nat)
    | NothingReady
    | Busy
    | Broken

  datatype ClaimResult =
    | Claimed(out: seq<Handed>)
    | InvalidChannel
    | BusyTooOften
    | Cancelled
    | Failed

  // -------------------------------------------- statements inside the transaction

  /** UPDATE ... WHERE id IN (ids) AND the full poll eligibility. */
  function LeaseTargets(db: Db, ids: set<int>): set<int> {
    set id | id in ids && id in db.deliveries && db.deliveries[id].Ready(db.now)
  }

  function LeaseStmt(db: Db, ids: set<int>, owner: string, leaseSec: int, tokens: map<int, Token>): Db
    requires LeaseTargets(db, ids) <= tokens.Keys
  {
    var rows := LeaseTargets(db, ids);
    db.(deliveries := map id | id in db.deliveries ::
                        if id in rows then LeaseRow(db.deliveries[id], owner, tokens[id], db.now + leaseSec) else db.deliveries[id],
        issued := db.issued + TokensOf(rows, tokens))
  }

  /** The two updates of one transaction make one atomic claim. */
  lemma TwoUpdatesAreOneClaim(db: Db, c: int, ids: set<int>, owner: string, leaseSec: int, tokens: map<int, Token>)
    requires FreshTokens(db, Leasable(db, c, ids), tokens)
    requires LeaseTargets(db, ids) == Leasable(db, c, ids)
    ensures var mid := LeaseStmt(db, ids, owner, leaseSec, tokens);
            BuryStmt(mid, PoisonedAmong(mid, Leasable(db, c, ids))) == ClaimTx(db, c, owner, leaseSec, ids, tokens)
  {
    var rows := Leasable(db, c, ids);
    var mid := LeaseStmt(db, ids, owner, leaseSec, tokens);
    var a := BuryStmt(mid, PoisonedAmong(mid, rows));
    var b := ClaimTx(db, c, owner, leaseSec, ids, tokens);
    forall id: int
      ensures id in a.deliveries <==> id in b.deliveries
      ensures id in a.deliveries && id in b.deliveries ==> a.deliveries[id] == b.deliveries[id]
    {
    }
    SameMap(a.deliveries, b.deliveries);
  }

  /** The deliveries of an atomic claim in poll order: the leased rows as they stand inside the transaction. */
  function Batch(db: Db, c: int, ids: seq<int>, owner: string, leaseSec: int, tokens: map<int, Token>): seq<Handed>
    requires LeaseTargets(db, ToSet(ids)) <= tokens.Keys
  {
    HandedOut(LeaseStmt(db, ToSet(ids), owner, leaseSec, tokens), Keep(ids, Leasable(db, c, ToSet(ids))))
  }

  // ------------------------------------------------------------ tokens

  /** There is always a token nobody has. */
  lemma {:induction false} SomeTokenIsFree(issued: set<Token>) returns (bound: Token)
    ensures forall t: Token | t in issued :: t < bound
    decreases issued
  {
    if issued == {} {
      bound := 0;
    } else {
      var t := AnyOf(issued);
      var below := SomeTokenIsFree(issued - {t});
      bound := if t < below then below else t + 1;
      forall u: Token | u in issued
        ensures u < bound
      {
        assert u == t || u in issued - {t};
      }
    }
  }

  /** randomblob(16): some token not issued before. */
  method NewToken(issued: set<Token>) returns (token: Token)
    ensures token !in issued
  {
    ghost var bound := SomeTokenIsFree(issued);
    assert bound !in issued;
    token :| token !in issued;
  }

  /** A token of its own for each row of the lease statement. */
  method NewTokens(rows: seq<int>, issued: set<Token>) returns (tokens: map<int, Token>)
    ensures forall i | 0 <= i < |rows| :: rows[i] in tokens
    ensures forall id | id in tokens :: tokens[id] !in issued
    ensures forall i, j | i in tokens && j in tokens && i != j :: tokens[i] != tokens[j]
  {
    tokens := map[];
    var used := issued;
    for n := 0 to |rows|
      invariant forall i | 0 <= i < n :: rows[i] in tokens
      invariant issued <= used && forall id | id in tokens :: tokens[id] in used && tokens[id] !in issued
      invariant forall i, j | i in tokens && j in tokens && i != j :: tokens[i] != tokens[j]
    {
      var token := NewToken(used);
      tokens := tokens[rows[n] := token];
      used := used + {token};
    }
  }

  // ------------------------------------------------- one attempt

  /** The polled ids are rows of the channel, each once. */
  ghost predicate Polled(db: Db, c: int, ids: seq<int>) {
    && NoRepeats(ids)
    && forall i | 0 <= i < |ids| :: ids[i] in db.deliveries && db.deliveries[ids[i]].channelId == c
  }

  /** For ids of one channel the lease statement's guard and the claim's eligibility are the same. */
  lemma LeaseGuardIsEligibility(db: Db, c: int, ids: seq<int>)
    requires Polled(db, c, ids)
    ensures LeaseTargets(db, ToSet(ids)) == Leasable(db, c, ToSet(ids))
  {
    forall id: int
      ensures id in LeaseTargets(db, ToSet(ids)) <==> id in Leasable(db, c, ToSet(ids))
    {
      if id in ids {
        var i :| 0 <= i < |ids| && ids[i] == id;
        assert ids[i] in db.deliveries;
      }
    }
    SameMembers(LeaseTargets(db, ToSet(ids)), Leasable(db, c, ToSet(ids)));
  }

  lemma ClaimedCounts(db: Db, c: int, ids: seq<int>, claimed: seq<int>)
    requires Polled(db, c, ids)
    requires claimed == Keep(ids, Leasable(db, c, ToSet(ids)))
    ensures |claimed| == |Leasable(db, c, ToSet(ids))|
    ensures forall id: int :: id in claimed <==> id in Leasable(db, c, ToSet(ids))
  {
    var leased := Leasable(db, c, ToSet(ids));
    KeepLists(ids, leased);
    forall id: int
      ensures id in claimed <==> id in leased
    {
      if id in leased {
        assert id in ToSet(ids);
      }
    }
    ListLength(claimed, leased);
  }

  lemma PoisonedAreKilled(db: Db, ids: seq<int>, c: int, owner: string, leaseSec: int, tokens: map<int, Token>)
    requires LeaseTargets(db, ToSet(ids)) <= tokens.Keys
    requires LeaseTargets(db, ToSet(ids)) == Leasable(db, c, ToSet(ids))
    ensures PoisonedAmong(LeaseStmt(db, ToSet(ids), owner, leaseSec, tokens), Leasable(db, c, ToSet(ids))) ==
            Killed(db, Leasable(db, c, ToSet(ids)))
  {
    var leased := Leasable(db, c, ToSet(ids));
    var mid := LeaseStmt(db, ToSet(ids), owner, leaseSec, tokens);
    forall id: int
      ensures id in PoisonedAmong(mid, leased) <==> id in Killed(db, leased)
    {
    }
    SameMembers(PoisonedAmong(mid, leased), Killed(db, leased));
  }

  /** Referential integrity: the body query's joins find every leased row. */
  lemma LeasedRowJoins(db: Db, ids: set<int>, owner: string, leaseSec: int, tokens: map<int, Token>, id: int)
    requires References(db) && id in LeaseTargets(db, ids) && LeaseTargets(db, ids) <= tokens.Keys
    ensures Joins(LeaseStmt(db, ids, owner, leaseSec, tokens), id)
  {
    assert WellPlaced(db, db.deliveries[id]);
  }

  /** The lease update, the RETURNING loop, the body query, the bury update and
      the final loop, all inside one transaction on `db`. */
  method LeaseAndAssemble(db: Db, c: int, ids: seq<int>, owner: string, leaseSec: int)
    returns (after: Db, tokens: map<int, Token>, claimed: nat, dead: nat, out: seq<Handed>)
    requires References(db) && Polled(db, c, ids)
    ensures FreshTokens(db, Leasable(db, c, ToSet(ids)), tokens)
    ensures LeaseTargets(db, ToSet(ids)) <= tokens.Keys
    ensures claimed == |Leasable(db, c, ToSet(ids))| && dead == |Killed(db, Leasable(db, c, ToSet(ids)))|
    ensures after == ClaimTx(db, c, owner, leaseSec, ToSet(ids), tokens)
    ensures out == Batch(db, c, ids, owner, leaseSec, tokens)
  {
    var idSet := ToSet(ids);
    LeaseGuardIsEligibility(db, c, ids);
    var leased := LeaseTargets(db, idSet);
    var returned := AnyOrder(leased);
    tokens := NewTokens(returned, db.issued);
    forall id: int | id in leased
      ensures id in tokens
    {
      assert id in returned;
    }
    var mid := LeaseStmt(db, idSet, owner, leaseSec, tokens);

    var claimedSet := set id | id in returned && id in ids;
    var bodyRows := AnyOrder(claimedSet);
    forall i | 0 <= i < |bodyRows|
      ensures Joins(mid, bodyRows[i])
    {
      assert bodyRows[i] in claimedSet;
      assert bodyRows[i] in leased;
      LeasedRowJoins(db, idSet, owner, leaseSec, tokens, bodyRows[i]);
    }
    var claimedIds: seq<int>, deadIds: set<int>;
    claimedIds, deadIds, out := Assemble(mid, ids, returned, bodyRows);
    SameMembers((set id | id in returned), leased);
    SameMembers((set id | id in bodyRows), leased);
    ClaimedCounts(db, c, ids, claimedIds);
    PoisonedAreKilled(db, ids, c, owner, leaseSec, tokens);

    after := if deadIds == {} then mid else BuryStmt(mid, deadIds);
    BuryNothing(mid);
    TwoUpdatesAreOneClaim(db, c, idSet, owner, leaseSec, tokens);
    claimed, dead := |claimedIds|, |deadIds|;
  }

  lemma BuryNothing(db: Db)
    ensures BuryStmt(db, {}) == db
  {
    SameMap(BuryStmt(db, {}).deliveries, db.deliveries);
  }

  // ------------------------------------------------- the retry loop

  /** `out` is what one atomic claim on `db` hands out, for the ids a poll of
      these very rows at clock `polledAt` returned. */
  ghost predicate IsAtomicClaim(db: Db, c: int, owner: string, leaseSec: int, limit: nat, polledAt: int,
                                ids: seq<int>, tokens: map<int, Token>, out: seq<Handed>)
  {
    && polledAt <= db.now
    && ids == Poll(AtClock(db, polledAt), c, limit)
    && FreshTokens(db, Leasable(db, c, ToSet(ids)), tokens)
    && LeaseTargets(db, ToSet(ids)) <= tokens.Keys
    && out == Batch(db, c, ids, owner, leaseSec, tokens)
  }

  /** Non-positive arguments fall back to one row and half a minute. */
  function Limit(limit: int): nat { if limit <= 0 then 1 else limit }

  function LeaseSeconds(leaseFor: int): int {
    DurationSec(if leaseFor <= 0 then DEFAULT_LEASE else leaseFor)
  }

  function Env(a: Attempt): seq<Event> { a.before + a.between }

  lemma ForeignGrows(schedule: seq<Attempt>, n: nat)
    ensures Foreign(schedule, n + 1) == Foreign(schedule, n) + Env(Nth(schedule, n))
  {
  }

  /** What a claim that leases commits: the claim, and the time the lock was held. */
  function LeaseTrail(owed: nat, c: int, owner: string, leaseSec: int, ids: seq<int>, tokens: map<int, Token>, hold: nat): seq<Event> {
    [ClaimRows(owed, c, owner, leaseSec, ToSet(ids), tokens), Tick(hold)]
  }

  /** After the commit its counters are recorded in the process's buffer. */
  function ClaimTrail(at: Db, owed: nat, buffer: nat, c: int, owner: string, leaseSec: int,
                      ids: seq<int>, tokens: map<int, Token>, hold: nat): seq<Event>
  {
    LeaseTrail(owed, c, owner, leaseSec, ids, tokens, hold)
    + (if c in at.channels then [MoveDeltas(owed, buffer, {StatCoord(at.channels[c].topicId, c)})] else [])
  }

  /** A state with nothing to lease: the atomic claim hands out nothing. */
  lemma EmptyClaim(db: Db, c: int, owner: string, leaseSec: int, limit: nat, polledAt: int, ids: seq<int>)
    requires polledAt <= db.now && ids == Poll(AtClock(db, polledAt), c, limit)
    requires Leasable(db, c, ToSet(ids)) == {} && Polled(db, c, ids)
    ensures IsAtomicClaim(db, c, owner, leaseSec, limit, polledAt, ids, map[], [])
  {
    LeaseGuardIsEligibility(db, c, ids);
    KeepNone(ids);
  }

  lemma {:induction false} KeepNone(ids: seq<int>)
    ensures Keep(ids, {}) == []
  {
    if ids != [] {
      KeepNone(ids[..|ids| - 1]);
    }
  }

  lemma {:induction false} HandedOutLength(db: Db, claimed: seq<int>)
    ensures |HandedOut(db, claimed)| <= |claimed|
  {
    if claimed != [] {
      HandedOutLength(db, claimed[..|claimed| - 1]);
    }
  }

  lemma OutFits(db: Db, c: int, owner: string, leaseSec: int, limit: nat, polledAt: int,
                ids: seq<int>, tokens: map<int, Token>, out: seq<Handed>)
    requires IsAtomicClaim(db, c, owner, leaseSec, limit, polledAt, ids, tokens, out)
    ensures |out| <= limit
  {
    PollLists(AtClock(db, polledAt), c, limit);
    KeepLists(ids, Leasable(db, c, ToSet(ids)));
    HandedOutLength(LeaseStmt(db, ToSet(ids), owner, leaseSec, tokens), Keep(ids, Leasable(db, c, ToSet(ids))));
  }

  class Store {
    const cluster: Cluster
    const owed: nat     // the deltas of a committed mutation on their way to recordStat
    const buffer: nat   // this process's counter buffer

    constructor (cluster: Cluster, owed: nat, buffer: nat)
      ensures this.cluster == cluster && this.owed == owed && this.buffer == buffer
    {
      this.cluster, this.owed, this.buffer := cluster, owed, buffer;
    }

    ghost predicate Valid()
      reads this, cluster
    {
      cluster.Valid() && owed < |cluster.w.sinks| && buffer < |cluster.w.sinks| && owed != buffer
    }

    /** One attempt.  Its result is the one the two states it met call for; only
        a Leased result commits anything of its own. */
    method RunClaimTx(call: Call, a: Attempt) returns (res: TxResult, ghost ids: seq<int>, ghost tokens: map<int, Token>)
      requires Valid()
      modifies cluster
      ensures Valid() && old(cluster.trace) <= cluster.trace
      ensures cluster.log == old(cluster.log) + ForeignIn(a, ids)
                             + (if res.Leased? then LeaseTrail(owed, call.channelId, call.owner, call.leaseSec, ids, tokens, a.hold) else [])
      ensures Went(cluster.trace, old(cluster.log), call, a, Episode(res, ids, tokens))
    {
      tokens := map[];
      cluster.Interfere(a.before);
      var snap := cluster.w;
      ghost var m := |cluster.log|;
      if !a.poll.Polls? {
        Regroup(old(cluster.log), a.before, a.between);
        cluster.Interfere(a.between);
        return if a.poll.PollBusy? then Busy else Broken, [], tokens;
      }
      var polled := Poll(snap.db, call.channelId, call.limit);
      ids := polled;
      if polled == [] {
        EmptyClaim(snap.db, call.channelId, call.owner, call.leaseSec, call.limit, snap.db.now, []);
        return NothingReady, ids, tokens;
      }
      Regroup(old(cluster.log), a.before, a.between);
      cluster.Interfere(a.between);
      res, tokens := LeaseIfCurrent(call, a, snap, polled, m);
    }

    /** The lease statement of a transaction whose snapshot is `snap`. */
    method LeaseIfCurrent(call: Call, a: Attempt, snap: World, polled: seq<int>, ghost m: nat)
      returns (res: TxResult, ghost tokens: map<int, Token>)
      requires Valid() && m <= |cluster.log| && snap == cluster.trace[m]
      requires a.poll.Polls? && polled == Poll(snap.db, call.channelId, call.limit) != []
      modifies cluster
      ensures Valid() && old(cluster.trace) <= cluster.trace
      ensures cluster.log == old(cluster.log)
                             + (if res.Leased? then LeaseTrail(owed, call.channelId, call.owner, call.leaseSec, polled, tokens, a.hold) else [])
      ensures TxVerdict(res, snap, old(cluster.w), call.channelId, call.limit, a, polled)
      ensures res.Leased? || res.NothingReady? ==>
                IsAtomicClaim(old(cluster.w.db), call.channelId, call.owner, call.leaseSec, call.limit, snap.db.now, polled, tokens, OutOf(res))
    {
      tokens := map[];
      SnapshotHolds(cluster.log, cluster.trace, m, call.channelId, call.limit);
      ghost var at := cluster.w;
      if cluster.w.version != snap.version || a.locked {
        return Busy, tokens;
      }
      if a.broken {
        return Broken, tokens;
      }
      res, tokens := LeasePolled(call.channelId, call.owner, call.leaseSec, polled, a.hold);
      if res.NothingReady? {
        tokens := map[];
        EmptyClaim(at.db, call.channelId, call.owner, call.leaseSec, call.limit, snap.db.now, polled);
      }
    }

    /** The lease statement has taken the write lock: from here to the commit
        nobody else writes. */
    method LeasePolled(c: int, owner: string, leaseSec: int, polled: seq<int>, hold: nat)
      returns (res: TxResult, ghost tokens: map<int, Token>)
      requires Valid() && Polled(cluster.w.db, c, polled) && polled != []
      modifies cluster
      ensures Valid() && old(cluster.trace) <= cluster.trace
      ensures res.NothingReady? ==> cluster.log == old(cluster.log) && Leasable(old(cluster.w.db), c, ToSet(polled)) == {}
      ensures res.NothingReady? || res.Leased?
      ensures res.Leased? ==>
                var at := old(cluster.w.db);
                && FreshTokens(at, Leasable(at, c, ToSet(polled)), tokens)
                && LeaseTargets(at, ToSet(polled)) <= tokens.Keys
                && res.out == Batch(at, c, polled, owner, leaseSec, tokens)
                && cluster.log == old(cluster.log) + LeaseTrail(owed, c, owner, leaseSec, polled, tokens, hold)
                && res.claimed == |Leasable(at, c, ToSet(polled))| > 0
                && res.dead == |Killed(at, Leasable(at, c, ToSet(polled)))|
                && c in at.channels && res.topicId == at.channels[c].topicId
    {
      cluster.Sound();
      var db := cluster.w.db;
      var after, minted, claimed, dead, out := LeaseAndAssemble(db, c, polled, owner, leaseSec);
      tokens := minted;
      if claimed == 0 {
        return NothingReady, tokens;
      }
      RowHasChannel(db, polled[0]);
      var topicId := db.channels[db.deliveries[polled[0]].channelId].topicId;
      cluster.Commit(ClaimRows(owed, c, owner, leaseSec, ToSet(polled), minted));
      cluster.Commit(Tick(hold));
      res := Leased(out, topicId, claimed, dead);
    }

    /** One attempt, with the recording of its counters after the commit. */
    method TryClaim(call: Call, a: Attempt) returns (res: TxResult, ghost e: Episode)
      requires Valid()
      modifies cluster
      ensures Valid() && res == e.res && old(cluster.trace) <= cluster.trace
      ensures Went(cluster.trace, old(cluster.log), call, a, e)
      ensures cluster.log == LogAfter(cluster.trace, old(cluster.log), owed, buffer, call, a, e)
    {
      ghost var ids, tokens;
      res, ids, tokens := RunClaimTx(call, a);
      e := Episode(res, ids, tokens);
      if res.Leased? {
        ghost var leased := cluster.trace;
        RecordClaim(res.topicId, call.channelId);
        WentStays(leased, cluster.trace, old(cluster.log), call, a, e);
      }
    }

    method RecordClaim(topicId: int, c: int)
      requires Valid()
      modifies cluster
      ensures Valid() && old(cluster.trace) <= cluster.trace
      ensures cluster.log == old(cluster.log) + [MoveDeltas(owed, buffer, {StatCoord(topicId, c)})]
    {
      cluster.Commit(MoveDeltas(owed, buffer, {StatCoord(topicId, c)}));
    }

    /** One more attempt after attempts that were all busy. */
    method NextAttempt(call: Call, schedule: seq<Attempt>, attempts: nat, ghost first: seq<Event>, ghost busy: seq<Episode>, ghost last: Episode)
      returns (res: TxResult, ghost next: Episode)
      requires Valid() && attempts == |busy| + 1 && !Nth(schedule, attempts).cancelled
      requires SoFar(cluster.trace, cluster.log, first, owed, buffer, call, schedule, busy, last) && last.res.Busy?
      modifies cluster
      ensures Valid() && res == next.res
      ensures SoFar(cluster.trace, cluster.log, first, owed, buffer, call, schedule, busy + [last], next)
    {
      ghost var before := cluster.trace;
      res, next := TryClaim(call, Nth(schedule, attempts));
      OneMoreBusy(before, cluster.trace, first, call, schedule, busy, last);
      NowSoFar(cluster.trace, cluster.log, first, owed, buffer, call, schedule, busy + [last], next);
    }

    /** The retry loop: attempts until one is not busy, ten at most.  `busy` are
        the attempts before the last. */
    method RetryClaim(call: Call, schedule: seq<Attempt>)
      returns (res: TxResult, cancelled: bool, ghost busy: seq<Episode>, ghost last: Episode)
      requires Valid()
      modifies cluster
      ensures Valid() && |busy| < CLAIM_MAX_ATTEMPTS && res == last.res
      ensures SoFar(cluster.trace, cluster.log, old(cluster.log), owed, buffer, call, schedule, busy, last)
      ensures res.Busy? && !cancelled ==> |busy| + 1 == CLAIM_MAX_ATTEMPTS
      ensures cancelled ==> res.Busy? && |busy| + 1 < CLAIM_MAX_ATTEMPTS && Nth(schedule, |busy| + 1).cancelled
    {
      assert old(cluster.log) + Foreign(schedule, 0) == old(cluster.log);
      res, last := TryClaim(call, Nth(schedule, 0));
      busy, cancelled := [], false;
      NowSoFar(cluster.trace, cluster.log, old(cluster.log), owed, buffer, call, schedule, busy, last);
      var attempts := 1;
      while attempts < CLAIM_MAX_ATTEMPTS && res.Busy? && !cancelled
        invariant Valid() && attempts == |busy| + 1 <= CLAIM_MAX_ATTEMPTS && res == last.res
        invariant SoFar(cluster.trace, cluster.log, old(cluster.log), owed, buffer, call, schedule, busy, last)
        invariant cancelled ==> res.Busy? && attempts < CLAIM_MAX_ATTEMPTS && Nth(schedule, attempts).cancelled
        decreases CLAIM_MAX_ATTEMPTS - attempts, !cancelled
      {
        cancelled := Nth(schedule, attempts).cancelled;
        if !cancelled {
          ghost var next;
          res, next := NextAttempt(call, schedule, attempts, old(cluster.log), busy, last);
          busy, last := busy + [last], next;
          attempts := attempts + 1;
        }
      }
    }

    /** Claim, with its bounded retries.  Every attempt happened as the states it
        met called for, and all but the last were busy.  So a successful call is
        one atomic claim in the state its last attempt met (an empty answer is an
        atomic claim that finds nothing), and a failed one leaves nothing of its
        own behind. */
    method Claim(c: int, owner: string, leaseFor: int, limit: int, schedule: seq<Attempt>)
      returns (r: ClaimResult, ghost busy: seq<Episode>, ghost last: Episode)
      requires Valid()
      modifies cluster
      ensures Valid() && |busy| < CLAIM_MAX_ATTEMPTS
      ensures r.InvalidChannel? <==> c <= 0
      ensures r.InvalidChannel? ==> cluster.log == old(cluster.log)
      ensures !r.InvalidChannel? ==>
                SoFar(cluster.trace, cluster.log, old(cluster.log), owed, buffer, CallOf(c, owner, leaseFor, limit), schedule, busy, last)
      ensures !r.InvalidChannel? && !r.Cancelled? ==> r == ResultOf(last.res)
      ensures r.BusyTooOften? ==> |busy| + 1 == CLAIM_MAX_ATTEMPTS
      ensures r.Cancelled? ==> last.res.Busy? && |busy| + 1 < CLAIM_MAX_ATTEMPTS && Nth(schedule, |busy| + 1).cancelled
      ensures r.Claimed? ==> |r.out| <= Limit(limit)
    {
      if c <= 0 {
        return InvalidChannel, [], Episode(Busy, [], map[]);
      }
      var res, cancelled;
      res, cancelled, busy, last := RetryClaim(CallOf(c, owner, leaseFor, limit), schedule);
      ClaimFits(cluster.trace, old(cluster.log), CallOf(c, owner, leaseFor, limit), schedule, |busy|, last);
      r := if cancelled then Cancelled else ResultOf(res);
    }
  }

  lemma ForeignRegrouped(first: seq<Event>, schedule: seq<Attempt>, k: nat)
    ensures first + Foreign(schedule, k) + Env(Nth(schedule, k)) == first + Foreign(schedule, k + 1)
  {
    ForeignGrows(schedule, k);
  }

  /** A claim never returns more than it was asked for. */
  lemma ClaimFits(trace: seq<World>, first: seq<Event>, call: Call, schedule: seq<Attempt>, k: nat, e: Episode)
    requires Happened(trace, first, call, schedule, k, e)
    ensures |OutOf(e.res)| <= call.limit
  {
    if e.res.Leased? {
      var start, a := first + Foreign(schedule, k), Nth(schedule, k);
      OutFits(Met(trace, start, a, e.ids).db, call.channelId, call.owner, call.leaseSec, call.limit,
              Snapshot(trace, start, a).db.now, e.ids, e.tokens, e.res.out);
    }
  }

  /** The arguments of a claim after its defaults are filled in. */
  datatype Call = Call(channelId: int, owner: string, leaseSec: int, limit: nat)

  function CallOf(c: int, owner: string, leaseFor: int, limit: int): Call {
    Call(c, owner, LeaseSeconds(leaseFor), Limit(limit))
  }

  function ResultOf(res: TxResult): ClaimResult {
    match res
    case Leased(out, _, _, _) => Claimed(out)
    case NothingReady => Claimed([])
    case Broken => Failed
    case Busy => BusyTooOften
  }

  /** One attempt: its result, the ids it polled and the tokens it issued. */
  datatype Episode = Episode(res: TxResult, ids: seq<int>, tokens: map<int, Token>)

  /** What other processes commit up to the last state an attempt reads. */
  function ForeignIn(a: Attempt, ids: seq<int>): seq<Event> { if EndsAtPoll(a, ids) then a.before else Env(a) }

  /** The trace is long enough to show what an attempt that began at log `start` met. */
  ghost predicate Shown(trace: seq<World>, start: seq<Event>, a: Attempt, ids: seq<int>) {
    |start + a.before| < |trace| && |start + ForeignIn(a, ids)| < |trace|
  }

  /** The state the poll of the attempt reads. */
  ghost function Snapshot(trace: seq<World>, start: seq<Event>, a: Attempt): World
    requires |start + a.before| < |trace|
  {
    trace[|start + a.before|]
  }

  /** The last state the attempt reads: the poll's if that found nothing, otherwise the lease statement's. */
  ghost function Met(trace: seq<World>, start: seq<Event>, a: Attempt, ids: seq<int>): World
    requires Shown(trace, start, a, ids)
  {
    trace[|start + ForeignIn(a, ids)|]
  }

  /** The attempt went as its environment makes it: its result is the one the
      states it met call for, and if it is a success it is one atomic claim. */
  ghost predicate Went(trace: seq<World>, start: seq<Event>, call: Call, a: Attempt, e: Episode) {
    && Shown(trace, start, a, e.ids)
    && var snapshot, at := Snapshot(trace, start, a), Met(trace, start, a, e.ids);
       && TxVerdict(e.res, snapshot, at, call.channelId, call.limit, a, e.ids)
       && (e.res.Leased? || e.res.NothingReady? ==>
             IsAtomicClaim(at.db, call.channelId, call.owner, call.leaseSec, call.limit, snapshot.db.now, e.ids, e.tokens, OutOf(e.res)))
  }

  /** Attempt `k` of a claim that started at log `first`. */
  ghost predicate Happened(trace: seq<World>, first: seq<Event>, call: Call, schedule: seq<Attempt>, k: nat, e: Episode) {
    Went(trace, first + Foreign(schedule, k), call, Nth(schedule, k), e)
  }

  /** Attempts 0, 1, ... of one claim, all of them busy; the caller was still waiting before each of them and the next. */
  ghost predicate AllBusy(trace: seq<World>, first: seq<Event>, call: Call, schedule: seq<Attempt>, busy: seq<Episode>) {
    forall k | 0 <= k < |busy| :: BusyAt(trace, first, call, schedule, k, busy[k])
  }

  ghost predicate BusyAt(trace: seq<World>, first: seq<Event>, call: Call, schedule: seq<Attempt>, k: nat, e: Episode) {
    Happened(trace, first, call, schedule, k, e) && e.res.Busy? && !Nth(schedule, k + 1).cancelled
  }

  /** A claim that started at log `first` has made the attempts `busy` and then
      the attempt `last`, and the log holds nothing else. */
  ghost predicate SoFar(trace: seq<World>, log: seq<Event>, first: seq<Event>, owed: nat, buffer: nat, call: Call, schedule: seq<Attempt>,
                        busy: seq<Episode>, last: Episode)
  {
    && AllBusy(trace, first, call, schedule, busy)
    && Happened(trace, first, call, schedule, |busy|, last)
    && log == LogAfter(trace, first + Foreign(schedule, |busy|), owed, buffer, call, Nth(schedule, |busy|), last)
    && (last.res.Busy? ==> log == first + Foreign(schedule, |busy| + 1))
  }

  lemma NowSoFar(trace: seq<World>, log: seq<Event>, first: seq<Event>, owed: nat, buffer: nat, call: Call, schedule: seq<Attempt>,
                 busy: seq<Episode>, last: Episode)
    requires AllBusy(trace, first, call, schedule, busy) && Happened(trace, first, call, schedule, |busy|, last)
    requires log == LogAfter(trace, first + Foreign(schedule, |busy|), owed, buffer, call, Nth(schedule, |busy|), last)
    ensures SoFar(trace, log, first, owed, buffer, call, schedule, busy, last)
  {
    ForeignRegrouped(first, schedule, |busy|);
  }

  /** What has happened stays so as the trace grows. */
  lemma WentStays(before: seq<World>, after: seq<World>, start: seq<Event>, call: Call, a: Attempt, e: Episode)
    requires before <= after && Went(before, start, call, a, e)
    ensures Went(after, start, call, a, e)
    ensures Met(after, start, a, e.ids) == Met(before, start, a, e.ids)
  {
    assert Snapshot(after, start, a) == Snapshot(before, start, a);
    assert Met(after, start, a, e.ids) == Met(before, start, a, e.ids);
  }

  lemma OneMoreBusy(before: seq<World>, after: seq<World>, first: seq<Event>, call: Call, schedule: seq<Attempt>, busy: seq<Episode>, e: Episode)
    requires before <= after && AllBusy(before, first, call, schedule, busy)
    requires BusyAt(before, first, call, schedule, |busy|, e)
    ensures AllBusy(after, first, call, schedule, busy + [e])
  {
    var more := busy + [e];
    forall k | 0 <= k < |more|
      ensures BusyAt(after, first, call, schedule, k, more[k])
    {
      if k < |busy| {
        assert more[k] == busy[k];
        WentStays(before, after, first + Foreign(schedule, k), call, Nth(schedule, k), busy[k]);
      } else {
        WentStays(before, after, first + Foreign(schedule, k), call, Nth(schedule, k), e);
      }
    }
  }

  /** The log after an attempt: everything foreign up to the last state it read,
      and its own trail, which is empty unless it leased. */
  ghost function LogAfter(trace: seq<World>, start: seq<Event>, owed: nat, buffer: nat, call: Call, a: Attempt, e: Episode): seq<Event>
    requires Shown(trace, start, a, e.ids)
  {
    start + ForeignIn(a, e.ids)
    + (if e.res.Leased?
       then ClaimTrail(Met(trace, start, a, e.ids).db, owed, buffer, call.channelId, call.owner, call.leaseSec, e.ids, e.tokens, a.hold)
       else [])
  }

  /** Another commit has moved the file since the snapshot, or the write lock cannot be had. */
  ghost predicate Stale(snapshot: World, at: World, a: Attempt) {
    at.version != snapshot.version || a.locked
  }

  /** Which result an attempt has to return. */
  ghost predicate TxVerdict(res: TxResult, snapshot: World, at: World, c: int, limit: nat, a: Attempt, ids: seq<int>) {
    && ids == (if a.poll.Polls? then Poll(snapshot.db, c, limit) else [])
    && (res.Busy? <==> a.poll.PollBusy? || (ids != [] && Stale(snapshot, at, a)))
    && (res.Broken? <==> a.poll.PollFails? || (ids != [] && !Stale(snapshot, at, a) && a.broken))
    && (res.Leased? <==> ids != [] && !Stale(snapshot, at, a) && !a.broken && Leasable(at.db, c, ToSet(ids)) != {})
    && (res.Leased? ==>
          && res.claimed == |Leasable(at.db, c, ToSet(ids))| && res.dead == |Killed(at.db, Leasable(at.db, c, ToSet(ids)))|
          && c in at.db.channels && res.topicId == at.db.channels[c].topicId)
  }

  function OutOf(res: TxResult): seq<Handed> { if res.Leased? then res.out else [] }

  lemma RowHasChannel(db: Db, id: int)
    requires References(db) && id in db.deliveries
    ensures db.deliveries[id].channelId in db.channels
  {
    assert WellPlaced(db, db.deliveries[id]);
  }

  /** While the version stands still, the snapshot's poll is a poll of the current rows at the earlier clock. */
  lemma SnapshotHolds(log: seq<Event>, trace: seq<World>, m: nat, c: int, limit: nat)
    requires Traced(log, trace) && m <= |log|
    ensures var snapshot, later := trace[m], trace[|log|];
            && snapshot.db.now <= later.db.now
            && (later.version == snapshot.version ==>
                  AtClock(later.db, snapshot.db.now) == snapshot.db && Polled(later.db, c, Poll(snapshot.db, c, limit)))
  {
    TraceBetween(log, trace, m, |log|);
    VersionPinsRows(trace[m], log[m..|log|]);
    PollLists(trace[m].db, c, limit);
  }

  // ------------------------------------------------- what a claim hands out

  lemma {:induction false} LeasedIdsAreLeasedRanks(ranks: seq<Rank>, leased: set<int>, kept: set<Rank>)
    requires forall i | 0 <= i < |ranks| :: ranks[i].minor in leased <==> ranks[i] in kept
    ensures Keep(Minors(ranks), leased) == Minors(Keep(ranks, kept))
    decreases |ranks|
  {
    if ranks != [] {
      var front := ranks[..|ranks| - 1];
      assert Minors(ranks)[..|ranks| - 1] == Minors(front);
      LeasedIdsAreLeasedRanks(front, leased, kept);
    }
  }

  /** A claim leases, in order, a prefix of what a poll at the lease clock
      would return; with an unmoved clock it leases exactly that poll. */
  lemma ClaimIsQueuePrefix(db: Db, c: int, limit: nat, polledAt: int)
    requires polledAt <= db.now
    ensures var ids := Poll(AtClock(db, polledAt), c, limit);
            var claimed := Keep(ids, Leasable(db, c, ToSet(ids)));
            && claimed <= Poll(db, c, limit)
            && (polledAt == db.now ==> claimed == Poll(db, c, limit))
  {
    var early := AtClock(db, polledAt);
    var ranks, ids := PollRanks(early, c, limit), Poll(early, c, limit);
    var kept := ReadyRanks(db, c);
    PollLists(early, c, limit);
    assert AtClock(db, db.now) == db;
    forall i | 0 <= i < |ranks|
      ensures ranks[i].minor in Leasable(db, c, ToSet(ids)) <==> ranks[i] in kept
    {
      RankOf(db, c, ranks[i]);
      assert ids[i] in ToSet(ids);
    }
    LeasedIdsAreLeasedRanks(ranks, Leasable(db, c, ToSet(ids)), kept);
    LateLeaseIsPrefix(db, c, limit, polledAt, db.now);
    MinorsPrefix(Keep(ranks, kept), PollRanks(db, c, limit));
    if polledAt == db.now {
      TakeIsInitial(kept, limit);
      KeepAll(ranks, kept);
    }
  }

  lemma MinorsPrefix(a: seq<Rank>, b: seq<Rank>)
    requires a <= b
    ensures Minors(a) <= Minors(b)
  {
  }

  lemma {:induction false} HandedOutRows(db: Db, claimed: seq<int>, i: nat)
    requires i < |HandedOut(db, claimed)|
    ensures var h := HandedOut(db, claimed)[i];
            h.id in claimed && Deliverable(db, h.id) && h == JoinedRow(db, h.id)
    decreases |claimed|
  {
    var front := claimed[..|claimed| - 1];
    assert claimed == front + [claimed[|claimed| - 1]];
    if i < |HandedOut(db, front)| {
      HandedOutRows(db, front, i);
    }
  }

  /** Every delivery a claim hands out was pending, due and unexpired at the
      lease statement's own clock, belongs to the channel, is under the attempt
      limit, and carries a token no row ever had. */
  lemma HandedOutIsSound(db: Db, c: int, owner: string, leaseSec: int, limit: nat, polledAt: int,
                         ids: seq<int>, tokens: map<int, Token>, out: seq<Handed>, i: nat)
    requires IsAtomicClaim(db, c, owner, leaseSec, limit, polledAt, ids, tokens, out) && i < |out|
    ensures out[i].id in db.deliveries
    ensures var was, h := db.deliveries[out[i].id], out[i];
            && was.channelId == c && was.Ready(db.now)
            && h.row.attempts == was.attempts + 1 <= h.row.maxAttempts
            && h.row.leaseUntil == Some(db.now + leaseSec)
            && h.row.leaseToken.Some? && h.row.leaseToken.value !in db.issued
            && out[i].id in tokens && h.row.leaseToken.value == tokens[out[i].id]
  {
    var leased := Leasable(db, c, ToSet(ids));
    var claimed := Keep(ids, leased);
    HandedOutRows(LeaseStmt(db, ToSet(ids), owner, leaseSec, tokens), claimed, i);
    KeepLists(ids, leased);
    assert out[i].id in leased;
  }

  lemma {:induction false} HandedOutAll(db: Db, claimed: seq<int>, id: int)
    requires id in claimed && Deliverable(db, id)
    ensures exists i | 0 <= i < |HandedOut(db, claimed)| :: HandedOut(db, claimed)[i].id == id
    decreases |claimed|
  {
    var front, last := claimed[..|claimed| - 1], claimed[|claimed| - 1];
    assert claimed == front + [last];
    var out := HandedOut(db, claimed);
    if last == id {
      assert out[|out| - 1].id == id;
    } else {
      HandedOutAll(db, front, id);
      var i :| 0 <= i < |HandedOut(db, front)| && HandedOut(db, front)[i].id == id;
      assert out[i].id == id;
    }
  }

  /** Claim hands out exactly the deliveries that its event returns. */
  lemma HandedOutIffReturned(w: World, sink: nat, c: int, owner: string, leaseSec: int, limit: nat, polledAt: int,
                             ids: seq<int>, tokens: map<int, Token>, out: seq<Handed>, id: int)
    requires Inv(w) && sink < |w.sinks| && IsAtomicClaim(w.db, c, owner, leaseSec, limit, polledAt, ids, tokens, out)
    ensures (exists i | 0 <= i < |out| :: out[i].id == id) <==> Returns(w, ClaimRows(sink, c, owner, leaseSec, ToSet(ids), tokens), id)
  {
    var leased, mid := Leasable(w.db, c, ToSet(ids)), LeaseStmt(w.db, ToSet(ids), owner, leaseSec, tokens);
    var claimed := Keep(ids, leased);
    KeepLists(ids, leased);
    PollLists(AtClock(w.db, polledAt), c, limit);
    LeaseGuardIsEligibility(w.db, c, ids);
    if i :| 0 <= i < |out| && out[i].id == id {
      HandedOutRows(mid, claimed, i);
    }
    if id in leased && id !in Killed(w.db, leased) {
      assert id in claimed;
      LeasedRowJoins(w.db, ToSet(ids), owner, leaseSec, tokens, id);
      HandedOutAll(mid, claimed, id);
    }
  }

  /** One claim of a run: its arguments, its poll, its tokens and its answer. */
  datatype Handout = Handout(sink: nat, call: Call, polledAt: int, ids: seq<int>, tokens: map<int, Token>, out: seq<Handed>)

  /** The event is this claim, made in the state `w`. */
  ghost predicate HandsOut(w: World, e: Event, h: Handout) {
    && h.sink < |w.sinks|
    && e == ClaimRows(h.sink, h.call.channelId, h.call.owner, h.call.leaseSec, ToSet(h.ids), h.tokens)
    && IsAtomicClaim(w.db, h.call.channelId, h.call.owner, h.call.leaseSec, h.call.limit, h.polledAt, h.ids, h.tokens, h.out)
  }

  predicate Contains(out: seq<Handed>, id: int) { exists i | 0 <= i < |out| :: out[i].id == id }

  lemma HandoutReturns(w: World, e: Event, h: Handout, id: int)
    requires Inv(w) && HandsOut(w, e, h)
    ensures Contains(h.out, id) <==> Returns(w, e, id)
  {
    HandedOutIffReturned(w, h.sink, h.call.channelId, h.call.owner, h.call.leaseSec, h.call.limit, h.polledAt, h.ids, h.tokens, h.out, id);
  }

  /** One delivery is in the answers of two claims only if its first lease was
      requeued or reaped in between; and the second answer carries another token. */
  lemma HandedOutTwiceOnlyAfterLeaseEnd(w: World, events: seq<Event>, i: nat, j: nat, first: Handout, second: Handout, id: int) returns (k: nat)
    requires Inv(w) && i < j < |events|
    requires HandsOut(Run(w, events[..i]), events[i], first) && HandsOut(Run(w, events[..j]), events[j], second)
    requires Contains(first.out, id) && Contains(second.out, id)
    ensures i < k < j && id in first.tokens && EndsLease(Run(w, events[..k]), events[k], id, first.tokens[id])
    ensures id in second.tokens && second.tokens[id] != first.tokens[id]
  {
    InvRun(w, events[..i]);
    InvRun(w, events[..j]);
    HandoutReturns(Run(w, events[..i]), events[i], first, id);
    HandoutReturns(Run(w, events[..j]), events[j], second, id);
    ClaimsNeverShareTokens(w, events, i, j, id, id);
    k := ReturnedAgainAfterLeaseEnd(w, events, i, j, id);
  }
}
