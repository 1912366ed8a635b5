/** How a handler's verdict reaches the database: Ack and Requeue of the SQLite
    driver under the client's bounded retries, with statements and replies that
    may get lost. */
module Finishing {
  import opened Tables
  import opened Statements
  import opened Protocol
  import opened Invariants
  import opened LeaseSafety
  import opened Clusters

  const FINISH_TRIES := 3

  datatype Verdict = Acked | Requeued(at: Option<int>)

  /** What the world does around one try: the commits of other processes before
      it, whether the statement reaches the database, whether its reply comes
      back, and whether the caller's deadline passes afterwards. */
  datatype Try = Try(before: seq<Event>, reaches: bool, replies: bool, expires: bool)

  datatype FinishResult = Finished | Rejected | Unanswered | DeadlineExceeded

  function FinishEvent(v: Verdict, sink: nat, id: int, token: Token): Event {
    match v
    case Acked => AckRow(sink, id, token)
    case Requeued(at) => RequeueRow(sink, id, token, at)
  }

  function NthTry(tries: seq<Try>, i: nat): Try {
    if i < |tries| then tries[i] else Try([], true, true, false)
  }

  /** What try `i` adds to the log, apart from the recording of its counter. */
  function TryTrail(v: Verdict, sink: nat, id: int, token: Token, tries: seq<Try>, i: nat): seq<Event> {
    NthTry(tries, i).before + (if NthTry(tries, i).reaches then [FinishEvent(v, sink, id, token)] else [])
  }

  function Trail(v: Verdict, sink: nat, id: int, token: Token, tries: seq<Try>, n: nat): seq<Event> {
    if n == 0 then [] else Trail(v, sink, id, token, tries, n - 1) + TryTrail(v, sink, id, token, tries, n - 1)
  }

  /** recordStat after the reply: the channel of the finished row, if RETURNING found it. */
  function Recording(db: Db, owed: nat, buffer: nat, id: int): seq<Event> {
    if id in db.deliveries && db.deliveries[id].channelId in db.channels
    then
      var c := db.deliveries[id].channelId;
      [MoveDeltas(owed, buffer, {StatCoord(db.channels[c].topicId, c)})]
    else []
  }

  /** The token has been spent, or left its row in another way: nobody holds it any more. */
  ghost predicate Spent(w: World, token: Token) {
    token in w.db.issued && Holders(w.db, token) == {}
  }

  /** A lease that is still held can be finished once; the statement then spends its token. */
  lemma FinishStep(w: World, v: Verdict, sink: nat, id: int, token: Token)
    requires Inv(w) && sink < |w.sinks|
    ensures var e := FinishEvent(v, sink, id, token);
            && (HoldsLease(w.db, id, token) ==> Spends(w, e, token) && Spent(Apply(w, e), token))
            && (!HoldsLease(w.db, id, token) ==> Apply(w, e).db == w.db)
  {
    var e := FinishEvent(v, sink, id, token);
    if HoldsLease(w.db, id, token) {
      SpendingClearsToken(w, e, token);
    }
  }

  lemma SpentForever(w: World, events: seq<Event>, token: Token)
    requires Inv(w) && Spent(w, token)
    ensures Spent(Run(w, events), token)
    ensures forall id :: !HoldsLease(Run(w, events).db, id, token)
  {
    HoldersShrink(w, events, token);
    var later := Run(w, events);
    forall id: int
      ensures !HoldsLease(later.db, id, token)
    {
      assert id !in Holders(later.db, token);
    }
  }

  /** The same between two states of a trace. */
  lemma SpentOverTrace(log: seq<Event>, trace: seq<World>, m: nat, n: nat, token: Token)
    requires Traced(log, trace) && m <= n <= |log| && Spent(trace[m], token)
    ensures Spent(trace[n], token) && forall id :: !HoldsLease(trace[n].db, id, token)
  {
    TraceSound(log, trace, m);
    TraceBetween(log, trace, m, n);
    SpentForever(trace[m], log[m..n], token);
  }

  class Worker {
    const cluster: Cluster
    const owed: nat
    const buffer: nat

    constructor (cluster: Cluster, owed: nat, buffer: nat)
      ensures this.cluster == cluster && this.owed == owed && this.buffer == buffer
    {
      this.cluster, this.owed, this.buffer := cluster, owed, buffer;
    }

    ghost predicate Valid()
      reads this, cluster
    {
      cluster.Valid() && owed < |cluster.w.sinks| && buffer < |cluster.w.sinks| && owed != buffer
    }

    method RecordFinish(db: Db, id: int)
      requires Valid()
      modifies cluster
      ensures Valid() && cluster.w.db == old(cluster.w.db) && old(cluster.trace) <= cluster.trace
      ensures cluster.log == old(cluster.log) + Recording(db, owed, buffer, id)
    {
      if id in db.deliveries && db.deliveries[id].channelId in db.channels {
        var c := db.deliveries[id].channelId;
        cluster.Commit(MoveDeltas(owed, buffer, {StatCoord(db.channels[c].topicId, c)}));
      }
    }

    /** One call of Ack or Requeue.  It changes its row if and only if its
        statement arrives while the lease is held. */
    method Finish(v: Verdict, id: int, token: Token, t: Try) returns (r: FinishResult)
      requires Valid()
      modifies cluster
      ensures Valid() && old(cluster.trace) <= cluster.trace
      ensures |old(cluster.log) + t.before| < |cluster.trace|
      ensures var at := cluster.trace[|old(cluster.log) + t.before|];
              var moved := t.reaches && HoldsLease(at.db, id, token);
              && r == OutcomeOf(t, moved)
              && (if moved then Spent(cluster.w, token) else cluster.w.db == at.db)
              && (old(Spent(cluster.w, token)) ==> !moved && Spent(cluster.w, token))
              && cluster.log == old(cluster.log) + t.before
                                + (if t.reaches then [FinishEvent(v, owed, id, token)] else [])
                                + (if r.Finished? then Recording(at.db, owed, buffer, id) else [])
    {
      ghost var m := |cluster.log|;
      ghost var spent := Spent(cluster.w, token);
      cluster.Interfere(t.before);
      if spent {
        SpentOverTrace(cluster.log, cluster.trace, m, |cluster.log|, token);
      }
      if !t.reaches {
        return Unanswered;
      }
      cluster.Sound();
      FinishStep(cluster.w, v, owed, id, token);
      var db := cluster.w.db;
      var held := HoldsLease(db, id, token);
      cluster.Commit(FinishEvent(v, owed, id, token));
      if !t.replies {
        return Unanswered;
      }
      if !held {
        return Rejected;
      }
      RecordFinish(db, id);
      r := Finished;
    }

    /** Call number `k` of a finish that started at log `first`. */
    method TryFinish(v: Verdict, id: int, token: Token, tries: seq<Try>, k: nat, ghost first: seq<Event>) returns (r: FinishResult, ghost moved: bool)
      requires Valid() && cluster.log == first + Trail(v, owed, id, token, tries, k)
      modifies cluster
      ensures Valid() && old(cluster.trace) <= cluster.trace
      ensures TryWas(cluster.trace, first, v, owed, id, token, tries, k, moved)
      ensures r == OutcomeOf(NthTry(tries, k), moved)
      ensures moved ==> Spent(cluster.w, token)
      ensures old(Spent(cluster.w, token)) ==> !moved && Spent(cluster.w, token)
      ensures cluster.log == FinishLog(cluster.trace, first, v, owed, buffer, id, token, tries, k + 1, r.Finished?)
    {
      TrailGrows(first, v, owed, id, token, tries, k);
      r := Finish(v, id, token, NthTry(tries, k));
      ghost var met := first + Trail(v, owed, id, token, tries, k) + NthTry(tries, k).before;
      moved := NthTry(tries, k).reaches && HoldsLease(cluster.trace[|met|].db, id, token);
    }

    /** One more call after calls that did not settle the matter. */
    method NextTry(v: Verdict, id: int, token: Token, tries: seq<Try>, n: nat, ghost first: seq<Event>, ghost moved: seq<bool>)
      returns (r: FinishResult, ghost more: seq<bool>)
      requires Valid() && n == |moved|
      requires SoFar(cluster.w, cluster.trace, cluster.log, first, v, owed, buffer, id, token, tries, moved)
      requires moved != [] ==> !Settles(NthTry(tries, n - 1), moved[n - 1])
      modifies cluster
      ensures Valid() && |more| == n + 1 && r == OutcomeOf(NthTry(tries, n), more[n])
      ensures SoFar(cluster.w, cluster.trace, cluster.log, first, v, owed, buffer, id, token, tries, more)
    {
      ghost var before, log := cluster.trace, cluster.log;
      UnsettledLog(before, log, first, v, owed, buffer, id, token, tries, moved);
      ghost var moves;
      r, moves := TryFinish(v, id, token, tries, n, first);
      more := moved + [moves];
      TriedMore(before, cluster.trace, log, cluster.log, first, v, owed, buffer, id, token, tries, moved, moves);
    }

    /** Up to three calls, stopping at the first success or when the deadline has
        passed.  `moved` tells which of them changed the row: those that reached the
        database while the lease was held.  However many statements arrive and
        however many replies are lost, that is at most one, and a reported success
        is that one. */
    method FinishWithRetry(v: Verdict, id: int, token: Token, tries: seq<Try>) returns (r: FinishResult, n: nat, ghost moved: seq<bool>)
      requires Valid()
      modifies cluster
      ensures Valid() && 1 <= n == |moved| <= FINISH_TRIES
      ensures SoFar(cluster.w, cluster.trace, cluster.log, old(cluster.log), v, owed, buffer, id, token, tries, moved)
      ensures n < FINISH_TRIES ==> Settles(NthTry(tries, n - 1), moved[n - 1])
      ensures r == Answered(NthTry(tries, n - 1), moved[n - 1])
    {
      n, r, moved := 0, Unanswered, [];
      NothingTried(cluster.w, cluster.trace, cluster.log, v, owed, buffer, id, token, tries);
      var settled := false;
      while n < FINISH_TRIES && !settled
        invariant Valid() && n == |moved| <= FINISH_TRIES
        invariant SoFar(cluster.w, cluster.trace, cluster.log, old(cluster.log), v, owed, buffer, id, token, tries, moved)
        invariant settled <==> n > 0 && Settles(NthTry(tries, n - 1), moved[n - 1])
        invariant n > 0 ==> r == Answered(NthTry(tries, n - 1), moved[n - 1])
        decreases FINISH_TRIES - n
      {
        r, moved := NextTry(v, id, token, tries, n, old(cluster.log), moved);
        settled := r.Finished? || NthTry(tries, n).expires;
        if !r.Finished? && settled {
          r := DeadlineExceeded;
        }
        n := n + 1;
      }
    }
  }

  /** The calls made so far; once one of them has changed the row its token is spent. */
  ghost predicate SoFar(w: World, trace: seq<World>, log: seq<Event>, first: seq<Event>, v: Verdict, owed: nat, buffer: nat,
                        id: int, token: Token, tries: seq<Try>, moved: seq<bool>)
  {
    Tried(trace, log, first, v, owed, buffer, id, token, tries, moved) && (true in moved ==> Spent(w, token))
  }

  /** The calls made so far and what is in the log: each try meets the state the
      schedule leads to, at most one changes anything, and only the last one can
      have settled the matter. */
  ghost predicate Tried(trace: seq<World>, log: seq<Event>, first: seq<Event>, v: Verdict, owed: nat, buffer: nat, id: int, token: Token,
                        tries: seq<Try>, moved: seq<bool>)
  {
    && TriesWere(trace, first, v, owed, id, token, tries, moved)
    && AtMostOne(moved) && Unsettled(tries, moved)
    && TriedLog(trace, log, first, v, owed, buffer, id, token, tries, moved)
  }

  /** Before the last try the matter was open. */
  ghost predicate Unsettled(tries: seq<Try>, moved: seq<bool>) {
    forall k | 0 <= k < |moved| - 1 :: !Settles(NthTry(tries, k), moved[k])
  }

  ghost predicate TriedLog(trace: seq<World>, log: seq<Event>, first: seq<Event>, v: Verdict, owed: nat, buffer: nat, id: int, token: Token,
                           tries: seq<Try>, moved: seq<bool>)
  {
    var n := |moved|;
    && (n > 0 ==> |BeforeTry(first, v, owed, id, token, tries, n - 1)| < |trace|)
    && log == (if n == 0 then first
               else FinishLog(trace, first, v, owed, buffer, id, token, tries, n, OutcomeOf(NthTry(tries, n - 1), moved[n - 1]).Finished?))
  }

  /** What one call reports, if the deadline did not matter. */
  function OutcomeOf(t: Try, moved: bool): FinishResult {
    if !t.reaches || !t.replies then Unanswered else if moved then Finished else Rejected
  }

  /** No further try follows: it succeeded, or the deadline passed. */
  predicate Settles(t: Try, moved: bool) { OutcomeOf(t, moved).Finished? || t.expires }

  function Answered(t: Try, moved: bool): FinishResult {
    if !OutcomeOf(t, moved).Finished? && t.expires then DeadlineExceeded else OutcomeOf(t, moved)
  }

  /** The log up to the state that try `k` meets. */
  function BeforeTry(first: seq<Event>, v: Verdict, owed: nat, id: int, token: Token, tries: seq<Try>, k: nat): seq<Event> {
    first + Trail(v, owed, id, token, tries, k) + NthTry(tries, k).before
  }

  /** Try `k` changed its row exactly if it reached the database while the lease was held. */
  ghost predicate TryWas(trace: seq<World>, first: seq<Event>, v: Verdict, owed: nat, id: int, token: Token, tries: seq<Try>, k: nat, moved: bool) {
    var prefix := BeforeTry(first, v, owed, id, token, tries, k);
    && |prefix| < |trace|
    && (moved <==> NthTry(tries, k).reaches && HoldsLease(trace[|prefix|].db, id, token))
  }

  ghost predicate TriesWere(trace: seq<World>, first: seq<Event>, v: Verdict, owed: nat, id: int, token: Token, tries: seq<Try>, moved: seq<bool>) {
    moved == [] || (&& TriesWere(trace, first, v, owed, id, token, tries, moved[..|moved| - 1])
                    && TryWas(trace, first, v, owed, id, token, tries, |moved| - 1, moved[|moved| - 1]))
  }

  predicate AtMostOne(moved: seq<bool>) {
    forall j, k | 0 <= j < k < |moved| :: !(moved[j] && moved[k])
  }

  /** What the tries were stays so as the trace grows. */
  lemma {:induction false} TriesStay(before: seq<World>, after: seq<World>, first: seq<Event>, v: Verdict, owed: nat, id: int, token: Token,
                                     tries: seq<Try>, moved: seq<bool>)
    requires before <= after && TriesWere(before, first, v, owed, id, token, tries, moved)
    ensures TriesWere(after, first, v, owed, id, token, tries, moved)
  {
    if moved != [] {
      TriesStay(before, after, first, v, owed, id, token, tries, moved[..|moved| - 1]);
    }
  }

  lemma NothingTried(w: World, trace: seq<World>, log: seq<Event>, v: Verdict, owed: nat, buffer: nat, id: int, token: Token, tries: seq<Try>)
    ensures SoFar(w, trace, log, log, v, owed, buffer, id, token, tries, [])
  {
  }

  /** Tries that did not succeed record nothing. */
  lemma UnsettledLog(trace: seq<World>, log: seq<Event>, first: seq<Event>, v: Verdict, owed: nat, buffer: nat, id: int, token: Token,
                     tries: seq<Try>, moved: seq<bool>)
    requires Tried(trace, log, first, v, owed, buffer, id, token, tries, moved)
    requires moved != [] ==> !Settles(NthTry(tries, |moved| - 1), moved[|moved| - 1])
    ensures log == first + Trail(v, owed, id, token, tries, |moved|)
  {
  }

  lemma TriedMore(before: seq<World>, after: seq<World>, log: seq<Event>, grown: seq<Event>, first: seq<Event>, v: Verdict, owed: nat, buffer: nat,
                  id: int, token: Token, tries: seq<Try>, moved: seq<bool>, moves: bool)
    requires before <= after && Tried(before, log, first, v, owed, buffer, id, token, tries, moved)
    requires moved != [] ==> !Settles(NthTry(tries, |moved| - 1), moved[|moved| - 1])
    requires TryWas(after, first, v, owed, id, token, tries, |moved|, moves) && (moves ==> true !in moved)
    requires grown == FinishLog(after, first, v, owed, buffer, id, token, tries, |moved| + 1, OutcomeOf(NthTry(tries, |moved|), moves).Finished?)
    ensures Tried(after, grown, first, v, owed, buffer, id, token, tries, moved + [moves])
  {
    TriesStay(before, after, first, v, owed, id, token, tries, moved);
    OneMoreFlag(tries, moved, moves);
    var more := moved + [moves];
    assert more[..|moved|] == moved;
    assert |more| == |moved| + 1 && more[|more| - 1] == moves;
    assert TriedLog(after, grown, first, v, owed, buffer, id, token, tries, more);
  }

  lemma OneMoreFlag(tries: seq<Try>, moved: seq<bool>, moves: bool)
    requires AtMostOne(moved) && Unsettled(tries, moved) && (moves ==> true !in moved)
    requires moved != [] ==> !Settles(NthTry(tries, |moved| - 1), moved[|moved| - 1])
    ensures AtMostOne(moved + [moves]) && Unsettled(tries, moved + [moves])
  {
    forall k | 0 <= k < |moved|
      ensures (moved + [moves])[k] == moved[k] && (moves ==> !moved[k])
    {
      assert moved[k] in moved;
    }
  }

  /** The log after `n` tries, with the recording of a success: its row is read in the state that try met. */
  ghost function FinishLog(trace: seq<World>, first: seq<Event>, v: Verdict, owed: nat, buffer: nat, id: int, token: Token,
                           tries: seq<Try>, n: nat, finished: bool): seq<Event>
    requires n > 0 && |BeforeTry(first, v, owed, id, token, tries, n - 1)| < |trace|
  {
    first + Trail(v, owed, id, token, tries, n)
    + (if finished then Recording(trace[|BeforeTry(first, v, owed, id, token, tries, n - 1)|].db, owed, buffer, id) else [])
  }

  lemma TrailGrows(log: seq<Event>, v: Verdict, sink: nat, id: int, token: Token, tries: seq<Try>, n: nat)
    ensures var before, t := Trail(v, sink, id, token, tries, n), NthTry(tries, n);
            log + before + t.before + (if t.reaches then [FinishEvent(v, sink, id, token)] else [])
            == log + Trail(v, sink, id, token, tries, n + 1)
  {
  }
}
