/** Leases over whole runs: a token is good for one finish, a valid lease is
    exclusive, and a delivery is handed out a bounded number of times. */
module LeaseSafety {
  import opened Tables
  import opened Statements
  import opened Protocol
  import opened Invariants
  import opened RowLife

  // ---------------------------------------------------------------- tokens

  function Holders(db: Db, token: Token): set<int> {
    set id | id in db.deliveries && db.deliveries[id].leaseToken == Some(token)
  }

  /** The event is an ack or requeue that this token authorises. */
  predicate Spends(w: World, e: Event, token: Token) {
    && WellAddressed(w, e)
    && (e.AckRow? || e.RequeueRow?)
    && e.token == token
    && HoldsLease(w.db, e.id, token)
  }

  /** No event ever gives an issued token to another row. */
  lemma HoldersShrinkStep(w: World, e: Event, token: Token)
    requires Inv(w) && token in w.db.issued
    ensures token in Apply(w, e).db.issued
    ensures Holders(Apply(w, e).db, token) <= Holders(w.db, token)
  {
    TokensStepWorld(w, e);
    forall id | id in Holders(Apply(w, e).db, token)
      ensures id in Holders(w.db, token)
    {
      RowStep(w, e, id);
    }
  }

  lemma TokensStepWorld(w: World, e: Event)
    requires Inv(w)
    ensures w.db.issued <= Apply(w, e).db.issued
  {
    if WellAddressed(w, e) {
      TokensStep(w, e);
    }
  }

  lemma {:induction false} HoldersShrink(w: World, events: seq<Event>, token: Token)
    requires Inv(w) && token in w.db.issued
    ensures token in Run(w, events).db.issued
    ensures Holders(Run(w, events).db, token) <= Holders(w.db, token)
    decreases |events|
  {
    if events != [] {
      var front := events[..|events| - 1];
      HoldersShrink(w, front, token);
      InvRun(w, front);
      HoldersShrinkStep(Run(w, front), events[|events| - 1], token);
    }
  }

  lemma SpendingClearsToken(w: World, e: Event, token: Token)
    requires Inv(w) && Spends(w, e, token)
    ensures token in Apply(w, e).db.issued
    ensures Holders(Apply(w, e).db, token) == {}
  {
    HoldersShrinkStep(w, e, token);
    forall id | id in Holders(w.db, token)
      ensures id == e.id
    {
    }
  }

  lemma OnlyHoldersSpend(w: World, e: Event, token: Token)
    ensures Spends(w, e, token) ==> Holders(w.db, token) != {}
  {
    if Spends(w, e, token) {
      assert e.id in Holders(w.db, token);
    }
  }

  /** In any run from any sound state, no token authorises two finishes. */
  lemma TokenIsSpentAtMostOnce(w: World, events: seq<Event>, i: nat, j: nat, token: Token)
    requires Inv(w) && i < j < |events|
    requires Spends(Run(w, events[..i]), events[i], token)
    ensures !Spends(Run(w, events[..j]), events[j], token)
  {
    RunSplit(w, events, i, j);
    var wi := Run(w, events[..i]);
    SpendingClearsToken(wi, events[i], token);
    HoldersShrink(Apply(wi, events[i]), events[i + 1..j], token);
    OnlyHoldersSpend(Run(w, events[..j]), events[j], token);
  }

  /** Once the row has left its lease, in whatever way, the old token never
      changes any row again. */
  lemma StaleTokenIsInert(w: World, id: int, token: Token, before: seq<Event>, after: seq<Event>, finish: Event)
    requires Inv(w) && HoldsLease(w.db, id, token)
    requires !HoldsLease(Run(w, before).db, id, token)
    requires (finish.AckRow? || finish.RequeueRow?) && finish.token == token
    ensures var later := Run(w, before + after);
            Apply(later, finish).db == later.db
  {
    InvRun(w, before);
    HoldersShrink(w, before, token);
    var mid := Run(w, before);
    forall k | k in Holders(w.db, token)
      ensures k == id
    {
      assert w.db.deliveries[k].leaseToken == w.db.deliveries[id].leaseToken;
    }
    assert id in mid.db.deliveries ==> RowShape(mid.db.deliveries[id]);
    assert Holders(mid.db, token) == {};
    HoldersShrink(mid, after, token);
    RunConcat(w, before, after);
    assert finish.id !in Holders(Run(w, before + after).db, token);
  }

  /** As long as a row is under the same token, it is the same row under the same lease. */
  lemma {:induction false} HeldLeaseIsUnchanged(w: World, events: seq<Event>, id: int, token: Token)
    requires Inv(w) && HoldsLease(w.db, id, token) && HoldsLease(Run(w, events).db, id, token)
    ensures Unchanged(w.db, Run(w, events).db, id)
    decreases |events|
  {
    if events != [] {
      var front := events[..|events| - 1];
      var mid := Run(w, front);
      InvRun(w, front);
      HoldersShrink(w, front, token);
      HoldersShrinkStep(mid, events[|events| - 1], token);
      assert id in Holders(Run(w, events).db, token);
      assert RowShape(mid.db.deliveries[id]);
      HeldLeaseIsUnchanged(w, front, id, token);
      RowStep(mid, events[|events| - 1], id);
    }
  }

  // ---------------------------------------------------------- valid leases

  /** The lease of row `id` has not run out on the database clock. */
  predicate ValidLease(db: Db, id: int) {
    && id in db.deliveries
    && db.deliveries[id].status.InFlight?
    && db.deliveries[id].leaseUntil.Some?
    && db.now <= db.deliveries[id].leaseUntil.value
  }

  /** The only events that may touch a row under a valid lease: a finish with
      its own token, and an administrator deleting its topic or channel. */
  predicate MayTouchLeased(db: Db, e: Event, id: int)
    requires id in db.deliveries && db.deliveries[id].channelId in db.channels
  {
    var d := db.deliveries[id];
    || ((e.AckRow? || e.RequeueRow?) && e.id == id && Some(e.token) == d.leaseToken)
    || (e.RemoveTopic? && e.topicId == db.channels[d.channelId].topicId)
    || (e.RemoveChannel? && e.channelId == d.channelId)
  }

  predicate Unchanged(a: Db, b: Db, id: int) {
    id in a.deliveries && id in b.deliveries && a.deliveries[id] == b.deliveries[id]
  }

  lemma ValidLeaseIsExclusive(w: World, e: Event, id: int)
    requires Inv(w) && ValidLease(w.db, id) && WellAddressed(w, e)
    ensures w.db.deliveries[id].channelId in w.db.channels
    ensures Unchanged(w.db, Apply(w, e).db, id) <==> !MayTouchLeased(w.db, e, id)
  {
    assert WellPlaced(w.db, w.db.deliveries[id]);
    RowStep(w, e, id);
    OnlyTheseTouch(w.db, e, id);
  }

  lemma OnlyTheseTouch(db: Db, e: Event, id: int)
    requires References(db) && ValidLease(db, id) && db.deliveries[id].channelId in db.channels
    ensures RowAfter(db, e, id) == Some(db.deliveries[id]) <==> !MayTouchLeased(db, e, id)
  {
  }

  /** At every point of the run so far, the next event leaves the lease alone. */
  ghost predicate LeaseUndisturbed(w: World, events: seq<Event>, id: int) {
    forall i | 0 <= i < |events| ::
      var db := Run(w, events[..i]).db;
      id in db.deliveries && db.deliveries[id].channelId in db.channels ==> !MayTouchLeased(db, events[i], id)
  }

  lemma ClockNeverGoesBack(w: World, e: Event)
    ensures w.db.now <= Apply(w, e).db.now
  {
    if e.RemoveTopic? || e.RemoveChannel? {
      CascadeKeepsClock(w.db, if e.RemoveTopic? then e.topicId else e.channelId);
    }
  }

  lemma CascadeKeepsClock(db: Db, id: int)
    ensures Committed(db, DeleteTopicTx(db, id)).now == db.now && Committed(db, DeleteChannelTx(db, id)).now == db.now
  {
  }

  /** Whatever reaps, purges and claims run in between, a leased row stays
      exactly as it was until its own holder finishes it, an administrator
      deletes it, or the lease runs out. */
  lemma {:induction false} LeasedRowIsUntouchable(w: World, events: seq<Event>, id: int)
    requires Inv(w) && ValidLease(w.db, id)
    requires LeaseUndisturbed(w, events, id)
    requires Run(w, events).db.now <= w.db.deliveries[id].leaseUntil.value
    ensures Unchanged(w.db, Run(w, events).db, id)
    decreases |events|
  {
    if events != [] {
      var front, last := events[..|events| - 1], events[|events| - 1];
      var mid := Run(w, front);
      ClockNeverGoesBack(mid, last);
      forall i | 0 <= i < |front|
        ensures front[..i] == events[..i] && front[i] == events[i]
      {
      }
      LeasedRowIsUntouchable(w, front, id);
      InvRun(w, front);
      if WellAddressed(mid, last) {
        ValidLeaseIsExclusive(mid, last, id);
      }
    }
  }

  // -------------------------------------------------------------- attempts

  /** The event is a claim that hands delivery `id` to a consumer. */
  predicate Returns(w: World, e: Event, id: int) {
    && WellAddressed(w, e)
    && e.ClaimRows?
    && FreshTokens(w.db, Leasable(w.db, e.channelId, e.ids), e.tokens)
    && id in Leasable(w.db, e.channelId, e.ids)
    && id !in Killed(w.db, Leasable(w.db, e.channelId, e.ids))
  }

  predicate Revives(w: World, e: Event, id: int) {
    WellAddressed(w, e) && e.ReviveDead? && e.id == id && DeadIn(w.db, id, e.channelId)
  }

  function TimesReturned(w: World, events: seq<Event>, id: int): nat
    decreases |events|
  {
    if events == [] then 0
    else
      var front := events[..|events| - 1];
      TimesReturned(w, front, id) + (if Returns(Run(w, front), events[|events| - 1], id) then 1 else 0)
  }

  ghost predicate NeverRevived(w: World, events: seq<Event>, id: int) {
    forall i | 0 <= i < |events| :: !Revives(Run(w, events[..i]), events[i], id)
  }

  /** How the attempts of one existing row can move in one step. */
  lemma AttemptsStep(w: World, e: Event, id: int)
    requires Inv(w) && id < w.db.nextDelivery && !Revives(w, e, id)
    ensures id < Apply(w, e).db.nextDelivery
    ensures Returns(w, e, id) ==> id in w.db.deliveries && w.db.deliveries[id].attempts < w.db.deliveries[id].maxAttempts
    ensures id in Apply(w, e).db.deliveries ==>
              && id in w.db.deliveries
              && Apply(w, e).db.deliveries[id].maxAttempts == w.db.deliveries[id].maxAttempts
              && Apply(w, e).db.deliveries[id].attempts >= w.db.deliveries[id].attempts + (if Returns(w, e, id) then 1 else 0)
  {
    RowStep(w, e, id);
    if id in w.db.deliveries && WellAddressed(w, e) {
      assert RowShape(w.db.deliveries[id]);
      AttemptsAfter(w, e, id);
    }
  }

  /** The row's own account: only a claim counts an attempt, only a revival forgets them. */
  lemma AttemptsAfter(w: World, e: Event, id: int)
    requires Inv(w) && id in w.db.deliveries && WellAddressed(w, e) && !Revives(w, e, id)
    ensures Returns(w, e, id) ==> w.db.deliveries[id].attempts < w.db.deliveries[id].maxAttempts
    ensures var d, next := w.db.deliveries[id], RowAfter(w.db, e, id);
            next.Some? ==> next.value.maxAttempts == d.maxAttempts && next.value.attempts >= d.attempts + (if Returns(w, e, id) then 1 else 0)
  {
  }

  /** Without a revival in between, a delivery is returned by Claim at most as
      often as its attempt limit still allows, over the whole run. */
  lemma {:induction false} ReturnedAtMostMaxAttempts(w: World, events: seq<Event>, id: int)
    requires Inv(w) && id in w.db.deliveries
    requires NeverRevived(w, events, id)
    ensures var d := w.db.deliveries[id];
            && TimesReturned(w, events, id) <= (if d.attempts <= d.maxAttempts then d.maxAttempts - d.attempts else 0)
            && id < Run(w, events).db.nextDelivery
            && (id in Run(w, events).db.deliveries ==>
                  && Run(w, events).db.deliveries[id].maxAttempts == d.maxAttempts
                  && d.attempts + TimesReturned(w, events, id) <= Run(w, events).db.deliveries[id].attempts)
    decreases |events|
  {
    if events != [] {
      var front, last := events[..|events| - 1], events[|events| - 1];
      forall i | 0 <= i < |front|
        ensures front[..i] == events[..i] && front[i] == events[i]
      {
      }
      ReturnedAtMostMaxAttempts(w, front, id);
      InvRun(w, front);
      AttemptsStep(Run(w, front), last, id);
    }
  }

  // ------------------------------------------------- two claims of one row

  /** The event ends the lease under this token and leaves the row: its holder
      requeues it, or it is reaped after it has run out. */
  predicate EndsLease(w: World, e: Event, id: int, token: Token) {
    && WellAddressed(w, e) && HoldsLease(w.db, id, token)
    && (|| (e.RequeueRow? && e.id == id && e.token == token)
        || (e.ReapRows? && id in e.ids && w.db.deliveries[id].LeaseExpired(w.db.now)))
  }

  /** A returned delivery is in flight under the token of its claim. */
  lemma ReturnedIsHeld(w: World, e: Event, id: int)
    requires Inv(w) && Returns(w, e, id)
    ensures id in e.tokens && HoldsLease(Apply(w, e).db, id, e.tokens[id]) && e.tokens[id] in Apply(w, e).db.issued && e.tokens[id] !in w.db.issued
  {
    RowStep(w, e, id);
  }

  lemma LeaseEndStep(w: World, e: Event, id: int, token: Token)
    requires Inv(w) && HoldsLease(w.db, id, token) && id in Apply(w, e).db.deliveries && !HoldsLease(Apply(w, e).db, id, token)
    ensures EndsLease(w, e, id, token)
  {
    RowStep(w, e, id);
  }

  /** If a row is under a token first and is still there without it at the end, some step of the run ended that lease. */
  lemma {:induction false} SomeStepEndsLease(w: World, events: seq<Event>, id: int, token: Token) returns (k: nat)
    requires Inv(w) && HoldsLease(w.db, id, token)
    requires id in Run(w, events).db.deliveries && !HoldsLease(Run(w, events).db, id, token)
    ensures k < |events| && EndsLease(Run(w, events[..k]), events[k], id, token)
    decreases |events|
  {
    assert events != [];
    var front, last := events[..|events| - 1], events[|events| - 1];
    var mid := Run(w, front);
    InvRun(w, front);
    NeverReborn(w, front, id);
    OneStepBack(mid, last, Run(w, events), id, token);
    if HoldsLease(mid.db, id, token) {
      k := |front|;
    } else {
      k := SomeStepEndsLease(w, front, id, token);
      assert front[..k] == events[..k];
    }
  }

  lemma OneStepBack(w: World, e: Event, after: World, id: int, token: Token)
    requires Inv(w) && after == Apply(w, e) && id < w.db.nextDelivery
    requires id in after.db.deliveries && !HoldsLease(after.db, id, token)
    ensures id in w.db.deliveries && (HoldsLease(w.db, id, token) ==> EndsLease(w, e, id, token))
  {
    WasThere(w, e, id);
    if HoldsLease(w.db, id, token) {
      LeaseEndStep(w, e, id, token);
    }
  }

  lemma WasThere(w: World, e: Event, id: int)
    requires Inv(w) && id < w.db.nextDelivery && id in Apply(w, e).db.deliveries
    ensures id in w.db.deliveries
  {
    RowStep(w, e, id);
  }

  /** Row ids only grow. */
  lemma {:induction false} NeverReborn(w: World, events: seq<Event>, id: int)
    requires Inv(w) && id < w.db.nextDelivery
    ensures id < Run(w, events).db.nextDelivery
    decreases |events|
  {
    if events != [] {
      var front := events[..|events| - 1];
      NeverReborn(w, front, id);
      InvRun(w, front);
      RowStep(Run(w, front), events[|events| - 1], id);
    }
  }

  /** The run up to `j` goes on from the state after event `i`. */
  lemma RunOn(w: World, events: seq<Event>, i: nat, j: nat)
    requires i < j <= |events|
    ensures Run(w, events[..j]) == Run(Apply(Run(w, events[..i]), events[i]), events[i + 1..j])
  {
    assert events[..i + 1][..i] == events[..i];
    assert events[..j] == events[..i + 1] + events[i + 1..j];
    RunConcat(w, events[..i + 1], events[i + 1..j]);
  }

  lemma RunSplit(w: World, events: seq<Event>, i: nat, j: nat)
    requires Inv(w) && i < j <= |events|
    ensures Inv(Run(w, events[..i])) && Inv(Run(w, events[..j]))
    ensures var after := Apply(Run(w, events[..i]), events[i]);
            Inv(after) && Run(w, events[..j]) == Run(after, events[i + 1..j])
  {
    InvRun(w, events[..i]);
    InvRun(w, events[..j]);
    InvStep(Run(w, events[..i]), events[i]);
    RunOn(w, events, i, j);
  }

  /** From the first claim on, in whose state the second one finds the row. */
  lemma EndsBeforeNextClaim(w: World, claim: Event, after: World, tail: seq<Event>, later: World, again: Event, id: int) returns (n: nat)
    requires Inv(w) && Inv(after) && Returns(w, claim, id) && after == Apply(w, claim)
    requires later == Run(after, tail) && Returns(later, again, id)
    ensures n < |tail| && id in claim.tokens && EndsLease(Run(after, tail[..n]), tail[n], id, claim.tokens[id])
  {
    ReturnedIsHeld(w, claim, id);
    ReturnedWasPending(later, again, id, claim.tokens[id]);
    n := SomeStepEndsLease(after, tail, id, claim.tokens[id]);
  }

  /** One delivery is returned by two claims only if its first lease ended in between. */
  lemma ReturnedAgainAfterLeaseEnd(w: World, events: seq<Event>, i: nat, j: nat, id: int) returns (k: nat)
    requires Inv(w) && i < j < |events|
    requires Returns(Run(w, events[..i]), events[i], id) && Returns(Run(w, events[..j]), events[j], id)
    ensures i < k < j && id in events[i].tokens && EndsLease(Run(w, events[..k]), events[k], id, events[i].tokens[id])
  {
    var tail := events[i + 1..j];
    RunSplit(w, events, i, j);
    var mid := Run(w, events[..i]);
    var n := EndsBeforeNextClaim(mid, events[i], Apply(mid, events[i]), tail, Run(w, events[..j]), events[j], id);
    k := i + 1 + n;
    Shifted(w, events, i, j, n, id, events[i].tokens[id]);
  }

  lemma Shifted(w: World, events: seq<Event>, i: nat, j: nat, n: nat, id: int, token: Token)
    requires i + 1 + n < j < |events|
    requires EndsLease(Run(Apply(Run(w, events[..i]), events[i]), events[i + 1..j][..n]), events[i + 1..j][n], id, token)
    ensures EndsLease(Run(w, events[..i + 1 + n]), events[i + 1 + n], id, token)
  {
    RunOn(w, events, i, i + 1 + n);
    assert events[i + 1..j][..n] == events[i + 1..i + 1 + n];
  }

  lemma ReturnedWasPending(w: World, e: Event, id: int, token: Token)
    requires Returns(w, e, id)
    ensures id in w.db.deliveries && !HoldsLease(w.db, id, token)
  {
  }

  /** No two claims of a run return the same token, so no delivery and token come twice. */
  lemma ClaimsNeverShareTokens(w: World, events: seq<Event>, i: nat, j: nat, a: int, b: int)
    requires Inv(w) && i < j < |events|
    requires Returns(Run(w, events[..i]), events[i], a) && Returns(Run(w, events[..j]), events[j], b)
    ensures a in events[i].tokens && b in events[j].tokens && events[i].tokens[a] != events[j].tokens[b]
  {
    RunSplit(w, events, i, j);
    ReturnedIsHeld(Run(w, events[..i]), events[i], a);
    ReturnedIsHeld(Run(w, events[..j]), events[j], b);
    HoldersShrink(Apply(Run(w, events[..i]), events[i]), events[i + 1..j], events[i].tokens[a]);
  }
}
