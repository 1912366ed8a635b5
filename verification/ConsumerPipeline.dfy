/** A started Consumer: one poller and n handlers around a channel of capacity
    n.  Goroutines interleave freely; every atomic move of one of them is one
    action, and `Run` folds any schedule. */
module ConsumerPipeline {
  import opened Collections
  import opened Tables

  datatype Work = Work(id: int, token: Token)

  /** Between claims, inside a Claim call with the limit it was given, sending
      the rest of a claimed batch, or returned (which closes the channel). */
  datatype Poller = Polling | Claiming(free: nat) | Sending(held: seq<Work>) | Returned

  datatype Handler = Waiting | Dispatching(work: Work) | Exited

  /** `sent`, `dispatched`, `finished` and `dropped` are the history of the run. */
  datatype Pipeline = Pipeline(
    capacity: nat,
    poller: Poller,
    queue: seq<Work>,
    handlers: seq<Handler>,
    cancelled: bool,
    waitGroup: int,
    claimed: seq<Work>,
    sent: seq<Work>,
    dispatched: seq<Work>,
    finished: multiset<Work>,
    dropped: seq<Work>)

  datatype Action =
    | Cancel
    | LoopTop
    | ClaimReturns(batch: seq<Work>)
    | ClaimFails
    | Send
    | GiveUp
    | Receive(handler: nat)
    | Finish(handler: nat)
    | Leave(handler: nat)

  /** Start: no limit below one, and a wait group of all goroutines. */
  function Started(maxInFlight: int): Pipeline {
    var n: nat := if maxInFlight <= 0 then 1 else maxInFlight;
    Pipeline(n, Polling, [], seq(n, _ => Waiting), false, n + 1, [], [], [], multiset{}, [])
  }

  function Held(p: Poller): seq<Work> { if p.Sending? then p.held else [] }

  /** A goroutine can make this move now.  Claim respects the limit it was
      given; a send blocks while the channel is full; cancellation may win any
      select, and the top of the loop does not claim once cancelled. */
  predicate Enabled(s: Pipeline, a: Action) {
    match a
    case Cancel => true
    case LoopTop => s.poller.Polling?
    case ClaimReturns(batch) => s.poller.Claiming? && |batch| <= s.poller.free
    case ClaimFails => s.poller.Claiming?
    case Send => s.poller.Sending? && s.poller.held != [] && |s.queue| < s.capacity
    case GiveUp => s.poller.Sending? && s.cancelled
    case Receive(i) => i < |s.handlers| && s.handlers[i].Waiting? && s.queue != []
    case Finish(i) => i < |s.handlers| && s.handlers[i].Dispatching?
    case Leave(i) => i < |s.handlers| && s.handlers[i].Waiting? && s.queue == [] && s.poller.Returned?
  }

  function Next(s: Pipeline, a: Action): Pipeline
    requires Enabled(s, a)
  {
    match a
    case Cancel => s.(cancelled := true)
    case LoopTop =>
      if s.cancelled then s.(poller := Returned, waitGroup := s.waitGroup - 1)
      else if |s.queue| >= s.capacity then s
      else s.(poller := Claiming(s.capacity - |s.queue|))
    case ClaimReturns(batch) => s.(poller := if batch == [] then Polling else Sending(batch), claimed := s.claimed + batch)
    case ClaimFails => s.(poller := Polling)
    case Send =>
      var rest := s.poller.held[1..];
      s.(poller := if rest == [] then Polling else Sending(rest),
         queue := s.queue + [s.poller.held[0]], sent := s.sent + [s.poller.held[0]])
    case GiveUp => s.(poller := Returned, waitGroup := s.waitGroup - 1, dropped := s.dropped + s.poller.held)
    case Receive(i) =>
      s.(handlers := s.handlers[i := Dispatching(s.queue[0])], queue := s.queue[1..], dispatched := s.dispatched + [s.queue[0]])
    case Finish(i) =>
      s.(handlers := s.handlers[i := Waiting], finished := s.finished + multiset{s.handlers[i].work})
    case Leave(i) => s.(handlers := s.handlers[i := Exited], waitGroup := s.waitGroup - 1)
  }

  function Step(s: Pipeline, a: Action): Pipeline {
    if Enabled(s, a) then Next(s, a) else s
  }

  function Run(s: Pipeline, schedule: seq<Action>): Pipeline
    decreases |schedule|
  {
    if schedule == [] then s
    else Step(Run(s, schedule[..|schedule| - 1]), schedule[|schedule| - 1])
  }

  // ------------------------------------------------------- the invariants

  /** The deliveries that handlers are working on. */
  ghost function InHand(handlers: seq<Handler>): multiset<Work> {
    if handlers == [] then multiset{}
    else
      InHand(handlers[..|handlers| - 1])
      + (if handlers[|handlers| - 1].Dispatching? then multiset{handlers[|handlers| - 1].work} else multiset{})
  }

  ghost function Alive(handlers: seq<Handler>): nat {
    if handlers == [] then 0
    else Alive(handlers[..|handlers| - 1]) + (if handlers[|handlers| - 1].Exited? then 0 else 1)
  }

  /** What the poller holds or may still be given, next to what is queued, fits the channel. */
  ghost predicate Roomy(s: Pipeline) {
    match s.poller
    case Polling => |s.queue| <= s.capacity
    case Claiming(free) => free + |s.queue| <= s.capacity
    case Sending(held) => held != [] && |held| + |s.queue| <= s.capacity
    case Returned => |s.queue| <= s.capacity
  }

  /** Nothing is lost or duplicated on the way: what was claimed was sent, or is
      held, or was dropped by a cancelled poller; */
  ghost predicate ClaimsAccounted(s: Pipeline) {
    s.claimed == s.sent + Held(s.poller) + s.dropped && (s.dropped != [] ==> s.poller.Returned?)
  }

  /** what was sent was dispatched, in order, or is queued; */
  ghost predicate SendsAccounted(s: Pipeline) {
    s.sent == s.dispatched + s.queue
  }

  /** and what was dispatched is finished or in some handler's hands. */
  ghost predicate WorkAccounted(s: Pipeline) {
    multiset(s.dispatched) == s.finished + InHand(s.handlers)
  }

  /** The wait group counts the goroutines that still run, and a handler leaves only a closed, empty channel. */
  ghost predicate Counted(s: Pipeline) {
    && |s.handlers| == s.capacity >= 1
    && s.waitGroup == Alive(s.handlers) + (if s.poller.Returned? then 0 else 1)
    && (forall i | 0 <= i < |s.handlers| && s.handlers[i].Exited? :: s.poller.Returned? && s.queue == [])
    && (s.poller.Returned? ==> s.cancelled)
  }

  ghost predicate Inv(s: Pipeline) {
    Roomy(s) && ClaimsAccounted(s) && SendsAccounted(s) && WorkAccounted(s) && Counted(s)
  }

  lemma {:induction false} HandlerMoves(handlers: seq<Handler>, i: nat, h: Handler)
    requires i < |handlers|
    ensures var after, was := handlers[i := h], handlers[i];
            && InHand(after) + (if was.Dispatching? then multiset{was.work} else multiset{})
               == InHand(handlers) + (if h.Dispatching? then multiset{h.work} else multiset{})
            && |InHand(after)| + (if was.Dispatching? then 1 else 0) == |InHand(handlers)| + (if h.Dispatching? then 1 else 0)
            && Alive(after) + (if was.Exited? then 0 else 1) == Alive(handlers) + (if h.Exited? then 0 else 1)
    decreases |handlers|
  {
    var last := |handlers| - 1;
    if i < last {
      HandlerMoves(handlers[..last], i, h);
      assert handlers[i := h][..last] == handlers[..last][i := h];
    } else {
      assert handlers[i := h][..last] == handlers[..last];
    }
  }

  lemma RoomyStep(s: Pipeline, a: Action)
    requires Roomy(s)
    ensures Roomy(Step(s, a))
  {
  }

  lemma ClaimsStep(s: Pipeline, a: Action)
    requires Roomy(s) && ClaimsAccounted(s)
    ensures ClaimsAccounted(Step(s, a))
  {
    if Enabled(s, a) && a.Send? {
      assert s.poller.held == [s.poller.held[0]] + s.poller.held[1..];
    }
  }

  lemma SendsStep(s: Pipeline, a: Action)
    requires SendsAccounted(s)
    ensures SendsAccounted(Step(s, a))
  {
    if Enabled(s, a) && a.Receive? {
      assert s.queue == [s.queue[0]] + s.queue[1..];
    }
  }

  lemma ReceiveWork(s: Pipeline, i: nat)
    requires WorkAccounted(s) && Enabled(s, Receive(i))
    ensures WorkAccounted(Next(s, Receive(i)))
  {
    HandlerMoves(s.handlers, i, Dispatching(s.queue[0]));
    var after := Next(s, Receive(i));
    assert InHand(after.handlers) == InHand(s.handlers) + multiset{s.queue[0]};
    assert multiset(after.dispatched) == multiset(s.dispatched) + multiset{s.queue[0]};
  }

  lemma FinishWork(s: Pipeline, i: nat)
    requires WorkAccounted(s) && Enabled(s, Finish(i))
    ensures WorkAccounted(Next(s, Finish(i)))
  {
    HandlerMoves(s.handlers, i, Waiting);
    var after := Next(s, Finish(i));
    assert InHand(after.handlers) + multiset{s.handlers[i].work} == InHand(s.handlers);
  }

  lemma LeaveWork(s: Pipeline, i: nat)
    requires WorkAccounted(s) && Enabled(s, Leave(i))
    ensures WorkAccounted(Next(s, Leave(i)))
  {
    HandlerMoves(s.handlers, i, Exited);
    var none: multiset<Work> := multiset{};
    assert InHand(s.handlers) + none == InHand(s.handlers);
    assert InHand(s.handlers[i := Exited]) + none == InHand(s.handlers[i := Exited]);
  }

  lemma WorkStep(s: Pipeline, a: Action)
    requires WorkAccounted(s)
    ensures WorkAccounted(Step(s, a))
  {
    if Enabled(s, a) {
      match a
      case Receive(i) => ReceiveWork(s, i);
      case Finish(i) => FinishWork(s, i);
      case Leave(i) => LeaveWork(s, i);
      case _ =>
    }
  }

  lemma CountedStep(s: Pipeline, a: Action)
    requires Counted(s)
    ensures Counted(Step(s, a))
  {
    if Enabled(s, a) {
      match a
      case Receive(i) => HandlerMoves(s.handlers, i, Dispatching(s.queue[0]));
      case Finish(i) => HandlerMoves(s.handlers, i, Waiting);
      case Leave(i) => HandlerMoves(s.handlers, i, Exited);
      case _ =>
    }
  }

  lemma InvStep(s: Pipeline, a: Action)
    requires Inv(s)
    ensures Inv(Step(s, a))
  {
    RoomyStep(s, a);
    ClaimsStep(s, a);
    SendsStep(s, a);
    WorkStep(s, a);
    CountedStep(s, a);
  }

  lemma {:induction false} AllWaiting(n: nat)
    ensures InHand(seq(n, _ => Waiting)) == multiset{} && Alive(seq(n, _ => Waiting)) == n
  {
    if n > 0 {
      AllWaiting(n - 1);
      assert seq(n, _ => Waiting)[..n - 1] == seq(n - 1, _ => Waiting);
    }
  }

  lemma {:induction false} InvHolds(maxInFlight: int, schedule: seq<Action>)
    ensures Inv(Run(Started(maxInFlight), schedule))
    decreases |schedule|
  {
    if schedule == [] {
      AllWaiting(Started(maxInFlight).capacity);
    } else {
      var front := schedule[..|schedule| - 1];
      InvHolds(maxInFlight, front);
      InvStep(Run(Started(maxInFlight), front), schedule[|schedule| - 1]);
    }
  }

  // ------------------------------------------------------ what follows

  lemma {:induction false} InHandBound(handlers: seq<Handler>)
    ensures |InHand(handlers)| <= Alive(handlers) <= |handlers|
  {
    if handlers != [] {
      InHandBound(handlers[..|handlers| - 1]);
    }
  }

  /** Under every schedule the poller never blocks on a full channel, and what is
      held, queued and being handled never exceeds twice the handler count. */
  lemma PollerNeverBlocks(maxInFlight: int, schedule: seq<Action>)
    ensures var s := Run(Started(maxInFlight), schedule);
            && (s.poller.Sending? ==> Enabled(s, Send))
            && |Held(s.poller)| + |s.queue| + |InHand(s.handlers)| <= 2 * s.capacity
  {
    InvHolds(maxInFlight, schedule);
    InHandBound(Run(Started(maxInFlight), schedule).handlers);
  }

  lemma {:induction false} NobodyLeft(handlers: seq<Handler>)
    requires Alive(handlers) == 0
    ensures InHand(handlers) == multiset{} && forall i | 0 <= i < |handlers| :: handlers[i].Exited?
  {
    if handlers != [] {
      var front := handlers[..|handlers| - 1];
      NobodyLeft(front);
      assert forall i | 0 <= i < |front| :: front[i] == handlers[i];
    }
  }

  /** Shutdown's wait ends only when the queue is drained: every delivery that
      was sent has been dispatched exactly once, in order, and finished; only
      what a cancelled poller still held was dropped. */
  lemma WaitEndsDrained(maxInFlight: int, schedule: seq<Action>)
    ensures var s := Run(Started(maxInFlight), schedule);
            && s.waitGroup >= 0
            && (s.waitGroup == 0 ==>
                  && s.cancelled && s.poller.Returned? && s.queue == []
                  && s.dispatched == s.sent && s.finished == multiset(s.sent)
                  && s.claimed == s.sent + s.dropped)
  {
    InvHolds(maxInFlight, schedule);
    var s := Run(Started(maxInFlight), schedule);
    if s.waitGroup == 0 {
      AllGone(s);
    }
  }

  lemma AllGone(s: Pipeline)
    requires Inv(s) && s.waitGroup == 0
    ensures s.cancelled && s.poller.Returned? && s.queue == []
    ensures s.dispatched == s.sent && s.finished == multiset(s.sent) && s.claimed == s.sent + s.dropped
  {
    NobodyLeft(s.handlers);
    assert s.handlers[0].Exited?;
    assert s.dispatched + [] == s.dispatched && s.sent + [] == s.sent;
  }

  /** A delivery claimed once is dispatched at most once. */
  lemma NothingDispatchedTwice(maxInFlight: int, schedule: seq<Action>)
    ensures var s := Run(Started(maxInFlight), schedule);
            NoRepeats(s.claimed) ==> NoRepeats(s.dispatched)
  {
    InvHolds(maxInFlight, schedule);
    var s := Run(Started(maxInFlight), schedule);
    assert s.claimed == s.dispatched + (s.queue + Held(s.poller) + s.dropped);
    assert forall i | 0 <= i < |s.dispatched| :: s.dispatched[i] == s.claimed[i];
  }

  // ---------------------------------------------------- shutdown terminates

  ghost function Remaining(s: Pipeline): nat {
    PollerWork(s.poller) + 2 * |s.queue| + |InHand(s.handlers)| + Alive(s.handlers)
  }

  ghost function PollerWork(p: Poller): nat {
    match p
    case Polling => 1
    case Claiming(free) => 2 + 3 * free
    case Sending(held) => 1 + 3 * |held|
    case Returned => 0
  }

  /** Once cancelled, every move of any goroutine brings the end nearer. */
  lemma CancelledRunShrinks(s: Pipeline, a: Action)
    requires s.cancelled && Enabled(s, a) && !a.Cancel?
    ensures Step(s, a).cancelled && Remaining(Step(s, a)) < Remaining(s)
  {
    match a
    case Receive(i) => HandlerMoves(s.handlers, i, Dispatching(s.queue[0]));
    case Finish(i) => HandlerMoves(s.handlers, i, Waiting);
    case Leave(i) => HandlerMoves(s.handlers, i, Exited);
    case _ =>
  }

  /** And as long as somebody still runs, some move is possible. */
  lemma CancelledRunMoves(maxInFlight: int, schedule: seq<Action>)
    ensures var s := Run(Started(maxInFlight), schedule);
            s.cancelled && s.waitGroup > 0 ==> exists a: Action :: !a.Cancel? && Enabled(s, a)
  {
    InvHolds(maxInFlight, schedule);
    var s := Run(Started(maxInFlight), schedule);
    if s.cancelled && s.waitGroup > 0 {
      if s.poller.Returned? {
        var i := SomebodyAlive(s.handlers);
        var a := if s.handlers[i].Dispatching? then Finish(i) else if s.queue != [] then Receive(i) else Leave(i);
        assert Enabled(s, a);
      } else {
        var a := if s.poller.Polling? then LoopTop else if s.poller.Claiming? then ClaimFails else GiveUp;
        assert Enabled(s, a);
      }
    }
  }

  lemma {:induction false} SomebodyAlive(handlers: seq<Handler>) returns (i: nat)
    requires Alive(handlers) > 0
    ensures i < |handlers| && !handlers[i].Exited?
  {
    if handlers[|handlers| - 1].Exited? {
      i := SomebodyAlive(handlers[..|handlers| - 1]);
    } else {
      i := |handlers| - 1;
    }
  }

  // ------------------------------------------------------ one theorem

  /** Every action of the schedule is a move that some goroutine can make then. */
  ghost predicate MovesOnly(s: Pipeline, schedule: seq<Action>)
    decreases |schedule|
  {
    schedule == [] || (&& MovesOnly(s, schedule[..|schedule| - 1])
                       && !schedule[|schedule| - 1].Cancel?
                       && Enabled(Run(s, schedule[..|schedule| - 1]), schedule[|schedule| - 1]))
  }

  ghost predicate Stuck(s: Pipeline) {
    forall a: Action :: !a.Cancel? ==> !Enabled(s, a)
  }

  lemma {:induction false} MovesAreCounted(s: Pipeline, schedule: seq<Action>)
    requires s.cancelled && MovesOnly(s, schedule)
    ensures Run(s, schedule).cancelled && |schedule| + Remaining(Run(s, schedule)) <= Remaining(s)
    decreases |schedule|
  {
    if schedule != [] {
      var front := schedule[..|schedule| - 1];
      MovesAreCounted(s, front);
      CancelledRunShrinks(Run(s, front), schedule[|schedule| - 1]);
    }
  }

  lemma {:induction false} RunJoins(s: Pipeline, a: seq<Action>, b: seq<Action>)
    ensures Run(s, a + b) == Run(Run(s, a), b)
    decreases |b|
  {
    if b == [] {
      assert a + b == a;
    } else {
      assert (a + b)[..|a + b| - 1] == a + b[..|b| - 1];
      RunJoins(s, a, b[..|b| - 1]);
    }
  }

  /** Shutdown terminates: after a cancel, however the run got there, any schedule
      of moves is at most as long as the work that remains, and one that cannot go
      on has brought the wait group to zero with everything sent finished. */
  lemma ShutdownTerminates(maxInFlight: int, before: seq<Action>, after: seq<Action>)
    requires Run(Started(maxInFlight), before).cancelled
    requires MovesOnly(Run(Started(maxInFlight), before), after)
    ensures var s := Run(Started(maxInFlight), before);
            && |after| <= Remaining(s)
            && (Stuck(Run(s, after)) ==> Run(s, after).waitGroup == 0 && Run(s, after).finished == multiset(Run(s, after).sent))
  {
    var s := Run(Started(maxInFlight), before);
    MovesAreCounted(s, after);
    RunJoins(Started(maxInFlight), before, after);
    WaitEndsDrained(maxInFlight, before + after);
    CancelledRunMoves(maxInFlight, before + after);
  }
}
