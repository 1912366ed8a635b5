/** The shared database as a mutable object.  Every process holds a reference to
    the one Cluster; its log is the interleaving that has happened so far, and
    its trace the states that interleaving went through. */
module Clusters {
  import opened Tables
  import opened Protocol
  import opened Invariants

  ghost predicate IsStep(log: seq<Event>, trace: seq<World>, i: nat)
    requires i < |log| < |trace|
  {
    trace[i + 1] == Apply(trace[i], log[i])
  }

  /** trace[n] is the state after the first n events of the log, from a fresh database. */
  ghost predicate Traced(log: seq<Event>, trace: seq<World>) {
    && |trace| == |log| + 1 && Initial(trace[0])
    && forall i {:trigger IsStep(log, trace, i)} | 0 <= i < |log| :: IsStep(log, trace, i)
  }

  lemma {:induction false} TraceIsRun(log: seq<Event>, trace: seq<World>, n: nat)
    requires Traced(log, trace) && n <= |log|
    ensures trace[n] == Run(trace[0], log[..n])
  {
    if n > 0 {
      TraceIsRun(log, trace, n - 1);
      assert IsStep(log, trace, n - 1);
      assert log[..n][..n - 1] == log[..n - 1];
    }
  }

  lemma TraceSound(log: seq<Event>, trace: seq<World>, n: nat)
    requires Traced(log, trace) && n <= |log|
    ensures Inv(trace[n])
  {
    TraceIsRun(log, trace, n);
    EveryReachableStateIsSound(trace[0], log[..n]);
  }

  /** What happens between two states of the trace. */
  lemma TraceBetween(log: seq<Event>, trace: seq<World>, m: nat, n: nat)
    requires Traced(log, trace) && m <= n <= |log|
    ensures trace[n] == Run(trace[m], log[m..n])
  {
    TraceIsRun(log, trace, m);
    TraceIsRun(log, trace, n);
    assert log[..n] == log[..m] + log[m..n];
    RunConcat(trace[0], log[..m], log[m..n]);
  }

  class Cluster {
    var w: World
    ghost var log: seq<Event>
    ghost var trace: seq<World>
    ghost const start: World

    ghost predicate Valid()
      reads this
    {
      Traced(log, trace) && trace[0] == start && w == trace[|log|]
    }

    constructor (now: int, sinks: nat, slots: nat)
      ensures Valid() && log == []
      ensures w.db == EmptyDb(now) && |w.sinks| == sinks && |w.doomed| == slots
    {
      var empty := World(EmptyDb(now), 0, seq(sinks, _ => map[]), seq(slots, _ => {}));
      w, start := empty, empty;
      log, trace := [], [empty];
    }

    /** One statement or transaction commits. */
    method Commit(e: Event)
      requires Valid()
      modifies this
      ensures Valid() && log == old(log) + [e] && trace == old(trace) + [w]
      ensures w == Apply(old(w), e)
      ensures |w.sinks| == old(|w.sinks|) && |w.doomed| == old(|w.doomed|)
    {
      var next := Apply(w, e);
      StepAppends(log, trace, e, next);
      w := next;
      log, trace := log + [e], trace + [next];
    }

    /** Other processes run for a while. */
    method Interfere(events: seq<Event>)
      requires Valid()
      modifies this
      ensures Valid() && log == old(log) + events && old(trace) <= trace
      ensures |w.sinks| == old(|w.sinks|) && |w.doomed| == old(|w.doomed|)
    {
      for i := 0 to |events|
        invariant Valid() && log == old(log) + events[..i] && old(trace) <= trace
        invariant |w.sinks| == old(|w.sinks|) && |w.doomed| == old(|w.doomed|)
      {
        assert events[..i + 1] == events[..i] + [events[i]];
        Commit(events[i]);
      }
      assert events[..|events|] == events;
    }

    lemma Sound()
      requires Valid()
      ensures Inv(w)
    {
      TraceSound(log, trace, |log|);
    }
  }

  lemma StepAppends(log: seq<Event>, trace: seq<World>, e: Event, next: World)
    requires Traced(log, trace) && next == Apply(trace[|log|], e)
    ensures Traced(log + [e], trace + [next])
  {
    forall i | 0 <= i < |log| + 1
      ensures IsStep(log + [e], trace + [next], i)
    {
      if i < |log| {
        assert IsStep(log, trace, i);
      }
    }
  }

  // ---------------------------------------------- what a snapshot guards

  lemma VersionStep(w: World, e: Event)
    ensures w.version <= Apply(w, e).version
    ensures w.version == Apply(w, e).version ==> SameRows(w.db, Apply(w, e).db)
    ensures w.db.now <= Apply(w, e).db.now
  {
    if WellAddressed(w, e) {
      if e.RemoveTopic? { }
    }
  }

  /** If the file's version has not moved since a snapshot, every row is still as
      the snapshot showed it; only the clock may have advanced. */
  lemma {:induction false} VersionPinsRows(w: World, events: seq<Event>)
    ensures w.version <= Run(w, events).version
    ensures w.version == Run(w, events).version ==> SameRows(w.db, Run(w, events).db)
    ensures w.db.now <= Run(w, events).db.now
    decreases |events|
  {
    if events != [] {
      VersionPinsRows(w, events[..|events| - 1]);
      VersionStep(Run(w, events[..|events| - 1]), events[|events| - 1]);
    }
  }
}
