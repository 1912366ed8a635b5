/** Live backlog counts: one channel, all channels in one grouped pass, and the
    grouped pass scoped to a topic. */
module BacklogCounts {
  import opened Collections
  import opened Tables
  import opened Statements
  import opened Sorting
  import opened Polling
  import SqliteClaim

  /** `ready` is the claimable slice of `pending`. */
  datatype Backlog = Backlog(pending: nat, ready: nat, inFlight: nat, dead: nat)

  const EMPTY := Backlog(0, 0, 0, 0)

  /** The COUNT(CASE ...) select list: what one row adds to its channel's counts. */
  function Count(b: Backlog, d: Delivery, now: int): Backlog {
    Backlog(b.pending + (if d.status.Pending? then 1 else 0),
            b.ready + (if d.status.Pending? && d.availableAt <= now && d.expiresAt > now then 1 else 0),
            b.inFlight + (if d.status.InFlight? then 1 else 0),
            b.dead + (if d.status.Dead? then 1 else 0))
  }

  // --------------------------------------------- what the counts mean

  function WithStatus(db: Db, ids: set<int>, c: int, st: Status): set<int> {
    set id | id in ids && id in db.deliveries && db.deliveries[id].channelId == c && db.deliveries[id].status == st
  }

  function ReadyAmong(db: Db, ids: set<int>, c: int): set<int> {
    set id | id in ids && id in db.deliveries && db.deliveries[id].channelId == c && db.deliveries[id].Ready(db.now)
  }

  /** The counts of channel `c` over the rows `ids`. */
  ghost function Tally(db: Db, ids: set<int>, c: int): Backlog {
    Backlog(|WithStatus(db, ids, c, Pending)|, |ReadyAmong(db, ids, c)|,
            |WithStatus(db, ids, c, InFlight)|, |WithStatus(db, ids, c, Dead)|)
  }

  predicate HasRow(db: Db, ids: set<int>, c: int) {
    exists id | id in ids && id in db.deliveries :: db.deliveries[id].channelId == c
  }

  lemma StatusGrows(db: Db, ids: set<int>, id: int, c: int, st: Status)
    requires id in db.deliveries && id !in ids
    ensures |WithStatus(db, ids + {id}, c, st)| ==
            |WithStatus(db, ids, c, st)| + (if db.deliveries[id].channelId == c && db.deliveries[id].status == st then 1 else 0)
  {
    var come := if db.deliveries[id].channelId == c && db.deliveries[id].status == st then {id} else {};
    forall x: int
      ensures x in WithStatus(db, ids + {id}, c, st) <==> x in WithStatus(db, ids, c, st) || x in come
    {
    }
    CountAfter(WithStatus(db, ids, c, st), {}, come, WithStatus(db, ids + {id}, c, st));
  }

  lemma ReadyGrows(db: Db, ids: set<int>, id: int, c: int)
    requires id in db.deliveries && id !in ids
    ensures |ReadyAmong(db, ids + {id}, c)| ==
            |ReadyAmong(db, ids, c)| + (if db.deliveries[id].channelId == c && db.deliveries[id].Ready(db.now) then 1 else 0)
  {
    var come := if db.deliveries[id].channelId == c && db.deliveries[id].Ready(db.now) then {id} else {};
    forall x: int
      ensures x in ReadyAmong(db, ids + {id}, c) <==> x in ReadyAmong(db, ids, c) || x in come
    {
    }
    CountAfter(ReadyAmong(db, ids, c), {}, come, ReadyAmong(db, ids + {id}, c));
  }

  lemma TallyGrows(db: Db, ids: set<int>, id: int, c: int)
    requires id in db.deliveries && id !in ids
    ensures Tally(db, ids + {id}, c) ==
            if db.deliveries[id].channelId == c then Count(Tally(db, ids, c), db.deliveries[id], db.now) else Tally(db, ids, c)
  {
    StatusGrows(db, ids, id, c, Pending);
    StatusGrows(db, ids, id, c, InFlight);
    StatusGrows(db, ids, id, c, Dead);
    ReadyGrows(db, ids, id, c);
  }

  lemma NoRowsNoTally(db: Db, ids: set<int>, c: int)
    requires !HasRow(db, ids, c)
    ensures Tally(db, ids, c) == EMPTY
  {
    NoneWithStatus(db, ids, c, Pending);
    NoneWithStatus(db, ids, c, InFlight);
    NoneWithStatus(db, ids, c, Dead);
    forall x: int
      ensures x !in ReadyAmong(db, ids, c)
    {
    }
    SameMembers(ReadyAmong(db, ids, c), {});
  }

  lemma NoneWithStatus(db: Db, ids: set<int>, c: int, st: Status)
    requires !HasRow(db, ids, c)
    ensures WithStatus(db, ids, c, st) == {}
  {
    forall x: int
      ensures x !in WithStatus(db, ids, c, st)
    {
    }
    SameMembers(WithStatus(db, ids, c, st), {});
  }

  lemma HasRowGrows(db: Db, ids: set<int>, id: int, c: int)
    requires id in db.deliveries
    ensures HasRow(db, ids + {id}, c) <==> HasRow(db, ids, c) || db.deliveries[id].channelId == c
  {
    if HasRow(db, ids, c) {
      var x :| x in ids && x in db.deliveries && db.deliveries[x].channelId == c;
      assert x in ids + {id};
    }
    if db.deliveries[id].channelId == c {
      assert id in ids + {id};
    }
  }

  // ------------------------------------------------------------ the reads

  datatype BacklogRow = BacklogRow(channelId: int, counts: Backlog)

  /** The row a complete read has for a channel: it has one only if the channel has a delivery. */
  ghost predicate Reports(db: Db, r: BacklogRow) {
    HasRow(db, db.deliveries.Keys, r.channelId) && r.counts == Tally(db, db.deliveries.Keys, r.channelId)
  }

  predicate ByChannel(out: seq<BacklogRow>) {
    forall i, j | 0 <= i < j < |out| :: out[i].channelId < out[j].channelId
  }

  /** The pass of one channel, over the rows of its index prefix. */
  method ChannelBacklog(db: Db, c: int) returns (b: Option<Backlog>)
    ensures b.None? <==> c <= 0
    ensures b.Some? ==> b.value == Tally(db, db.deliveries.Keys, c)
  {
    if c <= 0 {
      return None;
    }
    var rows := AnyOrder(db.deliveries.Keys);
    var counts := EMPTY;
    ghost var seen: set<int> := {};
    NoRowsNoTally(db, {}, c);
    for i := 0 to |rows|
      invariant seen == ToSet(rows[..i])
      invariant counts == Tally(db, seen, c)
    {
      assert rows[..i + 1] == rows[..i] + [rows[i]];
      assert rows[i] in rows;
      TallyGrows(db, seen, rows[i], c);
      seen := seen + {rows[i]};
      if db.deliveries[rows[i]].channelId == c {
        counts := Count(counts, db.deliveries[rows[i]], db.now);
      }
    }
    assert rows[..|rows|] == rows;
    SameMembers(ToSet(rows), db.deliveries.Keys);
    b := Some(counts);
  }

  /** GROUP BY channel_id: one pass that keeps a bucket per channel it has met. */
  method GroupByChannel(db: Db, rows: seq<int>) returns (groups: map<int, Backlog>)
    requires NoRepeats(rows) && forall i | 0 <= i < |rows| :: rows[i] in db.deliveries
    ensures forall c :: c in groups <==> HasRow(db, ToSet(rows), c)
    ensures forall c | c in groups :: groups[c] == Tally(db, ToSet(rows), c)
  {
    groups := map[];
    ghost var seen: set<int> := {};
    for i := 0 to |rows|
      invariant seen == ToSet(rows[..i])
      invariant forall c :: c in groups <==> HasRow(db, seen, c)
      invariant forall c | c in groups :: groups[c] == Tally(db, seen, c)
    {
      var id := rows[i];
      var d := db.deliveries[id];
      assert rows[..i + 1] == rows[..i] + [id];
      assert id !in seen;
      ghost var was, before := groups, seen;
      groups := groups[d.channelId := Count(if d.channelId in groups then groups[d.channelId] else EMPTY, d, db.now)];
      seen := seen + {id};
      forall c: int
        ensures c in groups <==> HasRow(db, seen, c)
        ensures c in groups ==> groups[c] == Tally(db, seen, c)
      {
        GroupStep(db, before, id, c);
        assert c in was <==> HasRow(db, before, c);
      }
    }
    assert rows[..|rows|] == rows;
  }

  lemma GroupStep(db: Db, ids: set<int>, id: int, c: int)
    requires id in db.deliveries && id !in ids
    ensures HasRow(db, ids + {id}, c) <==> HasRow(db, ids, c) || db.deliveries[id].channelId == c
    ensures Tally(db, ids + {id}, c) ==
            if db.deliveries[id].channelId == c then Count(Tally(db, ids, c), db.deliveries[id], db.now) else Tally(db, ids, c)
    ensures !HasRow(db, ids, c) ==> Tally(db, ids, c) == EMPTY
  {
    HasRowGrows(db, ids, id, c);
    TallyGrows(db, ids, id, c);
    if !HasRow(db, ids, c) {
      NoRowsNoTally(db, ids, c);
    }
  }

  /** ORDER BY channel_id. */
  method InOrder(groups: map<int, Backlog>) returns (out: seq<BacklogRow>)
    ensures ByChannel(out)
    ensures forall r :: r in out <==> r.channelId in groups && groups[r.channelId] == r.counts
  {
    var ranks := set c | c in groups :: Rank(c, 0);
    var order := Sort(ranks);
    SortLists(ranks);
    forall i | 0 <= i < |order|
      ensures order[i].major in groups && order[i] == Rank(order[i].major, 0)
    {
      assert order[i] in ranks;
    }
    out := seq(|order|, i requires 0 <= i < |order| => BacklogRow(order[i].major, groups[order[i].major]));
    forall i, j | 0 <= i < j < |out|
      ensures out[i].channelId < out[j].channelId
    {
      assert Less(order[i], order[j]);
    }
    forall r: BacklogRow | r.channelId in groups && groups[r.channelId] == r.counts
      ensures r in out
    {
      assert Rank(r.channelId, 0) in ranks;
      var i :| 0 <= i < |order| && order[i] == Rank(r.channelId, 0);
      assert out[i] == r;
    }
  }

  /** Every channel with a delivery, with exactly the counts ChannelBacklog reports. */
  method Backlogs(db: Db) returns (out: seq<BacklogRow>)
    ensures ByChannel(out)
    ensures forall r :: r in out <==> Reports(db, r)
  {
    var rows := AnyOrder(db.deliveries.Keys);
    forall i | 0 <= i < |rows|
      ensures rows[i] in db.deliveries
    {
      assert rows[i] in rows;
    }
    var groups := GroupByChannel(db, rows);
    SameMembers(ToSet(rows), db.deliveries.Keys);
    out := InOrder(groups);
  }

  /** The join with the topic's channels. */
  function TopicRows(db: Db, topicId: int): set<int> {
    set id | id in db.deliveries && db.deliveries[id].channelId in ChannelsOf(db, topicId)
  }

  lemma ScopeKeepsTally(db: Db, topicId: int, c: int)
    ensures c in ChannelsOf(db, topicId) ==>
              && Tally(db, TopicRows(db, topicId), c) == Tally(db, db.deliveries.Keys, c)
              && (HasRow(db, TopicRows(db, topicId), c) <==> HasRow(db, db.deliveries.Keys, c))
    ensures c !in ChannelsOf(db, topicId) ==> !HasRow(db, TopicRows(db, topicId), c)
  {
    var scoped, all := TopicRows(db, topicId), db.deliveries.Keys;
    if c in ChannelsOf(db, topicId) {
      forall x: int
        ensures forall st :: x in WithStatus(db, scoped, c, st) <==> x in WithStatus(db, all, c, st)
        ensures x in ReadyAmong(db, scoped, c) <==> x in ReadyAmong(db, all, c)
      {
      }
      SameMembers(WithStatus(db, scoped, c, Pending), WithStatus(db, all, c, Pending));
      SameMembers(WithStatus(db, scoped, c, InFlight), WithStatus(db, all, c, InFlight));
      SameMembers(WithStatus(db, scoped, c, Dead), WithStatus(db, all, c, Dead));
      SameMembers(ReadyAmong(db, scoped, c), ReadyAmong(db, all, c));
      if HasRow(db, all, c) {
        var id :| id in all && db.deliveries[id].channelId == c;
        assert id in scoped;
      }
    }
  }

  /** Exactly the rows of Backlogs whose channel belongs to the topic. */
  method BacklogsForTopic(db: Db, topicId: int) returns (out: Option<seq<BacklogRow>>)
    ensures out.None? <==> topicId <= 0
    ensures out.Some? ==> ByChannel(out.value)
    ensures out.Some? ==> forall r :: r in out.value <==> Reports(db, r) && r.channelId in ChannelsOf(db, topicId)
  {
    if topicId <= 0 {
      return None;
    }
    var scoped := TopicRows(db, topicId);
    var rows := AnyOrder(scoped);
    forall i | 0 <= i < |rows|
      ensures rows[i] in db.deliveries
    {
      assert rows[i] in scoped;
    }
    var groups := GroupByChannel(db, rows);
    SameMembers(ToSet(rows), scoped);
    var found := InOrder(groups);
    forall r
      ensures r in found <==> Reports(db, r) && r.channelId in ChannelsOf(db, topicId)
    {
      ScopeKeepsTally(db, topicId, r.channelId);
    }
    out := Some(found);
  }

  // ------------------------------------------------ backlog against claim

  /** As many ranks as ready rows. */
  lemma RanksAreReadyRows(db: Db, c: int)
    ensures |ReadyRanks(db, c)| == |ReadyAmong(db, db.deliveries.Keys, c)|
  {
    var ranks := ReadyRanks(db, c);
    var ready := ReadyAmong(db, db.deliveries.Keys, c);
    var ids := Poll(db, c, |ranks|);
    PollLists(db, c, |ranks|);
    TakeIsInitial(ranks, |ranks|);
    SortLists(ranks);
    forall id: int
      ensures id in ids <==> id in ready
    {
      if id in ready {
        var r := Rank(db.deliveries[id].availableAt, id);
        RankOf(db, c, r);
        assert r in PollRanks(db, c, |ranks|);
        var i :| 0 <= i < |PollRanks(db, c, |ranks|)| && PollRanks(db, c, |ranks|)[i] == r;
        assert ids[i] == id;
      }
    }
    ListLength(ids, ready);
  }

  /** At every clock the reported Ready is the number of rows that a claim with a
      large enough limit leases; a smaller limit is filled completely. */
  lemma ReadyIsWhatAClaimLeases(db: Db, c: int, limit: nat)
    ensures var ids := Poll(db, c, limit);
            var claimed := Keep(ids, Leasable(db, c, ToSet(ids)));
            var ready := Tally(db, db.deliveries.Keys, c).ready;
            |claimed| == if ready <= limit then ready else limit
  {
    RanksAreReadyRows(db, c);
    TakeIsInitial(ReadyRanks(db, c), limit);
    SqliteClaim.ClaimIsQueuePrefix(db, c, limit, db.now);
    assert AtClock(db, db.now) == db;
  }
}
