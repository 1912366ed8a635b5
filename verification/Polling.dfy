/** The poll of a claim, and what happens when the clock moves between the poll
    and the lease statement. */
module Polling {
  import opened Collections
  import opened Tables
  import opened Sorting

  function AtClock(db: Db, t: int): Db { db.(now := t) }

  /** The rows a poll sees, ranked by (available_at, id). */
  function ReadyRanks(db: Db, c: int): set<Rank> {
    set id | id in db.deliveries && db.deliveries[id].channelId == c && db.deliveries[id].Ready(db.now)
      :: Rank(db.deliveries[id].availableAt, id)
  }

  function Take(s: seq<Rank>, limit: nat): seq<Rank> {
    if |s| <= limit then s else s[..limit]
  }

  function Minors(s: seq<Rank>): seq<int> {
    seq(|s|, i requires 0 <= i < |s| => s[i].minor)
  }

  /** SELECT id ... ORDER BY available_at, id LIMIT. */
  function PollRanks(db: Db, c: int, limit: nat): seq<Rank> {
    Take(Sort(ReadyRanks(db, c)), limit)
  }

  function Poll(db: Db, c: int, limit: nat): seq<int> {
    Minors(PollRanks(db, c, limit))
  }

  /** Every polled row is a ready row of the channel, and is polled once. */
  lemma PollLists(db: Db, c: int, limit: nat)
    ensures var ids := Poll(db, c, limit);
            && NoRepeats(ids)
            && |ids| <= limit
            && forall i | 0 <= i < |ids| ::
                 && ids[i] in db.deliveries
                 && db.deliveries[ids[i]].channelId == c
                 && db.deliveries[ids[i]].Ready(db.now)
                 && PollRanks(db, c, limit)[i] == Rank(db.deliveries[ids[i]].availableAt, ids[i])
  {
    var s := PollRanks(db, c, limit);
    TakeIsInitial(ReadyRanks(db, c), limit);
    forall i | 0 <= i < |s|
      ensures s[i].minor in db.deliveries
      ensures s[i] == Rank(db.deliveries[s[i].minor].availableAt, s[i].minor)
    {
      assert s[i] in s;
      RankOf(db, c, s[i]);
    }
    forall i | 0 <= i < |s|
      ensures s[i].minor in db.deliveries
              && db.deliveries[s[i].minor].channelId == c && db.deliveries[s[i].minor].Ready(db.now)
    {
      assert s[i] in s;
      RankOf(db, c, s[i]);
    }
    forall i, j | 0 <= i < j < |s|
      ensures s[i].minor != s[j].minor
    {
      assert Less(s[i], s[j]);
    }
  }

  lemma RankOf(db: Db, c: int, r: Rank)
    ensures r in ReadyRanks(db, c) <==>
            && r.minor in db.deliveries
            && db.deliveries[r.minor].channelId == c
            && db.deliveries[r.minor].Ready(db.now)
            && r.major == db.deliveries[r.minor].availableAt
  {
    if r.minor in db.deliveries && r.major == db.deliveries[r.minor].availableAt {
      assert r == Rank(db.deliveries[r.minor].availableAt, r.minor);
    }
  }

  /** What a claim that polls at clock `polled` leases when its lease statement runs at `leased`. */
  function LeasedRanks(db: Db, c: int, limit: nat, polled: int, leased: int): seq<Rank> {
    Keep(PollRanks(AtClock(db, polled), c, limit), ReadyRanks(AtClock(db, leased), c))
  }

  lemma EarlierIsInPrefix(s: seq<Rank>, n: nat, x: Rank, y: Rank)
    requires Ascending(s) && n <= |s| && x in s[..n] && y in s && Less(y, x)
    ensures y in s[..n]
  {
    var i :| 0 <= i < n && s[i] == x;
    var j :| 0 <= j < |s| && s[j] == y;
    assert j < i;
    assert s[..n][j] == y;
  }

  /** Taking a prefix of an ascending listing leaves out only larger ranks. */
  lemma TakeIsInitial(all: set<Rank>, limit: nat)
    ensures DownClosed(Take(Sort(all), limit), all) && Ascending(Take(Sort(all), limit))
    ensures |Take(Sort(all), limit)| == if |all| <= limit then |all| else limit
  {
    SortLists(all);
    var s := Sort(all);
    var n := if |s| <= limit then |s| else limit;
    assert Take(s, limit) == s[..n];
    forall x, y | x in s[..n] && y in all && Less(y, x)
      ensures y in s[..n]
    {
      EarlierIsInPrefix(s, n, x, y);
    }
  }

  /** The clock crossing rows' limits between poll and lease never makes a claim
      skip ahead in the queue: it leases a prefix of what a poll at the lease
      clock would return. */
  lemma LateLeaseIsPrefix(db: Db, c: int, limit: nat, polled: int, leased: int)
    requires polled <= leased
    ensures LeasedRanks(db, c, limit, polled, leased) <= PollRanks(AtClock(db, leased), c, limit)
  {
    var early, late := ReadyRanks(AtClock(db, polled), c), ReadyRanks(AtClock(db, leased), c);
    var polledRanks := Take(Sort(early), limit);
    var got := LeasedRanks(db, c, limit, polled, leased);
    TakeIsInitial(early, limit);
    KeepLists(polledRanks, late);
    KeepAscending(polledRanks, late);
    forall x, y | x in got && y in late && Less(y, x)
      ensures y in got
    {
      RankOf(AtClock(db, polled), c, x);
      RankOf(AtClock(db, leased), c, y);
      RankOf(AtClock(db, polled), c, y);
      assert y in early && x in polledRanks;
    }
    InitialSegmentIsPrefix(got, late);
    SortLists(late);
    assert |got| <= limit;
  }

  /** It equals the one-clock claim at the lease if and only if the polled rows
      that are still ready fill the limit, or every row ready at the lease had
      been polled: no expiry made room for a row beyond the limit, and no row came
      due in between while there was room. */
  lemma LateLeaseIsAtomicIff(db: Db, c: int, limit: nat, polled: int, leased: int)
    requires polled <= leased
    ensures LeasedRanks(db, c, limit, polled, leased) == PollRanks(AtClock(db, leased), c, limit) <==>
            || |LeasedRanks(db, c, limit, polled, leased)| == limit
            || forall r | r in ReadyRanks(AtClock(db, leased), c) :: r in PollRanks(AtClock(db, polled), c, limit)
  {
    LateLeaseIsPrefix(db, c, limit, polled, leased);
    KeptPrefixIsAll(PollRanks(AtClock(db, polled), c, limit), ReadyRanks(AtClock(db, leased), c), limit);
  }

  /** Rows kept out of a listing, when they are a prefix of the first `limit` of a set. */
  lemma KeptPrefixIsAll(early: seq<Rank>, ready: set<Rank>, limit: nat)
    requires Keep(early, ready) <= Take(Sort(ready), limit)
    ensures Keep(early, ready) == Take(Sort(ready), limit) <==>
            |Keep(early, ready)| == limit || forall r | r in ready :: r in early
  {
    var got, late := Keep(early, ready), Take(Sort(ready), limit);
    KeepLists(early, ready);
    TakeIsInitial(ready, limit);
    SortLists(ready);
    if (forall r | r in ready :: r in early) && late != [] {
      var last := late[|late| - 1];
      assert last in late;
      assert last in got;
      var i :| 0 <= i < |got| && got[i] == last;
      assert late[i] == last;
    }
  }

  /** If no polled row expires in between and the batch was full, the two claims agree. */
  lemma FullBatchIsAtomic(db: Db, c: int, limit: nat, polled: int, leased: int)
    requires polled <= leased && |ReadyRanks(AtClock(db, polled), c)| >= limit
    requires forall r | r in PollRanks(AtClock(db, polled), c, limit) :: r in ReadyRanks(AtClock(db, leased), c)
    ensures LeasedRanks(db, c, limit, polled, leased) == PollRanks(AtClock(db, leased), c, limit)
  {
    TakeIsInitial(ReadyRanks(AtClock(db, polled), c), limit);
    KeepAll(PollRanks(AtClock(db, polled), c, limit), ReadyRanks(AtClock(db, leased), c));
    LateLeaseIsPrefix(db, c, limit, polled, leased);
    TakeIsInitial(ReadyRanks(AtClock(db, leased), c), limit);
  }
}
