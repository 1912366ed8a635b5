/** Sums of the values of a map. */
module MapSums {
  ghost function SomeKey<K>(m: map<K, int>): (k: K)
    requires |m| != 0
    ensures k in m
  {
    var k :| k in m;
    k
  }

  ghost function MapSum<K>(m: map<K, int>): int
    decreases m.Keys
  {
    if |m| == 0 then 0
    else m[SomeKey(m)] + MapSum(m - {SomeKey(m)})
  }

  lemma {:induction false} MapSumSplit<K>(m: map<K, int>, d: K)
    requires d in m
    ensures MapSum(m) == m[d] + MapSum(m - {d})
    decreases m.Keys
  {
    var x := SomeKey(m);
    if x != d {
      var without_x, without_d := m - {x}, m - {d};
      MapSumSplit(without_x, d);
      MapSumSplit(without_d, x);
      assert without_x - {d} == without_d - {x};
    }
  }

  function ValueAt<K>(m: map<K, int>, d: K): int {
    if d in m then m[d] else 0
  }

  function Bump<K>(m: map<K, int>, d: K, delta: int): map<K, int> {
    m[d := ValueAt(m, d) + delta]
  }

  lemma MapSumBump<K>(m: map<K, int>, d: K, delta: int)
    ensures MapSum(Bump(m, d, delta)) == MapSum(m) + delta
  {
    MapSumSplit(Bump(m, d, delta), d);
    assert Bump(m, d, delta) - {d} == m - {d};
    if d in m {
      MapSumSplit(m, d);
    } else {
      assert m - {d} == m;
    }
  }

  lemma BumpByValues<K(!new)>(before: map<K, int>, after: map<K, int>, d: K, delta: int)
    requires forall k :: k in after <==> k in before || k == d
    requires forall k | k in after :: ValueAt(after, k) == ValueAt(before, k) + (if k == d then delta else 0)
    ensures after == Bump(before, d, delta)
  {
  }
}

/** The daily statistics table: upserts into it, and the sums read from it. */
module DailyStats {
  import opened Tables
  import opened MapSums

  /** The row a flush writes for one coordinate: every column, from one sink. */
  function Coalesced(s: Sink, coord: StatCoord): Counters {
    map kind | kind in ALL_KINDS :: At(s, StatKey(coord, kind))
  }

  function CoordsOf(s: Sink): set<StatCoord> {
    set k | k in s :: k.coord
  }

  function RowsFor(day: int, coords: set<StatCoord>): set<StatRow> {
    set c | c in coords :: StatRow(day, c)
  }

  function CountersAt(stats: map<StatRow, Counters>, r: StatRow): Counters {
    if r in stats then stats[r] else map[]
  }

  /** INSERT ... ON CONFLICT DO UPDATE SET c = c + excluded.c, for the given rows of one day. */
  function UpsertRows(stats: map<StatRow, Counters>, s: Sink, rows: set<StatRow>): map<StatRow, Counters> {
    map r | r in stats.Keys + rows ::
      if r in rows then Plus(CountersAt(stats, r), Coalesced(s, r.coord)) else stats[r]
  }

  function Upsert(stats: map<StatRow, Counters>, day: int, s: Sink, coords: set<StatCoord>): map<StatRow, Counters> {
    UpsertRows(stats, s, RowsFor(day, coords))
  }

  /** The day buckets of one counter cell. */
  ghost function Buckets(stats: map<StatRow, Counters>, k: StatKey): map<StatRow, int> {
    map r | r in stats && r.coord == k.coord :: Of(stats[r], k.kind)
  }

  /** What the SUM over retained days reads. */
  ghost function Landed(stats: map<StatRow, Counters>, k: StatKey): int {
    MapSum(Buckets(stats, k))
  }

  lemma CoalescedOf(s: Sink, coord: StatCoord, kind: StatKind)
    ensures Of(Coalesced(s, coord), kind) == At(s, StatKey(coord, kind))
  {
    assert kind in ALL_KINDS;
  }

  lemma TouchedRows(day: int, coords: set<StatCoord>, r: StatRow)
    ensures r in RowsFor(day, coords) <==> r.day == day && r.coord in coords
  {
    if r.day == day && r.coord in coords {
      assert r == StatRow(day, r.coord);
    }
  }

  lemma BucketAt(stats: map<StatRow, Counters>, k: StatKey, r: StatRow)
    ensures r in Buckets(stats, k) <==> r in stats && r.coord == k.coord
    ensures r.coord == k.coord ==> ValueAt(Buckets(stats, k), r) == Of(CountersAt(stats, r), k.kind)
  {
  }

  lemma UpsertedBucket(stats: map<StatRow, Counters>, s: Sink, rows: set<StatRow>, k: StatKey, r: StatRow)
    ensures var before, after := Buckets(stats, k), Buckets(UpsertRows(stats, s, rows), k);
            && (r in after <==> r in before || (r in rows && r.coord == k.coord))
            && (r in after ==> ValueAt(after, r) == ValueAt(before, r) + (if r in rows then At(s, k) else 0))
  {
    BucketAt(stats, k, r);
    BucketAt(UpsertRows(stats, s, rows), k, r);
    if r.coord == k.coord {
      CoalescedOf(s, r.coord, k.kind);
    }
  }

  lemma LandedUpsertRows(stats: map<StatRow, Counters>, s: Sink, rows: set<StatRow>, day: int, k: StatKey)
    requires forall r | r in rows :: r.day == day
    ensures Landed(UpsertRows(stats, s, rows), k) ==
            Landed(stats, k) + (if StatRow(day, k.coord) in rows then At(s, k) else 0)
  {
    var before, after := Buckets(stats, k), Buckets(UpsertRows(stats, s, rows), k);
    var row := StatRow(day, k.coord);
    forall r: StatRow
      ensures r in after <==> r in before || (r == row && row in rows)
      ensures r in after ==> ValueAt(after, r) == ValueAt(before, r) + (if r == row && row in rows then At(s, k) else 0)
    {
      UpsertedBucket(stats, s, rows, k, r);
    }
    SumsDiffer(before, after, row, row in rows, At(s, k));
  }

  lemma SumsDiffer<K(!new)>(before: map<K, int>, after: map<K, int>, row: K, touched: bool, delta: int)
    requires forall r :: r in after <==> r in before || (r == row && touched)
    requires forall r | r in after :: ValueAt(after, r) == ValueAt(before, r) + (if r == row && touched then delta else 0)
    ensures MapSum(after) == MapSum(before) + (if touched then delta else 0)
  {
    if touched {
      BumpByValues(before, after, row, delta);
      MapSumBump(before, row, delta);
    } else {
      assert after == before;
    }
  }

  /** An upsert adds a sink's deltas for the given coordinates, and nothing else. */
  lemma LandedUpsert(stats: map<StatRow, Counters>, day: int, s: Sink, coords: set<StatCoord>, k: StatKey)
    ensures Landed(Upsert(stats, day, s, coords), k) ==
            Landed(stats, k) + (if k.coord in coords then At(s, k) else 0)
  {
    TouchedRows(day, coords, StatRow(day, k.coord));
    LandedUpsertRows(stats, s, RowsFor(day, coords), day, k);
  }

  /** Deleting rows of other coordinates leaves a counter alone. */
  lemma LandedElsewhere(stats: map<StatRow, Counters>, rows: set<StatRow>, k: StatKey)
    requires forall r | r in rows && r in stats :: r.coord != k.coord
    ensures Landed(stats - rows, k) == Landed(stats, k)
  {
    assert Buckets(stats - rows, k) == Buckets(stats, k);
  }
}
