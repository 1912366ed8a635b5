/** The in-process counter buffer and its batched flush (FlushStats of the
    SQLite and MySQL drivers; only SQLite filters dead coordinates). */
module FlushSink {
  import opened Collections
  import opened Tables
  import opened DailyStats
  import opened Sorting

  const STATS_FLUSH_BATCH := 500

  // ------------------------------------------------------- write order

  function RankOfCoord(c: StatCoord): Rank { Rank(c.topicId, c.channelId) }

  function CoordOfRank(r: Rank): StatCoord { StatCoord(r.major, r.minor) }

  predicate CoordLess(a: StatCoord, b: StatCoord) { Less(RankOfCoord(a), RankOfCoord(b)) }

  predicate CoordsAscend(s: seq<StatCoord>) {
    forall i, j | 0 <= i < j < |s| :: CoordLess(s[i], s[j])
  }

  /** The one order in which every flush writes its rows. */
  function WriteOrder(coords: set<StatCoord>): seq<StatCoord> {
    var ranks := Sort(set c | c in coords :: RankOfCoord(c));
    seq(|ranks|, i requires 0 <= i < |ranks| => CoordOfRank(ranks[i]))
  }

  lemma WriteOrderLists(coords: set<StatCoord>)
    ensures CoordsAscend(WriteOrder(coords)) && NoRepeats(WriteOrder(coords))
    ensures forall c :: c in WriteOrder(coords) <==> c in coords
  {
    var all := set c | c in coords :: RankOfCoord(c);
    var order := WriteOrder(coords);
    SortLists(all);
    forall i | 0 <= i < |order|
      ensures order[i] in coords && RankOfCoord(order[i]) == Sort(all)[i]
    {
      assert Sort(all)[i] in all;
    }
    forall c | c in coords
      ensures c in order
    {
      assert RankOfCoord(c) in all;
      assert RankOfCoord(c) in Sort(all);
      var i :| 0 <= i < |Sort(all)| && Sort(all)[i] == RankOfCoord(c);
      assert order[i] == c;
    }
    forall i, j | 0 <= i < j < |order|
      ensures CoordLess(order[i], order[j]) && order[i] != order[j]
    {
      assert Less(Sort(all)[i], Sort(all)[j]);
    }
  }

  // --------------------------------------------------------- recordStat

  predicate ValidKey(k: StatKey) { k.coord.topicId > 0 && k.coord.channelId >= 0 }

  predicate ValidSink(s: Sink) { forall k | k in s :: ValidKey(k) }

  // ----------------------------------------------------------- coalescing

  const ZERO_ROW: Counters := map kind | kind in ALL_KINDS :: 0

  /** The part of a sink under the given keys. */
  function Under(s: Sink, keys: set<StatKey>): Sink {
    map k | k in s && k in keys :: s[k]
  }

  /** Coalesces kinds into one row per coordinate, meeting the keys in any order. */
  method Coalesce(pending: Sink) returns (counts: map<StatCoord, Counters>, order: seq<StatCoord>)
    ensures NoRepeats(order)
    ensures forall c :: c in order <==> c in CoordsOf(pending)
    ensures counts.Keys == CoordsOf(pending)
    ensures forall c | c in counts :: counts[c] == Coalesced(pending, c)
  {
    var keys := AnyOrder(pending.Keys);
    counts, order := map[], [];
    ghost var seen: set<StatKey> := {};
    for i := 0 to |keys|
      invariant seen == set k | k in keys[..i]
      invariant NoRepeats(order)
      invariant forall c :: c in order <==> c in counts
      invariant counts.Keys == CoordsOf(Under(pending, seen))
      invariant forall c | c in counts :: counts[c] == Coalesced(Under(pending, seen), c)
    {
      var k := keys[i];
      assert k in keys && k in pending;
      assert keys[..i + 1] == keys[..i] + [k];
      if k.coord !in counts {
        order := order + [k.coord];
      }
      var vals := if k.coord in counts then counts[k.coord] else ZERO_ROW;
      vals := vals[k.kind := Of(vals, k.kind) + pending[k]];
      CoalesceStep(pending, seen, k, counts, vals);
      counts := counts[k.coord := vals];
      seen := seen + {k};
    }
    assert keys[..|keys|] == keys;
    assert Under(pending, seen) == pending;
  }

  lemma UnknownCoord(s: Sink, c: StatCoord)
    requires c !in CoordsOf(s)
    ensures Coalesced(s, c) == ZERO_ROW
  {
    assert forall q | q in s :: q.coord in CoordsOf(s);
  }

  lemma CoalescedAdd(s: Sink, k: StatKey, n: int)
    requires k !in s
    ensures var row := Coalesced(s, k.coord);
            Coalesced(s[k := n], k.coord) == row[k.kind := Of(row, k.kind) + n]
  {
    var row := Coalesced(s, k.coord);
    var next := Coalesced(s[k := n], k.coord);
    CoalescedOf(s, k.coord, k.kind);
    forall kind: StatKind
      ensures kind in next && kind in row
      ensures next[kind] == row[k.kind := Of(row, k.kind) + n][kind]
    {
      EveryKind(kind);
    }
  }

  lemma EveryKind(kind: StatKind)
    ensures kind in ALL_KINDS
  {
  }

  lemma CoalescedElsewhere(s: Sink, k: StatKey, n: int, c: StatCoord)
    requires c != k.coord
    ensures Coalesced(s[k := n], c) == Coalesced(s, c)
  {
  }

  lemma CoordsAdd(s: Sink, k: StatKey, n: int)
    ensures CoordsOf(s[k := n]) == CoordsOf(s) + {k.coord}
  {
    assert k in s[k := n];
    forall c
      ensures c in CoordsOf(s[k := n]) <==> c in CoordsOf(s) + {k.coord}
    {
      if c in CoordsOf(s) {
        var q :| q in s && q.coord == c;
        assert q in s[k := n];
      }
    }
  }

  lemma CoalesceStep(pending: Sink, seen: set<StatKey>, k: StatKey, counts: map<StatCoord, Counters>, vals: Counters)
    requires k in pending && k !in seen
    requires counts.Keys == CoordsOf(Under(pending, seen))
    requires forall c | c in counts :: counts[c] == Coalesced(Under(pending, seen), c)
    requires var was := if k.coord in counts then counts[k.coord] else ZERO_ROW;
             vals == was[k.kind := Of(was, k.kind) + pending[k]]
    ensures var more := Under(pending, seen + {k});
            && counts[k.coord := vals].Keys == CoordsOf(more)
            && forall c | c in counts[k.coord := vals] :: counts[k.coord := vals][c] == Coalesced(more, c)
  {
    var before := Under(pending, seen);
    assert Under(pending, seen + {k}) == before[k := pending[k]];
    if k.coord !in counts {
      UnknownCoord(before, k.coord);
    }
    CoalescedAdd(before, k, pending[k]);
    CoordsAdd(before, k, pending[k]);
    forall c | c in counts && c != k.coord
      ensures Coalesced(before[k := pending[k]], c) == counts[c]
    {
      CoalescedElsewhere(before, k, pending[k], c);
    }
  }
}
