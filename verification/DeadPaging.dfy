/** The dead-letter list: keyset pages newest first, a probe row for the Older
    link, and the single-row lookup built on the same query. */
module DeadPaging {
  import opened Tables
  import opened Statements
  import opened Invariants
  import opened Sorting
  import opened Polling

  const DEFAULT_DEAD_PAGE := 50
  const DEAD_PAGE_SIZE := 50

  /** The place of row `id` in ORDER BY id DESC. */
  function Newest(id: int): Rank { Rank(-id, id) }

  /** The dead rows of a channel under the cursor; zero is no cursor. */
  function DeadRanks(db: Db, c: int, before: int): set<Rank> {
    set id | id in db.deliveries && DeadIn(db, id, c) && (before == 0 || id < before) :: Newest(id)
  }

  lemma DeadRankOf(db: Db, c: int, before: int, r: Rank)
    ensures r in DeadRanks(db, c, before) <==>
            r == Newest(r.minor) && DeadIn(db, r.minor, c) && (before == 0 || r.minor < before)
  {
    if r == Newest(r.minor) && DeadIn(db, r.minor, c) && (before == 0 || r.minor < before) {
      assert r.minor in db.deliveries;
    }
  }

  function ListDead(db: Db, c: int, before: int, limit: int): Option<seq<Rank>> {
    if c <= 0 then None
    else Some(Take(Sort(DeadRanks(db, c, before)), PageLimit(limit)))
  }

  /** A non-positive limit falls back to the default page. */
  function PageLimit(limit: int): nat { if limit <= 0 then DEFAULT_DEAD_PAGE else limit }

  /** Rows newest first, all eligible, and nothing newer than a listed row left out. */
  ghost predicate IsPage(db: Db, c: int, before: int, rows: seq<Rank>) {
    && Ascending(rows)
    && (forall r | r in rows :: r in DeadRanks(db, c, before))
    && (forall r, x | r in rows && x in DeadRanks(db, c, before) && Less(x, r) :: x in rows)
  }

  lemma ListDeadIsPage(db: Db, c: int, before: int, limit: int)
    ensures ListDead(db, c, before, limit).None? <==> c <= 0
    ensures c > 0 ==>
              var rows, all := ListDead(db, c, before, limit).value, DeadRanks(db, c, before);
              && IsPage(db, c, before, rows)
              && |rows| == (if |all| <= PageLimit(limit) then |all| else PageLimit(limit))
              && (|rows| < PageLimit(limit) ==> forall r :: r in rows <==> r in all)
  {
    TakeIsInitial(DeadRanks(db, c, before), PageLimit(limit));
    SortLists(DeadRanks(db, c, before));
  }

  datatype Page = Page(rows: seq<Rank>, hasOlder: bool, olderBefore: int)

  /** One page.  The Older link is there exactly when some eligible row is not on
      the page; then the page is full, and the cursor is the last row shown. */
  method LoadDeadList(db: Db, c: int, before: int) returns (page: Option<Page>)
    ensures page.None? <==> c <= 0
    ensures page.Some? ==>
              var p := page.value;
              && IsPage(db, c, before, p.rows)
              && |p.rows| <= DEAD_PAGE_SIZE
              && (p.hasOlder <==> exists x :: x in DeadRanks(db, c, before) && x !in p.rows)
              && (p.hasOlder ==> |p.rows| == DEAD_PAGE_SIZE && p.olderBefore == p.rows[DEAD_PAGE_SIZE - 1].minor)
  {
    var found := ListDead(db, c, before, DEAD_PAGE_SIZE + 1);
    if found.None? {
      return None;
    }
    ListDeadIsPage(db, c, before, DEAD_PAGE_SIZE + 1);
    var rows := found.value;
    var hasOlder := |rows| > DEAD_PAGE_SIZE;
    ghost var all := rows;
    if hasOlder {
      ProbeRow(db, c, before, rows);
      rows := rows[..DEAD_PAGE_SIZE];
    }
    var view: seq<Rank> := [];
    for i := 0 to |rows|
      invariant view == rows[..i]
    {
      view := view + [rows[i]];
    }
    page := Some(Page(view, hasOlder, if hasOlder then rows[|rows| - 1].minor else 0));
  }

  /** Dropping the probe row leaves a page, and the probe itself is what is older. */
  lemma ProbeRow(db: Db, c: int, before: int, rows: seq<Rank>)
    requires IsPage(db, c, before, rows) && |rows| == DEAD_PAGE_SIZE + 1
    ensures IsPage(db, c, before, rows[..DEAD_PAGE_SIZE])
    ensures rows[DEAD_PAGE_SIZE] in DeadRanks(db, c, before) && rows[DEAD_PAGE_SIZE] !in rows[..DEAD_PAGE_SIZE]
  {
    var page := rows[..DEAD_PAGE_SIZE];
    assert rows[DEAD_PAGE_SIZE] in rows;
    forall r, x | r in page && x in DeadRanks(db, c, before) && Less(x, r)
      ensures x in page
    {
      assert r in rows && x in rows;
      EarlierIsInPrefix(rows, DEAD_PAGE_SIZE, r, x);
    }
  }

  // ------------------------------------------------------------- the walk

  ghost predicate PositiveIds(db: Db) {
    forall id | id in db.deliveries :: id >= 1
  }

  /** Dead in this channel in every state that the walk has looked at. */
  ghost predicate DeadThroughout(dbs: nat -> Db, pages: nat, id: int, c: int) {
    forall k: nat | k < pages :: DeadIn(dbs(k), id, c)
  }

  ghost predicate EverDead(dbs: nat -> Db, pages: nat, id: int, c: int) {
    exists k: nat :: k < pages && DeadIn(dbs(k), id, c)
  }

  /** What the pages so far have shown: newest first without repeats, rows that
      were dead when shown, none below the cursor, and every row at or above the
      cursor that was dead all along. */
  ghost predicate ShownDown(dbs: nat -> Db, pages: nat, c: int, shown: seq<Rank>, cursor: int) {
    && Ascending(shown)
    && (forall r | r in shown :: r == Newest(r.minor) && cursor <= r.minor && EverDead(dbs, pages, r.minor, c))
    && (forall r: Rank | r == Newest(r.minor) && cursor <= r.minor && DeadThroughout(dbs, pages, r.minor, c) :: r in shown)
  }

  lemma PageBounds(db: Db, c: int, before: int, rows: seq<Rank>, r: Rank)
    requires IsPage(db, c, before, rows) && r in rows
    ensures r == Newest(r.minor) && DeadIn(db, r.minor, c) && (before == 0 || r.minor < before)
    ensures rows[|rows| - 1].minor <= r.minor
  {
    DeadRankOf(db, c, before, r);
    var last := rows[|rows| - 1];
    assert last in rows;
    DeadRankOf(db, c, before, last);
    var i :| 0 <= i < |rows| && rows[i] == r;
  }

  /** A row of the page's reach that is dead now is on the page. */
  lemma PageCovers(db: Db, c: int, before: int, rows: seq<Rank>, hasOlder: bool, r: Rank)
    requires IsPage(db, c, before, rows) && r == Newest(r.minor) && DeadIn(db, r.minor, c) && (before == 0 || r.minor < before)
    requires if hasOlder then rows != [] && rows[|rows| - 1].minor <= r.minor
             else forall x :: x in DeadRanks(db, c, before) ==> x in rows
    ensures r in rows
  {
    DeadRankOf(db, c, before, r);
    if hasOlder {
      var last := rows[|rows| - 1];
      assert last in rows;
      DeadRankOf(db, c, before, last);
      assert r == last || Less(r, last);
    }
  }

  /** One more page on the walk; the cursor moves to the page's last row, or to zero at the end. */
  lemma PageExtends(dbs: nat -> Db, pages: nat, c: int, shown: seq<Rank>, before: int, p: Page, cursor: int)
    requires before >= 0 && (before == 0 <==> pages == 0) && (pages == 0 ==> shown == [])
    requires pages > 0 ==> ShownDown(dbs, pages, c, shown, before)
    requires IsPage(dbs(pages), c, before, p.rows) && PositiveIds(dbs(pages))
    requires if p.hasOlder then p.rows != [] && cursor == p.rows[|p.rows| - 1].minor
             else cursor == 0 && forall x :: x in DeadRanks(dbs(pages), c, before) ==> x in p.rows
    ensures ShownDown(dbs, pages + 1, c, shown + p.rows, cursor)
    ensures p.hasOlder ==> 1 <= cursor && (before > 0 ==> cursor < before)
  {
    var more, db := shown + p.rows, dbs(pages);
    forall r | r in p.rows
      ensures r == Newest(r.minor) && cursor <= r.minor && EverDead(dbs, pages + 1, r.minor, c)
      ensures before > 0 ==> r.minor < before
    {
      PageBounds(db, c, before, p.rows, r);
      assert DeadIn(dbs(pages), r.minor, c);
    }
    if p.hasOlder {
      assert p.rows[|p.rows| - 1] in p.rows;
    }
    forall r | r in shown
      ensures EverDead(dbs, pages + 1, r.minor, c)
    {
      var k: nat :| k < pages && DeadIn(dbs(k), r.minor, c);
    }
    forall r: Rank | r == Newest(r.minor) && cursor <= r.minor && DeadThroughout(dbs, pages + 1, r.minor, c)
      ensures r in more
    {
      assert DeadIn(dbs(pages), r.minor, c);
      if pages > 0 && before <= r.minor {
        assert DeadThroughout(dbs, pages, r.minor, c);
      } else {
        PageCovers(db, c, before, p.rows, p.hasOlder, r);
      }
    }
    Joined(shown, p.rows, before);
  }

  lemma Joined(a: seq<Rank>, b: seq<Rank>, bound: int)
    requires Ascending(a) && Ascending(b)
    requires a == [] || forall r | r in a :: r == Newest(r.minor) && bound <= r.minor
    requires a == [] || forall r | r in b :: r == Newest(r.minor) && r.minor < bound
    ensures Ascending(a + b)
  {
    forall i, j | 0 <= i < j < |a + b|
      ensures Less((a + b)[i], (a + b)[j])
    {
      if i < |a| && j >= |a| {
        assert a[i] in a && b[j - |a|] in b;
      }
    }
  }

  /** Following the Older links to the end, page k reading the tables as they are
      in dbs(k).  The walk ends; it shows strictly descending ids, so no row
      twice; and it shows every row that stays dead throughout. */
  method WalkOlder(c: int, dbs: nat -> Db) returns (shown: seq<Rank>, pages: nat)
    requires c > 0 && forall k: nat :: PositiveIds(dbs(k))
    ensures pages > 0
    ensures forall i, j | 0 <= i < j < |shown| :: shown[i].minor > shown[j].minor
    ensures forall r | r in shown :: EverDead(dbs, pages, r.minor, c)
    ensures forall id | DeadThroughout(dbs, pages, id, c) :: Newest(id) in shown
  {
    shown, pages := [], 0;
    var before := 0;
    while true
      invariant before >= 0 && (before == 0 <==> pages == 0) && (pages == 0 ==> shown == [])
      invariant pages > 0 ==> ShownDown(dbs, pages, c, shown, before)
      decreases if before == 0 then 1 else 0, before
    {
      assert PositiveIds(dbs(pages));
      var page := LoadDeadList(dbs(pages), c, before);
      var p := page.value;
      var cursor := if p.hasOlder then p.olderBefore else 0;
      PageExtends(dbs, pages, c, shown, before, p, cursor);
      shown, pages := shown + p.rows, pages + 1;
      if !p.hasOlder {
        WalkEnds(dbs, pages, c, shown);
        return;
      }
      before := cursor;
    }
  }

  lemma WalkEnds(dbs: nat -> Db, pages: nat, c: int, shown: seq<Rank>)
    requires pages > 0 && ShownDown(dbs, pages, c, shown, 0) && PositiveIds(dbs(0))
    ensures forall i, j | 0 <= i < j < |shown| :: shown[i].minor > shown[j].minor
    ensures forall id | DeadThroughout(dbs, pages, id, c) :: Newest(id) in shown
  {
    forall i, j | 0 <= i < j < |shown|
      ensures shown[i].minor > shown[j].minor
    {
      assert shown[i] in shown && shown[j] in shown && Less(shown[i], shown[j]);
    }
    forall id: int | DeadThroughout(dbs, pages, id, c)
      ensures Newest(id) in shown
    {
      assert DeadIn(dbs(0), id, c);
      assert Newest(id).minor == id;
    }
  }

  // ------------------------------------------------------- a single row

  const MAX_INT64 := 0x7fff_ffff_ffff_ffff

  /** Two's-complement wrap-around of a 64-bit signed result. */
  function Wrap64(x: int): int {
    (x + MAX_INT64 + 1) % (2 * (MAX_INT64 + 1)) - (MAX_INT64 + 1)
  }

  predicate Fits64(x: int) { -(MAX_INT64 + 1) <= x <= MAX_INT64 }

  /** before = id + 1, limit 1: the highest dead id up to and including `id`. */
  function LoadDeadDelivery(db: Db, c: int, id: int): Option<Rank> {
    var rows := ListDead(db, c, Wrap64(id + 1), 1);
    if rows.None? || |rows.value| == 0 || rows.value[0].minor != id then None else Some(rows.value[0])
  }

  /** The lookup finds a row exactly when it is dead in this channel, except at
      the largest 64-bit id, where the cursor wraps to a negative bound. */
  lemma LookupFindsExactlyTheDead(db: Db, c: int, id: int)
    requires c > 0 && PositiveIds(db) && Fits64(id)
    ensures LoadDeadDelivery(db, c, id).Some? <==> DeadIn(db, id, c) && id != MAX_INT64
  {
    var before := Wrap64(id + 1);
    var rows := ListDead(db, c, before, 1).value;
    ListDeadIsPage(db, c, before, 1);
    if id == MAX_INT64 {
      assert before == -(MAX_INT64 + 1);
    } else {
      assert before == id + 1;
    }
    DeadRankOf(db, c, before, Newest(id));
    if rows != [] {
      assert rows[0] in rows;
      PageBounds(db, c, before, rows, rows[0]);
    } else {
      assert Newest(id) !in rows;
    }
  }

  /** A sound database in which the row with the largest id is dead, and the lookup misses it. */
  lemma LookupMissesTheLargestId()
    ensures exists db: Db :: DbInv(db) && DeadIn(db, MAX_INT64, 1) && LoadDeadDelivery(db, 1, MAX_INT64).None?
  {
    var d := Delivery(1, 1, Dead, 0, 10, 6, 5, None, None, None);
    var db := EmptyDb(0).(topics := map[1 := "t"], channels := map[1 := Channel(1, "c")], messages := map[1 := Message(1, "", 10)],
                          deliveries := map[MAX_INT64 := d], nextTopic := 2, nextChannel := 2, nextMessage := 2, nextDelivery := MAX_INT64 + 1);
    assert WellPlaced(db, d) && RowShape(d);
    assert DbInv(db);
    assert DeadIn(db, MAX_INT64, 1);
    LookupFindsExactlyTheDead(db, 1, MAX_INT64);
  }
}
