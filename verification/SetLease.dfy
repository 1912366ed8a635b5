/** The claims of the MySQL and Postgres drivers.  Both poll under row locks;
    MySQL then leases id by id, Postgres with one UPDATE over a VALUES table. */
module SetLease {
  import opened Collections
  import opened Tables
  import opened Statements
  import opened Invariants
  import opened ClaimAssembly

  /** What one polled id is to be leased with: a pre-generated token, and the end
      of the lease by the clock of the statement that leases it. */
  datatype Entry = Entry(id: int, token: Token, until: int)

  type Rows = map<int, Delivery>

  /** `clocks` are the readings of the database clock, one for each id. */
  function Entries(ids: seq<int>, tokens: seq<Token>, clocks: seq<int>, leaseSec: int): (values: seq<Entry>)
    requires |ids| == |tokens| == |clocks|
    ensures |values| == |ids|
    ensures forall i | 0 <= i < |ids| :: values[i] == Entry(ids[i], tokens[i], clocks[i] + leaseSec)
  {
    seq(|ids|, i requires 0 <= i < |ids| => Entry(ids[i], tokens[i], clocks[i] + leaseSec))
  }

  /** The polled rows that are still pending: what either lease may touch. */
  function PendingAmong(rows: Rows, ids: seq<int>): set<int> {
    set id | id in ids && id in rows && rows[id].status.Pending?
  }

  /** What the joined UPDATE means, row by row: a pending row that joins an
      entry is leased under that entry's token, every other row stays. */
  ghost predicate IsSetUpdate(rows: Rows, after: Rows, values: seq<Entry>, owner: string) {
    && (forall id :: id in after <==> id in rows)
    && (forall i | 0 <= i < |values| :: LeasedUnder(rows, after, values[i], owner))
    && (forall id | id in rows && id in after && (!rows[id].status.Pending? || Unlisted(values, id)) :: after[id] == rows[id])
  }

  ghost predicate LeasedUnder(rows: Rows, after: Rows, v: Entry, owner: string) {
    v.id in rows && rows[v.id].status.Pending? ==>
      v.id in after && after[v.id] == LeaseRow(rows[v.id], owner, v.token, v.until)
  }

  ghost predicate Unlisted(values: seq<Entry>, id: int) {
    forall i | 0 <= i < |values| :: values[i].id != id
  }

  /** Whatever order the engine visits the rows in, the statement has one outcome. */
  lemma SetUpdateIsUnique(rows: Rows, a: Rows, b: Rows, values: seq<Entry>, owner: string)
    requires IsSetUpdate(rows, a, values, owner) && IsSetUpdate(rows, b, values, owner)
    ensures a == b
  {
    forall id: int
      ensures id in a <==> id in b
      ensures id in a && id in b ==> a[id] == b[id]
    {
      if id in rows && rows[id].status.Pending? && !Unlisted(values, id) {
        var i :| 0 <= i < |values| && values[i].id == id;
        assert LeasedUnder(rows, a, values[i], owner) && LeasedUnder(rows, b, values[i], owner);
      }
    }
    SameMap(a, b);
  }

  // ------------------------------------------------------- MySQL, id by id

  /** The guarded update of one id. */
  function LeaseOne(rows: Rows, v: Entry, owner: string): Rows {
    if v.id in rows && rows[v.id].status.Pending? then rows[v.id := LeaseRow(rows[v.id], owner, v.token, v.until)] else rows
  }

  /** One guarded update per polled id, in poll order, each with its own reading of
      the clock.  It leaves what one set-based statement with those entries leaves,
      and claims the pending ids in poll order. */
  method LeasePerId(rows: Rows, ids: seq<int>, tokens: seq<Token>, clocks: seq<int>, leaseSec: int, owner: string)
    returns (after: Rows, claimed: seq<int>)
    requires NoRepeats(ids) && |tokens| == |ids| == |clocks|
    ensures IsSetUpdate(rows, after, Entries(ids, tokens, clocks, leaseSec), owner)
    ensures claimed == Keep(ids, PendingAmong(rows, ids))
  {
    after, claimed := rows, [];
    ghost var values := Entries(ids, tokens, clocks, leaseSec);
    for n := 0 to |ids|
      invariant IsSetUpdate(rows, after, values[..n], owner)
      invariant claimed == Keep(ids[..n], PendingAmong(rows, ids))
    {
      LeaseStep(rows, after, values, n, owner);
      ClaimedStep(rows, ids, n);
      if ids[n] in after && after[ids[n]].status.Pending? {
        claimed := claimed + [ids[n]];
      }
      after := LeaseOne(after, Entry(ids[n], tokens[n], clocks[n] + leaseSec), owner);
    }
    assert values[..|ids|] == values && ids[..|ids|] == ids;
  }

  lemma LeaseStep(rows: Rows, after: Rows, values: seq<Entry>, n: nat, owner: string)
    requires n < |values| && forall i, j | 0 <= i < j < |values| :: values[i].id != values[j].id
    requires IsSetUpdate(rows, after, values[..n], owner)
    ensures values[n].id in after <==> values[n].id in rows
    ensures values[n].id in rows ==> after[values[n].id] == rows[values[n].id]
    ensures IsSetUpdate(rows, LeaseOne(after, values[n], owner), values[..n + 1], owner)
  {
    var v, next := values[n], LeaseOne(after, values[n], owner);
    assert Unlisted(values[..n], v.id);
    assert v.id in rows ==> after[v.id] == rows[v.id];
    var upto := values[..n + 1];
    forall i | 0 <= i < |upto|
      ensures LeasedUnder(rows, next, upto[i], owner)
    {
      if i < n {
        assert LeasedUnder(rows, after, values[..n][i], owner);
      }
    }
    forall id: int | id in rows && id in next && (!rows[id].status.Pending? || Unlisted(values[..n + 1], id))
      ensures next[id] == rows[id]
    {
      if rows[id].status.Pending? {
        assert values[..n + 1][n].id != id;
        forall i | 0 <= i < n
          ensures values[..n][i].id != id
        {
          assert values[..n + 1][i] == values[..n][i];
        }
        assert Unlisted(values[..n], id);
      }
    }
  }

  lemma ClaimedStep(rows: Rows, ids: seq<int>, n: nat)
    requires n < |ids|
    ensures var pending := PendingAmong(rows, ids);
            Keep(ids[..n + 1], pending) ==
            Keep(ids[..n], pending) + (if ids[n] in rows && rows[ids[n]].status.Pending? then [ids[n]] else [])
  {
    assert ids[..n + 1][..n] == ids[..n];
    assert ids[n] in ids;
  }

  // --------------------------------------------- Postgres, one statement

  function EntryFor(values: seq<Entry>, id: int): Option<Entry> {
    if values == [] then None
    else if values[|values| - 1].id == id then Some(values[|values| - 1])
    else EntryFor(values[..|values| - 1], id)
  }

  lemma {:induction false} EntryForFinds(values: seq<Entry>, id: int)
    ensures EntryFor(values, id).None? <==> Unlisted(values, id)
    ensures EntryFor(values, id).Some? ==> EntryFor(values, id).value in values && EntryFor(values, id).value.id == id
  {
    if values != [] {
      EntryForFinds(values[..|values| - 1], id);
    }
  }

  function SetUpdate(rows: Rows, values: seq<Entry>, owner: string): Rows {
    map id | id in rows ::
      var v := EntryFor(values, id);
      if rows[id].status.Pending? && v.Some? then LeaseRow(rows[id], owner, v.value.token, v.value.until) else rows[id]
  }

  lemma SetUpdateMeets(rows: Rows, values: seq<Entry>, owner: string)
    requires forall i, j | 0 <= i < j < |values| :: values[i].id != values[j].id
    ensures IsSetUpdate(rows, SetUpdate(rows, values, owner), values, owner)
  {
    forall id: int | id in rows
      ensures Unlisted(values, id) ==> EntryFor(values, id).None?
    {
      EntryForFinds(values, id);
    }
    forall i | 0 <= i < |values|
      ensures EntryFor(values, values[i].id) == Some(values[i])
    {
      EntryForFinds(values, values[i].id);
    }
  }

  // ------------------------------------------------------ whole claims

  /** What both drivers hand out: the polled order without the ids that were no
      longer pending and without the poisoned rows. */
  ghost predicate IsClaim(db: Db, ids: seq<int>, tokens: seq<Token>, clocks: seq<int>, owner: string, leaseSec: int,
                          leased: Rows, after: Db, out: seq<Handed>)
    requires |tokens| == |ids| == |clocks|
  {
    && IsSetUpdate(db.deliveries, leased, Entries(ids, tokens, clocks, leaseSec), owner)
    && Finishes(db, ids, leased, after, out)
  }

  ghost predicate Finishes(db: Db, ids: seq<int>, leased: Rows, after: Db, out: seq<Handed>) {
    var pending, mid := PendingAmong(db.deliveries, ids), db.(deliveries := leased);
    && after == BuryStmt(mid, PoisonedAmong(mid, pending))
    && out == HandedOut(mid, Keep(ids, pending))
  }

  lemma LeasedJoins(db: Db, leased: Rows, values: seq<Entry>, owner: string, id: int)
    requires References(db) && IsSetUpdate(db.deliveries, leased, values, owner) && id in leased
    ensures Joins(db.(deliveries := leased), id)
  {
    assert WellPlaced(db, db.deliveries[id]);
    if db.deliveries[id].status.Pending? && !Unlisted(values, id) {
      var i :| 0 <= i < |values| && values[i].id == id;
      assert LeasedUnder(db.deliveries, leased, values[i], owner);
    } else {
      assert leased[id] == db.deliveries[id];
    }
  }

  /** The body query over the claimed ids, the poison updates and the final loop, which the drivers share. */
  method Finish(db: Db, ids: seq<int>, leased: Rows, returned: seq<int>, ghost values: seq<Entry>, ghost owner: string)
    returns (after: Db, out: seq<Handed>)
    requires References(db) && IsSetUpdate(db.deliveries, leased, values, owner)
    requires (set id | id in returned) == PendingAmong(db.deliveries, ids)
    ensures Finishes(db, ids, leased, after, out)
  {
    var mid := db.(deliveries := leased);
    var claimedSet := set id | id in returned;
    var bodyRows := AnyOrder(claimedSet);
    forall i | 0 <= i < |bodyRows|
      ensures Joins(mid, bodyRows[i])
    {
      assert bodyRows[i] in claimedSet;
      LeasedJoins(db, leased, values, owner, bodyRows[i]);
    }
    forall id: int
      ensures id in bodyRows <==> id in ids && id in returned
    {
      assert id in bodyRows <==> id in claimedSet;
    }
    var claimed, dead;
    claimed, dead, out := Assemble(mid, ids, returned, bodyRows);
    SameMembers((set id | id in bodyRows), claimedSet);
    after := BuryStmt(mid, dead);
  }

  lemma ClaimedArePending(rows: Rows, ids: seq<int>)
    ensures (set id | id in Keep(ids, PendingAmong(rows, ids))) == PendingAmong(rows, ids)
  {
    var pending := PendingAmong(rows, ids);
    var claimed := Keep(ids, pending);
    KeepLists(ids, pending);
    forall id: int
      ensures id in claimed <==> id in pending
    {
    }
    SameMembers((set id | id in claimed), pending);
  }

  method BuildValues(ids: seq<int>, tokens: seq<Token>, clocks: seq<int>, leaseSec: int) returns (values: seq<Entry>)
    requires |tokens| == |ids| == |clocks|
    ensures values == Entries(ids, tokens, clocks, leaseSec)
  {
    values := [];
    for i := 0 to |ids|
      invariant values == Entries(ids, tokens, clocks, leaseSec)[..i]
    {
      values := values + [Entry(ids[i], tokens[i], clocks[i] + leaseSec)];
    }
  }

  /** A single statement reads the clock once. */
  function OneClock(ids: seq<int>, now: int): (clocks: seq<int>)
    ensures |clocks| == |ids| && forall i | 0 <= i < |clocks| :: clocks[i] == now
  {
    seq(|ids|, _ => now)
  }

  /** One statement leases every polled row that is still pending; RETURNING
      names the rows that moved, in an order nobody promises. */
  method LeaseAtOnce(rows: Rows, ids: seq<int>, tokens: seq<Token>, now: int, leaseSec: int, owner: string)
    returns (after: Rows, returned: seq<int>)
    requires NoRepeats(ids) && |tokens| == |ids|
    ensures IsSetUpdate(rows, after, Entries(ids, tokens, OneClock(ids, now), leaseSec), owner)
    ensures (set id | id in returned) == PendingAmong(rows, ids)
  {
    var values := BuildValues(ids, tokens, OneClock(ids, now), leaseSec);
    SetUpdateMeets(rows, values, owner);
    after := SetUpdate(rows, values, owner);
    var pending := PendingAmong(rows, ids);
    returned := AnyOrder(pending);
    SameMembers((set id | id in returned), pending);
  }

  method ClaimMySql(db: Db, ids: seq<int>, tokens: seq<Token>, clocks: seq<int>, owner: string, leaseSec: int)
    returns (leased: Rows, after: Db, out: seq<Handed>)
    requires References(db) && NoRepeats(ids) && |tokens| == |ids| == |clocks|
    ensures IsClaim(db, ids, tokens, clocks, owner, leaseSec, leased, after, out)
  {
    var claimed;
    leased, claimed := LeasePerId(db.deliveries, ids, tokens, clocks, leaseSec, owner);
    ClaimedArePending(db.deliveries, ids);
    after, out := Finish(db, ids, leased, claimed, Entries(ids, tokens, clocks, leaseSec), owner);
  }

  method ClaimPostgres(db: Db, ids: seq<int>, tokens: seq<Token>, owner: string, leaseSec: int)
    returns (leased: Rows, after: Db, out: seq<Handed>)
    requires References(db) && NoRepeats(ids) && |tokens| == |ids|
    ensures IsClaim(db, ids, tokens, OneClock(ids, db.now), owner, leaseSec, leased, after, out)
  {
    var returned;
    leased, returned := LeaseAtOnce(db.deliveries, ids, tokens, db.now, leaseSec, owner);
    after, out := Finish(db, ids, leased, returned, Entries(ids, tokens, OneClock(ids, db.now), leaseSec), owner);
  }

  /** With the same tokens and clock readings the two claims leave the same rows
      and hand out the same deliveries in the same order. */
  lemma ClaimsAgree(db: Db, ids: seq<int>, tokens: seq<Token>, clocks: seq<int>, owner: string, leaseSec: int,
                    leasedA: Rows, a: Db, outA: seq<Handed>, leasedB: Rows, b: Db, outB: seq<Handed>)
    requires |tokens| == |ids| == |clocks|
    requires IsClaim(db, ids, tokens, clocks, owner, leaseSec, leasedA, a, outA)
    requires IsClaim(db, ids, tokens, clocks, owner, leaseSec, leasedB, b, outB)
    ensures leasedA == leasedB && a == b && outA == outB
  {
    SetUpdateIsUnique(db.deliveries, leasedA, leasedB, Entries(ids, tokens, clocks, leaseSec), owner);
  }

  /** MySQL reads the clock again for each id.  Its lease equals the one with
      other readings exactly when the readings of the ids still pending agree. */
  lemma ClocksMatterIff(rows: Rows, ids: seq<int>, tokens: seq<Token>, p: seq<int>, q: seq<int>, leaseSec: int, owner: string, a: Rows, b: Rows)
    requires NoRepeats(ids) && |tokens| == |ids| == |p| == |q|
    requires IsSetUpdate(rows, a, Entries(ids, tokens, p, leaseSec), owner) && IsSetUpdate(rows, b, Entries(ids, tokens, q, leaseSec), owner)
    ensures a == b <==> forall i | 0 <= i < |ids| && ids[i] in rows && rows[ids[i]].status.Pending? :: p[i] == q[i]
  {
    var u, v := Entries(ids, tokens, p, leaseSec), Entries(ids, tokens, q, leaseSec);
    forall i | 0 <= i < |ids| && ids[i] in rows && rows[ids[i]].status.Pending?
      ensures ids[i] in a && ids[i] in b && (a[ids[i]] == b[ids[i]] <==> p[i] == q[i])
    {
      assert LeasedUnder(rows, a, u[i], owner) && LeasedUnder(rows, b, v[i], owner);
    }
    if forall i | 0 <= i < |ids| && ids[i] in rows && rows[ids[i]].status.Pending? :: p[i] == q[i] {
      forall id: int
        ensures id in a <==> id in b
        ensures id in a && id in b ==> a[id] == b[id]
      {
        if id in rows && rows[id].status.Pending? && !Unlisted(u, id) {
          var i :| 0 <= i < |u| && u[i].id == id;
          assert ids[i] == id;
        } else {
          UnlistedToo(u, v, id);
        }
      }
      SameMap(a, b);
    }
  }

  lemma UnlistedToo(u: seq<Entry>, v: seq<Entry>, id: int)
    requires |u| == |v| && forall i | 0 <= i < |u| :: u[i].id == v[i].id
    ensures Unlisted(u, id) ==> Unlisted(v, id)
  {
  }
}
