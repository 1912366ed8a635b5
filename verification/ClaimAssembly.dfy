/** The loops that every driver's Claim runs after its lease statement: put the
    leased ids back into poll order, sort out the poisoned rows, and collect the
    rest, whatever order the engine returned its rows in. */
module ClaimAssembly {
  import opened Collections
  import opened Tables
  import opened Statements

  /** One delivery as Claim hands it to its caller. */
  datatype Handed = Handed(id: int, row: Delivery, topic: string, channel: string, body: string)

  /** The inner joins of the body query find the row's message, channel and topic. */
  predicate Joins(db: Db, id: int) {
    && id in db.deliveries
    && db.deliveries[id].messageId in db.messages
    && db.deliveries[id].channelId in db.channels
    && db.channels[db.deliveries[id].channelId].topicId in db.topics
  }

  function JoinedRow(db: Db, id: int): Handed
    requires Joins(db, id)
  {
    var d := db.deliveries[id];
    var c := db.channels[d.channelId];
    Handed(id, d, db.topics[c.topicId], c.name, db.messages[d.messageId].body)
  }

  /** The body query reports the row, and it is not poisoned. */
  predicate Deliverable(db: Db, id: int) {
    Joins(db, id) && !Poisoned(db.deliveries[id])
  }

  /** What the caller gets: the claimed rows in poll order without the poisoned ones. */
  function HandedOut(db: Db, claimed: seq<int>): seq<Handed> {
    if claimed == [] then []
    else
      var last := claimed[|claimed| - 1];
      var rest := HandedOut(db, claimed[..|claimed| - 1]);
      if Deliverable(db, last) then rest + [JoinedRow(db, last)] else rest
  }

  function PoisonedAmong(db: Db, ids: set<int>): set<int> {
    set id | id in ids && id in db.deliveries && Poisoned(db.deliveries[id])
  }

  /** Rebuilds claim order from the ids RETURNING yielded. */
  method KeepPollOrder(ids: seq<int>, returned: seq<int>) returns (claimed: seq<int>)
    ensures claimed == Keep(ids, set id | id in returned)
  {
    var leased: set<int> := {};
    for i := 0 to |returned|
      invariant leased == set id | id in returned[..i]
    {
      leased := leased + {returned[i]};
      assert returned[..i + 1] == returned[..i] + [returned[i]];
    }
    assert returned[..|returned|] == returned;
    claimed := [];
    for i := 0 to |ids|
      invariant claimed == Keep(ids[..i], leased)
    {
      assert ids[..i + 1][..i] == ids[..i];
      if ids[i] in leased {
        claimed := claimed + [ids[i]];
      }
    }
    assert ids[..|ids|] == ids;
  }

  /** Reads the body rows, in whatever order they come, into the poisoned ids and the rows to hand out. */
  method SortOut(db: Db, bodyRows: seq<int>) returns (dead: set<int>, byId: map<int, Handed>)
    requires forall i | 0 <= i < |bodyRows| :: Joins(db, bodyRows[i])
    ensures dead == PoisonedAmong(db, set id | id in bodyRows)
    ensures forall id :: id in byId <==> id in bodyRows && Deliverable(db, id)
    ensures forall id | id in byId :: Joins(db, id) && byId[id] == JoinedRow(db, id)
  {
    dead, byId := {}, map[];
    for i := 0 to |bodyRows|
      invariant dead == PoisonedAmong(db, set id | id in bodyRows[..i])
      invariant forall id :: id in byId <==> id in bodyRows[..i] && Deliverable(db, id)
      invariant forall id | id in byId :: Joins(db, id) && byId[id] == JoinedRow(db, id)
    {
      var id := bodyRows[i];
      assert bodyRows[..i + 1] == bodyRows[..i] + [id];
      if Poisoned(db.deliveries[id]) {
        dead := dead + {id};
      } else {
        byId := byId[id := JoinedRow(db, id)];
      }
    }
    assert bodyRows[..|bodyRows|] == bodyRows;
  }

  /** Preserves claim order. */
  method Collect(db: Db, claimed: seq<int>, byId: map<int, Handed>) returns (out: seq<Handed>)
    requires forall i | 0 <= i < |claimed| :: claimed[i] in byId <==> Deliverable(db, claimed[i])
    requires forall id | id in byId :: Joins(db, id) && byId[id] == JoinedRow(db, id)
    ensures out == HandedOut(db, claimed)
  {
    out := [];
    for i := 0 to |claimed|
      invariant out == HandedOut(db, claimed[..i])
    {
      assert claimed[..i + 1][..i] == claimed[..i];
      if claimed[i] in byId {
        out := out + [byId[claimed[i]]];
      }
    }
    assert claimed[..|claimed|] == claimed;
  }

  /** Everything after the lease statement: for every order of the RETURNING
      rows and every order of the body rows, the result is the poll order minus
      the unleased and the poisoned. */
  method Assemble(db: Db, ids: seq<int>, returned: seq<int>, bodyRows: seq<int>)
    returns (claimed: seq<int>, dead: set<int>, out: seq<Handed>)
    requires forall i | 0 <= i < |bodyRows| :: Joins(db, bodyRows[i])
    requires forall id :: id in bodyRows <==> id in ids && id in returned
    ensures claimed == Keep(ids, set id | id in returned)
    ensures dead == PoisonedAmong(db, set id | id in bodyRows)
    ensures out == HandedOut(db, claimed)
  {
    claimed := KeepPollOrder(ids, returned);
    KeepLists(ids, set id | id in returned);
    var byId: map<int, Handed>;
    dead, byId := SortOut(db, bodyRows);
    out := Collect(db, claimed, byId);
  }
}
