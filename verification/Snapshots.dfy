/** Snapshots of a book. Levels are written without their cached totals and the id index is
    not written at all; restoring rebuilds both. Decimal text is taken to be lossless. */
module Snapshots {
  import opened Domain
  import opened FlatBook
  import opened BookInvariant
  import opened SubmitLaws
  import opened History
  import opened PriceLevels

  type OrderIndex = map<Id, (Side, Decimal)>

  ghost predicate Indexed(index: OrderIndex, orders: seq<Order>) {
    forall o :: o in orders ==> o.orderId in index && index[o.orderId] == (o.side, o.LimitPrice())
  }

  /** The index is exactly the map from resting ids to side and price. */
  ghost predicate IndexAgrees(index: OrderIndex, bids: seq<Order>, asks: seq<Order>) {
    index.Keys == Ids(bids) + Ids(asks) && Indexed(index, bids) && Indexed(index, asks)
  }

  // ---------------------------------------------------------------- the stored state

  /** Everything the book stores. */
  datatype State = State(
    bids: Levels,
    asks: Levels,
    stopOrders: seq<Order>,
    orderIndex: OrderIndex,
    status: map<Id, StatusEntry>,
    auditLog: seq<Fill>,
    nextSequence: nat)

  function Flat(s: State): Book {
    Book(Flatten(s.bids, Buy), Flatten(s.asks, Sell), s.stopOrders, s.status, s.auditLog, s.nextSequence)
  }

  ghost predicate ValidState(s: State) {
    LevelsOk(s.bids) && LevelsOk(s.asks) && IndexAgrees(s.orderIndex, Flatten(s.bids, Buy), Flatten(s.asks, Sell)) &&
    Wf(Flat(s))
  }

  lemma IndexUnique(a: OrderIndex, b: OrderIndex, bids: seq<Order>, asks: seq<Order>)
    requires IndexAgrees(a, bids, asks) && IndexAgrees(b, bids, asks)
    ensures a == b
  {
    forall id | id in a ensures a[id] == b[id] {
      assert id in Ids(bids) || id in Ids(asks);
      var o :| (o in bids || o in asks) && o.orderId == id;
    }
  }

  /** The flat view loses nothing: two valid stored states with the same flat view are the
      same, levels, cached totals and index included. */
  lemma FlatDeterminesState(a: State, b: State)
    requires ValidState(a) && ValidState(b) && Flat(a) == Flat(b)
    ensures a == b
  {
    FlattenInjective(a.bids, b.bids, Buy);
    FlattenInjective(a.asks, b.asks, Sell);
    IndexUnique(a.orderIndex, b.orderIndex, Flat(a).bids, Flat(a).asks);
  }

  /** Resting a fresh limit order and cancelling it restores what is stored for both sides:
      levels, cached totals and the id index, and the pending stops. */
  lemma StoredRestThenCancel(s: State, o: Order, after: State)
    requires ValidState(s) && ValidState(after)
    requires Unfilled(o) && Refusal(Flat(s), o).None? && (o.kind.Limit? || o.kind.PostOnly?)
    requires !WouldCross(o, Makers(Flat(s), o))
    requires Flat(after) == Cancel(Submit(Flat(s), o).book, o.orderId, o.userId).book
    ensures after.bids == s.bids && after.asks == s.asks && after.orderIndex == s.orderIndex && after.stopOrders == s.stopOrders
  {
    RestThenCancelRestores(Flat(s), o);
    FlattenInjective(after.bids, s.bids, Buy);
    FlattenInjective(after.asks, s.asks, Sell);
    IndexUnique(after.orderIndex, s.orderIndex, Flat(s).bids, Flat(s).asks);
  }

  // ---------------------------------------------------------------- writing

  datatype LevelSnapshot = LevelSnapshot(price: Decimal, orders: seq<Order>)

  datatype StatusSnapshot = StatusSnapshot(orderId: Id, entry: StatusEntry)

  datatype BookSnapshot = BookSnapshot(
    bids: seq<LevelSnapshot>,
    asks: seq<LevelSnapshot>,
    stopOrders: seq<Order>,
    status: seq<StatusSnapshot>,
    auditLog: seq<Fill>,
    nextSequence: nat)

  /** The levels in ascending price order, whichever side they are. */
  function LevelList(levels: Levels): seq<LevelSnapshot>
    decreases |levels|
  {
    if levels == map[] then []
    else
      var lowest := Best(levels.Keys, Sell);
      [LevelSnapshot(lowest, levels[lowest].orders)] + LevelList(levels - {lowest})
  }

  /** A listing of the status log in whatever order the hash map yields. */
  ghost predicate ListsStatus(list: seq<StatusSnapshot>, status: map<Id, StatusEntry>) {
    (forall e :: e in list ==> HasEntry(status, e.orderId, e.entry)) &&
    (forall id :: id in status ==> StatusSnapshot(id, status[id]) in list)
  }

  ghost predicate SnapshotOf(snapshot: BookSnapshot, s: State) {
    snapshot.bids == LevelList(s.bids) && snapshot.asks == LevelList(s.asks) &&
    snapshot.stopOrders == s.stopOrders && ListsStatus(snapshot.status, s.status) &&
    snapshot.auditLog == s.auditLog && snapshot.nextSequence == s.nextSequence
  }

  // ---------------------------------------------------------------- restoring

  function RestoredLevel(l: LevelSnapshot): PriceLevel {
    PriceLevel(l.price, l.orders, TotalRemaining(l.orders))
  }

  function RestoredLevels(list: seq<LevelSnapshot>): Levels {
    if list == [] then map[]
    else
      var last := list[|list| - 1];
      RestoredLevels(list[..|list| - 1])[last.price := RestoredLevel(last)]
  }

  function IndexOrders(index: OrderIndex, side: Side, price: Decimal, orders: seq<Order>): OrderIndex {
    if orders == [] then index
    else IndexOrders(index, side, price, orders[..|orders| - 1])[orders[|orders| - 1].orderId := (side, price)]
  }

  function IndexLevels(index: OrderIndex, side: Side, list: seq<LevelSnapshot>): OrderIndex {
    if list == [] then index
    else
      var last := list[|list| - 1];
      IndexOrders(IndexLevels(index, side, list[..|list| - 1]), side, last.price, last.orders)
  }

  function RestoredStatus(list: seq<StatusSnapshot>): map<Id, StatusEntry> {
    if list == [] then map[]
    else RestoredStatus(list[..|list| - 1])[list[|list| - 1].orderId := list[|list| - 1].entry]
  }

  function Restored(snapshot: BookSnapshot): State {
    State(RestoredLevels(snapshot.bids), RestoredLevels(snapshot.asks), snapshot.stopOrders,
          IndexLevels(IndexLevels(map[], Buy, snapshot.bids), Sell, snapshot.asks),
          RestoredStatus(snapshot.status), snapshot.auditLog, snapshot.nextSequence)
  }

  // ---------------------------------------------------------------- restoring what was written

  lemma SplitLast<T>(list: seq<T>)
    requires list != []
    ensures forall x :: x in list <==> x in list[..|list| - 1] || x == list[|list| - 1]
  {
    assert list == list[..|list| - 1] + [list[|list| - 1]];
  }

  lemma {:induction false} RestoredLevelsHold(list: seq<LevelSnapshot>)
    ensures forall l :: l in list ==> l.price in RestoredLevels(list)
    ensures forall p :: p in RestoredLevels(list) ==> exists l :: l in list && l.price == p && RestoredLevels(list)[p] == RestoredLevel(l)
  {
    if list != [] {
      SplitLast(list);
      RestoredLevelsHold(list[..|list| - 1]);
      var last := list[|list| - 1];
      forall p | p in RestoredLevels(list)
        ensures exists l :: l in list && l.price == p && RestoredLevels(list)[p] == RestoredLevel(l)
      {
        if p == last.price {
          assert last in list;
        } else {
          var l :| l in list[..|list| - 1] && l.price == p && RestoredLevels(list[..|list| - 1])[p] == RestoredLevel(l);
          assert l in list;
        }
      }
    }
  }

  lemma {:induction false} LevelListHolds(levels: Levels)
    ensures forall l :: l in LevelList(levels) <==> l.price in levels && l.orders == levels[l.price].orders
    decreases |levels|
  {
    if levels != map[] {
      var lowest := Best(levels.Keys, Sell);
      LevelListHolds(levels - {lowest});
    }
  }

  lemma LevelsRoundTrip(levels: Levels)
    requires LevelsOk(levels)
    ensures RestoredLevels(LevelList(levels)) == levels
  {
    var list := LevelList(levels);
    LevelListHolds(levels);
    RestoredLevelsHold(list);
    forall p | p in levels ensures p in RestoredLevels(list) {
      assert LevelSnapshot(p, levels[p].orders) in list;
    }
    forall p | p in RestoredLevels(list) ensures p in levels && RestoredLevels(list)[p] == levels[p] {
      var l :| l in list && l.price == p && RestoredLevels(list)[p] == RestoredLevel(l);
      assert LevelOk(p, levels[p]);
    }
  }

  lemma {:induction false} StatusRoundTrip(list: seq<StatusSnapshot>, status: map<Id, StatusEntry>)
    requires forall e :: e in list ==> HasEntry(status, e.orderId, e.entry)
    ensures forall id :: id in RestoredStatus(list) ==> HasEntry(status, id, RestoredStatus(list)[id])
    ensures forall e :: e in list ==> e.orderId in RestoredStatus(list)
  {
    if list != [] {
      SplitLast(list);
      assert list[|list| - 1] in list;
      StatusRoundTrip(list[..|list| - 1], status);
    }
  }

  /** Every index entry comes from an order written at that side and price, or was there. */
  ghost predicate Explained(index: OrderIndex, before: OrderIndex, side: Side, price: Decimal, orders: seq<Order>) {
    forall id :: id in index ==>
      HasIndex(before, id, index[id]) || (index[id] == (side, price) && id in Ids(orders))
  }

  ghost predicate HasIndex(index: OrderIndex, id: Id, at: (Side, Decimal)) {
    id in index && index[id] == at
  }

  lemma {:induction false} IndexOrdersExplained(index: OrderIndex, side: Side, price: Decimal, orders: seq<Order>)
    ensures Explained(IndexOrders(index, side, price, orders), index, side, price, orders)
    ensures IndexOrders(index, side, price, orders).Keys == index.Keys + Ids(orders)
  {
    if orders != [] {
      SplitLast(orders);
      IndexOrdersExplained(index, side, price, orders[..|orders| - 1]);
      assert Ids(orders) == Ids(orders[..|orders| - 1]) + {orders[|orders| - 1].orderId};
    }
  }

  /** A level whose orders an index already places correctly. */
  ghost predicate PlacedBy(index: OrderIndex, side: Side, l: LevelSnapshot) {
    forall o :: o in l.orders ==> HasIndex(index, o.orderId, (side, l.price))
  }

  lemma IndexOrdersWithin(index: OrderIndex, full: OrderIndex, side: Side, l: LevelSnapshot)
    requires forall id :: id in index ==> HasIndex(full, id, index[id])
    requires PlacedBy(full, side, l)
    ensures forall id :: id in IndexOrders(index, side, l.price, l.orders) ==>
              HasIndex(full, id, IndexOrders(index, side, l.price, l.orders)[id])
    ensures forall o :: o in l.orders ==> o.orderId in IndexOrders(index, side, l.price, l.orders)
    ensures index.Keys <= IndexOrders(index, side, l.price, l.orders).Keys
  {
    IndexOrdersExplained(index, side, l.price, l.orders);
  }

  lemma {:induction false} IndexLevelsWithin(index: OrderIndex, full: OrderIndex, side: Side, list: seq<LevelSnapshot>)
    requires forall id :: id in index ==> HasIndex(full, id, index[id])
    requires forall l :: l in list ==> PlacedBy(full, side, l)
    ensures forall id :: id in IndexLevels(index, side, list) ==> HasIndex(full, id, IndexLevels(index, side, list)[id])
    ensures forall l, o :: l in list && o in l.orders ==> o.orderId in IndexLevels(index, side, list)
    ensures index.Keys <= IndexLevels(index, side, list).Keys
  {
    if list != [] {
      SplitLast(list);
      assert list[|list| - 1] in list;
      IndexLevelsWithin(index, full, side, list[..|list| - 1]);
      IndexOrdersWithin(IndexLevels(index, side, list[..|list| - 1]), full, side, list[|list| - 1]);
    }
  }

  lemma SidePlaced(levels: Levels, side: Side, index: OrderIndex)
    requires LevelsOk(levels) && Indexed(index, Flatten(levels, side)) && SideOk(Flatten(levels, side), side)
    ensures forall l :: l in LevelList(levels) ==> PlacedBy(index, side, l)
    ensures forall o :: o in Flatten(levels, side) ==> exists l :: l in LevelList(levels) && o in l.orders
  {
    LevelListHolds(levels);
    FlattenMembers(levels, side);
    forall l | l in LevelList(levels) ensures PlacedBy(index, side, l) {
      forall o | o in l.orders ensures HasIndex(index, o.orderId, (side, l.price)) {
        assert LevelOk(l.price, levels[l.price]);
        assert o in Flatten(levels, side);
      }
    }
    forall o | o in Flatten(levels, side) ensures exists l :: l in LevelList(levels) && o in l.orders {
      var p :| p in levels && o in levels[p].orders;
      assert LevelSnapshot(p, levels[p].orders) in LevelList(levels);
    }
  }

  lemma SideCovered(levels: Levels, side: Side, index: OrderIndex, result: OrderIndex)
    requires LevelsOk(levels) && Indexed(index, Flatten(levels, side)) && SideOk(Flatten(levels, side), side)
    requires forall l, o :: l in LevelList(levels) && o in l.orders ==> o.orderId in result
    ensures Ids(Flatten(levels, side)) <= result.Keys
  {
    SidePlaced(levels, side, index);
    forall id | id in Ids(Flatten(levels, side)) ensures id in result {
      var o :| o in Flatten(levels, side) && o.orderId == id;
      var l :| l in LevelList(levels) && o in l.orders;
    }
  }

  lemma IndexRoundTrip(bids: Levels, asks: Levels, full: OrderIndex)
    requires LevelsOk(bids) && LevelsOk(asks) && IndexAgrees(full, Flatten(bids, Buy), Flatten(asks, Sell))
    requires SideOk(Flatten(bids, Buy), Buy) && SideOk(Flatten(asks, Sell), Sell)
    ensures IndexLevels(IndexLevels(map[], Buy, LevelList(bids)), Sell, LevelList(asks)) == full
  {
    SidePlaced(bids, Buy, full);
    SidePlaced(asks, Sell, full);
    var half := IndexLevels(map[], Buy, LevelList(bids));
    IndexLevelsWithin(map[], full, Buy, LevelList(bids));
    SideCovered(bids, Buy, full, half);
    IndexLevelsWithin(half, full, Sell, LevelList(asks));
    var index := IndexLevels(half, Sell, LevelList(asks));
    SideCovered(asks, Sell, full, index);
    SameMap(index, full);
  }

  lemma SameMap(a: OrderIndex, b: OrderIndex)
    requires forall id :: id in a ==> HasIndex(b, id, a[id])
    requires b.Keys <= a.Keys
    ensures a == b
  {
  }

  /** Restoring a snapshot of a valid book gives back that book: every level with its queue
      and total, the index, the stops, the statuses, the audit log and the sequence. */
  lemma SnapshotRoundTrip(snapshot: BookSnapshot, s: State)
    requires ValidState(s) && SnapshotOf(snapshot, s)
    ensures Restored(snapshot) == s
  {
    LevelsRoundTrip(s.bids);
    LevelsRoundTrip(s.asks);
    StatusRoundTrip(snapshot.status, s.status);
    forall id | id in s.status ensures id in RestoredStatus(snapshot.status) {
      assert StatusSnapshot(id, s.status[id]) in snapshot.status;
    }
    assert RestoredStatus(snapshot.status) == s.status;
    IndexRoundTrip(s.bids, s.asks, s.orderIndex);
  }
}
