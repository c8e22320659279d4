/** The representation invariant of one book, and the proof that a turn of the match loop,
    resting, cancelling, stopping and every whole submit keep it. */
module BookInvariant {
  import opened Domain
  import opened FlatBook

  // ---------------------------------------------------------------- the invariant

  ghost predicate DistinctIds(orders: seq<Order>) {
    forall i, j :: 0 <= i < j < |orders| ==> orders[i].orderId != orders[j].orderId
  }

  /** Better price first; at one price, earlier sequence number first. */
  ghost predicate Precedes(x: Order, y: Order) {
    Better(x.side, x.LimitPrice(), y.LimitPrice()) || (x.LimitPrice() == y.LimitPrice() && x.sequence < y.sequence)
  }

  ghost predicate PriceTime(orders: seq<Order>) {
    forall i, j :: 0 <= i < j < |orders| ==> Precedes(orders[i], orders[j])
  }

  ghost predicate RestingOk(o: Order, side: Side) {
    o.side == side && o.price.Some? && (o.kind.Limit? || o.kind.PostOnly?) &&
    0.0 < o.remainingQuantity <= o.originalQuantity
  }

  ghost predicate SideOk(orders: seq<Order>, side: Side) {
    (forall o :: o in orders ==> RestingOk(o, side)) && PriceTime(orders) && DistinctIds(orders)
  }

  ghost predicate StopOk(o: Order) {
    IsStop(o.kind) && o.stopPrice.Some? && (o.kind.StopLimit? ==> o.price.Some?) &&
    0.0 < o.remainingQuantity == o.originalQuantity
  }

  ghost predicate StopsOk(stops: seq<Order>) {
    (forall o :: o in stops ==> StopOk(o)) && DistinctIds(stops)
  }

  ghost predicate Disjoint(b: Book) {
    Ids(b.bids) !! Ids(b.asks) && b.RestingIds() !! Ids(b.stops)
  }

  /** The status a resting order must have: New exactly while it is unfilled. */
  function RestingEntry(o: Order): StatusEntry {
    StatusEntry(if o.remainingQuantity == o.originalQuantity then New else PartiallyFilled,
                o.originalQuantity - o.remainingQuantity)
  }

  ghost predicate HasEntry(status: map<Id, StatusEntry>, id: Id, entry: StatusEntry) {
    id in status && status[id] == entry
  }

  ghost predicate RestingRecorded(orders: seq<Order>, status: map<Id, StatusEntry>) {
    forall o :: o in orders ==> HasEntry(status, o.orderId, RestingEntry(o))
  }

  ghost predicate StopsRecorded(stops: seq<Order>, status: map<Id, StatusEntry>) {
    forall o :: o in stops ==> HasEntry(status, o.orderId, StatusEntry(PendingStop, 0.0))
  }

  /** No New or PendingStop entry without its order. */
  ghost predicate NothingElseOpen(b: Book) {
    forall id :: id in b.status ==>
      (b.status[id].status.New? ==> id in b.RestingIds()) &&
      (b.status[id].status.PendingStop? ==> id in Ids(b.stops)) &&
      b.status[id].filled >= 0.0
  }

  ghost predicate StatusAgrees(b: Book) {
    RestingRecorded(b.bids, b.status) && RestingRecorded(b.asks, b.status) &&
    StopsRecorded(b.stops, b.status) && NothingElseOpen(b)
  }

  ghost predicate SequencesBelow(orders: seq<Order>, n: nat) {
    forall o :: o in orders ==> o.sequence < n
  }

  ghost predicate NotCrossed(b: Book) {
    forall x, y :: x in b.bids && y in b.asks ==> x.LimitPrice() < y.LimitPrice()
  }

  ghost predicate Wf(b: Book) {
    SideOk(b.bids, Buy) && SideOk(b.asks, Sell) && StopsOk(b.stops) && Disjoint(b) && StatusAgrees(b) &&
    SequencesBelow(b.bids, b.nextSequence + 1) && SequencesBelow(b.asks, b.nextSequence + 1) && NotCrossed(b)
  }

  ghost predicate Fresh(b: Book, id: Id) {
    id !in b.status && id !in b.LiveIds()
  }

  /** Between the start of a submit and its end: the taker is not in the book yet. */
  ghost predicate Midway(b: Book, taker: Order) {
    Wf(b) && Fresh(b, taker.orderId) &&
    0.0 <= taker.remainingQuantity <= taker.originalQuantity &&
    taker.sequence == b.nextSequence &&
    SequencesBelow(b.bids, taker.sequence) && SequencesBelow(b.asks, taker.sequence) &&
    !IsStop(taker.kind) && (RequiresPrice(taker.kind) ==> taker.price.Some?)
  }

  // ---------------------------------------------------------------- pruning

  /** Pruning forgets only entries that are neither live nor open. */
  lemma PruneKeepsLive(b: Book)
    requires StatusAgrees(b)
    ensures StatusAgrees(PruneStatus(b))
    ensures forall id :: id in PruneStatus(b).status ==> HasEntry(b.status, id, PruneStatus(b).status[id])
    ensures forall id :: id in b.status && (id in b.LiveIds() || Retained(b.status[id].status)) ==>
              HasEntry(PruneStatus(b).status, id, b.status[id])
  {
  }

  // ---------------------------------------------------------------- one turn of the match loop

  lemma SliceOk(orders: seq<Order>, side: Side)
    requires SideOk(orders, side) && orders != []
    ensures SideOk(orders[1..], side)
    ensures orders[0].orderId !in Ids(orders[1..])
    ensures Ids(orders) == Ids(orders[1..]) + {orders[0].orderId}
  {
    assert orders == [orders[0]] + orders[1..];
  }

  lemma ReducedOk(orders: seq<Order>, side: Side, q: Decimal)
    requires SideOk(orders, side) && orders != []
    requires 0.0 < q < orders[0].remainingQuantity
    ensures SideOk(orders[0 := Reduced(orders[0], q)], side)
    ensures Ids(orders[0 := Reduced(orders[0], q)]) == Ids(orders)
  {
    var changed := orders[0 := Reduced(orders[0], q)];
    assert orders[0] in orders;
    assert forall i :: 0 <= i < |orders| ==> changed[i].orderId == orders[i].orderId;
    forall o | o in changed ensures RestingOk(o, side) {
      var i :| 0 <= i < |changed| && changed[i] == o;
      assert orders[i] in orders;
    }
    SameIds(orders, changed);
  }

  lemma SameIds(a: seq<Order>, b: seq<Order>)
    requires |a| == |b|
    requires forall i :: 0 <= i < |a| ==> a[i].orderId == b[i].orderId
    ensures Ids(a) == Ids(b)
  {
    forall id | id in Ids(a) ensures id in Ids(b) {
      var i :| 0 <= i < |a| && a[i].orderId == id;
      assert b[i] in b;
    }
    forall id | id in Ids(b) ensures id in Ids(a) {
      var i :| 0 <= i < |b| && b[i].orderId == id;
      assert a[i] in a;
    }
  }

  lemma MakerFilledKeepsWf(b: Book, side: Side)
    requires Wf(b) && b.Resting(side) != []
    ensures Wf(MakerFilled(b, side))
  {
    var makers := b.Resting(side);
    SliceOk(makers, side);
    assert forall o :: o in makers[1..] ==> o in makers;
    assert makers[0] in makers;
  }

  lemma ReducingKeepsWf(b: Book, side: Side, q: Decimal)
    requires Wf(b) && b.Resting(side) != [] && 0.0 < q < b.Resting(side)[0].remainingQuantity
    ensures Wf(BestReduced(b, side, q))
  {
    ReducedStatus(b, side, q);
    hide StatusAgrees, Precedes;
    var makers := b.Resting(side);
    var changed := BestReduced(b, side, q).Resting(side);
    ReducedOk(makers, side, q);
    FrontMembers(makers, changed[0]);
  }

  /** The best maker with less to give, under the status it then has. */
  function BestReduced(b: Book, side: Side, q: Decimal): Book
    requires b.Resting(side) != []
  {
    var maker := Reduced(b.Resting(side)[0], q);
    b.WithResting(side, b.Resting(side)[0 := maker]).(status := b.status[maker.orderId := RestingEntry(maker)])
  }

  lemma FrontMembers(makers: seq<Order>, maker: Order)
    requires makers != []
    ensures makers[0] in makers && forall o :: o in makers[0 := maker] ==> o == maker || o in makers
  {
  }

  lemma OthersStayRecorded(orders: seq<Order>, status: map<Id, StatusEntry>, id: Id, entry: StatusEntry)
    requires RestingRecorded(orders, status) && id !in Ids(orders)
    ensures RestingRecorded(orders, status[id := entry])
  {
    forall o | o in orders ensures HasEntry(status[id := entry], o.orderId, RestingEntry(o)) {
      assert HasEntry(status, o.orderId, RestingEntry(o)) && o.orderId in Ids(orders);
    }
  }

  lemma StopsStayRecorded(stops: seq<Order>, status: map<Id, StatusEntry>, id: Id, entry: StatusEntry)
    requires StopsRecorded(stops, status) && id !in Ids(stops)
    ensures StopsRecorded(stops, status[id := entry])
  {
    forall o | o in stops ensures HasEntry(status[id := entry], o.orderId, StatusEntry(PendingStop, 0.0)) {
      assert HasEntry(status, o.orderId, StatusEntry(PendingStop, 0.0)) && o.orderId in Ids(stops);
    }
  }

  lemma NothingMoreOpen(b: Book, after: Book, id: Id, entry: StatusEntry)
    requires NothingElseOpen(b) && after.RestingIds() == b.RestingIds() && after.stops == b.stops
    requires after.status == b.status[id := entry] && !entry.status.New? && !entry.status.PendingStop? && entry.filled >= 0.0
    ensures NothingElseOpen(after)
  {
  }

  lemma ConsRecorded(first: Order, rest: seq<Order>, status: map<Id, StatusEntry>)
    requires HasEntry(status, first.orderId, RestingEntry(first)) && RestingRecorded(rest, status)
    ensures RestingRecorded([first] + rest, status)
  {
    assert forall o :: o in [first] + rest ==> o == first || o in rest;
  }

  /** What the invariant says of one side and of what is opposite it. */
  lemma WfParts(b: Book, side: Side)
    requires Wf(b)
    ensures var own, others := b.Resting(side), b.Resting(Opposite(side));
            && SideOk(own, side) && SideOk(others, Opposite(side)) && StopsOk(b.stops)
            && RestingRecorded(own, b.status) && RestingRecorded(others, b.status)
            && StopsRecorded(b.stops, b.status) && NothingElseOpen(b)
            && Ids(own) !! Ids(others) && Ids(own) !! Ids(b.stops) && Ids(others) !! Ids(b.stops)
  {
  }

  lemma FirstId(orders: seq<Order>)
    requires orders != []
    ensures orders[0].orderId in Ids(orders)
  {
  }

  lemma ReducedStatus(b: Book, side: Side, q: Decimal)
    requires Wf(b) && b.Resting(side) != [] && 0.0 < q < b.Resting(side)[0].remainingQuantity
    ensures StatusAgrees(BestReduced(b, side, q))
  {
    hide Wf, SideOk, StopsOk, RestingRecorded, StopsRecorded, NothingElseOpen, Ids;
    var makers, others := b.Resting(side), b.Resting(Opposite(side));
    var maker := Reduced(makers[0], q);
    var id, entry := maker.orderId, RestingEntry(maker);
    WfParts(b, side);
    FirstId(makers);
    ReducedOk(makers, side, q);
    ReducedRecorded(makers, side, q, b.status);
    OthersStayRecorded(others, b.status, id, entry);
    StopsStayRecorded(b.stops, b.status, id, entry);
    assert BestReduced(b, side, q).RestingIds() == b.RestingIds();
    NothingMoreOpen(b, BestReduced(b, side, q), id, entry);
  }

  lemma ReducedRecorded(makers: seq<Order>, side: Side, q: Decimal, status: map<Id, StatusEntry>)
    requires SideOk(makers, side) && RestingRecorded(makers, status) && makers != [] && 0.0 < q < makers[0].remainingQuantity
    ensures var maker := Reduced(makers[0], q);
            && RestingRecorded(makers[0 := maker], status[maker.orderId := RestingEntry(maker)])
            && RestingEntry(maker).status.PartiallyFilled? && RestingEntry(maker).filled >= 0.0
  {
    var maker := Reduced(makers[0], q);
    assert makers[0] in makers && RestingOk(makers[0], side);
    SliceOk(makers, side);
    hide SideOk, RestingRecorded, Ids;
    RestRecorded(makers[1..], makers, status);
    OthersStayRecorded(makers[1..], status, maker.orderId, RestingEntry(maker));
    ConsRecorded(maker, makers[1..], status[maker.orderId := RestingEntry(maker)]);
    assert [maker] + makers[1..] == makers[0 := maker];
  }

  lemma RestRecorded(rest: seq<Order>, orders: seq<Order>, status: map<Id, StatusEntry>)
    requires RestingRecorded(orders, status) && forall o :: o in rest ==> o in orders
    ensures RestingRecorded(rest, status)
  {
  }

  lemma PruneKeepsWf(b: Book)
    requires Wf(b)
    ensures Wf(PruneStatus(b))
  {
    PruneKeepsLive(b);
  }

  lemma LogKeepsWf(b: Book, log: seq<Fill>)
    requires Wf(b)
    ensures Wf(b.(auditLog := log))
  {
    assert b.(auditLog := log).RestingIds() == b.RestingIds();
  }

  lemma MakerReducedKeepsWf(b: Book, side: Side, q: Decimal)
    requires Wf(b) && b.Resting(side) != [] && 0.0 < q < b.Resting(side)[0].remainingQuantity
    ensures Wf(MakerReduced(b, side, q))
  {
    assert b.Resting(side)[0] in b.Resting(side);
    ReducingKeepsWf(b, side, q);
    hide Wf;
    PruneKeepsWf(BestReduced(b, side, q));
  }

  lemma FillBestKeepsWf(b: Book, taker: Order)
    requires Wf(b) && CanTrade(taker, b.Resting(Opposite(taker.side)))
    ensures Wf(FillBest(b, taker))
  {
    var side := Opposite(taker.side);
    var maker := b.Resting(side)[0];
    assert maker in b.Resting(side);
    var fill := FillOf(maker, taker);
    if maker.remainingQuantity - fill.quantity == 0.0 {
      MakerFilledKeepsWf(b, side);
      LogKeepsWf(MakerFilled(b, side), b.auditLog + [fill]);
    } else {
      MakerReducedKeepsWf(b, side, fill.quantity);
      LogKeepsWf(MakerReduced(b, side, fill.quantity), b.auditLog + [fill]);
    }
  }

  /** A turn only touches entries of the best maker and introduces no order. */
  lemma FillBestIntroducesNothing(b: Book, taker: Order)
    requires Wf(b) && CanTrade(taker, b.Resting(Opposite(taker.side)))
    ensures FillBest(b, taker).status.Keys <= b.status.Keys
    ensures FillBest(b, taker).LiveIds() <= b.LiveIds()
    ensures FillBest(b, taker).stops == b.stops && FillBest(b, taker).nextSequence == b.nextSequence
    ensures FillBest(b, taker).Resting(taker.side) == b.Resting(taker.side)
    ensures forall n: nat :: SequencesBelow(b.Resting(Opposite(taker.side)), n) ==>
              SequencesBelow(FillBest(b, taker).Resting(Opposite(taker.side)), n)
  {
    var makers := b.Resting(Opposite(taker.side));
    assert makers[0] in makers && makers[0].orderId in b.status;
    var q := FillOf(makers[0], taker).quantity;
    if q == makers[0].remainingQuantity {
      SliceOk(makers, Opposite(taker.side));
      assert forall o :: o in makers[1..] ==> o in makers;
    } else {
      ReducedOk(makers, Opposite(taker.side), q);
      assert forall o :: o in makers[0 := Reduced(makers[0], q)] ==> o == Reduced(makers[0], q) || o in makers;
    }
  }

  lemma FillBestKeepsMidway(b: Book, taker: Order)
    requires Midway(b, taker) && CanTrade(taker, b.Resting(Opposite(taker.side)))
    ensures var makers := b.Resting(Opposite(taker.side));
            Midway(FillBest(b, taker), Reduced(taker, FillOf(makers[0], taker).quantity))
  {
    var makers := b.Resting(Opposite(taker.side));
    assert makers[0] in makers;
    FillBestKeepsWf(b, taker);
    FillBestIntroducesNothing(b, taker);
  }

  // ---------------------------------------------------------------- the whole match loop

  lemma {:induction false} MatchKeepsMidway(b: Book, taker: Order, fills: seq<Fill>)
    requires Midway(b, taker)
    ensures var m := MatchLoop(b, taker, fills);
            && Midway(m.book, m.taker)
            && m.taker == taker.(remainingQuantity := m.taker.remainingQuantity)
            && m.book.status.Keys <= b.status.Keys
            && m.book.LiveIds() <= b.LiveIds()
            && m.book.stops == b.stops
            && m.book.Resting(taker.side) == b.Resting(taker.side)
            && m.book.nextSequence == b.nextSequence
            && m.taker.remainingQuantity <= taker.remainingQuantity
            && |fills| <= |m.fills|
            && (|fills| == |m.fills| <==> m.taker.remainingQuantity == taker.remainingQuantity)
            && (!m.blocked ==> !CanTrade(m.taker, m.book.Resting(Opposite(taker.side))))
    decreases |b.Resting(Opposite(taker.side))|, if taker.remainingQuantity > 0.0 then 1 else 0
  {
    var makers := b.Resting(Opposite(taker.side));
    if CanTrade(taker, makers) && makers[0].userId != taker.userId {
      assert makers[0] in makers;
      FillBestKeepsMidway(b, taker);
      FillBestIntroducesNothing(b, taker);
      var fill := FillOf(makers[0], taker);
      MatchKeepsMidway(FillBest(b, taker), Reduced(taker, fill.quantity), fills + [fill]);
    }
  }

  // ---------------------------------------------------------------- resting the remainder

  lemma {:induction false} InsertMembers(orders: seq<Order>, o: Order)
    ensures forall x :: x in Insert(orders, o) <==> x == o || x in orders
    ensures Ids(Insert(orders, o)) == Ids(orders) + {o.orderId}
    ensures |Insert(orders, o)| == |orders| + 1
  {
    if orders != [] && !Better(o.side, o.LimitPrice(), orders[0].LimitPrice()) {
      InsertMembers(orders[1..], o);
      assert orders == [orders[0]] + orders[1..];
    }
  }

  lemma ConsOk(first: Order, rest: seq<Order>, side: Side)
    requires SideOk(rest, side) && RestingOk(first, side) && first.orderId !in Ids(rest)
    requires forall x :: x in rest ==> Precedes(first, x)
    ensures SideOk([first] + rest, side)
  {
    var all := [first] + rest;
    forall i, j | 0 <= i < j < |all|
      ensures Precedes(all[i], all[j]) && all[i].orderId != all[j].orderId
    {
      assert all[j] == rest[j - 1] && rest[j - 1] in rest;
      if i > 0 {
        assert all[i] == rest[i - 1];
      }
    }
  }

  lemma {:induction false} InsertKeepsOrder(orders: seq<Order>, o: Order)
    requires SideOk(orders, o.side) && RestingOk(o, o.side) && o.orderId !in Ids(orders)
    requires SequencesBelow(orders, o.sequence)
    ensures SideOk(Insert(orders, o), o.side)
  {
    if orders == [] {
    } else if Better(o.side, o.LimitPrice(), orders[0].LimitPrice()) {
      forall x | x in orders ensures Precedes(o, x) {
        var i :| 0 <= i < |orders| && orders[i] == x;
        assert orders[0] in orders;
        assert i > 0 ==> Precedes(orders[0], orders[i]);
      }
      ConsOk(o, orders, o.side);
    } else {
      var tail := orders[1..];
      assert orders[0] in orders;
      SliceOk(orders, o.side);
      assert forall x :: x in tail ==> x in orders;
      InsertKeepsOrder(tail, o);
      InsertMembers(tail, o);
      forall x | x in tail ensures Precedes(orders[0], x) {
        var i :| 0 <= i < |tail| && tail[i] == x;
        assert orders[i + 1] == x;
      }
      ConsOk(orders[0], Insert(tail, o), o.side);
    }
  }

  lemma {:induction false} RestKeepsWf(b: Book, o: Order)
    requires Midway(b, o) && 0.0 < o.remainingQuantity
    requires o.kind.Limit? || o.kind.PostOnly?
    requires !CanTrade(o, b.Resting(Opposite(o.side)))
    ensures Wf(Placed(b, o))
  {
    PlacedSides(b, o);
    PlacedStatus(b, o);
    PlacedUncrossed(b, o);
    hide SideOk, StopsOk, StatusAgrees, SequencesBelow, NotCrossed, Disjoint;
    PlacedRest(b, o);
  }

  lemma PlacedSides(b: Book, o: Order)
    requires Midway(b, o) && 0.0 < o.remainingQuantity && (o.kind.Limit? || o.kind.PostOnly?)
    ensures SideOk(Placed(b, o).bids, Buy) && SideOk(Placed(b, o).asks, Sell)
    ensures SequencesBelow(Placed(b, o).bids, b.nextSequence + 1) && SequencesBelow(Placed(b, o).asks, b.nextSequence + 1)
  {
    hide StatusAgrees, NotCrossed, StopsOk, Precedes;
    InsertKeepsOrder(b.Resting(o.side), o);
    InsertMembers(b.Resting(o.side), o);
  }

  lemma PlacedRest(b: Book, o: Order)
    requires Midway(b, o)
    ensures StopsOk(Placed(b, o).stops) && Disjoint(Placed(b, o)) && Placed(b, o).nextSequence == b.nextSequence
  {
    hide StatusAgrees, NotCrossed, SideOk, SequencesBelow;
    InsertMembers(b.Resting(o.side), o);
  }

  lemma PlacedStatus(b: Book, o: Order)
    requires Midway(b, o) && 0.0 < o.remainingQuantity
    ensures StatusAgrees(Placed(b, o))
  {
    hide NotCrossed, SideOk, SequencesBelow, Insert;
    InsertMembers(b.Resting(o.side), o);
  }

  lemma PlacedUncrossed(b: Book, o: Order)
    requires Midway(b, o) && 0.0 < o.remainingQuantity && (o.kind.Limit? || o.kind.PostOnly?)
    requires !CanTrade(o, b.Resting(Opposite(o.side)))
    ensures NotCrossed(Placed(b, o))
  {
    hide StatusAgrees, SideOk, SequencesBelow, Insert, CanTrade;
    InsertMembers(b.Resting(o.side), o);
    BestGuards(b, o);
  }

  /** The book with the order resting under its settled status. */
  function Placed(b: Book, o: Order): Book {
    b.WithResting(o.side, Insert(b.Resting(o.side), o)).(status := b.status[o.orderId := RestingEntry(o)])
  }

  /** When the best opposite order does not cross, none does. */
  lemma BestGuards(b: Book, o: Order)
    requires Wf(b) && o.price.Some? && !o.kind.Market? && 0.0 < o.remainingQuantity
    requires !CanTrade(o, b.Resting(Opposite(o.side)))
    ensures forall x :: x in b.Resting(Opposite(o.side)) ==>
              if o.side.Buy? then o.LimitPrice() < x.LimitPrice() else x.LimitPrice() < o.LimitPrice()
  {
    var makers := b.Resting(Opposite(o.side));
    forall x | x in makers
      ensures if o.side.Buy? then o.LimitPrice() < x.LimitPrice() else x.LimitPrice() < o.LimitPrice()
    {
      var i :| 0 <= i < |makers| && makers[i] == x;
      assert makers[0] in makers;
      assert i > 0 ==> Precedes(makers[0], makers[i]);
    }
  }

  // ---------------------------------------------------------------- whole operations

  /** Dropping entries of finished orders is harmless. */
  lemma SubStatusKeepsWf(b: Book, kept: map<Id, StatusEntry>)
    requires Wf(b)
    requires forall id :: id in kept ==> HasEntry(b.status, id, kept[id])
    requires forall id :: id in b.status && id in b.LiveIds() ==> id in kept
    ensures Wf(b.(status := kept))
  {
    var b' := b.(status := kept);
    assert b'.RestingIds() == b.RestingIds();
    forall o | o in b.bids ensures HasEntry(kept, o.orderId, RestingEntry(o)) {
      assert o.orderId in b.LiveIds();
    }
    forall o | o in b.asks ensures HasEntry(kept, o.orderId, RestingEntry(o)) {
      assert o.orderId in b.LiveIds();
    }
    forall o | o in b.stops ensures HasEntry(kept, o.orderId, StatusEntry(PendingStop, 0.0)) {
      assert o.orderId in b.LiveIds();
    }
  }

  /** A closed entry under an id that is not in the book. */
  lemma ClosedEntryKeepsWf(b: Book, id: Id, entry: StatusEntry)
    requires Wf(b) && id !in b.LiveIds()
    requires !entry.status.New? && !entry.status.PendingStop? && entry.filled >= 0.0
    ensures Wf(b.(status := b.status[id := entry]))
  {
    var b' := b.(status := b.status[id := entry]);
    assert b'.RestingIds() == b.RestingIds();
    assert forall o :: o in b.bids || o in b.asks || o in b.stops ==> o.orderId in b.LiveIds();
  }

  lemma SubmitStartsMidway(b: Book, o: Order)
    requires Wf(b) && Fresh(b, o.orderId) && Refusal(b, o).None? && !IsStop(o.kind)
    requires o.originalQuantity == o.remainingQuantity
    ensures Midway(Started(b), o.(sequence := b.nextSequence + 1))
  {
    StartedKeepsWf(b);
  }

  lemma BlockedKeepsWf(m: Matching)
    requires Midway(m.book, m.taker)
    ensures Wf(Blocked(m).book)
  {
    var entry := StatusEntry(if m.fills == [] then Rejected else PartiallyFilled,
                             m.taker.originalQuantity - m.taker.remainingQuantity);
    ClosedEntryKeepsWf(m.book, m.taker.orderId, entry);
  }

  lemma FinishedKeepsWf(m: Matching)
    requires Midway(m.book, m.taker) && !CanTrade(m.taker, m.book.Resting(Opposite(m.taker.side)))
    requires m.fills == [] <==> m.taker.remainingQuantity == m.taker.originalQuantity
    ensures Wf(Finished(m).book)
  {
    var id := m.taker.orderId;
    var entry := StatusEntry(FinalStatus(m.taker, m.fills), m.taker.originalQuantity - m.taker.remainingQuantity);
    if Rests(m.taker) {
      RestKeepsWf(m.book, m.taker);
      RestingSettles(m.book, m.taker);
      LogKeepsWf(PruneStatus(Settled(m.book, m.taker)), PrunedLog(m.book.auditLog));
    } else {
      var closed := m.book.(status := m.book.status[id := entry]);
      ClosedEntryKeepsWf(m.book, id, entry);
      PruneKeepsWf(closed);
      LogKeepsWf(PruneStatus(closed), PrunedLog(m.book.auditLog));
    }
  }

  /** The resting order's status as submit overwrites it, before the last pruning. */
  function Settled(b: Book, o: Order): Book {
    var rested := Rest(b, o);
    rested.(status := rested.status[o.orderId := RestingEntry(o)])
  }

  lemma RestingSettles(b: Book, o: Order)
    requires Midway(b, o) && Wf(Placed(b, o))
    ensures Wf(Settled(b, o)) && Wf(PruneStatus(Settled(b, o)))
    ensures Settled(b, o).LiveIds() == b.LiveIds() + {o.orderId}
  {
    InsertMembers(b.Resting(o.side), o);
    var placed := Placed(b, o);
    var settled := Settled(b, o);
    assert settled == placed.(status := settled.status);
    assert placed.RestingIds() == b.RestingIds() + {o.orderId};
    SubStatusKeepsWf(placed, settled.status);
    PruneKeepsWf(settled);
  }

  /** The book with the stop pending, before any pruning. */
  function Pending(b: Book, stop: Order): Book {
    b.(stops := b.stops + [stop], status := b.status[stop.orderId := StatusEntry(PendingStop, 0.0)])
  }

  lemma PendingKeepsWf(b: Book, stop: Order)
    requires Wf(b) && Fresh(b, stop.orderId) && StopOk(stop)
    ensures Wf(Pending(b, stop))
    ensures Pending(b, stop).LiveIds() == b.LiveIds() + {stop.orderId}
  {
    assert forall x :: x in b.stops + [stop] <==> x == stop || x in b.stops;
    assert Ids(b.stops + [stop]) == Ids(b.stops) + {stop.orderId};
    assert Pending(b, stop).RestingIds() == b.RestingIds();
    assert forall x :: x in b.bids || x in b.asks || x in b.stops ==> x.orderId in b.LiveIds();
    StopsAppendOk(b.stops, stop);
  }

  lemma StopSettles(b: Book, o: Order)
    requires Wf(b) && Fresh(b, o.orderId) && Refusal(b, o).None? && IsStop(o.kind)
    requires o.originalQuantity == o.remainingQuantity
    ensures Wf(AcceptStop(b, o).book)
    ensures AcceptStop(b, o).book.LiveIds() == b.LiveIds() + {o.orderId}
  {
    hide SideOk, NotCrossed, StopsOk, SequencesBelow;
    var stop := o.(sequence := b.nextSequence + 1);
    StartedKeepsWf(b);
    var full := Pending(Started(b), stop);
    PendingKeepsWf(Started(b), stop);
    var kept := AcceptStop(b, o).book.status;
    assert full.(stops := b.stops).RestingIds() == full.RestingIds();
    assert forall x :: x in b.bids || x in b.asks || x in b.stops ==> x.orderId in b.LiveIds();
    SubStatusKeepsWf(full, kept);
    assert AcceptStop(b, o).book == full.(status := kept);
  }

  lemma StartedKeepsWf(b: Book)
    requires Wf(b)
    ensures Wf(Started(b)) && Started(b).LiveIds() == b.LiveIds()
  {
    assert Started(b).RestingIds() == b.RestingIds();
  }

  lemma StopsAppendOk(stops: seq<Order>, stop: Order)
    requires StopsOk(stops) && StopOk(stop) && stop.orderId !in Ids(stops)
    ensures StopsOk(stops + [stop])
  {
    assert forall x :: x in stops + [stop] <==> x == stop || x in stops;
    assert forall i :: 0 <= i < |stops| ==> stops[i] in stops;
  }

  /** An order as clients and stops send it: nothing filled yet. */
  ghost predicate Unfilled(o: Order) {
    o.originalQuantity == o.remainingQuantity
  }

  lemma SubmitKeepsWf(b: Book, o: Order)
    requires Wf(b) && Unfilled(o)
    ensures Wf(Submit(b, o).book)
  {
    if Refusal(b, o).None? && !(Killed(b, o) && !IsStop(o.kind)) {
      AcceptedIsFresh(b, o);
      if IsStop(o.kind) {
        StopSettles(b, o);
      } else {
        SubmitStartsMidway(b, o);
        MatchKeepsMidway(Started(b), o.(sequence := b.nextSequence + 1), []);
        var m := Matched(b, o);
        if m.blocked {
          BlockedKeepsWf(m);
        } else {
          FinishedKeepsWf(m);
        }
      }
    }
  }

  /** Every live id has a status entry, so the duplicate check protects pending stops too. */
  lemma AcceptedIsFresh(b: Book, o: Order)
    requires Wf(b) && Refusal(b, o).None?
    ensures Fresh(b, o.orderId)
  {
    assert forall x :: x in b.stops ==> x.orderId in b.status;
  }
}
