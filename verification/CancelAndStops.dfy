/** Cancelling, firing stops and the stop cascade: each keeps the book's invariant, no
    fired stop is lost, and no traded price leaves a stop behind that it should have fired. */
module CancelAndStops {
  import opened Domain
  import opened FlatBook
  import opened BookInvariant

  // ---------------------------------------------------------------- cancelling

  lemma {:induction false} PositionFinds(orders: seq<Order>, orderId: Id, userId: Id)
    ensures var k := Position(orders, orderId, userId);
            && (k < |orders| ==> orders[k].orderId == orderId && orders[k].userId == userId)
            && forall i :: 0 <= i < k ==> !(orders[i].orderId == orderId && orders[i].userId == userId)
  {
    if orders != [] && !(orders[0].orderId == orderId && orders[0].userId == userId) {
      PositionFinds(orders[1..], orderId, userId);
      assert forall i :: 0 < i < |orders| ==> orders[i] == orders[1..][i - 1];
    }
  }

  lemma {:induction false} NotOwned(orders: seq<Order>, orderId: Id, userId: Id)
    requires forall o :: o in orders ==> o.orderId != orderId || o.userId != userId
    ensures !Owns(orders, orderId, userId)
  {
    if orders != [] {
      assert orders[0] in orders && forall o :: o in orders[1..] ==> o in orders;
      NotOwned(orders[1..], orderId, userId);
    }
  }

  lemma WithoutMembers(orders: seq<Order>, k: nat)
    requires k < |orders| && DistinctIds(orders)
    ensures forall o :: o in Without(orders, k) <==> o in orders && o.orderId != orders[k].orderId
    ensures Ids(Without(orders, k)) == Ids(orders) - {orders[k].orderId}
    ensures DistinctIds(Without(orders, k))
  {
    WithoutContains(orders, k);
    var rest := Without(orders, k);
    forall i, j | 0 <= i < j < |rest| ensures rest[i].orderId != rest[j].orderId {
      assert rest[i] == orders[if i < k then i else i + 1] && rest[j] == orders[if j < k then j else j + 1];
    }
  }

  lemma WithoutContains(orders: seq<Order>, k: nat)
    requires k < |orders| && DistinctIds(orders)
    ensures forall o :: o in Without(orders, k) <==> o in orders && o.orderId != orders[k].orderId
  {
    var rest := Without(orders, k);
    forall o | o in rest ensures o in orders && o.orderId != orders[k].orderId {
      var i :| 0 <= i < |rest| && rest[i] == o;
      assert o == orders[if i < k then i else i + 1];
    }
    forall o | o in orders && o.orderId != orders[k].orderId ensures o in rest {
      var i :| 0 <= i < |orders| && orders[i] == o;
      assert rest[if i < k then i else i - 1] == o;
    }
  }

  lemma WithoutKeepsOrder(orders: seq<Order>, k: nat)
    requires k < |orders| && PriceTime(orders)
    ensures PriceTime(Without(orders, k))
  {
    var rest := Without(orders, k);
    forall i | 0 <= i < |rest| ensures rest[i] == orders[if i < k then i else i + 1] {}
  }

  function CancelledEntry(o: Order): StatusEntry {
    StatusEntry(Cancelled, o.originalQuantity - o.remainingQuantity)
  }

  lemma RemoveRestingOk(b: Book, side: Side, k: nat)
    requires Wf(b) && k < |b.Resting(side)|
    ensures var o := b.Resting(side)[k];
            Wf(WithStatus(WithRemoved(b, side, k), o.orderId, CancelledEntry(o)))
  {
    RemovedStatus(b, side, k);
    hide StatusAgrees, Precedes;
    WithoutMembers(b.Resting(side), k);
    WithoutKeepsOrder(b.Resting(side), k);
  }

  lemma RemovedStatus(b: Book, side: Side, k: nat)
    requires Wf(b) && k < |b.Resting(side)|
    ensures var o := b.Resting(side)[k];
            StatusAgrees(WithStatus(WithRemoved(b, side, k), o.orderId, CancelledEntry(o)))
  {
    hide Wf, SideOk, StopsOk, RestingRecorded, StopsRecorded, Without;
    var orders, others := b.Resting(side), b.Resting(Opposite(side));
    var o := orders[k];
    assert o in orders;
    WfParts(b, side);
    DistinctOn(orders, side);
    WithoutMembers(orders, k);
    RestRecorded(Without(orders, k), orders, b.status);
    OthersStayRecorded(Without(orders, k), b.status, o.orderId, CancelledEntry(o));
    OthersStayRecorded(others, b.status, o.orderId, CancelledEntry(o));
    StopsStayRecorded(b.stops, b.status, o.orderId, CancelledEntry(o));
    assert RestingOk(o, side);
  }

  lemma DistinctOn(orders: seq<Order>, side: Side)
    requires SideOk(orders, side)
    ensures DistinctIds(orders) && forall o :: o in orders ==> RestingOk(o, side)
  {
  }

  lemma RemoveStopOk(b: Book, k: nat)
    requires Wf(b) && k < |b.stops|
    ensures Wf(WithStatus(b.(stops := Without(b.stops, k)), b.stops[k].orderId, CancelledEntry(b.stops[k])))
  {
    assert b.stops[k] in b.stops;
    WithoutMembers(b.stops, k);
    assert b.(stops := Without(b.stops, k)).RestingIds() == b.RestingIds();
    assert forall o :: o in b.bids || o in b.asks ==> o.orderId in b.RestingIds();
  }

  /** Marking a removed order cancelled is writing its entry, then pruning. */
  lemma MarkKeepsWf(removed: Book, o: Order)
    requires Wf(WithStatus(removed, o.orderId, CancelledEntry(o)))
    ensures Wf(MarkCancelled(removed, o))
  {
    hide Wf;
    PruneKeepsWf(WithStatus(removed, o.orderId, CancelledEntry(o)));
  }

  lemma CancelRestingKeepsWf(b: Book, side: Side, k: nat)
    requires Wf(b) && k < |b.Resting(side)|
    ensures Wf(CancelResting(b, side, k))
  {
    RemoveRestingOk(b, side, k);
    hide Wf, MarkCancelled, WithRemoved;
    MarkKeepsWf(WithRemoved(b, side, k), b.Resting(side)[k]);
  }

  lemma CancelKeepsWf(b: Book, orderId: Id, userId: Id)
    requires Wf(b)
    ensures Wf(Cancel(b, orderId, userId).book)
  {
    hide Wf, CancelResting, MarkCancelled, Position;
    if Owns(b.bids, orderId, userId) {
      CancelRestingKeepsWf(b, Buy, Position(b.bids, orderId, userId));
    } else if Owns(b.asks, orderId, userId) {
      CancelRestingKeepsWf(b, Sell, Position(b.asks, orderId, userId));
    } else if Owns(b.stops, orderId, userId) {
      var k := Position(b.stops, orderId, userId);
      RemoveStopOk(b, k);
      MarkKeepsWf(b.(stops := Without(b.stops, k)), b.stops[k]);
    }
  }

  // ---------------------------------------------------------------- what exactly a cancel does

  ghost predicate Holds(orders: seq<Order>, orderId: Id, userId: Id) {
    exists o :: o in orders && o.orderId == orderId && o.userId == userId
  }

  lemma OwnsHolds(orders: seq<Order>, orderId: Id, userId: Id)
    ensures Owns(orders, orderId, userId) <==> Holds(orders, orderId, userId)
  {
    PositionFinds(orders, orderId, userId);
    var k := Position(orders, orderId, userId);
    if k < |orders| {
      assert orders[k] in orders;
    } else {
      forall o | o in orders ensures o.orderId != orderId || o.userId != userId {
        var i :| 0 <= i < |orders| && orders[i] == o;
      }
    }
  }

  /** A list without one id, or the same list when it does not hold it. */
  ghost predicate Less(after: seq<Order>, before: seq<Order>, orderId: Id) {
    forall o :: o in after <==> o in before && o.orderId != orderId
  }

  lemma OthersLess(orders: seq<Order>, orderId: Id)
    requires orderId !in Ids(orders)
    ensures Less(orders, orders, orderId)
  {
    assert forall o :: o in orders ==> o.orderId in Ids(orders);
  }

  ghost predicate CancelledIn(c: Cancellation, b: Book, o: Order) {
    && c.cancelled
    && Less(c.book.bids, b.bids, o.orderId) && Less(c.book.asks, b.asks, o.orderId) && Less(c.book.stops, b.stops, o.orderId)
    && c.book.auditLog == b.auditLog && c.book.nextSequence == b.nextSequence
    && (o.orderId in c.book.status ==> c.book.status[o.orderId] == StatusEntry(Cancelled, o.originalQuantity - o.remainingQuantity))
  }

  lemma CancelRestingExactly(b: Book, side: Side, k: nat)
    requires Wf(b) && k < |b.Resting(side)|
    ensures CancelledIn(Cancellation(CancelResting(b, side, k), true), b, b.Resting(side)[k])
  {
    var o := b.Resting(side)[k];
    assert o in b.Resting(side);
    WithoutMembers(b.Resting(side), k);
    OthersLess(b.Resting(Opposite(side)), o.orderId);
    OthersLess(b.stops, o.orderId);
  }

  lemma CancelStopExactly(b: Book, k: nat)
    requires Wf(b) && k < |b.stops|
    ensures CancelledIn(Cancellation(CancelStop(b, k), true), b, b.stops[k])
  {
    var o := b.stops[k];
    assert o in b.stops;
    WithoutMembers(b.stops, k);
    OthersLess(b.bids, o.orderId);
    OthersLess(b.asks, o.orderId);
  }

  /** A cancel succeeds exactly when the user has a live order with that id; then it takes
      that order out, records what was filled of it, and leaves every other order alone. */
  lemma CancelExactly(b: Book, orderId: Id, userId: Id)
    requires Wf(b)
    ensures var c := Cancel(b, orderId, userId);
            && (c.cancelled <==> Holds(b.bids, orderId, userId) || Holds(b.asks, orderId, userId) || Holds(b.stops, orderId, userId))
            && (c.cancelled ==> exists o :: (o in b.bids || o in b.asks || o in b.stops) && o.orderId == orderId && o.userId == userId && CancelledIn(c, b, o))
            && (!c.cancelled ==> c.book == b)
  {
    OwnsHolds(b.bids, orderId, userId);
    OwnsHolds(b.asks, orderId, userId);
    OwnsHolds(b.stops, orderId, userId);
    PositionFinds(b.bids, orderId, userId);
    PositionFinds(b.asks, orderId, userId);
    PositionFinds(b.stops, orderId, userId);
    if Owns(b.bids, orderId, userId) {
      var k := Position(b.bids, orderId, userId);
      CancelRestingExactly(b, Buy, k);
      assert b.bids[k] in b.bids;
    } else if Owns(b.asks, orderId, userId) {
      var k := Position(b.asks, orderId, userId);
      CancelRestingExactly(b, Sell, k);
      assert b.asks[k] in b.asks;
    } else if Owns(b.stops, orderId, userId) {
      var k := Position(b.stops, orderId, userId);
      CancelStopExactly(b, k);
      assert b.stops[k] in b.stops;
    }
  }

  // ---------------------------------------------------------------- firing stops

  /** A submit brings no id into the book or the status log but its own. */
  lemma SubmitIntroducesOnly(b: Book, o: Order)
    requires Wf(b) && Unfilled(o)
    ensures Submit(b, o).book.status.Keys <= b.status.Keys + {o.orderId}
    ensures Submit(b, o).book.LiveIds() <= b.LiveIds() + {o.orderId}
    ensures !IsStop(o.kind) ==> Submit(b, o).book.stops == b.stops
  {
    if Refusal(b, o).None? && !(Killed(b, o) && !IsStop(o.kind)) {
      AcceptedIsFresh(b, o);
      if IsStop(o.kind) {
        StopSettles(b, o);
      } else {
        ExecuteIntroducesOnly(b, o);
      }
    }
  }

  /** What the end of matching does to the sides: the remainder rests, or nothing changes. */
  lemma FinishedSides(m: Matching)
    ensures var b := Finished(m).book;
            && b.stops == m.book.stops && b.nextSequence == m.book.nextSequence
            && b.Resting(Opposite(m.taker.side)) == m.book.Resting(Opposite(m.taker.side))
            && b.Resting(m.taker.side) == (if Rests(m.taker) then Insert(m.book.Resting(m.taker.side), m.taker)
                                           else m.book.Resting(m.taker.side))
            && b.status.Keys <= m.book.status.Keys + {m.taker.orderId}
  {
  }

  /** Either way a match ends, stops and sequence numbers stay as they are. */
  lemma EndKeepsStops(m: Matching)
    ensures var after := (if m.blocked then Blocked(m) else Finished(m)).book;
            after.stops == m.book.stops && after.nextSequence == m.book.nextSequence
  {
    FinishedSides(m);
  }

  lemma ExecuteIntroducesOnly(b: Book, o: Order)
    requires Wf(b) && Unfilled(o) && Refusal(b, o).None? && Fresh(b, o.orderId) && !IsStop(o.kind)
    ensures Execute(b, o).book.status.Keys <= b.status.Keys + {o.orderId}
    ensures Execute(b, o).book.LiveIds() <= b.LiveIds() + {o.orderId}
    ensures Execute(b, o).book.stops == b.stops
  {
    MatchIntroducesNothing(b, o);
    hide Wf, Refusal, Blocked, Finished, Matched, Ids;
    EndIntroducesOnly(Matched(b, o));
  }

  lemma MatchIntroducesNothing(b: Book, o: Order)
    requires Wf(b) && Unfilled(o) && Refusal(b, o).None? && Fresh(b, o.orderId) && !IsStop(o.kind)
    ensures var m := Matched(b, o);
            && m.book.status.Keys <= b.status.Keys && m.book.LiveIds() <= b.LiveIds()
            && m.book.stops == b.stops && m.taker.orderId == o.orderId
  {
    hide Wf, Midway, Refusal, Fresh, MatchLoop, Book.LiveIds;
    SubmitStartsMidway(b, o);
    StartedKeepsWf(b);
    MatchKeepsMidway(Started(b), o.(sequence := b.nextSequence + 1), []);
  }

  lemma EndIntroducesOnly(m: Matching)
    ensures var after := (if m.blocked then Blocked(m) else Finished(m)).book;
            && after.status.Keys <= m.book.status.Keys + {m.taker.orderId}
            && after.LiveIds() <= m.book.LiveIds() + {m.taker.orderId}
            && after.stops == m.book.stops
  {
    var after := (if m.blocked then Blocked(m) else Finished(m)).book;
    InsertMembers(m.book.Resting(m.taker.side), m.taker);
    FinishedSides(m);
    assert Ids(after.Resting(m.taker.side)) <= Ids(m.book.Resting(m.taker.side)) + {m.taker.orderId};
    assert after.Resting(Opposite(m.taker.side)) == m.book.Resting(Opposite(m.taker.side));
  }

  lemma {:induction false} SelectMembers(stops: seq<Order>, p: Decimal, ready: bool)
    ensures forall o :: o in Select(stops, p, ready) <==> o in stops && Triggers(o, p) == ready
    ensures DistinctIds(stops) ==> DistinctIds(Select(stops, p, ready))
    ensures |Select(stops, p, true)| + |Select(stops, p, false)| == |stops|
  {
    if stops != [] {
      SelectMembers(stops[1..], p, ready);
      assert stops == [stops[0]] + stops[1..];
      if DistinctIds(stops) {
        FirstIdAlone(stops);
        ConsDistinct(stops[0], Select(stops[1..], p, ready));
      }
    }
  }

  lemma FirstIdAlone(orders: seq<Order>)
    requires DistinctIds(orders) && orders != []
    ensures DistinctIds(orders[1..])
    ensures forall o :: o in orders[1..] ==> o.orderId != orders[0].orderId
  {
    forall o | o in orders[1..] ensures o.orderId != orders[0].orderId {
      var i :| 0 <= i < |orders[1..]| && orders[1..][i] == o;
      assert orders[i + 1] == o;
    }
  }

  lemma ConsDistinct(first: Order, rest: seq<Order>)
    requires DistinctIds(rest) && forall o :: o in rest ==> o.orderId != first.orderId
    ensures DistinctIds([first] + rest)
  {
    var all := [first] + rest;
    forall i, j | 0 <= i < j < |all| ensures all[i].orderId != all[j].orderId {
      assert all[j] == rest[j - 1] && rest[j - 1] in rest;
      if i > 0 {
        assert all[i] == rest[i - 1];
      }
    }
  }

  lemma SameIdSameOrder(orders: seq<Order>, x: Order, y: Order)
    requires DistinctIds(orders) && x in orders && y in orders && x.orderId == y.orderId
    ensures x == y
  {
    var i :| 0 <= i < |orders| && orders[i] == x;
    var j :| 0 <= j < |orders| && orders[j] == y;
  }

  /** Fired and kept stops share no id; together they are all stops. */
  lemma SelectSplits(b: Book, p: Decimal)
    requires StopsOk(b.stops)
    ensures Ids(Select(b.stops, p, true)) !! Ids(Select(b.stops, p, false))
    ensures Ids(Select(b.stops, p, true)) + Ids(Select(b.stops, p, false)) == Ids(b.stops)
    ensures StopsOk(Select(b.stops, p, false))
  {
    var ready, kept := Select(b.stops, p, true), Select(b.stops, p, false);
    SelectMembers(b.stops, p, true);
    SelectMembers(b.stops, p, false);
    forall x, y | x in ready && y in kept ensures x.orderId != y.orderId {
      if x.orderId == y.orderId {
        SameIdSameOrder(b.stops, x, y);
      }
    }
    assert forall o :: o in b.stops ==> o in ready || o in kept;
  }

  lemma DisarmedKeepsWf(b: Book, p: Decimal)
    requires Wf(b)
    ensures Wf(Disarmed(b, p))
    ensures forall o :: o in Select(b.stops, p, true) ==> Fresh(Disarmed(b, p), o.orderId)
  {
    SelectSplits(b, p);
    SelectMembers(b.stops, p, false);
    var d := Disarmed(b, p);
    var readyIds := Ids(Select(b.stops, p, true));
    assert d.RestingIds() == b.RestingIds();
    DisarmedStatusAgrees(b, p);
    assert forall id :: id in readyIds ==> id in Ids(b.stops) && id !in d.status && id !in Ids(d.stops);
    assert d.LiveIds() !! readyIds;
  }

  lemma DisarmedStatusAgrees(b: Book, p: Decimal)
    requires Wf(b)
    ensures StatusAgrees(Disarmed(b, p))
  {
    SelectSplits(b, p);
    SelectMembers(b.stops, p, false);
    var d := Disarmed(b, p);
    var fired := Ids(Select(b.stops, p, true));
    assert d.RestingIds() == b.RestingIds() && d.status == b.status - fired;
    assert forall o :: o in b.bids || o in b.asks ==> o.orderId in b.RestingIds();
    assert forall o :: o in d.stops ==> o.orderId in Ids(d.stops);
    hide Select, Disarmed;
    KeptStayRecorded(b.bids, b.status, fired);
    KeptStayRecorded(b.asks, b.status, fired);
    assert StopsRecorded(d.stops, d.status);
  }

  lemma KeptStayRecorded(orders: seq<Order>, status: map<Id, StatusEntry>, gone: set<Id>)
    requires RestingRecorded(orders, status) && forall o :: o in orders ==> o.orderId !in gone
    ensures RestingRecorded(orders, status - gone)
  {
    forall o | o in orders ensures HasEntry(status - gone, o.orderId, RestingEntry(o)) {
      assert HasEntry(status, o.orderId, RestingEntry(o));
    }
  }

  /** Orders about to be submitted one after the other, none of them known to the book. */
  ghost predicate Queued(b: Book, orders: seq<Order>) {
    DistinctIds(orders) &&
    forall o :: o in orders ==>
      Fresh(b, o.orderId) && Unfilled(o) && 0.0 < o.remainingQuantity &&
      (o.kind.Market? || o.kind.Limit?) && (o.kind.Limit? ==> o.price.Some?)
  }

  lemma QueueAdvances(b: Book, orders: seq<Order>)
    requires Wf(b) && Queued(b, orders) && orders != []
    ensures Queued(Submit(b, orders[0]).book, orders[1..])
  {
    assert orders[0] in orders;
    hide Submit, Wf;
    SubmitIntroducesOnly(b, orders[0]);
    QueueShrinks(b, Submit(b, orders[0]).book, orders);
  }

  /** A book that has taken up at most the first of the queue knows none of the others. */
  lemma QueueShrinks(before: Book, after: Book, orders: seq<Order>)
    requires Queued(before, orders) && orders != []
    requires after.status.Keys <= before.status.Keys + {orders[0].orderId}
    requires after.LiveIds() <= before.LiveIds() + {orders[0].orderId}
    ensures Queued(after, orders[1..])
  {
    FirstIdAlone(orders);
    forall x | x in orders[1..] ensures x in orders && Fresh(after, x.orderId) {
      var i :| 0 <= i < |orders[1..]| && orders[1..][i] == x;
      assert orders[i + 1] == x;
    }
  }

  ghost predicate Executed(report: ExecutionReport, o: Order) {
    report.orderId == o.orderId && (report.reason.None? || report.reason == Some(SelfTrade))
  }

  /** Only the self-trade exit turns an order of a queue away, never a duplicate id. */
  lemma {:induction false} SubmitAllKeepsWf(b: Book, orders: seq<Order>)
    requires Wf(b) && Queued(b, orders)
    ensures Wf(SubmitAll(b, orders).book)
    ensures SubmitAll(b, orders).book.stops == b.stops
    ensures forall i :: 0 <= i < |orders| ==> Executed(SubmitAll(b, orders).reports[i], orders[i])
    ensures SubmitAll(b, orders).book.status.Keys <= b.status.Keys + Ids(orders)
    ensures SubmitAll(b, orders).book.LiveIds() <= b.LiveIds() + Ids(orders)
    decreases |orders|
  {
    if orders != [] {
      var o := orders[0];
      QueuedIsAnswered(b, o, orders);
      hide Submit, Wf, Queued;
      QueueAdvances(b, orders);
      SubmitAllKeepsWf(Submit(b, o).book, orders[1..]);
      assert Ids(orders) == Ids(orders[1..]) + {o.orderId} by {
        assert orders == [o] + orders[1..];
      }
      assert forall i :: 0 < i < |orders| ==> orders[i] == orders[1..][i - 1];
    }
  }

  lemma QueuedIsAnswered(b: Book, o: Order, orders: seq<Order>)
    requires Wf(b) && Queued(b, orders) && o in orders
    ensures Executed(Submit(b, o).report, o)
    ensures Wf(Submit(b, o).book) && Submit(b, o).book.stops == b.stops
    ensures Submit(b, o).book.status.Keys <= b.status.Keys + {o.orderId}
    ensures Submit(b, o).book.LiveIds() <= b.LiveIds() + {o.orderId}
  {
    assert Refusal(b, o).None? && !IsStop(o.kind) && Unfilled(o);
    hide Wf, Queued, Submit, Refusal;
    ReportNames(b, o);
    SubmitKeepsWf(b, o);
    SubmitIntroducesOnly(b, o);
    SubmitLeavesStops(b, o);
  }

  lemma SubmitLeavesStops(b: Book, o: Order)
    requires Wf(b) && Unfilled(o) && Refusal(b, o).None? && !IsStop(o.kind)
    ensures Submit(b, o).book.stops == b.stops
  {
    AcceptedIsFresh(b, o);
    ExecuteIntroducesOnly(b, o);
  }

  lemma ReportNames(b: Book, o: Order)
    requires Wf(b) && Unfilled(o)
    ensures Submit(b, o).report.orderId == o.orderId
    ensures Refusal(b, o).None? ==> Submit(b, o).report.reason.None? || Submit(b, o).report.reason == Some(SelfTrade)
  {
    if Refusal(b, o).None? && !IsStop(o.kind) {
      AcceptedIsFresh(b, o);
      SubmitStartsMidway(b, o);
      MatchKeepsMidway(Started(b), o.(sequence := b.nextSequence + 1), []);
    }
  }

  lemma FiredStopsQueue(b: Book, p: Decimal)
    requires Wf(b)
    ensures Queued(Disarmed(b, p), ActivateAll(Select(b.stops, p, true)))
  {
    var ready := Select(b.stops, p, true);
    SelectMembers(b.stops, p, true);
    DisarmedKeepsWf(b, p);
    var fired := ActivateAll(ready);
    forall o | o in fired
      ensures Fresh(Disarmed(b, p), o.orderId) && Unfilled(o) && 0.0 < o.remainingQuantity
      ensures (o.kind.Market? || o.kind.Limit?) && (o.kind.Limit? ==> o.price.Some?)
    {
      var i :| 0 <= i < |fired| && fired[i] == o;
      assert ready[i] in ready;
    }
  }

  /** Firing stops keeps the book sound; every fired stop is executed, none is refused, and
      exactly the stops the price does not fire stay pending. */
  lemma TriggerStopsKeepsWf(b: Book, p: Decimal)
    requires Wf(b)
    ensures var t := TriggerStops(b, p);
            && Wf(t.book)
            && t.book.stops == Select(b.stops, p, false)
            && |t.reports| == |Select(b.stops, p, true)|
            && (forall o :: o in t.book.stops ==> o in b.stops && !Triggers(o, p))
            && (forall i :: 0 <= i < |t.reports| ==>
                  Executed(t.reports[i], Select(b.stops, p, true)[i]))
    ensures TriggerStops(b, p).book.LiveIds() <= b.LiveIds()
    ensures TriggerStops(b, p).book.status.Keys <= b.status.Keys
  {
    var ready := Select(b.stops, p, true);
    DisarmedKeepsWf(b, p);
    FiredStopsQueue(b, p);
    SelectMembers(b.stops, p, true);
    SelectMembers(b.stops, p, false);
    SubmitAllKeepsWf(Disarmed(b, p), ActivateAll(ready));
    assert Disarmed(b, p).RestingIds() == b.RestingIds();
    SameIds(ready, ActivateAll(ready));
    assert forall o :: o in b.stops ==> o.orderId in b.status;
  }
}
