/** What each kind of order does, in prices and quantities alone: what is on offer to it, how
    much of that it takes, what rests and what turns it away. */
module OrderKinds {
  import opened Domain
  import opened FlatBook
  import opened BookInvariant
  import opened GreedyMatching
  import opened BestExecution
  import opened SubmitLaws

  // ---------------------------------------------------------------- what is on offer

  /** The prices an order is willing to trade at; no limit means any. */
  predicate Accepts(side: Side, limit: Option<Decimal>, price: Decimal) {
    limit.None? || if side.Buy? then price <= limit.value else price >= limit.value
  }

  /** All that rests at those prices. */
  function Offered(side: Side, limit: Option<Decimal>, makers: seq<Order>): Decimal {
    if makers == [] then 0.0
    else (if Accepts(side, limit, makers[0].LimitPrice()) then makers[0].remainingQuantity else 0.0) + Offered(side, limit, makers[1..])
  }

  /** The resting orders in front of the user's first own one. */
  function Ahead(userId: Id, makers: seq<Order>): seq<Order> {
    if makers == [] || makers[0].userId == userId then [] else [makers[0]] + Ahead(userId, makers[1..])
  }

  function Others(userId: Id, makers: seq<Order>): seq<Order> {
    if makers == [] then []
    else (if makers[0].userId == userId then [] else [makers[0]]) + Others(userId, makers[1..])
  }

  /** A market order has no limit, whatever price it carries. */
  function LimitOf(kind: OrderKind, price: Option<Decimal>): Option<Decimal> {
    if kind.Market? then None else price
  }

  ghost predicate NoneOwn(userId: Id, side: Side, limit: Option<Decimal>, makers: seq<Order>) {
    forall m :: m in makers && Accepts(side, limit, m.LimitPrice()) ==> m.userId != userId
  }

  /** What a non-stop order needs: an id never seen, a quantity, and a price unless it is a
      market order. */
  predicate Admitted(b: Book, o: Order) {
    o.orderId !in b.status && o.remainingQuantity > 0.0 && (o.kind.Market? || o.price.Some?)
  }

  function OnOffer(b: Book, o: Order): Decimal {
    Offered(o.side, LimitOf(o.kind, o.price), Ahead(o.userId, Makers(b, o)))
  }

  // ---------------------------------------------------------------- the matcher's measures, in prices

  lemma CrossesByPrice(o: Order, price: Decimal)
    requires o.kind.Market? || o.price.Some?
    ensures Crosses(o, price) <==> Accepts(o.side, LimitOf(o.kind, o.price), price)
  {
  }

  lemma {:induction false} NothingOffered(side: Side, limit: Option<Decimal>, makers: seq<Order>)
    requires forall m :: m in makers ==> !Accepts(side, limit, m.LimitPrice())
    ensures Offered(side, limit, makers) == 0.0
  {
    if makers != [] {
      assert makers[0] in makers && forall m :: m in makers[1..] ==> m in makers;
      NothingOffered(side, limit, makers[1..]);
    }
  }

  lemma {:induction false} AheadAreMakers(userId: Id, makers: seq<Order>)
    ensures forall m :: m in Ahead(userId, makers) ==> m in makers && m.userId != userId
    ensures forall m :: m in Others(userId, makers) <==> m in makers && m.userId != userId
  {
    if makers != [] {
      assert makers == [makers[0]] + makers[1..];
      AheadAreMakers(userId, makers[1..]);
    }
  }

  /** On a list in price order, nothing behind an unacceptable price is acceptable. */
  lemma PricedOut(side: Side, limit: Option<Decimal>, makers: seq<Order>)
    requires Ascending(side, makers) && makers != [] && !Accepts(side, limit, makers[0].LimitPrice())
    ensures forall m :: m in makers ==> !Accepts(side, limit, m.LimitPrice())
  {
    forall m | m in makers ensures !Accepts(side, limit, m.LimitPrice()) {
      var i :| 0 <= i < |makers| && makers[i] == m;
      assert i > 0 ==> AtLeast(side, m.LimitPrice(), makers[0].LimitPrice());
    }
  }

  lemma {:induction false} ReachableIsOffered(o: Order, makers: seq<Order>)
    requires Ascending(o.side, makers) && (o.kind.Market? || o.price.Some?)
    ensures ReachableQuantity(o, makers) == Offered(o.side, LimitOf(o.kind, o.price), Ahead(o.userId, makers))
  {
    if makers != [] {
      var limit := LimitOf(o.kind, o.price);
      CrossesByPrice(o, makers[0].LimitPrice());
      if !Crosses(o, makers[0].LimitPrice()) {
        PricedOut(o.side, limit, makers);
        AheadAreMakers(o.userId, makers);
        NothingOffered(o.side, limit, Ahead(o.userId, makers));
      } else if makers[0].userId != o.userId {
        TailAscending(o.side, makers);
        ReachableIsOffered(o, makers[1..]);
        assert ([makers[0]] + Ahead(o.userId, makers[1..]))[1..] == Ahead(o.userId, makers[1..]);
      }
    }
  }

  lemma {:induction false} CrossingIsOffered(o: Order, makers: seq<Order>)
    requires Ascending(o.side, makers) && (o.kind.Market? || o.price.Some?)
    ensures CrossingQuantity(o, makers) == Offered(o.side, LimitOf(o.kind, o.price), Others(o.userId, makers))
  {
    if makers != [] {
      var limit := LimitOf(o.kind, o.price);
      CrossesByPrice(o, makers[0].LimitPrice());
      if !Crosses(o, makers[0].LimitPrice()) {
        PricedOut(o.side, limit, makers);
        AheadAreMakers(o.userId, makers);
        NothingOffered(o.side, limit, Others(o.userId, makers));
      } else {
        TailAscending(o.side, makers);
        CrossingIsOffered(o, makers[1..]);
        assert ([makers[0]] + Others(o.userId, makers[1..]))[1..] == Others(o.userId, makers[1..]);
        assert [] + Others(o.userId, makers[1..]) == Others(o.userId, makers[1..]);
      }
    }
  }

  /** With none of its own in range, all that is on offer is ahead of them. */
  lemma {:induction false} NoneInTheWay(userId: Id, side: Side, limit: Option<Decimal>, makers: seq<Order>)
    requires Ascending(side, makers) && NoneOwn(userId, side, limit, makers)
    ensures Offered(side, limit, Ahead(userId, makers)) == Offered(side, limit, makers)
  {
    hide Accepts, AtLeast;
    if makers != [] {
      if !Accepts(side, limit, makers[0].LimitPrice()) {
        AheadAreMakers(userId, makers);
        PricedOut(side, limit, makers);
        NothingOffered(side, limit, makers);
        NothingOffered(side, limit, Ahead(userId, makers));
      } else {
        assert makers[0] in makers;
        NoneOwnBehind(userId, side, limit, makers);
        NoneInTheWay(userId, side, limit, makers[1..]);
        assert ([makers[0]] + Ahead(userId, makers[1..]))[1..] == Ahead(userId, makers[1..]);
      }
    }
  }

  lemma NoneOwnBehind(userId: Id, side: Side, limit: Option<Decimal>, makers: seq<Order>)
    requires Ascending(side, makers) && NoneOwn(userId, side, limit, makers) && makers != []
    ensures Ascending(side, makers[1..]) && NoneOwn(userId, side, limit, makers[1..])
  {
    TailAscending(side, makers);
    assert forall m :: m in makers[1..] ==> m in makers;
  }

  /** And it is from others. */
  lemma {:induction false} NoneAmongThem(userId: Id, side: Side, limit: Option<Decimal>, makers: seq<Order>)
    requires Ascending(side, makers) && NoneOwn(userId, side, limit, makers)
    ensures Offered(side, limit, Others(userId, makers)) == Offered(side, limit, makers)
  {
    hide Accepts, AtLeast;
    if makers != [] {
      if !Accepts(side, limit, makers[0].LimitPrice()) {
        AheadAreMakers(userId, makers);
        PricedOut(side, limit, makers);
        NothingOffered(side, limit, makers);
        NothingOffered(side, limit, Others(userId, makers));
      } else {
        assert makers[0] in makers;
        NoneOwnBehind(userId, side, limit, makers);
        NoneAmongThem(userId, side, limit, makers[1..]);
        assert ([makers[0]] + Others(userId, makers[1..]))[1..] == Others(userId, makers[1..]);
      }
    }
  }

  lemma {:induction false} AllOffered(side: Side, makers: seq<Order>)
    ensures Offered(side, None, makers) == TotalRemaining(makers)
  {
    if makers != [] {
      AllOffered(side, makers[1..]);
    }
  }

  lemma NoneOwnCrosses(o: Order, makers: seq<Order>)
    requires o.kind.Market? || o.price.Some?
    ensures NoneOwn(o.userId, o.side, LimitOf(o.kind, o.price), makers) <==> NoOwnCrossing(o, makers)
  {
    forall m | m in makers ensures Accepts(o.side, LimitOf(o.kind, o.price), m.LimitPrice()) <==> Crosses(o, m.LimitPrice()) {
      CrossesByPrice(o, m.LimitPrice());
    }
  }

  // ---------------------------------------------------------------- which orders are turned away

  lemma RestingIdsKnown(b: Book)
    requires Wf(b)
    ensures b.RestingIds() <= b.status.Keys
  {
  }

  /** An order that is not admitted is turned away with the first reason that applies, and
      nothing changes. */
  lemma TurnedAwayExactly(b: Book, o: Order)
    requires Wf(b) && Unfilled(o) && !IsStop(o.kind) && !Admitted(b, o)
    ensures Submit(b, o) == Submitted(b, ExecutionReport(o.orderId, false, Rejected, [],
              Some(if o.orderId in b.status then DuplicateOrderId
                   else if o.remainingQuantity <= 0.0 then QuantityNotPositive else PriceRequired)))
  {
    RestingIdsKnown(b);
  }

  /** A stop waits, last in the list, if it has a new id, a quantity, a stop price and, for a
      stop-limit, a limit; otherwise it is turned away. Either way nothing trades. */
  lemma StopWaits(b: Book, o: Order)
    requires Wf(b) && Unfilled(o) && IsStop(o.kind)
    ensures var s := Submit(b, o);
            if o.orderId !in b.status && o.remainingQuantity > 0.0 && o.stopPrice.Some? && (o.kind.StopLimit? ==> o.price.Some?) then
              && s.report == ExecutionReport(o.orderId, true, PendingStop, [], None)
              && s.book.stops == b.stops + [o.(sequence := b.nextSequence + 1)]
              && s.book.bids == b.bids && s.book.asks == b.asks && s.book.auditLog == b.auditLog
            else s.book == b && !s.report.accepted && s.report.status.Rejected? && s.report.fills == []
  {
    RestingIdsKnown(b);
  }

  // ---------------------------------------------------------------- market, limit, immediate or cancel

  /** The remainder as it rests. */
  function RestOf(b: Book, o: Order, remaining: Decimal): Order {
    o.(sequence := b.nextSequence + 1, remainingQuantity := remaining)
  }

  lemma TakersExecute(b: Book, o: Order)
    requires Wf(b) && Unfilled(o) && Admitted(b, o) && (o.kind.Market? || o.kind.Limit? || o.kind.Ioc?)
    ensures Executes(b, o)
  {
    RestingIdsKnown(b);
  }

  /** What an executed order fills, and whether it is stopped by its own user. */
  lemma ExecutedInPrices(b: Book, o: Order)
    requires Wf(b) && Unfilled(o) && Admitted(b, o) && Executes(b, o)
    ensures var g := Greedy(o, Makers(b, o));
            && TotalQuantity(Submit(b, o).report.fills) == Min(o.remainingQuantity, OnOffer(b, o))
            && g.remaining == o.remainingQuantity - Min(o.remainingQuantity, OnOffer(b, o))
            && (g.blocked <==> OnOffer(b, o) < o.remainingQuantity && !NoneOwn(o.userId, o.side, LimitOf(o.kind, o.price), Makers(b, o)))
  {
    hide Wf, Submit, Executes, Greedy, SideOk;
    MakersSound(b, o);
    SideAscends(o, Makers(b, o));
    SubmitFillsReachable(b, o);
    ReachableIsOffered(o, Makers(b, o));
    GreedyFills(o, Makers(b, o));
    BlockedExactly(o, Makers(b, o));
    NoneOwnCrosses(o, Makers(b, o));
  }

  /** Whatever an order trades is at prices it accepts and with other users. */
  lemma FillsInRange(b: Book, o: Order)
    requires Wf(b) && Unfilled(o) && Admitted(b, o) && !IsStop(o.kind)
    ensures forall f :: f in Submit(b, o).report.fills ==>
              && Accepts(o.side, LimitOf(o.kind, o.price), f.price) && f.quantity > 0.0
              && f.takerOrderId == o.orderId && f.takerUserId == o.userId && f.makerUserId != o.userId
  {
    if Executes(b, o) {
      hide Wf, Submit, Executes;
      SubmitIsGreedy(b, o);
      var makers, fills := Makers(b, o), Submit(b, o).report.fills;
      forall f | f in fills
        ensures Accepts(o.side, LimitOf(o.kind, o.price), f.price) && f.quantity > 0.0
        ensures f.takerOrderId == o.orderId && f.takerUserId == o.userId && f.makerUserId != o.userId
      {
        var i :| 0 <= i < |fills| && fills[i] == f;
        assert FillMatches(o, makers[i], fills[i]);
        CrossesByPrice(o, f.price);
      }
    }
  }

  /** A market, limit or immediate order takes the lesser of what it wants and what others
      offer at its prices ahead of its user's own orders. What a limit order does not get
      rests, unless one of its user's own is in its range; nothing of the others ever does. */
  lemma TakesWhatIsOffered(b: Book, o: Order)
    requires Wf(b) && Unfilled(o) && Admitted(b, o) && (o.kind.Market? || o.kind.Limit? || o.kind.Ioc?)
    ensures var s, available := Submit(b, o), OnOffer(b, o);
            var rests := o.kind.Limit? && available < o.remainingQuantity && NoneOwn(o.userId, o.side, o.price, Makers(b, o));
            && TotalQuantity(s.report.fills) == Min(o.remainingQuantity, available)
            && (o.orderId in s.book.RestingIds() <==> rests)
            && (rests ==> RestOf(b, o, o.remainingQuantity - available) in s.book.Resting(o.side))
  {
    hide Wf, Submit, Executes, Greedy, OnOffer, NoneOwn, SideOk;
    TakersExecute(b, o);
    MakersSound(b, o);
    ExecutedInPrices(b, o);
    SubmitIsGreedy(b, o);
    RestsUnderItsId(b, o);
    InsertMembers(b.Resting(o.side), Remainder(b, o));
  }

  /** With none of its user's own at prices it accepts, that is all there is at those prices;
      for a market order, all there is. */
  lemma TakesAllInRange(b: Book, o: Order)
    requires Wf(b) && Unfilled(o) && Admitted(b, o) && (o.kind.Market? || o.kind.Limit? || o.kind.Ioc?)
    requires NoneOwn(o.userId, o.side, LimitOf(o.kind, o.price), Makers(b, o))
    ensures TotalQuantity(Submit(b, o).report.fills)
         == Min(o.remainingQuantity, Offered(o.side, LimitOf(o.kind, o.price), Makers(b, o)))
    ensures o.kind.Market? ==> TotalQuantity(Submit(b, o).report.fills) == Min(o.remainingQuantity, TotalRemaining(Makers(b, o)))
  {
    hide Wf, Submit, SideOk;
    MakersSound(b, o);
    SideAscends(o, Makers(b, o));
    TakesWhatIsOffered(b, o);
    NoneInTheWay(o.userId, o.side, LimitOf(o.kind, o.price), Makers(b, o));
    AllOffered(o.side, Makers(b, o));
  }

  // ---------------------------------------------------------------- post only, fill or kill

  ghost predicate SomethingInRange(o: Order, makers: seq<Order>) {
    exists m :: m in makers && Accepts(o.side, o.price, m.LimitPrice())
  }

  /** A post-only order is turned away when any order rests at a price it would take, its
      user's own included; otherwise it rests in full. */
  lemma PostOnlyByPrice(b: Book, o: Order)
    requires Wf(b) && Unfilled(o) && Admitted(b, o) && o.kind.PostOnly?
    ensures var s := Submit(b, o);
            if SomethingInRange(o, Makers(b, o)) then s == Submitted(b, ExecutionReport(o.orderId, false, Rejected, [], Some(PostOnlyWouldTake)))
            else
              && s.report == ExecutionReport(o.orderId, true, New, [], None)
              && RestOf(b, o, o.remainingQuantity) in s.book.Resting(o.side) && s.book.Resting(Opposite(o.side)) == Makers(b, o)
  {
    var makers := Makers(b, o);
    RestingIdsKnown(b);
    forall m | m in makers ensures Crosses(o, m.LimitPrice()) <==> Accepts(o.side, o.price, m.LimitPrice()) {
      CrossesByPrice(o, m.LimitPrice());
    }
    hide Wf, Submit, Crosses, Accepts;
    PostOnlyNeverTakes(b, o);
    if !SomethingInRange(o, makers) {
      PostOnlyRests(b, o);
    }
  }

  lemma PostOnlyRests(b: Book, o: Order)
    requires Wf(b) && Unfilled(o) && Admitted(b, o) && o.kind.PostOnly? && Submit(b, o).report.accepted
    requires Submit(b, o).report.fills == []
    ensures Submit(b, o).report == ExecutionReport(o.orderId, true, New, [], None)
    ensures RestOf(b, o, o.remainingQuantity) in Submit(b, o).book.Resting(o.side)
  {
    RestingIdsKnown(b);
    assert Executes(b, o);
    hide Wf, Submit, Executes, Greedy;
    SubmitIsGreedy(b, o);
    SubmitReports(b, o);
    ExecutedInPrices(b, o);
    RestsUnderItsId(b, o);
    InsertMembers(b.Resting(o.side), Remainder(b, o));
  }

  /** A fill-or-kill order is killed, with nothing changed, when others offer less than it
      wants at its prices; otherwise it takes what is ahead of its user's own orders, all it
      wants if none of those is in range. It never rests. */
  lemma FillOrKillByPrice(b: Book, o: Order)
    requires Wf(b) && Unfilled(o) && Admitted(b, o) && o.kind.Fok?
    ensures var s, makers := Submit(b, o), Makers(b, o);
            && o.orderId !in s.book.RestingIds()
            && if Offered(o.side, o.price, Others(o.userId, makers)) < o.remainingQuantity
               then s == Submitted(b, ExecutionReport(o.orderId, true, Expired, [], None))
               else
                 && TotalQuantity(s.report.fills) == Min(o.remainingQuantity, OnOffer(b, o))
                 && (NoneOwn(o.userId, o.side, o.price, makers) ==> TotalQuantity(s.report.fills) == o.remainingQuantity)
  {
    var makers := Makers(b, o);
    RestingIdsKnown(b);
    MakersSound(b, o);
    SideAscends(o, makers);
    CrossingIsOffered(o, makers);
    assert Killed(b, o) <==> Offered(o.side, o.price, Others(o.userId, makers)) < o.remainingQuantity;
    if !Killed(b, o) {
      assert Executes(b, o);
      hide Wf, Submit, Executes, Greedy;
      ExecutedInPrices(b, o);
      RestsUnderItsId(b, o);
      if NoneOwn(o.userId, o.side, o.price, makers) {
        NoneInTheWay(o.userId, o.side, o.price, makers);
        NoneAmongThem(o.userId, o.side, o.price, makers);
      }
    }
  }
}
