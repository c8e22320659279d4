/** What one submit guarantees: greedy execution on the flat list, conservation of quantity,
    best execution, and the exact reach of fill-or-kill. */
module SubmitLaws {
  import opened Domain
  import opened FlatBook
  import opened BookInvariant
  import opened CancelAndStops
  import opened GreedyMatching
  import opened BestExecution

  function Makers(b: Book, o: Order): seq<Order> {
    b.Resting(Opposite(o.side))
  }

  lemma MakersSound(b: Book, o: Order)
    requires Wf(b)
    ensures SideOk(Makers(b, o), Opposite(o.side)) && AllPositive(Makers(b, o))
  {
  }

  /** The order gets past every check and reaches the match loop. */
  predicate Executes(b: Book, o: Order) {
    Refusal(b, o).None? && !IsStop(o.kind) && !Killed(b, o)
  }

  lemma {:induction false} GreedyIgnoresSequence(taker: Order, n: nat, makers: seq<Order>)
    ensures Greedy(taker.(sequence := n), makers) == Greedy(taker, makers)
    decreases |makers|
  {
    if CanTrade(taker, makers) && makers[0].userId != taker.userId {
      var q := FillOf(makers[0], taker).quantity;
      assert Reduced(taker.(sequence := n), q) == Reduced(taker, q).(sequence := n);
      GreedyIgnoresSequence(Reduced(taker, q), n, makers[1..]);
    }
  }

  /** The taker as the match leaves it. */
  function Remainder(b: Book, o: Order): Order {
    o.(sequence := b.nextSequence + 1, remainingQuantity := Greedy(o, Makers(b, o)).remaining)
  }

  /** What a match leaves of the book and the taker, in terms of the greedy match g. */
  ghost predicate LeavesGreedy(m: Matching, b: Book, o: Order, g: GreedyResult) {
    && m.fills == g.fills && m.blocked == g.blocked
    && m.taker == o.(sequence := b.nextSequence + 1, remainingQuantity := g.remaining)
    && m.book.Resting(Opposite(o.side)) == g.left && m.book.Resting(o.side) == b.Resting(o.side)
    && m.book.auditLog == b.auditLog + g.fills
    && m.book.stops == b.stops && m.book.nextSequence == b.nextSequence + 1
  }

  lemma MatchedGreedily(b: Book, o: Order)
    ensures LeavesGreedy(Matched(b, o), b, o, Greedy(o, Makers(b, o)))
  {
    var taker := o.(sequence := b.nextSequence + 1);
    MatchRefinesGreedy(Started(b), taker, []);
    GreedyIgnoresSequence(o, b.nextSequence + 1, Makers(b, o));
    RefinesLeaves(Matched(b, o), b, o, taker, Greedy(o, Makers(b, o)));
  }

  lemma RefinesLeaves(m: Matching, b: Book, o: Order, taker: Order, g: GreedyResult)
    requires taker == o.(sequence := b.nextSequence + 1) && Refines(m, Started(b), taker, [], g)
    ensures LeavesGreedy(m, b, o, g)
  {
    assert [] + g.fills == g.fills;
  }

  /** Submit is the greedy matcher on the opposite list: its fills are the report's, what it
      leaves is the opposite side, and the own side gains at most the remainder, in its
      price-time place. The fills consume a prefix and at most one order in part. */
  lemma SubmitIsGreedy(b: Book, o: Order)
    requires Wf(b) && Unfilled(o) && Executes(b, o)
    ensures var s := Submit(b, o);
            var g := Greedy(o, Makers(b, o));
            var after := s.book;
            && s.report.fills == g.fills
            && after.Resting(Opposite(o.side)) == g.left
            && after.Resting(o.side) == (if !g.blocked && Rests(Remainder(b, o))
                                         then Insert(b.Resting(o.side), Remainder(b, o)) else b.Resting(o.side))
            && after.stops == b.stops && after.nextSequence == b.nextSequence + 1
            && after.auditLog == (if g.blocked then b.auditLog + g.fills else PrunedLog(b.auditLog + g.fills))
    ensures ConsumesPrefix(o, Makers(b, o), Greedy(o, Makers(b, o)))
    ensures (Submit(b, o).report.reason == Some(SelfTrade)) <==> Greedy(o, Makers(b, o)).blocked
  {
    ExecutedEnd(b, o);
    assert AllPositive(Makers(b, o));
    hide Submit, Executes, Finished, Blocked, Matched, Wf, Greedy, ConsumesPrefix;
    MatchedGreedily(b, o);
    EndIsGreedy(Matched(b, o), b, o, Greedy(o, Makers(b, o)));
    GreedyConsumesPrefix(o, Makers(b, o));
  }

  lemma ExecutedEnd(b: Book, o: Order)
    requires Executes(b, o)
    ensures Submit(b, o) == if Matched(b, o).blocked then Blocked(Matched(b, o)) else Finished(Matched(b, o))
  {
  }

  lemma EndIsGreedy(m: Matching, b: Book, o: Order, g: GreedyResult)
    requires LeavesGreedy(m, b, o, g)
    ensures var s := if m.blocked then Blocked(m) else Finished(m);
            && s.report.fills == g.fills
            && s.book.Resting(Opposite(o.side)) == g.left
            && s.book.Resting(o.side) == (if !g.blocked && Rests(m.taker) then Insert(b.Resting(o.side), m.taker) else b.Resting(o.side))
            && s.book.stops == b.stops && s.book.nextSequence == b.nextSequence + 1
            && s.book.auditLog == (if g.blocked then b.auditLog + g.fills else PrunedLog(b.auditLog + g.fills))
            && (s.report.reason == Some(SelfTrade) <==> g.blocked)
  {
    FinishedSides(m);
    assert !m.blocked ==> Finished(m).book.auditLog == PrunedLog(m.book.auditLog);
  }

  /** Nothing is created or lost: what was asked for is filled, rested or dropped; the
      opposite side loses exactly the fills and the own side gains exactly what rests. */
  lemma SubmitConservesQuantity(b: Book, o: Order)
    requires Wf(b) && Unfilled(o) && Executes(b, o)
    ensures var s := Submit(b, o);
            var filled := TotalQuantity(s.report.fills);
            var rested := TotalRemaining(s.book.Resting(o.side)) - TotalRemaining(b.Resting(o.side));
            && 0.0 <= filled <= o.originalQuantity
            && TotalRemaining(s.book.Resting(Opposite(o.side))) == TotalRemaining(Makers(b, o)) - filled
            && (rested == 0.0 || rested == o.originalQuantity - filled)
            && ((o.kind.Limit? || o.kind.PostOnly?) && s.report.reason.None? ==> rested == o.originalQuantity - filled)
            && (o.kind.Market? || o.kind.Ioc? || o.kind.Fok? || s.report.reason == Some(SelfTrade) ==> rested == 0.0)
            && (forall f :: f in s.report.fills ==> f.makerUserId != f.takerUserId && f.quantity > 0.0)
  {
    hide Wf, Submit, Greedy, TotalQuantity, TotalRemaining, Insert;
    var makers := Makers(b, o);
    MakersSound(b, o);
    SubmitIsGreedy(b, o);
    GreedyFills(o, makers);
    ReachableBounds(o, makers);
    InsertTotal(b.Resting(o.side), Remainder(b, o));
    FillsBetweenStrangers(o, makers);
  }

  lemma FillsBetweenStrangers(o: Order, makers: seq<Order>)
    requires AllPositive(makers) && o.remainingQuantity >= 0.0
    ensures forall f :: f in Greedy(o, makers).fills ==> f.makerUserId != f.takerUserId && f.quantity > 0.0
  {
    GreedyConsumesPrefix(o, makers);
    var fills := Greedy(o, makers).fills;
    forall f | f in fills ensures f.makerUserId != f.takerUserId && f.quantity > 0.0 {
      var i :| 0 <= i < |fills| && fills[i] == f;
      assert FillMatches(o, makers[i], fills[i]);
    }
  }

  lemma {:induction false} InsertTotal(orders: seq<Order>, o: Order)
    ensures TotalRemaining(Insert(orders, o)) == TotalRemaining(orders) + o.remainingQuantity
  {
    if orders == [] {
      assert TotalRemaining([o]) == o.remainingQuantity;
    } else if Better(o.side, o.LimitPrice(), orders[0].LimitPrice()) {
      assert ([o] + orders)[1..] == orders;
    } else {
      InsertTotal(orders[1..], o);
      assert ([orders[0]] + Insert(orders[1..], o))[1..] == Insert(orders[1..], o);
    }
  }

  /** What a submit fills, in every case: an order that executes, exactly what it can reach
      before its own user's orders; any other, nothing. */
  lemma SubmitFillsReachable(b: Book, o: Order)
    requires Wf(b) && Unfilled(o)
    ensures TotalQuantity(Submit(b, o).report.fills)
         == if Executes(b, o) then Min(o.remainingQuantity, ReachableQuantity(o, Makers(b, o))) else 0.0
  {
    if Executes(b, o) {
      assert AllPositive(Makers(b, o));
      SubmitIsGreedy(b, o);
      GreedyFills(o, Makers(b, o));
    }
  }

  /** The self-trade exit, read off the list: the order is not done before its user's first
      order in the crossing range. */
  lemma BlockedExactly(o: Order, makers: seq<Order>)
    requires SideOk(makers, Opposite(o.side)) && o.remainingQuantity >= 0.0
    ensures Greedy(o, makers).blocked <==> ReachableQuantity(o, makers) < o.remainingQuantity && !NoOwnCrossing(o, makers)
  {
    assert AllPositive(makers);
    GreedyFills(o, makers);
    LeftComesFrom(o, makers);
    if !Greedy(o, makers).blocked && ReachableQuantity(o, makers) < o.remainingQuantity {
      SideAscends(o, makers);
      UnblockedMeetsNoOwn(o, makers);
    }
  }

  /** When a match is blocked, the order in its way was on the list, at a price it takes. */
  lemma {:induction false} LeftComesFrom(o: Order, makers: seq<Order>)
    ensures Greedy(o, makers).blocked ==> exists m :: m in makers && Crosses(o, m.LimitPrice()) && m.userId == o.userId
    decreases |makers|
  {
    if CanTrade(o, makers) {
      assert makers[0] in makers;
      if makers[0].userId != o.userId && o.remainingQuantity >= makers[0].remainingQuantity {
        assert forall m :: m in makers[1..] ==> m in makers;
        LeftComesFrom(Reduced(o, FillOf(makers[0], o).quantity), makers[1..]);
      }
    }
  }

  lemma {:induction false} UnblockedMeetsNoOwn(o: Order, makers: seq<Order>)
    requires AllPositive(makers) && Ascending(o.side, makers) && o.remainingQuantity >= 0.0
    requires !Greedy(o, makers).blocked && Greedy(o, makers).remaining > 0.0
    ensures NoOwnCrossing(o, makers)
    decreases |makers|
  {
    if makers != [] {
      TailPositive(makers);
      TailAscending(o.side, makers);
      assert makers == [makers[0]] + makers[1..];
      if CanTrade(o, makers) {
        UnblockedMeetsNoOwn(Reduced(o, FillOf(makers[0], o).quantity), makers[1..]);
      }
    }
  }

  /** With none of its own orders in the crossing range, an order fills all the crossing
      quantity it wants, and no other allocation of that amount over the resting orders
      costs a buyer less or pays a seller more. */
  lemma SubmitExecutesBest(b: Book, o: Order, amounts: seq<Decimal>)
    requires Wf(b) && Unfilled(o) && Refusal(b, o).None?
    requires o.kind.Market? || o.kind.Limit? || o.kind.Ioc?
    requires NoOwnCrossing(o, Makers(b, o))
    ensures TotalQuantity(Submit(b, o).report.fills) == Min(o.remainingQuantity, CrossingQuantity(o, Makers(b, o)))
    ensures Allocation(amounts, Makers(b, o)) && Total(amounts) == TotalQuantity(Submit(b, o).report.fills) ==>
              OutlayOfFills(o.side, Submit(b, o).report.fills) <= OutlayOf(o.side, amounts, Makers(b, o))
  {
    SubmitIsGreedy(b, o);
    SubmitFillsReachable(b, o);
    NothingInTheWay(o, Makers(b, o));
    if Allocation(amounts, Makers(b, o)) && Total(amounts) == TotalQuantity(Submit(b, o).report.fills) {
      NoBetterAllocation(o, Makers(b, o), amounts);
    }
  }

  // ---------------------------------------------------------------- what the report says

  /** Where the ids of an executed order's book come from. */
  lemma RestsUnderItsId(b: Book, o: Order)
    requires Wf(b) && Unfilled(o) && Executes(b, o)
    ensures o.orderId in Submit(b, o).book.RestingIds() <==> !Greedy(o, Makers(b, o)).blocked && Rests(Remainder(b, o))
  {
    AcceptedIsFresh(b, o);
    SubmitIsGreedy(b, o);
    InsertMembers(b.Resting(o.side), Remainder(b, o));
    LeftIds(o, Makers(b, o));
  }

  lemma {:induction false} LeftIds(taker: Order, makers: seq<Order>)
    ensures Ids(Greedy(taker, makers).left) <= Ids(makers)
    decreases |makers|
  {
    if CanTrade(taker, makers) && makers[0].userId != taker.userId {
      var q := FillOf(makers[0], taker).quantity;
      assert makers[0] in makers && forall m :: m in makers[1..] ==> m in makers;
      if taker.remainingQuantity >= makers[0].remainingQuantity {
        LeftIds(Reduced(taker, q), makers[1..]);
      } else {
        SameIds(makers[0 := Reduced(makers[0], q)], makers);
      }
    }
  }

  /** The report and the status log tell what happened: Filled is all of it, New is resting
      untouched, Rejected is neither traded nor resting, and a partial fill is just that. */
  lemma SubmitReports(b: Book, o: Order)
    requires Wf(b) && Unfilled(o) && Executes(b, o)
    ensures var s := Submit(b, o);
            var filled := TotalQuantity(s.report.fills);
            var resting := o.orderId in s.book.RestingIds();
            && s.report.orderId == o.orderId
            && (s.report.status.Filled? <==> filled == o.originalQuantity)
            && (s.report.status.PartiallyFilled? <==> 0.0 < filled < o.originalQuantity)
            && (s.report.status.New? <==> filled == 0.0 && resting)
            && (s.report.status.Rejected? <==> filled == 0.0 && !resting)
            && (s.report.accepted <==> s.report.reason.None? || filled > 0.0)
            && (o.orderId in s.book.status ==> s.book.status[o.orderId] == StatusEntry(s.report.status, filled))
  {
    hide Wf, Submit, Greedy, TotalQuantity, Matched, LeavesGreedy;
    var makers := Makers(b, o);
    MakersSound(b, o);
    RestsUnderItsId(b, o);
    MatchedGreedily(b, o);
    GreedyFills(o, makers);
    ReachableBounds(o, makers);
    FillsAreSomething(o, makers);
    if o.kind.Fok? {
      FokNeverExpiresLate(b, o);
    }
    ReportOf(b, o, Greedy(o, makers));
  }

  lemma FillsAreSomething(o: Order, makers: seq<Order>)
    requires AllPositive(makers) && o.remainingQuantity >= 0.0
    ensures Greedy(o, makers).fills != [] <==> TotalQuantity(Greedy(o, makers).fills) > 0.0
  {
    var fills := Greedy(o, makers).fills;
    GreedyConsumesPrefix(o, makers);
    if fills != [] {
      forall f | f in fills ensures f.quantity > 0.0 {
        var i :| 0 <= i < |fills| && fills[i] == f;
        assert FillMatches(o, makers[i], fills[i]);
      }
      PositiveTotal(fills);
    }
  }

  lemma {:induction false} PositiveTotal(fills: seq<Fill>)
    requires forall f :: f in fills ==> f.quantity > 0.0
    ensures TotalQuantity(fills) >= 0.0 && (fills != [] ==> TotalQuantity(fills) > 0.0)
  {
    if fills != [] {
      assert fills[0] in fills && forall f :: f in fills[1..] ==> f in fills;
      PositiveTotal(fills[1..]);
    }
  }

  lemma ReportOf(b: Book, o: Order, g: GreedyResult)
    requires Executes(b, o) && Unfilled(o) && LeavesGreedy(Matched(b, o), b, o, g)
    ensures var s := Submit(b, o);
            var taker := o.(sequence := b.nextSequence + 1, remainingQuantity := g.remaining);
            var status := if !g.blocked then FinalStatus(taker, g.fills) else if g.fills == [] then Rejected else PartiallyFilled;
            && s.report == ExecutionReport(o.orderId, !g.blocked || g.fills != [], status, g.fills, if g.blocked then Some(SelfTrade) else None)
            && (o.orderId in s.book.status ==> s.book.status[o.orderId] == StatusEntry(status, o.originalQuantity - g.remaining))
  {
    assert Submit(b, o) == Execute(b, o);
  }

  // ---------------------------------------------------------------- post only

  /** A post-only order never trades. With everything else in order it rests, in full and
      New, exactly when no resting order is at a price it would take; otherwise the book is
      as it was. */
  lemma PostOnlyNeverTakes(b: Book, o: Order)
    requires Wf(b) && Unfilled(o) && o.kind.PostOnly?
    requires o.orderId !in b.status && o.orderId !in b.RestingIds() && o.remainingQuantity > 0.0 && o.price.Some?
    ensures var s := Submit(b, o);
            && s.report.fills == []
            && (s.report.accepted <==> forall m :: m in Makers(b, o) ==> !Crosses(o, m.LimitPrice()))
            && (s.report.accepted ==> s.report.status.New? && o.orderId in s.book.RestingIds() && s.book.Resting(Opposite(o.side)) == Makers(b, o))
            && (!s.report.accepted ==> s == Submitted(b, Rejection(o.orderId, PostOnlyWouldTake)))
  {
    var makers := Makers(b, o);
    if WouldCross(o, makers) {
      assert makers[0] in makers;
    } else {
      BestGuards(b, o);
      assert Greedy(o, makers) == GreedyResult([], makers, o.remainingQuantity, false);
      SubmitIsGreedy(b, o);
      SubmitReports(b, o);
      RestsUnderItsId(b, o);
    }
  }

  // ---------------------------------------------------------------- fill or kill

  /** All or nothing: the whole quantity trades, or the entire book is as it was. */
  ghost predicate AllOrNothing(b: Book, o: Order) {
    TotalQuantity(Submit(b, o).report.fills) == o.originalQuantity || Submit(b, o).book == b
  }

  /** The pre-check counts past the user's own orders, where the loop stops. */
  predicate OwnOrdersMaskShortage(b: Book, o: Order) {
    ReachableQuantity(o, Makers(b, o)) < o.remainingQuantity <= CrossingQuantity(o, Makers(b, o))
  }

  /** A match that is not blocked stops only when filled, out of makers or priced out. */
  lemma {:induction false} UnblockedReachesAll(taker: Order, makers: seq<Order>)
    requires AllPositive(makers) && taker.remainingQuantity >= 0.0
    requires !Greedy(taker, makers).blocked && CrossingQuantity(taker, makers) >= taker.remainingQuantity
    ensures Greedy(taker, makers).remaining == 0.0
    decreases |makers|
  {
    if CanTrade(taker, makers) && taker.remainingQuantity >= makers[0].remainingQuantity {
      TailPositive(makers);
      var q := FillOf(makers[0], taker).quantity;
      ReachableDependsOnTerms(taker, q, makers[1..]);
      UnblockedReachesAll(Reduced(taker, q), makers[1..]);
    }
  }

  lemma FokNeverExpiresLate(b: Book, o: Order)
    requires Wf(b) && Unfilled(o) && Executes(b, o) && o.kind.Fok?
    ensures Greedy(o, Makers(b, o)).blocked || Submit(b, o).report.status == Filled
    ensures !Submit(b, o).report.status.Expired?
  {
    assert AllPositive(Makers(b, o));
    MatchedGreedily(b, o);
    assert Submit(b, o) == Execute(b, o);
    if !Greedy(o, Makers(b, o)).blocked {
      UnblockedReachesAll(o, Makers(b, o));
    }
  }

  lemma FokExecuting(b: Book, o: Order)
    requires Wf(b) && Unfilled(o) && Executes(b, o) && o.kind.Fok?
    ensures AllOrNothing(b, o) <==> !OwnOrdersMaskShortage(b, o)
    ensures OwnOrdersMaskShortage(b, o) ==> Submit(b, o).report.reason == Some(SelfTrade)
  {
    SubmitIsGreedy(b, o);
    assert Submit(b, o).book != b;
    SubmitFillsReachable(b, o);
    FokNeverExpiresLate(b, o);
    FokBlockedIffShort(b, o);
  }

  lemma FokBlockedIffShort(b: Book, o: Order)
    requires Wf(b) && Unfilled(o) && Executes(b, o) && o.kind.Fok?
    ensures Greedy(o, Makers(b, o)).blocked <==> ReachableQuantity(o, Makers(b, o)) < o.remainingQuantity
  {
    assert AllPositive(Makers(b, o));
    GreedyFills(o, Makers(b, o));
    if !Greedy(o, Makers(b, o)).blocked {
      UnblockedReachesAll(o, Makers(b, o));
    }
  }

  /** Fill-or-kill is all or nothing exactly when the user's own orders do not cut off
      quantity the pre-check relied on; Expired is only ever the pre-check's answer. */
  lemma FillOrKillExactly(b: Book, o: Order)
    requires Wf(b) && Unfilled(o) && Refusal(b, o).None? && o.kind.Fok?
    ensures AllOrNothing(b, o) <==> !OwnOrdersMaskShortage(b, o)
    ensures OwnOrdersMaskShortage(b, o) ==> Submit(b, o).report.reason == Some(SelfTrade)
    ensures Submit(b, o).report.status.Expired? <==> Killed(b, o)
    ensures NoOwnCrossing(o, Makers(b, o)) ==> AllOrNothing(b, o)
  {
    if NoOwnCrossing(o, Makers(b, o)) {
      NothingInTheWay(o, Makers(b, o));
    }
    if Executes(b, o) {
      FokExecuting(b, o);
      FokNeverExpiresLate(b, o);
    }
  }
}
