/** What becomes of a stop that fires: it trades for its own user, at its limit price if it has
    one, and a remainder that trades nothing rests or is turned away as its kind says. */
module FiredStops {
  import opened Domain
  import opened FlatBook
  import opened BookInvariant
  import opened CancelAndStops
  import opened GreedyMatching
  import opened SubmitLaws
  import opened OrderKinds

  predicate Within(side: Side, price: Decimal, limit: Decimal) {
    if side.Buy? then price <= limit else price >= limit
  }

  /** A fill made for the order, with someone else. */
  ghost predicate MadeFor(o: Order, f: Fill) {
    f.takerOrderId == o.orderId && f.takerUserId == o.userId && f.makerUserId != o.userId && f.quantity > 0.0
  }

  /** The report of an order that takes without a limit, or within one. */
  ghost predicate KeepsTerms(report: ExecutionReport, o: Order, limited: bool) {
    && (forall f :: f in report.fills ==> MadeFor(o, f) && (limited ==> Within(o.side, f.price, o.LimitPrice())))
    && TotalQuantity(report.fills) <= o.originalQuantity
    && (report.fills == [] && report.reason.None? ==> report.status == if limited then New else Rejected)
  }

  lemma SubmitKeepsTerms(b: Book, o: Order)
    requires Wf(b) && Unfilled(o) && Fresh(b, o.orderId) && 0.0 < o.remainingQuantity
    requires o.kind.Market? || (o.kind.Limit? && o.price.Some?)
    ensures KeepsTerms(Submit(b, o).report, o, o.kind.Limit?)
  {
    var makers := Makers(b, o);
    SubmitIsGreedy(b, o);
    SubmitReports(b, o);
    SubmitConservesQuantity(b, o);
    RestsUnderItsId(b, o);
    var fills := Submit(b, o).report.fills;
    forall f | f in fills ensures MadeFor(o, f) && (o.kind.Limit? ==> Within(o.side, f.price, o.LimitPrice())) {
      var i :| 0 <= i < |fills| && fills[i] == f;
      assert FillMatches(o, makers[i], fills[i]);
    }
  }

  lemma {:induction false} SubmitAllKeepsTerms(b: Book, orders: seq<Order>)
    requires Wf(b) && Queued(b, orders)
    ensures forall i :: 0 <= i < |orders| ==> KeepsTerms(SubmitAll(b, orders).reports[i], orders[i], orders[i].kind.Limit?)
    decreases |orders|
  {
    if orders != [] {
      assert orders[0] in orders;
      SubmitKeepsTerms(b, orders[0]);
      SubmitKeepsWf(b, orders[0]);
      QueueAdvances(b, orders);
      SubmitAllKeepsTerms(Submit(b, orders[0]).book, orders[1..]);
      assert forall i :: 0 < i < |orders| ==> orders[i] == orders[1..][i - 1];
    }
  }

  /** Fired stops answer in order of arrival: a stop-limit never trades beyond its limit and
      rests when it cannot trade; a stop-market never rests. */
  lemma FiredStopsKeepTerms(b: Book, p: Decimal)
    requires Wf(b)
    ensures var fired := Select(b.stops, p, true);
            var reports := TriggerStops(b, p).reports;
            |reports| == |fired| && forall i :: 0 <= i < |fired| ==> KeepsTerms(reports[i], fired[i], fired[i].kind.StopLimit?)
  {
    var fired := Select(b.stops, p, true);
    var orders := ActivateAll(fired);
    DisarmedKeepsWf(b, p);
    FiredStopsQueue(b, p);
    SelectMembers(b.stops, p, true);
    SubmitAllKeepsTerms(Disarmed(b, p), orders);
    forall i | 0 <= i < |fired|
      ensures KeepsTerms(TriggerStops(b, p).reports[i], fired[i], fired[i].kind.StopLimit?)
    {
      assert fired[i] in fired;
      assert orders[i] == Activated(fired[i]);
    }
  }

  // ---------------------------------------------------------------- how much they trade

  /** The book when the i-th of a queue of orders is submitted. */
  function BookBefore(b: Book, orders: seq<Order>, i: nat): Book
    requires i <= |orders|
    decreases i
  {
    if i == 0 then b else BookBefore(Submit(b, orders[0]).book, orders[1..], i - 1)
  }

  /** How much a stop that fires finds on offer: at any price, or within its limit. */
  function OnOfferToStop(b: Book, stop: Order): Decimal {
    Offered(stop.side, if stop.kind.StopLimit? then stop.price else None, Ahead(stop.userId, b.Resting(Opposite(stop.side))))
  }

  lemma QueuedTakes(b: Book, o: Order)
    requires Wf(b) && Unfilled(o) && Fresh(b, o.orderId) && 0.0 < o.remainingQuantity
    requires o.kind.Market? || (o.kind.Limit? && o.price.Some?)
    ensures TotalQuantity(Submit(b, o).report.fills) == Min(o.remainingQuantity, OnOffer(b, o))
  {
    TakesWhatIsOffered(b, o);
  }

  lemma {:induction false} QueueTakes(b: Book, orders: seq<Order>, i: nat)
    requires Wf(b) && Queued(b, orders) && i < |orders|
    ensures TotalQuantity(SubmitAll(b, orders).reports[i].fills)
         == Min(orders[i].remainingQuantity, OnOffer(BookBefore(b, orders, i), orders[i]))
    decreases i
  {
    hide Wf, Submit, OnOffer;
    assert orders[0] in orders;
    if i == 0 {
      QueuedTakes(b, orders[0]);
    } else {
      SubmitKeepsWf(b, orders[0]);
      QueueAdvances(b, orders);
      QueueTakes(Submit(b, orders[0]).book, orders[1..], i - 1);
    }
  }

  /** Each stop that fires takes, in its turn, the lesser of its quantity and what others offer
      ahead of its user's own orders: within its limit for a stop-limit, at any price for a
      stop-market. */
  lemma FiredStopsTakeWhatIsOffered(b: Book, p: Decimal, i: nat)
    requires Wf(b) && i < |Select(b.stops, p, true)|
    ensures var fired := Select(b.stops, p, true);
            var now := BookBefore(Disarmed(b, p), ActivateAll(fired), i);
            TotalQuantity(TriggerStops(b, p).reports[i].fills) == Min(fired[i].remainingQuantity, OnOfferToStop(now, fired[i]))
  {
    var fired := Select(b.stops, p, true);
    DisarmedKeepsWf(b, p);
    FiredStopsQueue(b, p);
    SelectMembers(b.stops, p, true);
    assert fired[i] in fired && StopOk(fired[i]);
    QueueTakes(Disarmed(b, p), ActivateAll(fired), i);
  }

  /** What a queued order does not get rests, if it has a limit and none of its user's own
      orders is in its range; otherwise nothing of it does. */
  ghost predicate LeavesRest(now: Book, after: Book, o: Order) {
    var rests := o.kind.Limit? && OnOffer(now, o) < o.remainingQuantity && NoneOwn(o.userId, o.side, o.price, Makers(now, o));
    && (o.orderId in after.RestingIds() <==> rests)
    && (rests ==> RestOf(now, o, o.remainingQuantity - OnOffer(now, o)) in after.Resting(o.side))
  }

  lemma QueuedRests(b: Book, o: Order)
    requires Wf(b) && Unfilled(o) && Fresh(b, o.orderId) && 0.0 < o.remainingQuantity
    requires o.kind.Market? || (o.kind.Limit? && o.price.Some?)
    ensures LeavesRest(b, Submit(b, o).book, o)
  {
    hide Wf, Submit, NoneOwn;
    TakesWhatIsOffered(b, o);
  }

  lemma {:induction false} QueueRests(b: Book, orders: seq<Order>, i: nat)
    requires Wf(b) && Queued(b, orders) && i < |orders|
    ensures LeavesRest(BookBefore(b, orders, i), BookBefore(b, orders, i + 1), orders[i])
    decreases i
  {
    hide Wf, Submit, LeavesRest;
    assert orders[0] in orders;
    if i == 0 {
      QueuedRests(b, orders[0]);
    } else {
      SubmitKeepsWf(b, orders[0]);
      QueueAdvances(b, orders);
      QueueRests(Submit(b, orders[0]).book, orders[1..], i - 1);
    }
  }

  /** The same of a stop that fires, on the stop's own terms. */
  ghost predicate StopLeavesRest(now: Book, after: Book, stop: Order) {
    var left := stop.remainingQuantity - OnOfferToStop(now, stop);
    var rests := stop.kind.StopLimit? && left > 0.0 && NoneOwn(stop.userId, stop.side, stop.price, now.Resting(Opposite(stop.side)));
    && (stop.orderId in after.RestingIds() <==> rests)
    && (rests ==> stop.(kind := Limit, sequence := now.nextSequence + 1, remainingQuantity := left) in after.Resting(stop.side))
  }

  lemma StopAsOrder(now: Book, after: Book, stop: Order)
    requires StopOk(stop) && LeavesRest(now, after, Activated(stop))
    ensures StopLeavesRest(now, after, stop)
  {
  }

  /** What a stop-limit does not get at once rests, as a limit order on the stop's own terms,
      unless one of its user's own orders is in its range; a stop-market never rests. */
  lemma FiredStopsRest(b: Book, p: Decimal, i: nat)
    requires Wf(b) && i < |Select(b.stops, p, true)|
    ensures var fired := Select(b.stops, p, true);
            var queue := ActivateAll(fired);
            StopLeavesRest(BookBefore(Disarmed(b, p), queue, i), BookBefore(Disarmed(b, p), queue, i + 1), fired[i])
  {
    hide Wf, Disarmed, LeavesRest, StopLeavesRest, BookBefore;
    var fired := Select(b.stops, p, true);
    DisarmedKeepsWf(b, p);
    FiredStopsQueue(b, p);
    StopsFired(b, p, fired[i]);
    QueueRests(Disarmed(b, p), ActivateAll(fired), i);
    StopAsOrder(BookBefore(Disarmed(b, p), ActivateAll(fired), i), BookBefore(Disarmed(b, p), ActivateAll(fired), i + 1), fired[i]);
  }

  lemma StopsFired(b: Book, p: Decimal, stop: Order)
    requires Wf(b) && stop in Select(b.stops, p, true)
    ensures StopOk(stop)
  {
    SelectMembers(b.stops, p, true);
  }
}
