/** What a placement does to the open orders it trades with: each maker's entry shows its fill,
    or leaves the list with its last one, and no other entry changes. */
module MakerEntries {
  import opened Domain
  import opened FlatBook
  import opened GreedyMatching
  import opened SubmitLaws
  import opened Cascade
  import opened Wallet
  import opened Trading
  import opened LockArithmetic
  import opened Reservation
  import opened PlaceAndCancel
  import opened ExchangeConservation
  import opened Holdings
  import opened PlacementTerms

  /** A maker's entry after a fill that leaves some of it: partly filled, with so much less of
      its lock. */
  function PartlyFilled(fees: Fees, o: StoredOrder, f: Fill): StoredOrder {
    var cost := if o.side.Sell? then f.quantity else f.price * f.quantity + FeeOn(f.price * f.quantity, fees.makerBps);
    o.(filledQuantity := o.filledQuantity + f.quantity, lockedAmount := o.lockedAmount - cost, status := PartiallyFilled)
  }

  /** The entry behind a fill shows it, and is gone when the fill is all that was left. */
  ghost predicate Shows(before: seq<StoredOrder>, after: seq<StoredOrder>, fees: Fees, f: Fill) {
    forall o :: o in before && o.id == f.makerOrderId ==>
      if f.quantity == o.Remaining() then o.id !in LocalIds(after) else PartlyFilled(fees, o, f) in after
  }

  function MakerIds(fills: seq<Fill>): set<Id> {
    set f | f in fills :: f.makerOrderId
  }

  /** Every fill shows, and nothing else changed. */
  ghost predicate AllShow(before: seq<StoredOrder>, after: seq<StoredOrder>, fees: Fees, fills: seq<Fill>) {
    (forall f :: f in fills ==> Shows(before, after, fees, f)) && KeptOutside(before, after, MakerIds(fills))
  }

  // ---------------------------------------------------------------- one fill

  lemma FillShows(orders: seq<StoredOrder>, users: Users, fees: Fees, taker: StoredOrder, fill: Fill, k: nat)
    requires FeesOk(fees) && OrdersOk(users, fees, orders) && FillFits(orders, taker, fill, k)
    ensures AllShow(orders, OrdersAfter(orders, k, Filling(fees, orders[k], fill)), fees, [fill])
  {
    hide ConsumedLock, Shows, KeptOutside;
    var maker := Filling(fees, orders[k], fill);
    var after := OrdersAfter(orders, k, maker);
    assert orders[k] in orders && OrderOk(users, fees, orders[k]);
    FillingFits(users, fees, orders[k], fill);
    EntryLeaves(orders, k, maker);
    EntryShows(orders, after, fees, fill, k);
    assert MakerIds([fill]) == {fill.makerOrderId};
  }

  lemma EntryLeaves(orders: seq<StoredOrder>, k: nat, maker: StoredOrder)
    requires Unique(orders) && k < |orders| && maker.id == orders[k].id
    ensures var after := OrdersAfter(orders, k, maker);
            && KeptOutside(orders, after, {maker.id})
            && if maker.status.Filled? then maker.id !in LocalIds(after) else maker in after
  {
    assert orders[k] in orders;
    UniqueAfterUpdate(orders, k, maker);
    UniqueAfterDrop(orders, k);
  }

  lemma EntryShows(orders: seq<StoredOrder>, after: seq<StoredOrder>, fees: Fees, fill: Fill, k: nat)
    requires Unique(orders) && k < |orders| && orders[k].id == fill.makerOrderId
    requires var maker := Filling(fees, orders[k], fill);
             && (maker.status.Filled? <==> fill.quantity == orders[k].Remaining())
             && if maker.status.Filled? then maker.id !in LocalIds(after) else maker in after
    ensures Shows(orders, after, fees, fill)
  {
    hide Filling;
    var maker := Filling(fees, orders[k], fill);
    forall o | o in orders && o.id == fill.makerOrderId ensures o == orders[k] {
      var i :| 0 <= i < |orders| && orders[i] == o;
    }
    FilledEntry(fees, orders[k], fill);
  }

  lemma FilledEntry(fees: Fees, o: StoredOrder, fill: Fill)
    ensures var maker := Filling(fees, o, fill);
            maker.id == o.id && (!maker.status.Filled? ==> maker == PartlyFilled(fees, o, fill))
  {
    CostAsPaid(o.side, fill.price, fill.quantity, fees.makerBps);
    assert Filling(fees, o, fill).lockedAmount == o.lockedAmount - ConsumedLock(o.side, fill.price, fill.quantity, fees.makerBps);
    assert PartlyFilled(fees, o, fill).lockedAmount == Filling(fees, o, fill).lockedAmount;
  }

  // ---------------------------------------------------------------- all fills

  lemma ShowsChain(before: seq<StoredOrder>, next: seq<StoredOrder>, after: seq<StoredOrder>, fees: Fees, fill: Fill, rest: seq<Fill>)
    requires AllShow(before, next, fees, [fill]) && AllShow(next, after, fees, rest) && fill.makerOrderId !in MakerIds(rest)
    ensures AllShow(before, after, fees, [fill] + rest)
  {
    assert fill in [fill] && MakerIds([fill]) == {fill.makerOrderId};
    assert MakerIds([fill] + rest) == MakerIds(rest) + {fill.makerOrderId};
    KeptChains(before, next, after, fill.makerOrderId, MakerIds(rest));
    forall f | f in [fill] + rest ensures Shows(before, after, fees, f) {
      if f in rest {
        assert f.makerOrderId in MakerIds(rest);
      }
    }
  }

  lemma NothingShows(orders: seq<StoredOrder>, fees: Fees)
    ensures AllShow(orders, orders, fees, [])
  {
  }

  lemma LaterMakers(taker: Order, makers: seq<Order>, id: Id)
    requires AllPositive(makers) && taker.remainingQuantity >= 0.0 && id !in Ids(makers)
    ensures id !in MakerIds(Greedy(taker, makers).fills)
  {
    GreedyConsumesPrefix(taker, makers);
    var fills := Greedy(taker, makers).fills;
    forall f | f in fills ensures f.makerOrderId != id {
      var i :| 0 <= i < |fills| && fills[i] == f;
      assert FillMatches(taker, makers[i], fills[i]) && makers[i] in makers;
    }
  }

  lemma FirstFillShows(desk: Desk, users: Users, fees: Fees, o: StoredOrder, taker: Order, makers: seq<Order>, inflight: Decimal)
    requires FeesOk(fees) && DeskOk(desk, users, fees, o.LockKey(), inflight) && Refused(users, o.userId).None?
    requires Matches(o, taker) && MakersOk(makers, o.side) && Backed(desk.orders, o.symbol, makers)
    requires Covers(fees, o, taker.remainingQuantity, inflight)
    requires CanTrade(taker, makers) && makers[0].userId != taker.userId
    ensures var fill := FillOf(makers[0], taker);
            AllShow(desk.orders, SettleFill(desk, users, fees, o, fill).desk.orders, fees, [fill])
  {
    hide Balanced, ConsumedLock, SettleFill, Backed, Covers, AllShow;
    assert makers[0] in makers;
    var fill := FillOf(makers[0], taker);
    var k := FirstFillFits(desk.orders, o, taker, makers);
    FillCovered(fees, o, taker, fill.price, fill.quantity, inflight);
    SettleFillOk(desk, users, fees, o, fill, k, inflight);
    FillShows(desk.orders, users, fees, o, fill, k);
  }

  lemma {:induction false} SettleFillsShow(desk: Desk, users: Users, fees: Fees, o: StoredOrder, taker: Order, makers: seq<Order>, inflight: Decimal)
    requires FeesOk(fees) && DeskOk(desk, users, fees, o.LockKey(), inflight) && Refused(users, o.userId).None?
    requires Matches(o, taker) && MakersOk(makers, o.side) && Backed(desk.orders, o.symbol, makers)
    requires Covers(fees, o, taker.remainingQuantity, inflight)
    ensures var fills := Greedy(taker, makers).fills;
            AllShow(desk.orders, SettleFills(desk, users, fees, o, fills).desk.orders, fees, fills)
    decreases |makers|
  {
    hide DeskOk, Backed, Covers, SettleFill, SettleFills, ConsumedLock, ConsumedByFills, AllShow, KeptOutside, MakerIds;
    if CanTrade(taker, makers) && makers[0].userId != taker.userId {
      var fill := FillOf(makers[0], taker);
      FirstFillOk(desk, users, fees, o, taker, makers, inflight);
      FirstFillShows(desk, users, fees, o, taker, makers, inflight);
      var next := SettleFill(desk, users, fees, o, fill).desk;
      MakersTail(makers, o.side);
      if taker.remainingQuantity < makers[0].remainingQuantity {
        FillsUnfold(desk, users, fees, o, fill, []);
        NoFills(next, users, fees, o);
        assert [fill] + [] == [fill];
      } else {
        var less := Reduced(taker, fill.quantity);
        SettleFillsShow(next, users, fees, o, less, makers[1..], inflight - ConsumedLock(o.side, fill.price, fill.quantity, fees.takerBps));
        var rest := Greedy(less, makers[1..]).fills;
        FillsUnfold(desk, users, fees, o, fill, rest);
        LaterMakers(less, makers[1..], makers[0].orderId);
        ShowsChain(desk.orders, next.orders, SettleFills(next, users, fees, o, rest).desk.orders, fees, fill, rest);
      }
    } else {
      NoFills(desk, users, fees, o);
      NothingShows(desk.orders, fees);
    }
  }

  /** A placement shows each of its fills in the maker's entry, and besides the order itself
      neither changes, drops nor adds any other. */
  lemma PlacementShowsFills(x: Exchange, users: Users, fees: Fees, r: Request)
    requires Placing(x, users, fees, r)
    ensures var p := PlaceOrder(x, users, fees, r);
            && (forall f :: f in p.report.fills ==> Shows(x.desk.orders, p.exchange.desk.orders, fees, f))
            && (forall o :: o in x.desk.orders && o.id !in MakerIds(p.report.fills) ==> o in p.exchange.desk.orders)
            && (forall o :: o in p.exchange.desk.orders && o.id != r.id && o.id !in MakerIds(p.report.fills) ==> o in x.desk.orders)
  {
    hide PlaceOrder, AfterMatching, SettleFills, Greedy, SubmitAndCascade, Submit, DeskOk, MarketOk, Ran, Shows, MakersOk, Backed;
    var o, locked, b, e := PlacedFrom(x, users, fees, r);
    var y := Exchange(x.markets[r.symbol := e.book], locked);
    ReportStays(y, users, fees, o, e.report);
    if e.report.accepted {
      CompletionAnswers(y, users, fees, o, e.report);
      AcceptedShows(locked, users, fees, o, b, e);
      var executed := AfterFills(o, e.report);
      ShowsWithAnother(x.desk.orders, SettleFills(locked, users, fees, o, e.report.fills).desk.orders, executed.(lockedAmount := RestLock(fees, executed)),
                       fees, e.report.fills);
    } else {
      TurnedAwayTradesNothing(b, EngineOrder(o));
      RefusalKeepsOrders(y, users, fees, o, e.report);
    }
  }

  lemma AcceptedShows(desk: Desk, users: Users, fees: Fees, o: StoredOrder, b: Book, e: EngineOutcome)
    requires FeesOk(fees) && InFlight(users, fees, o)
    requires DeskOk(desk, users, fees, o.LockKey(), o.lockedAmount) && MarketOk(b, desk.orders, o.symbol)
    requires TurnedAway(e, b) || KilledOutright(e, b) || Ran(e, b, EngineOrder(o), Greedy(EngineOrder(o), Makers(b, EngineOrder(o))))
    requires e.report.accepted
    ensures AllShow(desk.orders, SettleFills(desk, users, fees, o, e.report.fills).desk.orders, fees, e.report.fills)
  {
    hide MarketOk, DeskOk, Greedy, SettleFills, Backed, Matches, MakersOk, Covers, AllShow;
    EngineOrderMatches(users, fees, o, b, desk.orders);
    SettleFillsShow(desk, users, fees, o, EngineOrder(o), Makers(b, EngineOrder(o)), o.lockedAmount);
    NoFills(desk, users, fees, o);
    NothingShows(desk.orders, fees);
  }

  lemma ShowsWithAnother(before: seq<StoredOrder>, after: seq<StoredOrder>, kept: StoredOrder, fees: Fees, fills: seq<Fill>)
    requires AllShow(before, after, fees, fills) && kept.id !in LocalIds(before)
    ensures forall f :: f in fills ==> Shows(before, after + [kept], fees, f)
  {
    AppendedId(after, kept);
    assert forall o :: o in after ==> o in after + [kept];
    assert forall o :: o in before ==> o.id in LocalIds(before);
  }

  lemma RefusalKeepsOrders(x: Exchange, users: Users, fees: Fees, o: StoredOrder, report: ExecutionReport)
    requires AfterMatching(x, users, fees, o, report).Placed? && !report.accepted
    ensures AfterMatching(x, users, fees, o, report).exchange.desk.orders == x.desk.orders
  {
    hide UnlockBalance;
  }
}
