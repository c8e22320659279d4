/** Where every lock went: at any time what an order locked is what settlements consumed,
    plus what was given back, plus what it still holds. */
module LockHistory {
  import opened Domain
  import opened FlatBook
  import opened GreedyMatching
  import opened SubmitLaws
  import opened Cascade
  import opened Wallet
  import opened Trading
  import opened LockArithmetic
  import opened Reservation
  import opened PlaceAndCancel

  /** An open order's account shows its fills, and its lock is what has not moved yet. */
  ghost predicate Agrees(a: Account, o: StoredOrder) {
    a.side == o.side && a.limit == o.LimitPrice() && a.filled == o.filledQuantity &&
    a.initial == a.consumed + a.released + o.lockedAmount
  }

  /** Nothing cost more than the limit price with the taker's fee. */
  ghost predicate Within(fees: Fees, a: Account) {
    a.consumed <= ConsumedLock(a.side, a.limit, a.filled, fees.takerBps)
  }

  /** Every account adds up; one order in flight holds what is not on the list. */
  ghost predicate Accounted(desk: Desk, fees: Fees, id: Id, inflight: Decimal) {
    (forall o :: o in desk.orders ==> o.id in desk.accounts && Agrees(desk.accounts[o.id], o)) &&
    (forall x :: x in desk.accounts ==> Within(fees, desk.accounts[x])) &&
    (forall x :: x in desk.accounts && x !in LocalIds(desk.orders) ==>
       desk.accounts[x].initial == desk.accounts[x].consumed + desk.accounts[x].released + if x == id then inflight else 0.0)
  }

  /** The account of the order in flight. */
  ghost predicate Follows(desk: Desk, o: StoredOrder, filled: Decimal) {
    o.id in desk.accounts && o.id !in LocalIds(desk.orders) &&
    desk.accounts[o.id].side == o.side && desk.accounts[o.id].limit == o.LimitPrice() && desk.accounts[o.id].filled == filled
  }

  function Spent(a: Account, amount: Decimal, quantity: Decimal): Account {
    a.(consumed := a.consumed + amount, filled := a.filled + quantity)
  }

  lemma SpentWithin(fees: Fees, a: Account, amount: Decimal, quantity: Decimal)
    requires Within(fees, a) && amount <= ConsumedLock(a.side, a.limit, quantity, fees.takerBps)
    ensures Within(fees, Spent(a, amount, quantity))
  {
    ConsumedAdds(a.side, a.limit, a.filled, quantity, fees.takerBps);
  }

  // ---------------------------------------------------------------- one fill

  /** A fill costs the taker no more than its limit, and the maker no more than its own price
      with the taker's fee. */
  lemma CostsWithin(fees: Fees, side: Side, limit: Decimal, price: Decimal, quantity: Decimal)
    requires FeesOk(fees) && price > 0.0 && quantity >= 0.0 && (side.Buy? ==> price <= limit)
    ensures ConsumedLock(side, price, quantity, fees.takerBps) <= ConsumedLock(side, limit, quantity, fees.takerBps)
    ensures ConsumedLock(side, price, quantity, fees.makerBps) <= ConsumedLock(side, price, quantity, fees.takerBps)
  {
    if side.Buy? {
      BetterPriceConsumesLess(price, limit, quantity, fees.takerBps);
    }
    LowerFeeConsumesLess(side, price, quantity, fees.makerBps, fees.takerBps);
  }

  lemma TakerSpends(desk: Desk, fees: Fees, o: StoredOrder, filled: Decimal, inflight: Decimal, cost: Decimal, quantity: Decimal)
    requires Accounted(desk, fees, o.id, inflight) && Follows(desk, o, filled)
    requires cost <= ConsumedLock(o.side, o.LimitPrice(), quantity, fees.takerBps)
    ensures var after := desk.(accounts := Spend(desk.accounts, o.id, cost, quantity));
            Accounted(after, fees, o.id, inflight - cost) && Follows(after, o, filled + quantity)
  {
    SpentWithin(fees, desk.accounts[o.id], cost, quantity);
    assert forall q :: q in desk.orders ==> q.id in LocalIds(desk.orders);
  }

  lemma AccountedUpdate(desk: Desk, fees: Fees, k: nat, o: StoredOrder, a: Account, id: Id, inflight: Decimal, after: Desk)
    requires Accounted(desk, fees, id, inflight) && Unique(desk.orders) && id !in LocalIds(desk.orders)
    requires k < |desk.orders| && o.id == desk.orders[k].id && Agrees(a, o) && Within(fees, a)
    requires after.orders == desk.orders[k := o] && after.accounts == desk.accounts[o.id := a]
    ensures Accounted(after, fees, id, inflight) && LocalIds(after.orders) == LocalIds(desk.orders)
  {
    UniqueAfterUpdate(desk.orders, k, o);
    assert desk.orders[k] in desk.orders;
    var orders := desk.orders[k := o];
    assert o in orders && o.id in LocalIds(orders);
    assert forall q :: q in orders && q.id == o.id ==> q == o by {
      forall q | q in orders && q.id == o.id ensures q == o {
        var i :| 0 <= i < |orders| && orders[i] == q;
      }
    }
  }

  lemma AccountedDrop(desk: Desk, fees: Fees, k: nat, a: Account, id: Id, inflight: Decimal, after: Desk)
    requires Accounted(desk, fees, id, inflight) && Unique(desk.orders) && (id !in LocalIds(desk.orders) || inflight == 0.0)
    requires k < |desk.orders| && a.initial == a.consumed + a.released && Within(fees, a)
    requires after.orders == Dropped(desk.orders, k) && after.accounts == desk.accounts[desk.orders[k].id := a]
    ensures Accounted(after, fees, id, inflight) && LocalIds(after.orders) <= LocalIds(desk.orders)
  {
    UniqueAfterDrop(desk.orders, k);
    assert desk.orders[k] in desk.orders && desk.orders[k].id in LocalIds(desk.orders);
    assert LocalIds(after.orders) == LocalIds(desk.orders) - {desk.orders[k].id};
  }

  /** What the maker's account shows once its fill is booked. */
  ghost predicate Booked(fees: Fees, a: Account, maker: StoredOrder) {
    Agrees(a, maker) && Within(fees, a) && maker.lockedAmount >= 0.0
  }

  lemma MakerBooked(users: Users, fees: Fees, o: StoredOrder, fill: Fill, a: Account)
    requires FeesOk(fees) && OrderOk(users, fees, o) && Agrees(a, o) && Within(fees, a)
    requires fill.price == o.LimitPrice() && 0.0 < fill.quantity <= o.Remaining()
    ensures Booked(fees, Spent(a, ConsumedLock(o.side, fill.price, fill.quantity, fees.makerBps), fill.quantity), Filling(fees, o, fill))
  {
    FillingFits(users, fees, o, fill);
    CostsWithin(fees, o.side, o.LimitPrice(), fill.price, fill.quantity);
    SpentWithin(fees, a, ConsumedLock(o.side, fill.price, fill.quantity, fees.makerBps), fill.quantity);
  }

  /** The maker's account and entry move together; a filled maker's lock is all given back. */
  lemma MakerSpends(desk: Desk, fees: Fees, k: nat, maker: StoredOrder, made: Decimal, quantity: Decimal, id: Id, inflight: Decimal, after: Desk)
    requires Accounted(desk, fees, id, inflight) && Unique(desk.orders) && id in desk.accounts && id !in LocalIds(desk.orders)
    requires k < |desk.orders| && maker.id == desk.orders[k].id && maker.id in desk.accounts
    requires Booked(fees, Spent(desk.accounts[maker.id], made, quantity), maker)
    requires after.orders == OrdersAfter(desk.orders, k, maker)
    requires var spent := Spend(desk.accounts, maker.id, made, quantity);
             after.accounts == if maker.status.Filled? then Release(spent, maker.id, maker.lockedAmount) else spent
    ensures Accounted(after, fees, id, inflight)
    ensures id !in LocalIds(after.orders) && id in after.accounts && after.accounts[id] == desk.accounts[id]
  {
    hide Accounted, Unique, ConsumedLock;
    assert desk.orders[k] in desk.orders && maker.id in LocalIds(desk.orders);
    var a := Spent(desk.accounts[maker.id], made, quantity);
    if maker.status.Filled? {
      var closed := a.(released := a.released + maker.lockedAmount);
      assert after.accounts == desk.accounts[maker.id := closed];
      AccountedDrop(desk, fees, k, closed, id, inflight, after);
    } else {
      AccountedUpdate(desk, fees, k, maker, a, id, inflight, after);
    }
  }

  lemma SettleFillAccounted(desk: Desk, users: Users, fees: Fees, o: StoredOrder, fill: Fill, k: nat, filled: Decimal, inflight: Decimal)
    requires FeesOk(fees) && DeskOk(desk, users, fees, o.LockKey(), inflight)
    requires FillFits(desk.orders, o, fill, k) && Refused(users, o.userId).None?
    requires ConsumedLock(o.side, fill.price, fill.quantity, fees.takerBps) <= inflight
    requires o.side.Buy? ==> fill.price <= o.LimitPrice()
    requires Accounted(desk, fees, o.id, inflight) && Follows(desk, o, filled)
    ensures var p := SettleFill(desk, users, fees, o, fill);
            && p.Going?
            && Accounted(p.desk, fees, o.id, inflight - ConsumedLock(o.side, fill.price, fill.quantity, fees.takerBps))
            && Follows(p.desk, o, filled + fill.quantity)
  {
    hide Accounted, SettleFill, ConsumedLock, Balanced;
    var maker := desk.orders[k];
    assert maker in desk.orders && OrderOk(users, fees, maker);
    var cost := ConsumedLock(o.side, fill.price, fill.quantity, fees.takerBps);
    var made := ConsumedLock(maker.side, fill.price, fill.quantity, fees.makerBps);
    var p := SettleFill(desk, users, fees, o, fill);
    SettleFillOk(desk, users, fees, o, fill, k, inflight);
    CostsWithin(fees, o.side, o.LimitPrice(), fill.price, fill.quantity);
    TakerSpends(desk, fees, o, filled, inflight, cost, fill.quantity);
    var paid := desk.(accounts := Spend(desk.accounts, o.id, cost, fill.quantity));
    MakerBooked(users, fees, maker, fill, desk.accounts[maker.id]);
    FindsUnique(desk.orders, k);
    assert maker.id in LocalIds(desk.orders);
    assert paid.accounts[maker.id] == desk.accounts[maker.id];
    FilledBooking(desk, users, fees, o, fill, k, paid.accounts, p.desk);
    MakerSpends(paid, fees, k, Filling(fees, maker, fill), made, fill.quantity, o.id, inflight - cost, p.desk);
  }

  /** How a settled fill changes the accounts after the taker's. */
  lemma FilledBooking(desk: Desk, users: Users, fees: Fees, o: StoredOrder, fill: Fill, k: nat, paid: map<Id, Account>, after: Desk)
    requires SettleFill(desk, users, fees, o, fill) == Going(after)
    requires k < |desk.orders| && Find(desk.orders, fill.makerOrderId) == k
    requires paid == Spend(desk.accounts, o.id, ConsumedLock(o.side, fill.price, fill.quantity, fees.takerBps), fill.quantity)
    ensures var maker := Filling(fees, desk.orders[k], fill);
            var spent := Spend(paid, maker.id, ConsumedLock(maker.side, fill.price, fill.quantity, fees.makerBps), fill.quantity);
            after.accounts == if maker.status.Filled? then Release(spent, maker.id, maker.lockedAmount) else spent
  {
  }

  // ---------------------------------------------------------------- all fills, and the end

  lemma {:induction false} SettleFillsAccounted(desk: Desk, users: Users, fees: Fees, o: StoredOrder, taker: Order, makers: seq<Order>, filled: Decimal, inflight: Decimal)
    requires FeesOk(fees) && DeskOk(desk, users, fees, o.LockKey(), inflight) && Refused(users, o.userId).None?
    requires Matches(o, taker) && MakersOk(makers, o.side) && Backed(desk.orders, o.symbol, makers)
    requires Covers(fees, o, taker.remainingQuantity, inflight)
    requires Accounted(desk, fees, o.id, inflight) && Follows(desk, o, filled)
    ensures var g := Greedy(taker, makers);
            var p := SettleFills(desk, users, fees, o, g.fills);
            && p.Going?
            && Accounted(p.desk, fees, o.id, inflight - ConsumedByFills(fees, o.side, g.fills))
            && Follows(p.desk, o, filled + TotalQuantity(g.fills))
    decreases |makers|
  {
    hide DeskOk, Accounted, Follows, Backed, Covers, KeptOutside, SettleFill, ConsumedLock, SettleFills, ConsumedByFills;
    hide TotalQuantity, MakersOk;
    if CanTrade(taker, makers) && makers[0].userId != taker.userId {
      var fill := FillOf(makers[0], taker);
      FirstFillOk(desk, users, fees, o, taker, makers, inflight);
      FirstFillAccounted(desk, users, fees, o, taker, makers, filled, inflight);
      var next := SettleFill(desk, users, fees, o, fill).desk;
      MakersTail(makers, o.side);
      if taker.remainingQuantity < makers[0].remainingQuantity {
        FillsUnfold(desk, users, fees, o, fill, []);
        TotalUnfolds(fill, []);
        NoFills(next, users, fees, o);
        assert [fill] + [] == [fill];
      } else {
        var rest := Greedy(Reduced(taker, fill.quantity), makers[1..]);
        var left := inflight - ConsumedLock(o.side, fill.price, fill.quantity, fees.takerBps);
        SettleFillsAccounted(next, users, fees, o, Reduced(taker, fill.quantity), makers[1..], filled + fill.quantity, left);
        FillsUnfold(desk, users, fees, o, fill, rest.fills);
        TotalUnfolds(fill, rest.fills);
      }
    } else {
      NoFills(desk, users, fees, o);
    }
  }

  lemma TotalUnfolds(fill: Fill, rest: seq<Fill>)
    ensures TotalQuantity([fill] + rest) == fill.quantity + TotalQuantity(rest)
  {
    assert ([fill] + rest)[1..] == rest;
  }

  lemma FirstFillAccounted(desk: Desk, users: Users, fees: Fees, o: StoredOrder, taker: Order, makers: seq<Order>, filled: Decimal, inflight: Decimal)
    requires FeesOk(fees) && DeskOk(desk, users, fees, o.LockKey(), inflight) && Refused(users, o.userId).None?
    requires Matches(o, taker) && MakersOk(makers, o.side) && Backed(desk.orders, o.symbol, makers)
    requires Covers(fees, o, taker.remainingQuantity, inflight)
    requires CanTrade(taker, makers) && makers[0].userId != taker.userId
    requires Accounted(desk, fees, o.id, inflight) && Follows(desk, o, filled)
    ensures var fill := FillOf(makers[0], taker);
            var p := SettleFill(desk, users, fees, o, fill);
            && p.Going? && Follows(p.desk, o, filled + fill.quantity)
            && Accounted(p.desk, fees, o.id, inflight - ConsumedLock(o.side, fill.price, fill.quantity, fees.takerBps))
  {
    hide DeskOk, Accounted, Follows, Backed, Covers, ConsumedLock, SettleFill;
    assert makers[0] in makers;
    var fill := FillOf(makers[0], taker);
    var k := FirstFillFits(desk.orders, o, taker, makers);
    FillCovered(fees, o, taker, fill.price, fill.quantity, inflight);
    SettleFillAccounted(desk, users, fees, o, fill, k, filled, inflight);
  }

  /** Locking opens an account that has not moved. */
  lemma LockedAccounted(desk: Desk, fees: Fees, o: StoredOrder, wallets: Wallets)
    requires Accounted(desk, fees, o.id, 0.0) && o.id !in LocalIds(desk.orders)
    ensures Accounted(LockedFor(desk, o, wallets), fees, o.id, o.lockedAmount)
    ensures Follows(LockedFor(desk, o, wallets), o, 0.0)
  {
    ConsumedAdds(o.side, o.LimitPrice(), 0.0, 0.0, fees.takerBps);
    assert forall q :: q in desk.orders ==> q.id in LocalIds(desk.orders);
  }

  lemma ReleaseAccounted(desk: Desk, fees: Fees, o: StoredOrder, filled: Decimal, inflight: Decimal, amount: Decimal, wallets: Wallets)
    requires Accounted(desk, fees, o.id, inflight) && Follows(desk, o, filled) && amount >= 0.0
    ensures var after := Desk(wallets, desk.orders, Release(desk.accounts, o.id, amount));
            Accounted(after, fees, o.id, inflight - amount) && Follows(after, o, filled)
  {
    assert forall q :: q in desk.orders ==> q.id in LocalIds(desk.orders);
  }

  lemma KeptAccounted(desk: Desk, fees: Fees, kept: StoredOrder)
    requires Accounted(desk, fees, kept.id, kept.lockedAmount) && Follows(desk, kept, kept.filledQuantity)
    ensures Accounted(desk.(orders := desk.orders + [kept]), fees, kept.id, 0.0)
  {
    assert LocalIds(desk.orders + [kept]) == LocalIds(desk.orders) + {kept.id};
    assert forall q :: q in desk.orders ==> q.id in LocalIds(desk.orders);
  }

  lemma FinishAccounted(desk: Desk, users: Users, fees: Fees, o: StoredOrder, fills: seq<Fill>, inflight: Decimal)
    requires inflight == o.lockedAmount - ConsumedByFills(fees, o.side, fills) && RestLock(fees, o) <= inflight
    requires Accounted(desk, fees, o.id, inflight) && Follows(desk, o, o.filledQuantity)
    requires FinishOrder(desk, users, fees, o, fills).Going?
    ensures Accounted(FinishOrder(desk, users, fees, o, fills).desk, fees, o.id, 0.0)
  {
    hide Accounted, ConsumedLock, ConsumedByFills;
    var f := FinishOrder(desk, users, fees, o, fills).desk;
    var unused := inflight - RestLock(fees, o);
    ReleaseAccounted(desk, fees, o, o.filledQuantity, inflight, unused, f.wallets);
    if ShouldRest(o) {
      KeptAccounted(Desk(f.wallets, desk.orders, Release(desk.accounts, o.id, unused)), fees, o.(lockedAmount := RestLock(fees, o)));
    }
  }

  // ---------------------------------------------------------------- placing and cancelling

  /** With nothing in flight it does not matter whose account that would be. */
  lemma AnyId(desk: Desk, fees: Fees, id: Id, other: Id)
    requires Accounted(desk, fees, id, 0.0)
    ensures Accounted(desk, fees, other, 0.0)
  {
  }

  lemma RanAccounted(desk: Desk, users: Users, fees: Fees, o: StoredOrder, b: Book, e: EngineOutcome)
    requires FeesOk(fees) && InFlight(users, fees, o) && o.id !in LocalIds(desk.orders)
    requires DeskOk(desk, users, fees, o.LockKey(), o.lockedAmount) && MarketOk(b, desk.orders, o.symbol)
    requires Accounted(desk, fees, o.id, o.lockedAmount) && Follows(desk, o, 0.0)
    requires Ran(e, b, EngineOrder(o), Greedy(EngineOrder(o), Makers(b, EngineOrder(o))))
    ensures var settled := SettleFills(desk, users, fees, o, e.report.fills);
            && settled.Going?
            && var f := FinishOrder(settled.desk, users, fees, AfterFills(o, e.report), e.report.fills);
               f.Going? && Accounted(f.desk, fees, o.id, 0.0)
  {
    hide MarketOk, DeskOk, Greedy, SettleFills, FinishOrder, Backed, ConsumedLock, Accounted;
    hide Matches, MakersOk, Covers, OrderOk, KeptOutside;
    var eo := EngineOrder(o);
    var g := Greedy(eo, Makers(b, eo));
    var executed := AfterFills(o, e.report);
    var left := o.lockedAmount - ConsumedByFills(fees, o.side, g.fills);
    var settled, final := RanDesk(desk, users, fees, o, b, e);
    EngineOrderMatches(users, fees, o, b, desk.orders);
    SettleFillsOk(desk, users, fees, o, eo, Makers(b, eo), o.lockedAmount);
    SettleFillsAccounted(desk, users, fees, o, eo, Makers(b, eo), 0.0, o.lockedAmount);
    GreedyFills(eo, Makers(b, eo));
    ReachableBounds(eo, Makers(b, eo));
    ExecutedOk(users, fees, o, e.report, g.remaining, left);
    FinishAccounted(settled, users, fees, executed, g.fills, left);
  }

  /** Whatever the engine answers, the new order's account adds up, and nobody else's stops to. */
  lemma PlaceKeepsAccounted(x: Exchange, users: Users, fees: Fees, r: Request)
    requires FeesOk(fees) && Reserved(x, users, fees) && RequestOk(r) && r.id !in LocalIds(x.desk.orders)
    requires Accounted(x.desk, fees, r.id, 0.0)
    ensures var p := PlaceOrder(x, users, fees, r);
            p.Placed? ==> Accounted(p.exchange.desk, fees, r.id, 0.0)
  {
    hide DeskOk, MarketsOk, MarketOk, SubmitAndCascade, Submit, Greedy, Accounted, PlaceOrder, SettleFills, FinishOrder;
    if !PlaceOrder(x, users, fees, r).NotPlaced? {
      var o, locked, b, e := PlacedFrom(x, users, fees, r);
      LockedAccounted(x.desk, fees, o, locked.wallets);
      if TurnedAway(e, b) {
        TurnedAwayAccounted(Exchange(x.markets[r.symbol := e.book], locked), users, fees, o, e.report);
      } else if KilledOutright(e, b) {
        KilledAccounted(Exchange(x.markets[r.symbol := e.book], locked), users, fees, o, e.report);
      } else {
        RanAccounted(locked, users, fees, o, b, e);
      }
    }
  }

  lemma TurnedAwayAccounted(x: Exchange, users: Users, fees: Fees, o: StoredOrder, report: ExecutionReport)
    requires FeesOk(fees) && InFlight(users, fees, o) && o.lockedAmount >= 0.0 && !report.accepted
    requires DeskOk(x.desk, users, fees, o.LockKey(), o.lockedAmount)
    requires Accounted(x.desk, fees, o.id, o.lockedAmount) && Follows(x.desk, o, 0.0)
    ensures var p := AfterMatching(x, users, fees, o, report);
            p.Placed? ==> Accounted(p.exchange.desk, fees, o.id, 0.0)
  {
    hide Accounted, UnlockBalance, DeskOk;
    UnlockedDesk(x.desk, users, fees, o, o.lockedAmount, o.lockedAmount);
    ReleaseAccounted(x.desk, fees, o, 0.0, o.lockedAmount, o.lockedAmount, UnlockBalance(x.desk.wallets, users, o, o.lockedAmount).wallets);
  }

  lemma KilledAccounted(x: Exchange, users: Users, fees: Fees, o: StoredOrder, report: ExecutionReport)
    requires FeesOk(fees) && InFlight(users, fees, o) && o.lockedAmount >= 0.0
    requires report.accepted && report.status.Expired? && report.fills == []
    requires DeskOk(x.desk, users, fees, o.LockKey(), o.lockedAmount)
    requires Accounted(x.desk, fees, o.id, o.lockedAmount) && Follows(x.desk, o, 0.0)
    ensures var p := AfterMatching(x, users, fees, o, report);
            p.Placed? ==> Accounted(p.exchange.desk, fees, o.id, 0.0)
  {
    hide Accounted, DeskOk, FinishOrder, ConsumedLock;
    FinishOk(x.desk, users, fees, AfterFills(o, report), []);
    FinishAccounted(x.desk, users, fees, AfterFills(o, report), [], o.lockedAmount);
  }

  lemma CancelKeepsAccounted(x: Exchange, users: Users, fees: Fees, id: Id, symbol: Pair, userId: Id)
    requires FeesOk(fees) && Reserved(x, users, fees) && Accounted(x.desk, fees, id, 0.0)
    ensures var c := CancelOrder(x, users, id, symbol, userId);
            c.CancelDone? && Accounted(c.exchange.desk, fees, id, 0.0)
  {
    CancelKeepsReserved(x, users, fees, id, symbol, userId);
    var k := FindTheirs(x.desk.orders, id, symbol, userId);
    if symbol in x.markets && Cancel(x.markets[symbol], id, userId).cancelled && k < |x.desk.orders| {
      LocksNonNegative(users, fees, x.desk.orders);
      assert x.desk.orders[k] in x.desk.orders;
      ClosingAccounted(x.desk, fees, k, CancelOrder(x, users, id, symbol, userId).exchange.desk);
    }
  }

  /** Closing an open order gives back all its lock. */
  lemma ClosingAccounted(desk: Desk, fees: Fees, k: nat, after: Desk)
    requires k < |desk.orders| && Unique(desk.orders) && desk.orders[k].lockedAmount >= 0.0
    requires Accounted(desk, fees, desk.orders[k].id, 0.0)
    requires after.orders == Dropped(desk.orders, k)
    requires after.accounts == Release(desk.accounts, desk.orders[k].id, desk.orders[k].lockedAmount)
    ensures Accounted(after, fees, desk.orders[k].id, 0.0)
  {
    var o := desk.orders[k];
    assert o in desk.orders;
    var a := desk.accounts[o.id];
    var closed := a.(released := a.released + o.lockedAmount);
    assert after.accounts == desk.accounts[o.id := closed];
    AccountedDrop(desk, fees, k, closed, o.id, 0.0, after);
  }
}
