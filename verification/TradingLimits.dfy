/** Where the trading service promises less than it seems to: each stronger claim with the
    exact condition under which it holds, and an input for which it does not. */
module TradingLimits {
  import opened Domain
  import opened FlatBook
  import opened BookInvariant
  import opened CancelAndStops
  import opened GreedyMatching
  import opened BestExecution
  import opened SubmitLaws
  import opened Cascade
  import opened Wallet
  import opened WalletLaws
  import opened Trading
  import opened LockArithmetic
  import opened Reservation
  import opened PlaceAndCancel
  import opened TradingRuns

  // ---------------------------------------------------------------- who is refused

  /** A request is turned away before anything changes exactly when its user may not trade or
      has less available than the order could cost. */
  lemma PlaceRefusedExactly(x: Exchange, users: Users, fees: Fees, r: Request)
    requires FeesOk(fees) && Reserved(x, users, fees) && RequestOk(r) && r.id !in LocalIds(x.desk.orders)
    ensures PlaceOrder(x, users, fees, r).NotPlaced? <==>
              Refused(users, r.userId).Some? ||
              BalanceOf(x.desk.wallets, NewOrder(r).LockKey()).available
                < ConsumedLock(r.side, r.price.value, r.quantity, fees.takerBps)
  {
    PlaceKeepsReserved(x, users, fees, r);
  }

  // ---------------------------------------------------------------- orders the engine let go of

  /** An order matched in part whose remainder the engine drops: immediate-or-cancel, or with
      an order of its own user among those it would trade with. */
  ghost predicate LeftOver(b: Book, o: Order) {
    Executes(b, o) && 0.0 < ReachableQuantity(o, Makers(b, o)) < o.remainingQuantity &&
    (o.kind.Ioc? || !NoOwnCrossing(o, Makers(b, o)))
  }

  ghost predicate RestsIn(x: Exchange, symbol: Pair, id: Id) {
    id in MarketOf(x.markets, symbol).RestingIds()
  }

  /** Open at the service, with nothing behind it in the engine. */
  ghost predicate Stranded(x: Exchange, o: StoredOrder) {
    o in x.desk.orders && !RestsIn(x, o.symbol, o.id)
  }

  lemma RanStatus(b: Book, o: Order)
    requires Wf(b) && b.stops == [] && Unfilled(o) && o.remainingQuantity > 0.0 && Executes(b, o)
    requires o.kind.Limit? || o.kind.PostOnly? || o.kind.Ioc? || o.kind.Fok?
    ensures var g := Greedy(o, Makers(b, o));
            var report := Submit(b, o).report;
            && (report.accepted <==> !g.blocked || g.fills != [])
            && (g.fills != [] <==> 0.0 < ReachableQuantity(o, Makers(b, o)))
            && (g.remaining > 0.0 <==> ReachableQuantity(o, Makers(b, o)) < o.remainingQuantity)
            && (report.accepted && g.remaining > 0.0 ==>
                  (report.status.New? || report.status.PartiallyFilled? <==> g.fills != [] || !o.kind.Ioc?))
            && (g.remaining > 0.0 && o.kind.Fok? ==> g.blocked) && !report.status.Expired?
  {
    var makers := Makers(b, o);
    assert AllPositive(makers);
    MatchedGreedily(b, o);
    GreedyFills(o, makers);
    ReachableBounds(o, makers);
    FirstReachable(o, makers);
    if o.kind.Fok? {
      FokNeverExpiresLate(b, o);
    }
    assert Submit(b, o) == Execute(b, o);
  }

  lemma FirstReachable(o: Order, makers: seq<Order>)
    requires AllPositive(makers) && o.remainingQuantity > 0.0
    ensures Greedy(o, makers).fills != [] <==> 0.0 < ReachableQuantity(o, makers)
  {
    if makers != [] {
      TailPositive(makers);
      ReachableBounds(o, makers[1..]);
    }
  }

  lemma BackedIds(orders: seq<StoredOrder>, symbol: Pair, resting: seq<Order>)
    requires Backed(orders, symbol, resting)
    ensures Ids(resting) <= LocalIds(orders)
  {
    forall m | m in resting ensures m.orderId in LocalIds(orders) {
      var x :| x in orders && Behind(x, symbol, m);
    }
  }

  /** After a match that ran, the order is kept, and rests, exactly as its remainder says. */
  lemma RanPlacement(desk: Desk, users: Users, fees: Fees, o: StoredOrder, b: Book, e: EngineOutcome)
    requires FeesOk(fees) && InFlight(users, fees, o) && o.id !in LocalIds(desk.orders)
    requires DeskOk(desk, users, fees, o.LockKey(), o.lockedAmount) && MarketOk(b, desk.orders, o.symbol)
    requires Ran(e, b, EngineOrder(o), Greedy(EngineOrder(o), Makers(b, EngineOrder(o))))
    ensures var settled := SettleFills(desk, users, fees, o, e.report.fills);
            var eo := EngineOrder(o);
            var g := Greedy(eo, Makers(b, eo));
            && settled.Going?
            && var f := FinishOrder(settled.desk, users, fees, AfterFills(o, e.report), e.report.fills);
               && f.Going?
               && (o.id in LocalIds(f.desk.orders) <==> g.remaining > 0.0 && (e.report.status.New? || e.report.status.PartiallyFilled?))
               && (o.id in e.book.RestingIds() <==> !g.blocked && Rests(Remainder(b, eo)))
  {
    hide MarketOk, DeskOk, Greedy, SettleFills, FinishOrder, Backed, ConsumedLock, Matches, MakersOk, Covers, OrderOk, RestLock;
    var eo := EngineOrder(o);
    var makers := Makers(b, eo);
    var g := Greedy(eo, makers);
    var settled, final := RanDesk(desk, users, fees, o, b, e);
    EngineOrderMatches(users, fees, o, b, desk.orders);
    SettleFillsOk(desk, users, fees, o, eo, makers, o.lockedAmount);
    BackedIds(settled.orders, o.symbol, g.left);
    BackedIds(desk.orders, o.symbol, b.Resting(o.side));
    InsertMembers(b.Resting(o.side), Remainder(b, eo));
    FinishedIds(settled, users, fees, AfterFills(o, e.report), e.report.fills);
  }

  lemma FinishedIds(desk: Desk, users: Users, fees: Fees, o: StoredOrder, fills: seq<Fill>)
    requires FinishOrder(desk, users, fees, o, fills).Going?
    ensures LocalIds(FinishOrder(desk, users, fees, o, fills).desk.orders)
         == LocalIds(desk.orders) + if ShouldRest(o) then {o.id} else {}
  {
    var kept := o.(lockedAmount := RestLock(fees, o));
    assert forall q :: q in desk.orders + [kept] <==> q in desk.orders || q == kept;
  }

  /** An order the engine does not run leaves no trace in the list of open orders. */
  lemma NotRunLeavesOrders(markets: Markets, locked: Desk, users: Users, fees: Fees, o: StoredOrder, b: Book, e: EngineOutcome)
    requires FeesOk(fees) && InFlight(users, fees, o) && o.lockedAmount >= 0.0
    requires DeskOk(locked, users, fees, o.LockKey(), o.lockedAmount)
    requires TurnedAway(e, b) || KilledOutright(e, b)
    ensures var p := AfterMatching(Exchange(markets, locked), users, fees, o, e.report);
            p.Placed? && p.exchange.desk.orders == locked.orders && p.exchange.markets == markets
  {
    if TurnedAway(e, b) {
      UnlockedDesk(locked, users, fees, o, o.lockedAmount, o.lockedAmount);
    } else {
      FinishOk(locked, users, fees, AfterFills(o, e.report), []);
    }
  }

  lemma RunStrands(markets: Markets, locked: Desk, users: Users, fees: Fees, o: StoredOrder, b: Book, e: EngineOutcome)
    requires FeesOk(fees) && InFlight(users, fees, o) && o.id !in LocalIds(locked.orders)
    requires DeskOk(locked, users, fees, o.LockKey(), o.lockedAmount) && MarketOk(b, locked.orders, o.symbol)
    requires Executes(b, EngineOrder(o)) && e.report == Submit(b, EngineOrder(o)).report
    requires Ran(e, b, EngineOrder(o), Greedy(EngineOrder(o), Makers(b, EngineOrder(o))))
    ensures var p := AfterMatching(Exchange(markets, locked), users, fees, o, e.report);
            && p.Placed? && p.exchange.markets == markets
            && ((o.id in LocalIds(p.exchange.desk.orders) && o.id !in e.book.RestingIds()) <==> LeftOver(b, EngineOrder(o)))
  {
    hide Wf, Greedy, DeskOk, SettleFills, FinishOrder, Submit, Executes, ReachableQuantity, NoOwnCrossing;
    MakersSound(b, EngineOrder(o));
    RanStatus(b, EngineOrder(o));
    BlockedExactly(EngineOrder(o), Makers(b, EngineOrder(o)));
    RanPlacement(locked, users, fees, o, b, e);
  }

  lemma NotRunLeavesNothingOver(b: Book, o: Order, e: EngineOutcome)
    requires Wf(b) && b.stops == [] && Unfilled(o) && o.remainingQuantity > 0.0
    requires o.kind.Limit? || o.kind.PostOnly? || o.kind.Ioc? || o.kind.Fok?
    requires e.report == Submit(b, o).report && (TurnedAway(e, b) || KilledOutright(e, b))
    ensures !LeftOver(b, o)
  {
    if Executes(b, o) {
      RanStatus(b, o);
    }
  }

  lemma RunExecutes(b: Book, o: Order, e: EngineOutcome)
    requires e.book == Submit(b, o).book && e.report == Submit(b, o).report && !IsStop(o.kind)
    ensures TurnedAway(e, b) || KilledOutright(e, b) || Executes(b, o)
  {
  }

  /** A new order is stranded, open at the service with nothing behind it in the engine,
      exactly when it matches in part and the engine drops its remainder. */
  lemma StrandedExactly(x: Exchange, users: Users, fees: Fees, r: Request)
    requires FeesOk(fees) && Reserved(x, users, fees) && RequestOk(r) && r.id !in LocalIds(x.desk.orders)
    requires PlaceOrder(x, users, fees, r).Placed?
    ensures var y := PlaceOrder(x, users, fees, r).exchange;
            (r.id in LocalIds(y.desk.orders) && !RestsIn(y, r.symbol, r.id)) <==>
              LeftOver(MarketOf(x.markets, r.symbol), EngineOrder(NewOrder(r)))
  {
    hide PlaceOrder, AfterMatching, DeskOk, Wf, Backed, Submit, SubmitAndCascade, LeftOver, Ran, TurnedAway, KilledOutright, Executes, Greedy;
    var o, locked, b, e := PlacedFrom(x, users, fees, r);
    if TurnedAway(e, b) || KilledOutright(e, b) {
      NotRunLeavesOrders(x.markets[r.symbol := e.book], locked, users, fees, o, b, e);
      NotRunLeavesNothingOver(b, EngineOrder(o), e);
    } else {
      RunExecutes(b, EngineOrder(o), e);
      RunStrands(x.markets[r.symbol := e.book], locked, users, fees, o, b, e);
    }
  }

  // ---------------------------------------------------------------- stranded for good

  lemma BackedOnlyHere(orders: seq<StoredOrder>, symbol: Pair, resting: seq<Order>, o: StoredOrder)
    requires Unique(orders) && o in orders && Backed(orders, symbol, resting) && o.id in Ids(resting)
    ensures o.symbol == symbol && exists m :: m in resting && m.orderId == o.id && m.userId == o.userId
  {
    var m :| m in resting && m.orderId == o.id;
    var q :| q in orders && Behind(q, symbol, m);
  }

  /** A stranded order is not a maker of any match. */
  lemma StrandedRestsNowhere(x: Exchange, users: Users, fees: Fees, o: StoredOrder, symbol: Pair)
    requires Reserved(x, users, fees) && Stranded(x, o)
    ensures !RestsIn(x, symbol, o.id)
  {
    var b := MarketOf(x.markets, symbol);
    EmptyMarketOk(x.desk.orders, symbol);
    if o.id in Ids(b.bids) {
      BackedOnlyHere(x.desk.orders, symbol, b.bids, o);
    } else if o.id in Ids(b.asks) {
      BackedOnlyHere(x.desk.orders, symbol, b.asks, o);
    }
  }

  /** An engine answer puts no other order into the book. */
  lemma AnswerIntroducesOnly(b: Book, o: Order, id: Id)
    requires Wf(b) && Unfilled(o) && b.stops == [] && !IsStop(o.kind) && id != o.orderId && id !in b.RestingIds()
    ensures id !in Submit(b, o).book.RestingIds()
  {
    SubmitIntroducesOnly(b, o);
    assert id !in b.LiveIds();
  }

  /** The list of open orders after a placement still holds an order that was no maker in it. */
  lemma AnswerKeepsOpen(markets: Markets, locked: Desk, users: Users, fees: Fees, i: StoredOrder, b: Book, e: EngineOutcome, o: StoredOrder)
    requires FeesOk(fees) && InFlight(users, fees, i) && i.lockedAmount >= 0.0 && i.id !in LocalIds(locked.orders)
    requires DeskOk(locked, users, fees, i.LockKey(), i.lockedAmount) && MarketOk(b, locked.orders, i.symbol)
    requires TurnedAway(e, b) || KilledOutright(e, b) || Ran(e, b, EngineOrder(i), Greedy(EngineOrder(i), Makers(b, EngineOrder(i))))
    requires o in locked.orders && o.id !in b.RestingIds()
    ensures var p := AfterMatching(Exchange(markets, locked), users, fees, i, e.report);
            p.Placed? && o in p.exchange.desk.orders && p.exchange.markets == markets
  {
    if TurnedAway(e, b) || KilledOutright(e, b) {
      NotRunLeavesOrders(markets, locked, users, fees, i, b, e);
    } else {
      var settled, final := RanDesk(locked, users, fees, i, b, e);
      assert o.id !in Ids(Makers(b, EngineOrder(i)));
      assert o in settled.orders;
    }
  }

  lemma PlaceKeepsStranded(x: Exchange, users: Users, fees: Fees, r: Request, o: StoredOrder)
    requires FeesOk(fees) && Reserved(x, users, fees) && RequestOk(r) && r.id !in LocalIds(x.desk.orders)
    requires Stranded(x, o) && PlaceOrder(x, users, fees, r).Placed?
    ensures Stranded(PlaceOrder(x, users, fees, r).exchange, o)
  {
    hide PlaceOrder, AfterMatching, DeskOk, Wf, Backed, Submit, SubmitAndCascade, Ran, TurnedAway, KilledOutright, Greedy;
    var i, locked, b, e := PlacedFrom(x, users, fees, r);
    assert o.id in LocalIds(x.desk.orders);
    StrandedRestsNowhere(x, users, fees, o, r.symbol);
    AnswerIntroducesOnly(b, EngineOrder(i), o.id);
    AnswerKeepsOpen(x.markets[r.symbol := e.book], locked, users, fees, i, b, e, o);
  }

  /** A stranded order cannot be cancelled, and no other cancel touches it. */
  lemma CancelKeepsStranded(x: Exchange, users: Users, fees: Fees, id: Id, symbol: Pair, userId: Id, o: StoredOrder)
    requires FeesOk(fees) && Reserved(x, users, fees) && Stranded(x, o)
    ensures var c := CancelOrder(x, users, id, symbol, userId);
            c.CancelDone? && Stranded(c.exchange, o) && (id == o.id ==> !c.cancelled && c.exchange == x)
  {
    CancelKeepsReserved(x, users, fees, id, symbol, userId);
    if CancelOrder(x, users, id, symbol, userId).cancelled {
      var m := CancelTakesOne(x.markets[symbol], id, userId);
      StrandedRestsNowhere(x, users, fees, o, symbol);
      assert id in x.markets[symbol].RestingIds() && id != o.id;
      CancelDrops(x, users, id, symbol, userId, o);
      CancelEmptiesOnly(x, users, id, symbol, userId, m, o);
    }
  }

  lemma CancelEmptiesOnly(x: Exchange, users: Users, id: Id, symbol: Pair, userId: Id, m: Order, o: StoredOrder)
    requires symbol in x.markets && !RestsIn(x, o.symbol, o.id)
    requires var b, after := x.markets[symbol], Cancel(x.markets[symbol], id, userId).book;
             Removed(b.bids, after.bids, m) && Removed(b.asks, after.asks, m)
    requires CancelOrder(x, users, id, symbol, userId).CancelDone?
    ensures !RestsIn(CancelOrder(x, users, id, symbol, userId).exchange, o.symbol, o.id)
  {
    assert CancelOrder(x, users, id, symbol, userId).exchange.markets
        == x.markets[symbol := Cancel(x.markets[symbol], id, userId).book];
  }

  lemma CancelDrops(x: Exchange, users: Users, id: Id, symbol: Pair, userId: Id, o: StoredOrder)
    requires Unique(x.desk.orders) && o in x.desk.orders && o.id != id
    requires CancelOrder(x, users, id, symbol, userId).CancelDone?
    ensures o in CancelOrder(x, users, id, symbol, userId).exchange.desk.orders
  {
    var k := FindTheirs(x.desk.orders, id, symbol, userId);
    if k < |x.desk.orders| {
      UniqueAfterDrop(x.desk.orders, k);
    }
  }

  lemma StepKeepsStranded(x: Exchange, users: Users, fees: Fees, op: ExchangeOp, used: set<Id>, o: StoredOrder)
    requires FeesOk(fees) && InOrder(x, users, fees) && LocalIds(x.desk.orders) <= used && OpOk(op, used) && Stranded(x, o)
    ensures Step(x, users, fees, op).Some? && Stranded(Step(x, users, fees, op).value, o)
  {
    StepKeepsOrder(x, users, fees, op, used);
    match op
    case Place(r) =>
      if PlaceOrder(x, users, fees, r).Placed? {
        PlaceKeepsStranded(x, users, fees, r, o);
      }
    case CancelPlaced(id, symbol, userId) => CancelKeepsStranded(x, users, fees, id, symbol, userId, o);
    case Funds(w) =>
  }

  /** Once stranded, an order stays open and its funds stay locked through every later run. */
  lemma {:induction false} StrandedForever(x: Exchange, users: Users, fees: Fees, ops: seq<ExchangeOp>, used: set<Id>, o: StoredOrder)
    requires FeesOk(fees) && InOrder(x, users, fees) && LocalIds(x.desk.orders) <= used && Admissible(ops, used)
    requires Stranded(x, o)
    ensures var end := RunExchange(x, users, fees, ops);
            end.Some? && Stranded(end.value, o) && BalanceOf(end.value.desk.wallets, o.LockKey()).locked >= o.lockedAmount
    decreases |ops|
  {
    if ops == [] {
      var k :| 0 <= k < |x.desk.orders| && x.desk.orders[k] == o;
      BucketsHold(x.desk, users, fees, NO_KEY, 0.0, k);
    } else {
      StepKeepsOrder(x, users, fees, ops[0], used);
      StepKeepsStranded(x, users, fees, ops[0], used, o);
      StrandedForever(Step(x, users, fees, ops[0]).value, users, fees, ops[1..], used + Uses(ops[0]), o);
    }
  }

  // ---------------------------------------------------------------- an order that is stranded

  function OneAsk(ask: Id, seller: Id): Order {
    Order(ask, seller, Sell, Limit, Some(100.0), None, 1.0, 1.0, 1)
  }

  function OneAskBook(ask: Id, seller: Id): Book {
    Book([], [OneAsk(ask, seller)], [], map[ask := StatusEntry(New, 0.0)], [], 1)
  }

  function OneOpen(ask: Id, seller: Id, symbol: Pair): StoredOrder {
    StoredOrder(ask, seller, symbol, Sell, Limit, Some(100.0), None, 1.0, 0.0, New, 1.0)
  }

  /** The seller has offered one at 100; the buyer has the funds for more. */
  function OneAskExchange(ask: Id, seller: Id, buyer: Id, symbol: Pair): Exchange {
    var wallets := Wallets(map[WalletKey(buyer, symbol.quote) := Balance(1000.0, 0.0), WalletKey(seller, symbol.base) := Balance(0.0, 1.0)], []);
    Exchange(map[symbol := OneAskBook(ask, seller)], Desk(wallets, [OneOpen(ask, seller, symbol)], map[ask := Account(Sell, 100.0, 1.0, 0.0, 0.0, 0.0)]))
  }

  lemma OneAskSound(ask: Id, seller: Id)
    ensures Wf(OneAskBook(ask, seller)) && OneAskBook(ask, seller).stops == []
  {
  }

  lemma OneAskDesk(ask: Id, seller: Id, buyer: Id, symbol: Pair, users: Users, fees: Fees)
    requires seller != buyer && Refused(users, seller).None?
    ensures DeskOk(OneAskExchange(ask, seller, buyer, symbol).desk, users, fees, NO_KEY, 0.0)
  {
    var desk := OneAskExchange(ask, seller, buyer, symbol).desk;
    assert desk.orders[1..] == [];
    assert OrderOk(users, fees, desk.orders[0]);
  }

  lemma OneAskInOrder(ask: Id, seller: Id, buyer: Id, symbol: Pair, users: Users, fees: Fees)
    requires seller != buyer && Refused(users, seller).None?
    ensures InOrder(OneAskExchange(ask, seller, buyer, symbol), users, fees)
  {
    var x := OneAskExchange(ask, seller, buyer, symbol);
    OneAskDesk(ask, seller, buyer, symbol, users, fees);
    OneAskSound(ask, seller);
    assert OneOpen(ask, seller, symbol) in x.desk.orders && Behind(OneOpen(ask, seller, symbol), symbol, OneAsk(ask, seller));
  }

  function BuyTwoNow(bid: Id, buyer: Id, symbol: Pair): Request {
    Request(bid, buyer, symbol, Buy, Ioc, Some(100.0), None, 2.0)
  }

  lemma OneAskLeftOver(ask: Id, seller: Id, bid: Id, buyer: Id, symbol: Pair)
    requires seller != buyer && ask != bid
    ensures LeftOver(OneAskBook(ask, seller), EngineOrder(NewOrder(BuyTwoNow(bid, buyer, symbol))))
  {
    var b := OneAskBook(ask, seller);
    assert b.RestingIds() == {ask};
    assert b.asks[1..] == [];
  }

  /** Buying two where one is on offer, immediate or cancel: the order stays open at the
      service, and by StrandedForever so it remains, with the funds of its remainder locked. */
  lemma ImmediateOrderStrands(ask: Id, seller: Id, bid: Id, buyer: Id, symbol: Pair, users: Users)
    requires seller != buyer && ask != bid && Refused(users, seller).None? && Refused(users, buyer).None?
    ensures var x, fees := OneAskExchange(ask, seller, buyer, symbol), Fees(10.0, 20.0);
            var p := PlaceOrder(x, users, fees, BuyTwoNow(bid, buyer, symbol));
            && InOrder(x, users, fees) && p.Placed? && InOrder(p.exchange, users, fees)
            && bid in LocalIds(p.exchange.desk.orders) && !RestsIn(p.exchange, symbol, bid)
  {
    var x, fees, r := OneAskExchange(ask, seller, buyer, symbol), Fees(10.0, 20.0), BuyTwoNow(bid, buyer, symbol);
    OneAskInOrder(ask, seller, buyer, symbol, users, fees);
    assert LocalIds(x.desk.orders) == {ask};
    assert ConsumedLock(Buy, 100.0, 2.0, 20.0) == 200.4;
    PlaceRefusedExactly(x, users, fees, r);
    StepKeepsOrder(x, users, fees, Place(r), {ask});
    PlaceKeepsReserved(x, users, fees, r);
    StrandedExactly(x, users, fees, r);
    OneAskLeftOver(ask, seller, bid, buyer, symbol);
  }

  // ---------------------------------------------------------------- stop orders

  /** What the engine answers to a stop order: it trades nothing. */
  lemma StopAnswer(b: Book, o: Order)
    requires IsStop(o.kind)
    ensures var e := SubmitAndCascade(b, o);
            && e.book == Submit(b, o).book && e.report == Submit(b, o).report && e.report.fills == []
            && (e.report.accepted <==> Refusal(b, o).None?)
            && (e.report.status.Rejected? || e.report.status.PendingStop?)
            && (e.report.accepted ==> o.orderId in Ids(e.book.stops))
  {
    if Refusal(b, o).None? {
      var stops := Submit(b, o).book.stops;
      assert stops[|stops| - 1].orderId == o.orderId && stops[|stops| - 1] in stops;
    }
  }

  /** Locking an amount and giving it back leaves every balance as it was. */
  lemma LockThenUnlock(w: Wallets, users: Users, o: StoredOrder, amount: Decimal)
    requires NonNegative(w) && amount >= 0.0 && Lock(w, users, Mutation(o.LockKey(), amount, o.id)).Done?
    ensures var u := UnlockBalance(Lock(w, users, Mutation(o.LockKey(), amount, o.id)).wallets, users, o, amount);
            u.Done? && forall key :: BalanceOf(u.wallets, key) == BalanceOf(w, key)
  {
  }

  /** A stop order is shown rejected whatever the engine says: its funds are given back and it
      is not kept, although the engine, when it accepts it, holds it pending. */
  lemma StopsShownRejected(x: Exchange, users: Users, fees: Fees, r: Request)
    requires FeesOk(fees) && IsStop(r.kind) && (r.price.Some? ==> r.price.value > 0.0) && r.quantity > 0.0
    requires NonNegative(x.desk.wallets) && PlaceOrder(x, users, fees, r).Placed?
    ensures var p := PlaceOrder(x, users, fees, r);
            && p.order.status.Rejected?
            && p.exchange.desk.orders == x.desk.orders
            && (forall key :: BalanceOf(p.exchange.desk.wallets, key) == BalanceOf(x.desk.wallets, key))
            && (p.report.accepted <==> Refusal(MarketOf(x.markets, r.symbol), EngineOrder(NewOrder(r))).None?)
            && (p.report.accepted ==> r.id in Ids(MarketOf(p.exchange.markets, r.symbol).stops))
  {
    var o := NewOrder(r).(lockedAmount := EstimateLock(fees, NewOrder(r)).value);
    assert EngineOrder(o) == EngineOrder(NewOrder(r));
    ConsumedNonNegative(o.side, o.LimitPrice(), o.quantity, fees.takerBps);
    StopAnswer(MarketOf(x.markets, r.symbol), EngineOrder(o));
    StopReturnsFunds(x, users, fees, o, SubmitAndCascade(MarketOf(x.markets, r.symbol), EngineOrder(o)));
  }

  lemma StopReturnsFunds(x: Exchange, users: Users, fees: Fees, o: StoredOrder, e: EngineOutcome)
    requires NonNegative(x.desk.wallets) && o.lockedAmount >= 0.0
    requires Lock(x.desk.wallets, users, Mutation(o.LockKey(), o.lockedAmount, o.id)).Done?
    requires e.report.fills == [] && (e.report.status.Rejected? || e.report.status.PendingStop?)
    ensures var locked := LockedFor(x.desk, o, Lock(x.desk.wallets, users, Mutation(o.LockKey(), o.lockedAmount, o.id)).wallets);
            var p := AfterMatching(Exchange(x.markets[o.symbol := e.book], locked), users, fees, o, e.report);
            && p.Placed? && p.order.status.Rejected? && p.report == e.report
            && p.exchange.markets == x.markets[o.symbol := e.book] && p.exchange.desk.orders == x.desk.orders
            && forall key :: BalanceOf(p.exchange.desk.wallets, key) == BalanceOf(x.desk.wallets, key)
  {
    LockThenUnlock(x.desk.wallets, users, o, o.lockedAmount);
    var executed := AfterFills(o, e.report);
    assert executed.LockKey() == o.LockKey();
  }
}
