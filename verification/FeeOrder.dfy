/** The order of the fees: a buyer's lock is made for the taker's fee, so a higher maker's fee
    can find it short. When exactly that happens, to one fill and over all runs. */
module FeeOrder {
  import opened Domain
  import opened FlatBook
  import opened BookInvariant
  import opened CancelAndStops
  import opened GreedyMatching
  import opened SubmitLaws
  import opened Cascade
  import opened History
  import opened Wallet
  import opened WalletLaws
  import opened Trading
  import opened LockArithmetic
  import opened Reservation
  import opened PlaceAndCancel
  import opened TradingRuns

  // ---------------------------------------------------------------- one fill

  /** A settlement that wants more than the maker's locked bucket holds is refused. */
  lemma SettlementShort(w: Wallets, users: Users, s: Settlement)
    requires MakerPays(s) > BalanceOf(w, MakerKey(s)).locked
    ensures SettleTrade(w, users, s).Failed?
  {
    assert Legs(s)[0] == Leg(MakerKey(s), -MakerPays(s), Locked);
  }

  /** Booking a settled fill fails only if the rest of a filled maker's lock is not there. */
  lemma BookingGoes(desk: Desk, users: Users, fees: Fees, fill: Fill, k: nat)
    requires k < |desk.orders| && Unique(desk.orders) && desk.orders[k].id == fill.makerOrderId
    requires NonNegative(desk.wallets) && Refused(users, desk.orders[k].userId).None?
    requires Filling(fees, desk.orders[k], fill).lockedAmount <= BalanceOf(desk.wallets, desk.orders[k].LockKey()).locked
    ensures ApplyFill(desk, users, fees, fill).Going?
  {
    FindsUnique(desk.orders, k);
    var maker := Filling(fees, desk.orders[k], fill);
    if maker.lockedAmount > 0.0 {
      UnlockMoves(desk.wallets, users, maker, maker.lockedAmount);
    }
  }

  /** Whatever else is open: a fill of a buyer's open order, of any quantity, is settled and
      booked if and only if the buyer's locked bucket holds its cost with the maker's fee. */
  lemma BuyerFillExactly(desk: Desk, users: Users, fees: Fees, taker: StoredOrder, fill: Fill, k: nat, inflight: Decimal)
    requires TakerFeeOk(fees) && DeskOk(desk, users, fees, taker.LockKey(), inflight)
    requires FillFits(desk.orders, taker, fill, k) && desk.orders[k].side.Buy?
    requires fill.quantity <= inflight && Refused(users, taker.userId).None?
    ensures SettleFill(desk, users, fees, taker, fill).Going? <==>
              ConsumedLock(Buy, fill.price, fill.quantity, fees.makerBps) <= BalanceOf(desk.wallets, desk.orders[k].LockKey()).locked
  {
    var s := SettlementOf(fees, desk.orders, taker, fill);
    var made := ConsumedLock(Buy, fill.price, fill.quantity, fees.makerBps);
    SettlementPayable(users, fees, desk.orders, taker, fill, k);
    if made <= BalanceOf(desk.wallets, desk.orders[k].LockKey()).locked {
      SettlementCovered(desk, users, fees, taker, s, k, inflight, made, fill.quantity);
      BucketsHold(desk, users, fees, taker.LockKey(), inflight, k);
      assert desk.orders[k] in desk.orders && OrderOk(users, fees, desk.orders[k]);
      SettledBuyer(desk, users, fees, taker, fill, k, made, SettleTrade(desk.wallets, users, s).wallets);
    } else {
      SettlementShort(desk.wallets, users, s);
    }
  }

  lemma SettledBuyer(desk: Desk, users: Users, fees: Fees, taker: StoredOrder, fill: Fill, k: nat, made: Decimal, settled: Wallets)
    requires FillFits(desk.orders, taker, fill, k) && Unique(desk.orders) && NonNegative(settled)
    requires Refused(users, desk.orders[k].userId).None? && desk.orders[k].side.Buy?
    requires SettleTrade(desk.wallets, users, SettlementOf(fees, desk.orders, taker, fill)) == Done(settled)
    requires made == ConsumedLock(Buy, fill.price, fill.quantity, fees.makerBps)
    requires Cuts(desk.wallets, settled, desk.orders[k].LockKey(), made, taker.LockKey(), fill.quantity)
    requires desk.orders[k].lockedAmount <= BalanceOf(desk.wallets, desk.orders[k].LockKey()).locked
    ensures SettleFill(desk, users, fees, taker, fill).Going?
  {
    var cost := ConsumedLock(taker.side, fill.price, fill.quantity, fees.takerBps);
    var paid := desk.(wallets := settled, accounts := Spend(desk.accounts, taker.id, cost, fill.quantity));
    BookingGoes(paid, users, fees, fill, k);
  }

  lemma CostScales(price: Decimal, quantity: Decimal, bps: Decimal)
    ensures ConsumedLock(Buy, price, quantity, bps) * 10000.0 == price * (quantity * (10000.0 + bps))
  {
    var n := price * quantity;
    assert ConsumedLock(Buy, price, quantity, bps) * 10000.0 == n * 10000.0 + n * bps;
    assert n * 10000.0 + n * bps == n * (10000.0 + bps);
    assert n * (10000.0 + bps) == price * (quantity * (10000.0 + bps));
  }

  lemma LoneBucket(desk: Desk, maker: StoredOrder, key: WalletKey, inflight: Decimal)
    requires desk.orders == [maker] && Balanced(desk.wallets, desk.orders, key, inflight) && key != maker.LockKey()
    ensures BalanceOf(desk.wallets, maker.LockKey()).locked == maker.lockedAmount
  {
    assert desk.orders[1..] == [];
    assert LockedSum(desk.orders, maker.LockKey()) == maker.lockedAmount;
  }

  /** What a quantity at a fee costs, for comparing at one price. */
  function Weight(quantity: Decimal, bps: Decimal): Decimal {
    quantity * (10000.0 + bps)
  }

  lemma CostsCompare(price: Decimal, q: Decimal, maker: Decimal, quantity: Decimal, taker: Decimal)
    requires price > 0.0
    ensures (ConsumedLock(Buy, price, q, maker) <= ConsumedLock(Buy, price, quantity, taker)) <==> Weight(q, maker) <= Weight(quantity, taker)
  {
    CostScales(price, q, maker);
    CostScales(price, quantity, taker);
    var x, y := Weight(q, maker), Weight(quantity, taker);
    assert price * y - price * x == price * (y - x);
    if x <= y {
      assert price * (y - x) >= 0.0;
    } else {
      assert price * (x - y) > 0.0;
      assert price * (y - x) == -(price * (x - y));
    }
  }

  lemma WholeFill(quantity: Decimal, maker: Decimal, taker: Decimal)
    requires quantity > 0.0
    ensures Weight(quantity, maker) <= Weight(quantity, taker) <==> maker <= taker
  {
    assert quantity * (10000.0 + taker) - quantity * (10000.0 + maker) == quantity * (taker - maker);
    if maker > taker {
      assert quantity * (maker - taker) > 0.0;
    }
  }

  /** For a buyer with nothing else locked the fees decide: the first fill of its order, for
      any part of it, is settled if and only if that part at the maker's fee costs no more
      than all of it at the taker's; a whole fill, if and only if the maker's fee is no higher. */
  lemma FeeOrderDecides(desk: Desk, users: Users, fees: Fees, taker: StoredOrder, fill: Fill, maker: StoredOrder, inflight: Decimal)
    requires TakerFeeOk(fees) && DeskOk(desk, users, fees, taker.LockKey(), inflight) && desk.orders == [maker]
    requires maker.side.Buy? && maker.filledQuantity == 0.0
    requires maker.lockedAmount == ConsumedLock(Buy, maker.LimitPrice(), maker.quantity, fees.takerBps)
    requires FillFits(desk.orders, taker, fill, 0) && fill.quantity <= inflight && Refused(users, taker.userId).None?
    ensures SettleFill(desk, users, fees, taker, fill).Going? <==>
              Weight(fill.quantity, fees.makerBps) <= Weight(maker.quantity, fees.takerBps)
    ensures fill.quantity == maker.quantity ==>
              (SettleFill(desk, users, fees, taker, fill).Going? <==> fees.makerBps <= fees.takerBps)
  {
    assert desk.orders[0] in desk.orders && OrderOk(users, fees, maker);
    hide ConsumedLock, SettleFill, Weight;
    BuyerFillExactly(desk, users, fees, taker, fill, 0, inflight);
    LoneBucket(desk, maker, taker.LockKey(), inflight);
    CostsCompare(fill.price, fill.quantity, fees.makerBps, maker.quantity, fees.takerBps);
    WholeFill(maker.quantity, fees.makerBps, fees.takerBps);
  }

  // ---------------------------------------------------------------- a run that shows it

  /** A limit order at 100 for one. */
  function OneAt100(id: Id, userId: Id, symbol: Pair, side: Side): Request {
    Request(id, userId, symbol, side, Limit, Some(100.0), None, 1.0)
  }

  /** The order as it goes to the engine, its funds locked. */
  function Sent(fees: Fees, r: Request): StoredOrder {
    NewOrder(r).(lockedAmount := ConsumedLock(r.side, 100.0, 1.0, fees.takerBps))
  }

  lemma SentInFlight(users: Users, fees: Fees, id: Id, userId: Id, symbol: Pair, side: Side)
    requires TakerFeeOk(fees) && Refused(users, userId).None?
    ensures var r := OneAt100(id, userId, symbol, side);
            InFlight(users, fees, Sent(fees, r)) && EstimateLock(fees, NewOrder(r)) == Some(Sent(fees, r).lockedAmount)
    ensures 0.0 <= ConsumedLock(side, 100.0, 1.0, fees.takerBps) <= 200.0
  {
    assert ConsumedLock(Buy, 100.0, 1.0, fees.takerBps) == 100.0 + fees.takerBps / 100.0;
  }

  /** A placement whose funds are there, unfolded. */
  lemma Funded(x: Exchange, users: Users, fees: Fees, r: Request, side: Side) returns (locked: Desk, e: EngineOutcome)
    requires TakerFeeOk(fees) && DeskOk(x.desk, users, fees, NO_KEY, 0.0) && Refused(users, r.userId).None?
    requires r == OneAt100(r.id, r.userId, r.symbol, side)
    requires BalanceOf(x.desk.wallets, Sent(fees, r).LockKey()).available >= Sent(fees, r).lockedAmount
    ensures locked == LockedFor(x.desk, Sent(fees, r), locked.wallets)
    ensures DeskOk(locked, users, fees, Sent(fees, r).LockKey(), Sent(fees, r).lockedAmount)
    ensures forall key :: key != Sent(fees, r).LockKey() ==> BalanceOf(locked.wallets, key) == BalanceOf(x.desk.wallets, key)
    ensures e == SubmitAndCascade(MarketOf(x.markets, r.symbol), EngineOrder(Sent(fees, r)))
    ensures PlaceOrder(x, users, fees, r) == AfterMatching(Exchange(x.markets[r.symbol := e.book], locked), users, fees, Sent(fees, r), e.report)
  {
    var o := Sent(fees, r);
    SentInFlight(users, fees, r.id, r.userId, r.symbol, side);
    LockedDesk(x.desk, users, fees, o);
    locked := LockedFor(x.desk, o, Lock(x.desk.wallets, users, Mutation(o.LockKey(), o.lockedAmount, o.id)).wallets);
    e := SubmitAndCascade(MarketOf(x.markets, r.symbol), EngineOrder(o));
  }

  ghost predicate RestsFirst(report: ExecutionReport, b: Book, o: Order) {
    && report.accepted && report.status.New? && report.fills == []
    && Wf(b) && b.stops == [] && b.bids == [o.(sequence := 1)] && b.asks == [] && b.status.Keys <= {o.orderId}
  }

  /** The first order of a market rests as it is. */
  lemma FirstRests(o: Order)
    requires Unfilled(o) && o.kind.Limit? && o.price.Some? && o.remainingQuantity > 0.0 && o.side.Buy?
    ensures var e := SubmitAndCascade(EmptyBook, o);
            RestsFirst(e.report, e.book, o)
  {
    EmptyTakes(o);
    FirstSubmitted(EmptyBook, o);
    var s := Submit(EmptyBook, o);
    assert s.book.stops == [];
    hide Submit, RestsFirst;
    CascadeIdle(s.book, FillPrices(s.report.fills));
  }

  lemma FirstSubmitted(b: Book, o: Order)
    requires Unfilled(o) && o.kind.Limit? && o.side.Buy?
    requires Wf(b) && Refusal(b, o).None? && !WouldCross(o, Makers(b, o))
    requires b.bids == [] && b.asks == [] && b.stops == [] && b.status.Keys == {} && b.nextSequence == 0
    ensures var s := Submit(b, o);
            RestsFirst(s.report, s.book, o)
  {
    assert Insert([], o.(sequence := 1)) == [o.(sequence := 1)];
    hide Submit, Wf, Refusal, Insert, WouldCross, Executes;
    RestsUntouched(b, o);
    SubmitKeepsWf(b, o);
    SubmitIntroducesOnly(b, o);
    UntouchedFillsNothing(b, o);
  }

  lemma EmptyTakes(o: Order)
    requires o.kind.Limit? && o.price.Some? && o.remainingQuantity > 0.0
    ensures Wf(EmptyBook) && Refusal(EmptyBook, o).None? && !WouldCross(o, Makers(EmptyBook, o))
    ensures EmptyBook.stops == [] && EmptyBook.Resting(o.side) == [] && Makers(EmptyBook, o) == [] && EmptyBook.status.Keys == {}
    ensures Insert([], o.(sequence := 1)) == [o.(sequence := 1)]
  {
    EmptyBookIsSound();
  }

  /** An order that crosses nothing is answered without fills. */
  lemma UntouchedFillsNothing(b: Book, o: Order)
    requires Wf(b) && Unfilled(o) && Refusal(b, o).None? && o.kind.Limit? && !WouldCross(o, Makers(b, o))
    ensures Submit(b, o).report.fills == [] && Submit(b, o).report.accepted
  {
    assert Executes(b, o);
    hide Submit, Wf, Refusal, Executes, ConsumesPrefix;
    SubmitIsGreedy(b, o);
    SubmitReports(b, o);
  }

  /** With no fills a resting order keeps all it locked. */
  lemma RestingKeepsLock(x: Exchange, users: Users, fees: Fees, o: StoredOrder, report: ExecutionReport)
    requires TakerFeeOk(fees) && InFlight(users, fees, o) && o.status.New? && o.id !in LocalIds(x.desk.orders)
    requires DeskOk(x.desk, users, fees, o.LockKey(), o.lockedAmount)
    requires report.accepted && report.status.New? && report.fills == []
    ensures var p := AfterMatching(x, users, fees, o, report);
            && p.Placed? && p.exchange.markets == x.markets && DeskOk(p.exchange.desk, users, fees, NO_KEY, 0.0)
            && p.exchange.desk.orders == x.desk.orders + [o] && p.exchange.desk.wallets == x.desk.wallets
  {
    assert AfterFills(o, report) == o;
    ConsumedNonNegative(o.side, o.LimitPrice(), o.quantity, fees.takerBps);
    assert RestLock(fees, o) == o.lockedAmount;
    FinishOk(x.desk, users, fees, o, []);
    assert o.(lockedAmount := RestLock(fees, o)) == o;
  }

  /** A buyer's order resting alone. */
  ghost predicate RestsAlone(x: Exchange, users: Users, fees: Fees, bid: Request) {
    && bid == OneAt100(bid.id, bid.userId, bid.symbol, Buy)
    && DeskOk(x.desk, users, fees, NO_KEY, 0.0) && x.desk.orders == [Sent(fees, bid)]
    && bid.symbol in x.markets && Wf(x.markets[bid.symbol]) && x.markets[bid.symbol].stops == []
    && x.markets[bid.symbol].asks == [] && x.markets[bid.symbol].bids == [EngineOrder(Sent(fees, bid)).(sequence := 1)]
    && x.markets[bid.symbol].status.Keys <= {bid.id}
  }

  lemma BidRestsAlone(x: Exchange, users: Users, fees: Fees, bid: Request)
    requires TakerFeeOk(fees) && DeskOk(x.desk, users, fees, NO_KEY, 0.0) && x.desk.orders == [] && x.markets == map[]
    requires Refused(users, bid.userId).None? && bid == OneAt100(bid.id, bid.userId, bid.symbol, Buy)
    requires BalanceOf(x.desk.wallets, Sent(fees, bid).LockKey()).available >= 200.0
    ensures var p := PlaceOrder(x, users, fees, bid);
            && p.Placed? && RestsAlone(p.exchange, users, fees, bid)
            && forall key :: key != Sent(fees, bid).LockKey() ==> BalanceOf(p.exchange.desk.wallets, key) == BalanceOf(x.desk.wallets, key)
  {
    SentInFlight(users, fees, bid.id, bid.userId, bid.symbol, Buy);
    var locked, e := Funded(x, users, fees, bid, Buy);
    FirstRests(EngineOrder(Sent(fees, bid)));
    RestingKeepsLock(Exchange(x.markets[bid.symbol := e.book], locked), users, fees, Sent(fees, bid), e.report);
    assert [] + [Sent(fees, bid)] == [Sent(fees, bid)];
  }

  /** An order that meets exactly one other of its size. */
  lemma MeetsOne(b: Book, o: Order, bid: Order)
    requires Wf(b) && b.stops == [] && b.bids == [bid] && b.asks == [] && bid.userId != o.userId && bid.orderId != o.orderId
    requires o.orderId !in b.status
    requires Unfilled(o) && o.kind.Limit? && o.side.Sell? && o.price == Some(100.0) == bid.price
    requires o.remainingQuantity == 1.0 == bid.remainingQuantity
    ensures var e := SubmitAndCascade(b, o);
            e.report.accepted && e.report.fills == [FillOf(bid, o)]
  {
    FillsOne(o, bid);
    OnlyBid(b, o, bid);
    hide Submit, SubmitAndCascade, Executes, Wf, Refusal, Greedy, ConsumesPrefix, Ran, TurnedAway, KilledOutright;
    SubmitIsGreedy(b, o);
    SubmitReports(b, o);
    EngineAnswers(b, o);
  }

  lemma OnlyBid(b: Book, o: Order, bid: Order)
    requires b.bids == [bid] && b.asks == [] && bid.orderId != o.orderId && o.orderId !in b.status
    requires o.kind.Limit? && o.side.Sell? && o.price.Some? && o.remainingQuantity > 0.0
    ensures Executes(b, o) && Makers(b, o) == [bid]
  {
    assert b.RestingIds() == {bid.orderId};
  }

  lemma FillsOne(o: Order, bid: Order)
    requires bid.userId != o.userId && o.kind.Limit? && o.side.Sell? && o.price == Some(100.0) == bid.price
    requires o.remainingQuantity == 1.0 == bid.remainingQuantity
    ensures Greedy(o, [bid]).fills == [FillOf(bid, o)] && TotalQuantity([FillOf(bid, o)]) == 1.0
  {
    assert [bid][1..] == [];
    assert [FillOf(bid, o)] + [] == [FillOf(bid, o)];
  }

  /** Selling into the bid that rests alone: with a higher maker's fee its lock falls short. */
  lemma SaleFallsShort(x: Exchange, users: Users, fees: Fees, bid: Request, ask: Request)
    requires TakerFeeOk(fees) && fees.makerBps > fees.takerBps && RestsAlone(x, users, fees, bid)
    requires ask == OneAt100(ask.id, ask.userId, bid.symbol, Sell) && ask.id != bid.id && ask.userId != bid.userId
    requires Refused(users, ask.userId).None?
    requires BalanceOf(x.desk.wallets, Sent(fees, ask).LockKey()).available >= 1.0
    ensures PlaceOrder(x, users, fees, ask).Broken?
  {
    var maker, taker := Sent(fees, bid), Sent(fees, ask);
    SentInFlight(users, fees, ask.id, ask.userId, ask.symbol, Sell);
    var locked, e := Funded(x, users, fees, ask, Sell);
    var b := x.markets[bid.symbol];
    MeetsOne(b, EngineOrder(taker), b.bids[0]);
    var fill := FillOf(b.bids[0], EngineOrder(taker));
    FeeOrderDecides(locked, users, fees, taker, fill, maker, 1.0);
    FirstStuck(locked, users, fees, taker, fill);
  }

  lemma FirstStuck(desk: Desk, users: Users, fees: Fees, taker: StoredOrder, fill: Fill)
    requires SettleFill(desk, users, fees, taker, fill).Stuck?
    ensures SettleFills(desk, users, fees, taker, [fill]).Stuck?
  {
    assert [fill][0] == fill;
  }

  function Deposits(buyer: Id, seller: Id, symbol: Pair): seq<ExchangeOp> {
    [Funds(CreditOp(Mutation(WalletKey(buyer, symbol.quote), 200.0, "funds"), Deposit)),
     Funds(CreditOp(Mutation(WalletKey(seller, symbol.base), 1.0, "funds"), Deposit))]
  }

  /** Fund both, rest a buy, sell into it. */
  function FundRestSell(buyer: Id, seller: Id, symbol: Pair): seq<ExchangeOp> {
    Deposits(buyer, seller, symbol) + [Place(OneAt100("bid", buyer, symbol, Buy)), Place(OneAt100("ask", seller, symbol, Sell))]
  }

  lemma FundRestSellAdmissible(buyer: Id, seller: Id, symbol: Pair)
    ensures Admissible(FundRestSell(buyer, seller, symbol), {})
  {
    var ops := FundRestSell(buyer, seller, symbol);
    assert ops[1..][0] == ops[1] && ops[1..][1..] == [ops[2], ops[3]];
    assert [ops[2], ops[3]][1..] == [ops[3]];
    assert [ops[3]][1..] == [];
    assert Admissible([], {"bid"} + {"ask"});
    assert Admissible([ops[3]], {} + {} + {} + {"bid"});
    assert Admissible([ops[2], ops[3]], {} + {} + {});
  }

  /** A deposit adds to one available balance and changes nothing else. */
  lemma Deposited(x: Exchange, users: Users, fees: Fees, key: WalletKey, amount: Decimal)
    requires DeskOk(x.desk, users, fees, NO_KEY, 0.0) && Refused(users, key.userId).None? && amount >= 0.0
    ensures var next := Step(x, users, fees, Funds(CreditOp(Mutation(key, amount, "funds"), Deposit)));
            && next.Some? && next.value.markets == x.markets && next.value.desk.orders == x.desk.orders
            && DeskOk(next.value.desk, users, fees, NO_KEY, 0.0)
            && BalanceOf(next.value.desk.wallets, key).available == BalanceOf(x.desk.wallets, key).available + amount
            && forall k :: k != key ==> BalanceOf(next.value.desk.wallets, k) == BalanceOf(x.desk.wallets, k)
  {
    FundsMoveAvailable(x.desk.wallets, users, CreditOp(Mutation(key, amount, "funds"), Deposit));
  }

  lemma StepUnfolds(x: Exchange, users: Users, fees: Fees, op: ExchangeOp, rest: seq<ExchangeOp>)
    ensures RunExchange(x, users, fees, [op] + rest) == (
              var next := Step(x, users, fees, op);
              if next.None? then None else RunExchange(next.value, users, fees, rest))
  {
    assert ([op] + rest)[1..] == rest;
  }

  /** With a higher maker's fee that run breaks. */
  lemma FundRestSellBreaks(users: Users, fees: Fees, buyer: Id, seller: Id, symbol: Pair)
    requires TakerFeeOk(fees) && fees.makerBps > fees.takerBps
    requires buyer != seller && Refused(users, buyer).None? && Refused(users, seller).None?
    ensures RunExchange(EmptyExchange, users, fees, FundRestSell(buyer, seller, symbol)).None?
  {
    hide PlaceOrder, DeskOk, RestsAlone, Step;
    var bid, ask := OneAt100("bid", buyer, symbol, Buy), OneAt100("ask", seller, symbol, Sell);
    var x2 := FundedBoth(users, fees, buyer, seller, symbol, [Place(bid), Place(ask)]);
    BidRestsAlone(x2, users, fees, bid);
    var x3 := PlaceOrder(x2, users, fees, bid).exchange;
    SaleFallsShort(x3, users, fees, bid, ask);
    PlacedStep(x2, users, fees, bid);
    PlacedStep(x3, users, fees, ask);
    StepUnfolds(x2, users, fees, Place(bid), [Place(ask)]);
    StepUnfolds(x3, users, fees, Place(ask), []);
    assert [Place(bid)] + [Place(ask)] == [Place(bid), Place(ask)] && [Place(ask)] + [] == [Place(ask)];
  }

  lemma PlacedStep(x: Exchange, users: Users, fees: Fees, r: Request)
    ensures PlaceOrder(x, users, fees, r).Placed? ==> Step(x, users, fees, Place(r)) == Some(PlaceOrder(x, users, fees, r).exchange)
    ensures PlaceOrder(x, users, fees, r).Broken? ==> Step(x, users, fees, Place(r)) == None
  {
  }

  /** The exchange after both deposits. */
  lemma FundedBoth(users: Users, fees: Fees, buyer: Id, seller: Id, symbol: Pair, rest: seq<ExchangeOp>) returns (x: Exchange)
    requires buyer != seller && Refused(users, buyer).None? && Refused(users, seller).None?
    ensures x.markets == map[] && x.desk.orders == [] && DeskOk(x.desk, users, fees, NO_KEY, 0.0)
    ensures BalanceOf(x.desk.wallets, WalletKey(buyer, symbol.quote)).available >= 200.0
    ensures BalanceOf(x.desk.wallets, WalletKey(seller, symbol.base)).available >= 1.0
    ensures RunExchange(EmptyExchange, users, fees, Deposits(buyer, seller, symbol) + rest) == RunExchange(x, users, fees, rest)
  {
    var ops := Deposits(buyer, seller, symbol);
    assert DeskOk(EmptyExchange.desk, users, fees, NO_KEY, 0.0);
    assert EmptyExchange.markets == map[] && EmptyExchange.desk.orders == [];
    hide Step, DeskOk;
    Deposited(EmptyExchange, users, fees, WalletKey(buyer, symbol.quote), 200.0);
    var x1 := Step(EmptyExchange, users, fees, ops[0]).value;
    Deposited(x1, users, fees, WalletKey(seller, symbol.base), 1.0);
    x := Step(x1, users, fees, ops[1]).value;
    StepUnfolds(EmptyExchange, users, fees, ops[0], [ops[1]] + rest);
    StepUnfolds(x1, users, fees, ops[1], rest);
    assert ops + rest == [ops[0]] + ([ops[1]] + rest);
    assert BalanceOf(EmptyExchange.desk.wallets, WalletKey(seller, symbol.base)).available == 0.0;
    assert BalanceOf(EmptyExchange.desk.wallets, WalletKey(buyer, symbol.quote)).available == 0.0;
  }

  /** Locks cover settlements, over every run from the beginning, if and only if the maker's
      fee is no higher than the taker's: with two users who may trade, nothing less will do. */
  lemma EveryRunCompletesExactly(users: Users, fees: Fees, buyer: Id, seller: Id, symbol: Pair)
    requires TakerFeeOk(fees)
    requires buyer != seller && Refused(users, buyer).None? && Refused(users, seller).None?
    ensures (forall ops :: Admissible(ops, {}) ==> RunExchange(EmptyExchange, users, fees, ops).Some?) <==>
              fees.makerBps <= fees.takerBps
  {
    if fees.makerBps <= fees.takerBps {
      forall ops | Admissible(ops, {}) ensures RunExchange(EmptyExchange, users, fees, ops).Some? {
        EmptyRunNeverBreaks(users, fees, ops);
      }
    } else {
      FundRestSellBreaks(users, fees, buyer, seller, symbol);
      FundRestSellAdmissible(buyer, seller, symbol);
    }
  }
}
