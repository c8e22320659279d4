/** What a placement does for each kind of request, in terms of the request and of what rests on
    its market: how much it fills, what rests, what it leaves as it was, and what is returned. */
module PlacementTerms {
  import opened Domain
  import opened FlatBook
  import opened BookInvariant
  import opened CancelAndStops
  import opened GreedyMatching
  import opened SubmitLaws
  import opened Cascade
  import opened Wallet
  import opened WalletMoves
  import opened Trading
  import opened LockArithmetic
  import opened Reservation
  import opened PlaceAndCancel
  import opened ExchangeConservation
  import opened Holdings
  import opened OrderKinds

  // ---------------------------------------------------------------- what the engine is asked

  /** The order of a request, nothing filled. */
  function Asked(r: Request): Order {
    Order(r.id, r.userId, r.side, r.kind, r.price, r.stopPrice, r.quantity, r.quantity, 0)
  }

  function MarketAfter(x: Exchange, users: Users, fees: Fees, r: Request): Book
    requires PlaceOrder(x, users, fees, r).Placed?
  {
    MarketOf(PlaceOrder(x, users, fees, r).exchange.markets, r.symbol)
  }

  /** A placement of any kind makes one engine call on the request's market, for exactly what
      was requested; no other market moves. */
  lemma EngineSeesTheRequest(x: Exchange, users: Users, fees: Fees, r: Request)
    requires PlaceOrder(x, users, fees, r).Placed?
    ensures var p, e := PlaceOrder(x, users, fees, r), SubmitAndCascade(MarketOf(x.markets, r.symbol), Asked(r));
            && p.report == e.report && MarketAfter(x, users, fees, r) == e.book
            && forall s :: s != r.symbol ==> (s in p.exchange.markets <==> s in x.markets) && MarketOf(p.exchange.markets, s) == MarketOf(x.markets, s)
  {
    hide SubmitAndCascade, UnlockBalance, SettleFills, FinishOrder;
  }

  /** The same for the priced requests on a reserved exchange, which have no stops to fire. */
  lemma SubmitsTheRequest(x: Exchange, users: Users, fees: Fees, r: Request)
    requires FeesOk(fees) && Reserved(x, users, fees) && RequestOk(r) && PlaceOrder(x, users, fees, r).Placed?
    ensures var b := MarketOf(x.markets, r.symbol);
            && Wf(b) && Unfilled(Asked(r)) && Asked(r).remainingQuantity > 0.0 && b.stops == []
            && Submit(b, Asked(r)) == Submitted(MarketAfter(x, users, fees, r), PlaceOrder(x, users, fees, r).report)
  {
    hide PlaceOrder, SubmitAndCascade, Submit, Wf, AfterMatching;
    var b := MarketOf(x.markets, r.symbol);
    EmptyMarketOk(x.desk.orders, r.symbol);
    EngineSeesTheRequest(x, users, fees, r);
    EngineAnswers(b, Asked(r));
  }

  /** What a request must have available: what it sells, or what it would pay with its fee. */
  function Needed(fees: Fees, r: Request): Decimal {
    if r.side.Sell? || r.price.None? then r.quantity
    else r.price.value * r.quantity + FeeOn(r.price.value * r.quantity, fees.takerBps)
  }

  /** A request of any kind is not placed exactly when its user may not trade, it buys without a
      price, or the funds it needs are not available; and the first of these is the reason. */
  lemma NotPlacedExactly(x: Exchange, users: Users, fees: Fees, r: Request)
    ensures var p := PlaceOrder(x, users, fees, r);
            var funds := BalanceOf(x.desk.wallets, WalletKey(r.userId, if r.side.Sell? then r.symbol.base else r.symbol.quote)).available;
            && (p.NotPlaced? <==> !MayUse(users, r.userId) || (r.side.Buy? && r.price.None?) || funds < Needed(fees, r))
            && (p.NotPlaced? ==> p.reason == if r.userId !in users then CannotTrade(UserNotFound)
                                             else if !MayUse(users, r.userId) then CannotTrade(AccountNotActive)
                                             else if r.side.Buy? && r.price.None? then BuyNeedsPrice
                                             else NoFunds(NegativeBalance))
  {
    hide AfterMatching, SubmitAndCascade, EstimateLock, Needed, Lock;
    RefusedExactly(users, r.userId);
    NeededIsLocked(fees, r);
    var o := NewOrder(r).(lockedAmount := Needed(fees, r));
    LockExactly(x.desk.wallets, users, Mutation(o.LockKey(), o.lockedAmount, o.id));
    assert o.LockKey() == WalletKey(r.userId, if r.side.Sell? then r.symbol.base else r.symbol.quote);
    LaterNeverRefuses(users, fees);
  }

  lemma LaterNeverRefuses(users: Users, fees: Fees)
    ensures forall y: Exchange, o, report :: !AfterMatching(y, users, fees, o, report).NotPlaced?
  {
    hide SettleFills, UnlockBalance, FinishOrder;
  }

  lemma NeededIsLocked(fees: Fees, r: Request)
    ensures EstimateLock(fees, NewOrder(r)) == if r.side.Buy? && r.price.None? then None else Some(Needed(fees, r))
  {
    if r.price.Some? {
      CostAsPaid(Buy, r.price.value, r.quantity, fees.takerBps);
      assert r.side.Buy? ==> ConsumedLock(Buy, r.price.value, r.quantity, fees.takerBps) == Needed(fees, r);
    }
  }

  // ---------------------------------------------------------------- what stays as it was

  /** The market, the open orders and every balance are what they were. */
  ghost predicate Unmoved(x: Exchange, y: Exchange, symbol: Pair) {
    && MarketOf(y.markets, symbol) == MarketOf(x.markets, symbol) && y.desk.orders == x.desk.orders
    && forall key :: BalanceOf(y.desk.wallets, key) == BalanceOf(x.desk.wallets, key)
  }

  lemma LockedAndReturned(w: Wallets, users: Users, o: StoredOrder, amount: Decimal)
    requires amount >= 0.0 && Lock(w, users, Mutation(o.LockKey(), amount, o.id)).Done?
    requires UnlockBalance(Lock(w, users, Mutation(o.LockKey(), amount, o.id)).wallets, users, o, amount).Done?
    ensures var l := Lock(w, users, Mutation(o.LockKey(), amount, o.id)).wallets;
            forall key :: BalanceOf(UnlockBalance(l, users, o, amount).wallets, key) == BalanceOf(w, key)
  {
    var m := Mutation(o.LockKey(), amount, o.id);
    LockExactly(w, users, m);
    UnlockExactly(Lock(w, users, m).wallets, users, m);
    hide Lock, Unlock;
  }

  /** An order turned away, or killed before it trades, is shown so, and nothing has moved. */
  lemma UntradedUnmoved(x: Exchange, users: Users, fees: Fees, r: Request)
    requires FeesOk(fees) && Reserved(x, users, fees) && RequestOk(r) && PlaceOrder(x, users, fees, r).Placed?
    requires var report := PlaceOrder(x, users, fees, r).report;
             report.fills == [] && (!report.accepted || report.status.Expired?)
    requires MarketAfter(x, users, fees, r) == MarketOf(x.markets, r.symbol)
    ensures var p := PlaceOrder(x, users, fees, r);
            Unmoved(x, p.exchange, r.symbol) && p.order.status == if p.report.accepted then Expired else Rejected
  {
    hide PlaceOrder, Lock, UnlockBalance, ConsumedLock, SubmitAndCascade;
    var o, y, e := PlacementUnfolds(x, users, fees, r);
    ReportStays(y, users, fees, o, e.report);
    LockIsCost(x, users, fees, r, o);
    var executed := AfterFills(o, e.report);
    assert executed.LockKey() == o.LockKey() && executed.id == o.id;
    SameUnlock(y.desk.wallets, users, executed, o, o.lockedAmount);
    LockedAndReturned(x.desk.wallets, users, o, o.lockedAmount);
  }

  lemma SameUnlock(w: Wallets, users: Users, o: StoredOrder, p: StoredOrder, amount: Decimal)
    requires o.LockKey() == p.LockKey() && o.id == p.id
    ensures UnlockBalance(w, users, o, amount) == UnlockBalance(w, users, p, amount)
  {
  }

  lemma LockIsCost(x: Exchange, users: Users, fees: Fees, r: Request, o: StoredOrder)
    requires TakerFeeOk(fees) && RequestOk(r) && o == NewOrder(r).(lockedAmount := EstimateLock(fees, NewOrder(r)).value)
    ensures o.lockedAmount == ConsumedLock(r.side, r.price.value, r.quantity, fees.takerBps) >= 0.0
  {
    ConsumedNonNegative(r.side, r.price.value, r.quantity, fees.takerBps);
  }

  // ---------------------------------------------------------------- the order that is returned

  /** The request with what was filled of it, its status and what it still holds. */
  function Answer(r: Request, filled: Decimal, status: OrderStatus, lock: Decimal): StoredOrder {
    StoredOrder(r.id, r.userId, r.symbol, r.side, r.kind, r.price, r.stopPrice, r.quantity, filled, status, lock)
  }

  predicate StaysOpen(report: ExecutionReport, remaining: Decimal) {
    report.accepted && remaining > 0.0 && (report.status.New? || report.status.PartiallyFilled?)
  }

  /** The order returned shows the engine's fills and status, a pending stop as rejected; it
      holds the cost of its remainder at its limit with the taker's fee if it stays open, and
      otherwise nothing. The list of open orders gains it exactly then. */
  lemma AnswerExactly(x: Exchange, users: Users, fees: Fees, r: Request)
    requires FeesOk(fees) && Reserved(x, users, fees) && RequestOk(r) && r.id !in LocalIds(x.desk.orders)
    requires PlaceOrder(x, users, fees, r).Placed? && PlaceOrder(x, users, fees, r).report.accepted
    ensures var p := PlaceOrder(x, users, fees, r);
            var filled := TotalQuantity(p.report.fills);
            var open := StaysOpen(p.report, r.quantity - filled);
            var lock := if open then ConsumedLock(r.side, r.price.value, r.quantity - filled, fees.takerBps) else 0.0;
            && p.order == Answer(r, filled, if p.report.status.PendingStop? then Rejected else p.report.status, lock)
            && (r.id in LocalIds(p.exchange.desk.orders) <==> open)
            && (open ==> p.order in p.exchange.desk.orders)
  {
    hide PlaceOrder, AfterMatching, ConsumedLock, StaysOpen, SettleFills, SubmitAndCascade, EstimateLock;
    var o, y, e := PlacementUnfolds(x, users, fees, r);
    ReportStays(y, users, fees, o, e.report);
    CompletionAnswers(y, users, fees, o, e.report);
    var settled := SettleFills(y.desk, users, fees, o, e.report.fills).desk;
    SettleFillsKeepIds(y.desk, users, fees, o, e.report.fills);
    AnswerOfCompletion(fees, r, o, e.report);
    AppendedId(settled.orders, AfterFills(o, e.report).(lockedAmount := RestLock(fees, AfterFills(o, e.report))));
  }

  lemma CompletionAnswers(x: Exchange, users: Users, fees: Fees, o: StoredOrder, report: ExecutionReport)
    requires AfterMatching(x, users, fees, o, report).Placed? && report.accepted
    ensures var p, executed := AfterMatching(x, users, fees, o, report), AfterFills(o, report);
            var kept := executed.(lockedAmount := RestLock(fees, executed));
            var settled := SettleFills(x.desk, users, fees, o, report.fills);
            && settled.Going? && p.order == kept
            && p.exchange.desk.orders == if ShouldRest(executed) then settled.desk.orders + [kept] else settled.desk.orders
  {
    hide UnlockBalance, SettleFills, ConsumedByFills, RestLock;
  }

  lemma AnswerOfCompletion(fees: Fees, r: Request, o: StoredOrder, report: ExecutionReport)
    requires o == NewOrder(r).(lockedAmount := o.lockedAmount) && RequestOk(r) && report.accepted
    ensures var executed, filled := AfterFills(o, report), TotalQuantity(report.fills);
            var open := StaysOpen(report, r.quantity - filled);
            && (ShouldRest(executed) <==> open)
            && executed.(lockedAmount := RestLock(fees, executed))
               == Answer(r, filled, if report.status.PendingStop? then Rejected else report.status,
                         if open then ConsumedLock(r.side, r.price.value, r.quantity - filled, fees.takerBps) else 0.0)
  {
  }

  lemma AppendedId(orders: seq<StoredOrder>, o: StoredOrder)
    ensures LocalIds(orders + [o]) == LocalIds(orders) + {o.id} && o in orders + [o]
  {
    assert (orders + [o])[|orders|] == o;
  }

  // ---------------------------------------------------------------- settling brings in no order

  lemma {:induction false} SettleFillsKeepIds(desk: Desk, users: Users, fees: Fees, taker: StoredOrder, fills: seq<Fill>)
    ensures LocalIds(SettleFills(desk, users, fees, taker, fills).desk.orders) <= LocalIds(desk.orders)
    decreases |fills|
  {
    hide SettleFill;
    if fills != [] {
      SettleFillKeepsIds(desk, users, fees, taker, fills[0]);
      SettleFillsKeepIds(SettleFill(desk, users, fees, taker, fills[0]).desk, users, fees, taker, fills[1..]);
    }
  }

  lemma SettleFillKeepsIds(desk: Desk, users: Users, fees: Fees, taker: StoredOrder, fill: Fill)
    ensures LocalIds(SettleFill(desk, users, fees, taker, fill).desk.orders) <= LocalIds(desk.orders)
  {
    hide SettleTrade, UnlockBalance, ConsumedLock;
    var k := Find(desk.orders, fill.makerOrderId);
    var after := SettleFill(desk, users, fees, taker, fill).desk.orders;
    forall o | o in after ensures o.id in LocalIds(desk.orders) {
      var i :| 0 <= i < |after| && after[i] == o;
      assert desk.orders[if |after| == |desk.orders| || i < k then i else i + 1] in desk.orders;
    }
  }

  // ---------------------------------------------------------------- kind by kind

  /** The orders a request would trade with. */
  function MakersFor(b: Book, r: Request): seq<Order> {
    b.Resting(Opposite(r.side))
  }

  /** What other users offer it at its prices, ahead of its user's own orders. */
  function OfferTo(b: Book, r: Request): Decimal {
    Offered(r.side, r.price, Ahead(r.userId, MakersFor(b, r)))
  }

  /** The request rests with this much left of it. */
  ghost predicate RestsAs(b: Book, r: Request, quantity: Decimal) {
    exists m :: m in b.Resting(r.side) &&
      m == Order(r.id, r.userId, r.side, r.kind, r.price, r.stopPrice, r.quantity, quantity, m.sequence)
  }

  ghost predicate Placing(x: Exchange, users: Users, fees: Fees, r: Request) {
    FeesOk(fees) && Reserved(x, users, fees) && RequestOk(r) && r.id !in LocalIds(x.desk.orders) &&
    PlaceOrder(x, users, fees, r).Placed?
  }

  /** A request under an id the engine knows is rejected and moves nothing. */
  lemma KnownIdPlacement(x: Exchange, users: Users, fees: Fees, r: Request)
    requires Placing(x, users, fees, r) && r.id in MarketOf(x.markets, r.symbol).status
    ensures var p := PlaceOrder(x, users, fees, r);
            && p.report.fills == [] && p.report.reason == Some(DuplicateOrderId)
            && p.order.status.Rejected? && Unmoved(x, p.exchange, r.symbol)
  {
    hide PlaceOrder, Reserved, Submit, Wf, Unmoved;
    SubmitsTheRequest(x, users, fees, r);
    TurnedAwayExactly(MarketOf(x.markets, r.symbol), Asked(r));
    UntradedUnmoved(x, users, fees, r);
  }

  /** A post-only request never trades: with any order resting at a price it would take it is
      rejected and nothing moves; otherwise it rests in full, new and open. */
  lemma PostOnlyPlacement(x: Exchange, users: Users, fees: Fees, r: Request)
    requires Placing(x, users, fees, r) && r.kind.PostOnly? && r.id !in MarketOf(x.markets, r.symbol).status
    ensures var p, b := PlaceOrder(x, users, fees, r), MarketOf(x.markets, r.symbol);
            && p.report.fills == []
            && if exists m :: m in MakersFor(b, r) && Accepts(r.side, r.price, m.LimitPrice())
               then p.order.status.Rejected? && Unmoved(x, p.exchange, r.symbol)
               else
                 && p.order.status.New? && p.order in p.exchange.desk.orders
                 && RestsAs(MarketAfter(x, users, fees, r), r, r.quantity)
                 && MakersFor(MarketAfter(x, users, fees, r), r) == MakersFor(b, r)
  {
    hide PlaceOrder, Reserved, Submit, Wf, Unmoved, Accepts;
    var b := MarketOf(x.markets, r.symbol);
    SubmitsTheRequest(x, users, fees, r);
    PostOnlyByPrice(b, Asked(r));
    if SomethingInRange(Asked(r), MakersFor(b, r)) {
      UntradedUnmoved(x, users, fees, r);
    } else {
      AnswerExactly(x, users, fees, r);
    }
  }

  /** A limit request fills the lesser of its quantity and what is on offer to it. The rest of
      it rests, unless one of its user's own orders is in its range; then none of it does. */
  lemma LimitPlacement(x: Exchange, users: Users, fees: Fees, r: Request)
    requires Placing(x, users, fees, r) && r.kind.Limit? && r.id !in MarketOf(x.markets, r.symbol).status
    ensures var p, b, after := PlaceOrder(x, users, fees, r), MarketOf(x.markets, r.symbol), MarketAfter(x, users, fees, r);
            var rests := OfferTo(b, r) < r.quantity && NoneOwn(r.userId, r.side, r.price, MakersFor(b, r));
            && TotalQuantity(p.report.fills) == Min(r.quantity, OfferTo(b, r))
            && (rests ==> RestsAs(after, r, r.quantity - OfferTo(b, r)))
            && (!rests ==> r.id !in after.RestingIds())
  {
    hide PlaceOrder, Reserved, Submit, Wf, Offered, NoneOwn;
    var b := MarketOf(x.markets, r.symbol);
    SubmitsTheRequest(x, users, fees, r);
    TakesWhatIsOffered(b, Asked(r));
  }

  /** The status such a request is shown with: filled, partly filled, new where it rests
      untouched, and rejected where nothing of it is left. */
  lemma TakerStatus(x: Exchange, users: Users, fees: Fees, r: Request)
    requires Placing(x, users, fees, r) && (r.kind.Limit? || r.kind.Ioc?) && r.id !in MarketOf(x.markets, r.symbol).status
    ensures var p := PlaceOrder(x, users, fees, r);
            var filled := TotalQuantity(p.report.fills);
            p.order.status == if filled == r.quantity then Filled else if filled > 0.0 then PartiallyFilled
                              else if r.id in MarketAfter(x, users, fees, r).RestingIds() then New else Rejected
  {
    hide PlaceOrder, Reserved, Submit, Wf, Executes, Greedy, Matched;
    var b := MarketOf(x.markets, r.symbol);
    SubmitsTheRequest(x, users, fees, r);
    TakersExecute(b, Asked(r));
    SubmitReports(b, Asked(r));
    SubmitConservesQuantity(b, Asked(r));
    MatchedGreedily(b, Asked(r));
    ReportOf(b, Asked(r), Greedy(Asked(r), MakersFor(b, r)));
    RestsUnderItsId(b, Asked(r));
    if PlaceOrder(x, users, fees, r).report.accepted {
      AnswerExactly(x, users, fees, r);
    } else {
      RejectedIsShown(x, users, fees, r);
    }
  }

  lemma RejectedIsShown(x: Exchange, users: Users, fees: Fees, r: Request)
    requires PlaceOrder(x, users, fees, r).Placed? && !PlaceOrder(x, users, fees, r).report.accepted
    ensures PlaceOrder(x, users, fees, r).order.status.Rejected?
  {
    hide SubmitAndCascade, UnlockBalance, SettleFills, FinishOrder;
  }

  /** An immediate-or-cancel request fills the same and never rests. */
  lemma ImmediatePlacement(x: Exchange, users: Users, fees: Fees, r: Request)
    requires Placing(x, users, fees, r) && r.kind.Ioc? && r.id !in MarketOf(x.markets, r.symbol).status
    ensures TotalQuantity(PlaceOrder(x, users, fees, r).report.fills) == Min(r.quantity, OfferTo(MarketOf(x.markets, r.symbol), r))
    ensures r.id !in MarketAfter(x, users, fees, r).RestingIds()
  {
    hide PlaceOrder, Reserved, Submit, Wf, Offered, NoneOwn;
    SubmitsTheRequest(x, users, fees, r);
    TakesWhatIsOffered(MarketOf(x.markets, r.symbol), Asked(r));
  }

  /** A fill-or-kill request for more than others offer at its prices expires and moves
      nothing; otherwise it fills what is on offer ahead of its user's own orders, in whole if
      none of those is in its range. It never rests. */
  lemma FillOrKillPlacement(x: Exchange, users: Users, fees: Fees, r: Request)
    requires Placing(x, users, fees, r) && r.kind.Fok? && r.id !in MarketOf(x.markets, r.symbol).status
    ensures var p, b := PlaceOrder(x, users, fees, r), MarketOf(x.markets, r.symbol);
            && r.id !in MarketAfter(x, users, fees, r).RestingIds()
            && if Offered(r.side, r.price, Others(r.userId, MakersFor(b, r))) < r.quantity
               then p.report.fills == [] && p.order.status.Expired? && Unmoved(x, p.exchange, r.symbol)
               else
                 && TotalQuantity(p.report.fills) == Min(r.quantity, OfferTo(b, r))
                 && (NoneOwn(r.userId, r.side, r.price, MakersFor(b, r)) ==> TotalQuantity(p.report.fills) == r.quantity)
  {
    hide PlaceOrder, Reserved, Submit, Wf, Unmoved, Offered, NoneOwn;
    var b := MarketOf(x.markets, r.symbol);
    SubmitsTheRequest(x, users, fees, r);
    FillOrKillByPrice(b, Asked(r));
    if Offered(r.side, r.price, Others(r.userId, MakersFor(b, r))) < r.quantity {
      UntradedUnmoved(x, users, fees, r);
    }
  }

  /** A market request, wherever it completes, fills the lesser of its quantity and all that
      others offer ahead of its user's own orders, and never rests. */
  lemma MarketPlacement(x: Exchange, users: Users, fees: Fees, r: Request)
    requires Wf(MarketOf(x.markets, r.symbol)) && r.kind.Market? && r.quantity > 0.0 && r.id !in MarketOf(x.markets, r.symbol).status
    requires PlaceOrder(x, users, fees, r).Placed?
    ensures TotalQuantity(PlaceOrder(x, users, fees, r).report.fills)
         == Min(r.quantity, TotalRemaining(Ahead(r.userId, MakersFor(MarketOf(x.markets, r.symbol), r))))
  {
    hide PlaceOrder, Wf;
    var b := MarketOf(x.markets, r.symbol);
    EngineSeesTheRequest(x, users, fees, r);
    TakesWhatIsOffered(b, Asked(r));
    AllOffered(r.side, Ahead(r.userId, MakersFor(b, r)));
  }

  // ---------------------------------------------------------------- cancelling

  /** The user's open order under an id and a symbol. */
  predicate IsOpen(o: StoredOrder, x: Exchange, id: Id, symbol: Pair, userId: Id) {
    o in x.desk.orders && o.id == id && o.symbol == symbol && o.userId == userId
  }

  /** All an order holds is available to its user again; no other balance moves. */
  ghost predicate GivesBack(x: Exchange, y: Exchange, o: StoredOrder) {
    var b := BalanceOf(x.desk.wallets, o.LockKey());
    OnlyAt(x.desk.wallets, y.desk.wallets, o.LockKey(), Balance(b.available + o.lockedAmount, b.locked - o.lockedAmount))
  }

  /** A cancel takes effect if and only if the market rests an order of the user's under the id.
      Then that order rests no longer, its open order is closed, and all it held goes back;
      other markets stay as they are. */
  lemma CancelGivesBack(x: Exchange, users: Users, fees: Fees, id: Id, symbol: Pair, userId: Id)
    requires FeesOk(fees) && Reserved(x, users, fees)
    ensures var c, b := CancelOrder(x, users, id, symbol, userId), MarketOf(x.markets, symbol);
            && c.CancelDone?
            && (c.cancelled <==> exists m :: (m in b.bids || m in b.asks) && m.orderId == id && m.userId == userId)
            && (c.cancelled ==> id !in MarketOf(c.exchange.markets, symbol).RestingIds())
            && (c.cancelled ==> exists o :: IsOpen(o, x, id, symbol, userId) && GivesBack(x, c.exchange, o))
            && forall s :: s != symbol ==> MarketOf(c.exchange.markets, s) == MarketOf(x.markets, s)
  {
    hide Cancel, DeskOk, Closes;
    CancelKeepsReserved(x, users, fees, id, symbol, userId);
    if symbol in x.markets {
      var b, c := x.markets[symbol], CancelOrder(x, users, id, symbol, userId);
      CancelIsExact(b, id, userId);
      if c.cancelled {
        LocksOfDesk(x.desk, users, fees, NO_KEY, 0.0);
        var o := CancelledGivesBack(x, users, id, symbol, userId);
      }
    }
  }

  lemma CancelledGivesBack(x: Exchange, users: Users, id: Id, symbol: Pair, userId: Id) returns (o: StoredOrder)
    requires symbol in x.markets && MarketOk(x.markets[symbol], x.desk.orders, symbol) && Unique(x.desk.orders)
    requires forall o :: o in x.desk.orders ==> o.lockedAmount >= 0.0
    requires CancelOrder(x, users, id, symbol, userId).CancelDone? && CancelOrder(x, users, id, symbol, userId).cancelled
    ensures IsOpen(o, x, id, symbol, userId) && GivesBack(x, CancelOrder(x, users, id, symbol, userId).exchange, o)
  {
    hide Cancel, MarketOk, OnlyAt;
    var k := CancelledOrder(x.desk.orders, x.markets[symbol], id, symbol, userId);
    o := x.desk.orders[k];
    FundsGoBack(x.desk.wallets, users, o);
  }

  lemma FundsGoBack(w: Wallets, users: Users, o: StoredOrder)
    requires UnlockBalance(w, users, o, o.lockedAmount).Done? && o.lockedAmount >= 0.0
    ensures var b := BalanceOf(w, o.LockKey());
            OnlyAt(w, UnlockBalance(w, users, o, o.lockedAmount).wallets, o.LockKey(), Balance(b.available + o.lockedAmount, b.locked - o.lockedAmount))
  {
    UnlockExactly(w, users, Mutation(o.LockKey(), o.lockedAmount, o.id));
  }

  lemma CancelIsExact(b: Book, id: Id, userId: Id)
    requires Wf(b) && b.stops == []
    ensures var c := Cancel(b, id, userId);
            && (c.cancelled <==> exists m :: (m in b.bids || m in b.asks) && m.orderId == id && m.userId == userId)
            && (c.cancelled ==> id !in c.book.RestingIds())
  {
    CancelExactly(b, id, userId);
    hide Cancel;
    assert Holds(b.bids, id, userId) || Holds(b.asks, id, userId) <==> exists m :: (m in b.bids || m in b.asks) && m.orderId == id && m.userId == userId;
  }
}
