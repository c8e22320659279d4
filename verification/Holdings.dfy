/** What both users of a fill hold afterwards: the buyer has the quantity and is out of its price
    and fee, the seller the reverse, and nobody else has gained or lost anything. */
module Holdings {
  import opened Domain
  import opened FlatBook
  import opened BookInvariant
  import opened GreedyMatching
  import opened SubmitLaws
  import opened Cascade
  import opened Wallet
  import opened WalletMoves
  import opened Trading
  import opened LockArithmetic
  import opened Reservation
  import opened PlaceAndCancel
  import opened ExchangeConservation

  /** Available and locked together. */
  function Worth(w: Wallets, key: WalletKey): Decimal {
    BalanceOf(w, key).available + BalanceOf(w, key).locked
  }

  /** A fee in basis points of a notional. */
  function FeeOn(notional: Decimal, bps: Decimal): Decimal {
    notional * bps / 10000.0
  }

  lemma CostAsPaid(side: Side, price: Decimal, quantity: Decimal, bps: Decimal)
    ensures ConsumedLock(side, price, quantity, bps) == if side.Sell? then quantity else price * quantity + FeeOn(price * quantity, bps)
  {
  }

  /** What a trade between a buyer and a seller brings the owner of a key. */
  function Traded(symbol: Pair, buyer: Id, seller: Id, quantity: Decimal, cost: Decimal, proceeds: Decimal, key: WalletKey): Decimal {
    (if key == WalletKey(buyer, symbol.base) then quantity else 0.0) - (if key == WalletKey(buyer, symbol.quote) then cost else 0.0)
    + (if key == WalletKey(seller, symbol.quote) then proceeds else 0.0) - (if key == WalletKey(seller, symbol.base) then quantity else 0.0)
  }

  /** The same of a fill for a taker on a side: each user pays the fee of its own role. */
  function ByFill(fees: Fees, symbol: Pair, takerSide: Side, f: Fill, key: WalletKey): Decimal {
    var notional := f.price * f.quantity;
    if takerSide.Buy?
    then Traded(symbol, f.takerUserId, f.makerUserId, f.quantity,
                notional + FeeOn(notional, fees.takerBps), notional - FeeOn(notional, fees.makerBps), key)
    else Traded(symbol, f.makerUserId, f.takerUserId, f.quantity,
                notional + FeeOn(notional, fees.makerBps), notional - FeeOn(notional, fees.takerBps), key)
  }

  function ByFills(fees: Fees, symbol: Pair, takerSide: Side, fills: seq<Fill>, key: WalletKey): Decimal {
    if fills == [] then 0.0 else ByFill(fees, symbol, takerSide, fills[0], key) + ByFills(fees, symbol, takerSide, fills[1..], key)
  }

  // ---------------------------------------------------------------- one fill

  lemma SettlementHolds(w: Wallets, users: Users, s: Settlement, key: WalletKey)
    requires s.makerUserId != s.takerUserId && SettleTrade(w, users, s).Done?
    ensures Worth(SettleTrade(w, users, s).wallets, key)
         == Worth(w, key) + Traded(Pair(s.baseAsset, s.quoteAsset), Buyer(s), Seller(s), s.quantity, Cost(s), Proceeds(s), key)
  {
    hide SettleTrade, SettlementLogged, CanSettle, MayUse, ChangesHands, Exchanged, Traded, Worth, Cost, Proceeds;
    SettleExactly(w, users, s);
    var after := SettleTrade(w, users, s).wallets;
    HandsExchange(w, after, s);
    ExchangedHolds(w, after, Pair(s.baseAsset, s.quoteAsset), Buyer(s), Seller(s), s.quantity, Cost(s), Proceeds(s), key);
  }

  lemma HandsExchange(w: Wallets, after: Wallets, s: Settlement)
    requires ChangesHands(w, after, s)
    ensures Exchanged(w, after, Buyer(s), Seller(s), s.baseAsset, s.quoteAsset, s.quantity, Cost(s), Proceeds(s))
  {
  }

  lemma ExchangedHolds(w: Wallets, after: Wallets, symbol: Pair, buyer: Id, seller: Id, quantity: Decimal, cost: Decimal, proceeds: Decimal, key: WalletKey)
    requires Exchanged(w, after, buyer, seller, symbol.base, symbol.quote, quantity, cost, proceeds)
    ensures Worth(after, key) == Worth(w, key) + Traded(symbol, buyer, seller, quantity, cost, proceeds, key)
  {
  }

  lemma UnlockHolds(w: Wallets, users: Users, o: StoredOrder, amount: Decimal, key: WalletKey)
    requires UnlockBalance(w, users, o, amount).Done?
    ensures Worth(UnlockBalance(w, users, o, amount).wallets, key) == Worth(w, key)
  {
    UnlockExactly(w, users, Mutation(o.LockKey(), amount, o.id));
    hide Unlock;
  }

  /** The open orders behind these fills are on the other side. */
  ghost predicate SidesFit(orders: seq<StoredOrder>, fills: seq<Fill>, takerSide: Side) {
    forall o, f :: o in orders && f in fills && o.id == f.makerOrderId ==> o.side == Opposite(takerSide)
  }

  ghost predicate WithStrangers(fills: seq<Fill>) {
    forall f :: f in fills ==> f.makerUserId != f.takerUserId
  }

  lemma ApplyFillHolds(desk: Desk, users: Users, fees: Fees, fill: Fill, key: WalletKey)
    requires ApplyFill(desk, users, fees, fill).Going?
    ensures Worth(ApplyFill(desk, users, fees, fill).desk.wallets, key) == Worth(desk.wallets, key)
  {
    hide UnlockBalance, ConsumedLock, Worth;
    var k := Find(desk.orders, fill.makerOrderId);
    if k < |desk.orders| && Filling(fees, desk.orders[k], fill).status.Filled? {
      var maker := Filling(fees, desk.orders[k], fill);
      UnlockHolds(desk.wallets, users, maker, maker.lockedAmount, key);
    }
  }

  /** Booking a fill changes no open order's id or side. */
  lemma ApplyFillKeepsSides(desk: Desk, users: Users, fees: Fees, fill: Fill, fills: seq<Fill>, takerSide: Side)
    requires ApplyFill(desk, users, fees, fill).Going? && SidesFit(desk.orders, fills, takerSide)
    ensures SidesFit(ApplyFill(desk, users, fees, fill).desk.orders, fills, takerSide)
  {
    hide UnlockBalance, ConsumedLock;
    var k := Find(desk.orders, fill.makerOrderId);
    var after := ApplyFill(desk, users, fees, fill).desk.orders;
    forall o | o in after ensures exists q :: q in desk.orders && q.id == o.id && q.side == o.side {
      var i :| 0 <= i < |after| && after[i] == o;
      if |after| == |desk.orders| {
        assert desk.orders[i] in desk.orders;
      } else {
        assert desk.orders[if i < k then i else i + 1] in desk.orders;
      }
    }
  }

  lemma MakerSideFits(orders: seq<StoredOrder>, fill: Fill, takerSide: Side, k: nat)
    requires SidesFit(orders, [fill], takerSide) && k == Find(orders, fill.makerOrderId)
    ensures k < |orders| ==> orders[k].side == Opposite(takerSide)
  {
    if k < |orders| {
      assert orders[k] in orders && fill in [fill];
    }
  }

  lemma SettlementFields(fees: Fees, orders: seq<StoredOrder>, taker: StoredOrder, fill: Fill)
    ensures var s := SettlementOf(fees, orders, taker, fill);
            && s.makerUserId == fill.makerUserId && s.takerUserId == fill.takerUserId
            && Pair(s.baseAsset, s.quoteAsset) == taker.symbol && s.price == fill.price && s.quantity == fill.quantity
            && s.makerFee == FeeOn(fill.price * fill.quantity, fees.makerBps)
            && s.takerFee == FeeOn(fill.price * fill.quantity, fees.takerBps)
  {
  }

  lemma CostAndProceeds(s: Settlement)
    ensures Cost(s) == s.price * s.quantity + BuyerFee(s) && Proceeds(s) == s.price * s.quantity - SellerFee(s)
  {
  }

  /** A fill is worth what its settlement moves. */
  lemma WorthOfSettlement(fees: Fees, symbol: Pair, takerSide: Side, fill: Fill, s: Settlement, key: WalletKey)
    requires s.makerSide == Opposite(takerSide) && s.makerUserId == fill.makerUserId && s.takerUserId == fill.takerUserId
    requires s.price == fill.price && s.quantity == fill.quantity
    requires s.makerFee == FeeOn(fill.price * fill.quantity, fees.makerBps) && s.takerFee == FeeOn(fill.price * fill.quantity, fees.takerBps)
    ensures ByFill(fees, symbol, takerSide, fill, key) == Traded(symbol, Buyer(s), Seller(s), s.quantity, Cost(s), Proceeds(s), key)
  {
    hide Cost, Proceeds;
    CostAndProceeds(s);
  }

  lemma SettledWorth(desk: Desk, users: Users, fees: Fees, taker: StoredOrder, fill: Fill, key: WalletKey)
    requires fill.makerUserId != fill.takerUserId && SidesFit(desk.orders, [fill], taker.side)
    requires SettleTrade(desk.wallets, users, SettlementOf(fees, desk.orders, taker, fill)).Done?
    ensures Worth(SettleTrade(desk.wallets, users, SettlementOf(fees, desk.orders, taker, fill)).wallets, key)
         == Worth(desk.wallets, key) + ByFill(fees, taker.symbol, taker.side, fill, key)
  {
    hide SettleTrade, Worth, SidesFit, ByFill, Traded, Cost, Proceeds, Buyer, Seller, FeeOn;
    var s := SettlementOf(fees, desk.orders, taker, fill);
    MakerSideFits(desk.orders, fill, taker.side, Find(desk.orders, fill.makerOrderId));
    assert s.makerSide == Opposite(taker.side);
    hide SettlementOf;
    SettlementFields(fees, desk.orders, taker, fill);
    WorthOfSettlement(fees, taker.symbol, taker.side, fill, s, key);
    SettlementHolds(desk.wallets, users, s, key);
  }

  lemma SettleFillHolds(desk: Desk, users: Users, fees: Fees, taker: StoredOrder, fill: Fill, key: WalletKey)
    requires SettleFill(desk, users, fees, taker, fill).Going? && fill.makerUserId != fill.takerUserId
    requires SidesFit(desk.orders, [fill], taker.side)
    ensures Worth(SettleFill(desk, users, fees, taker, fill).desk.wallets, key)
         == Worth(desk.wallets, key) + ByFill(fees, taker.symbol, taker.side, fill, key)
  {
    hide SettleTrade, ApplyFill, Worth, SidesFit, SettleFill, ByFill, SettlementOf;
    var paid := Paid(desk, users, fees, taker, fill);
    SettledWorth(desk, users, fees, taker, fill, key);
    ApplyFillHolds(paid, users, fees, fill, key);
  }

  /** The desk between a fill's settlement and its booking. */
  lemma Paid(desk: Desk, users: Users, fees: Fees, taker: StoredOrder, fill: Fill) returns (paid: Desk)
    requires SettleFill(desk, users, fees, taker, fill).Going?
    ensures SettleTrade(desk.wallets, users, SettlementOf(fees, desk.orders, taker, fill)) == Done(paid.wallets)
    ensures paid.orders == desk.orders && SettleFill(desk, users, fees, taker, fill) == ApplyFill(paid, users, fees, fill)
  {
    hide SettlementOf;
    var cost := ConsumedLock(taker.side, fill.price, fill.quantity, fees.takerBps);
    paid := desk.(wallets := SettleTrade(desk.wallets, users, SettlementOf(fees, desk.orders, taker, fill)).wallets,
                  accounts := Spend(desk.accounts, taker.id, cost, fill.quantity));
  }

  // ---------------------------------------------------------------- all fills, and a placement

  lemma {:induction false} SettleFillsHold(desk: Desk, users: Users, fees: Fees, taker: StoredOrder, fills: seq<Fill>, key: WalletKey)
    requires SettleFills(desk, users, fees, taker, fills).Going?
    requires SidesFit(desk.orders, fills, taker.side) && WithStrangers(fills)
    ensures Worth(SettleFills(desk, users, fees, taker, fills).desk.wallets, key)
         == Worth(desk.wallets, key) + ByFills(fees, taker.symbol, taker.side, fills, key)
    decreases |fills|
  {
    hide Worth, ByFill, SettleFill;
    if fills != [] {
      var fill := fills[0];
      assert fill in fills && forall f :: f in fills[1..] ==> f in fills;
      SettleFillHolds(desk, users, fees, taker, fill, key);
      SettleFillKeepsSides(desk, users, fees, taker, fill, fills[1..]);
      SettleFillsHold(SettleFill(desk, users, fees, taker, fill).desk, users, fees, taker, fills[1..], key);
    }
  }

  lemma SettleFillKeepsSides(desk: Desk, users: Users, fees: Fees, taker: StoredOrder, fill: Fill, fills: seq<Fill>)
    requires SettleFill(desk, users, fees, taker, fill).Going? && SidesFit(desk.orders, fills, taker.side)
    ensures SidesFit(SettleFill(desk, users, fees, taker, fill).desk.orders, fills, taker.side)
  {
    hide SettleTrade, ApplyFill, SettleFill, SidesFit;
    var paid := Paid(desk, users, fees, taker, fill);
    ApplyFillKeepsSides(paid, users, fees, fill, fills, taker.side);
  }

  lemma CompletionHolds(x: Exchange, users: Users, fees: Fees, o: StoredOrder, report: ExecutionReport, key: WalletKey)
    requires AfterMatching(x, users, fees, o, report).Placed? && (!report.accepted ==> report.fills == [])
    requires SidesFit(x.desk.orders, report.fills, o.side) && WithStrangers(report.fills)
    ensures Worth(AfterMatching(x, users, fees, o, report).exchange.desk.wallets, key)
         == Worth(x.desk.wallets, key) + ByFills(fees, o.symbol, o.side, report.fills, key)
  {
    hide Worth, ByFill, SettleFills, UnlockBalance, ConsumedByFills, RestLock;
    if !report.accepted {
      UnlockHolds(x.desk.wallets, users, o, o.lockedAmount, key);
    } else {
      SettleFillsHold(x.desk, users, fees, o, report.fills, key);
      var settled, executed := SettleFills(x.desk, users, fees, o, report.fills).desk, AfterFills(o, report);
      UnlockHolds(settled.wallets, users, executed, executed.lockedAmount - ConsumedByFills(fees, o.side, report.fills) - RestLock(fees, executed), key);
    }
  }

  /** The makers of a match are open orders on the other side, of other users. */
  lemma MakersAreOpen(orders: seq<StoredOrder>, symbol: Pair, taker: Order, makers: seq<Order>)
    requires Unique(orders) && Backed(orders, symbol, makers) && MakersOk(makers, taker.side) && taker.remainingQuantity >= 0.0
    ensures SidesFit(orders, Greedy(taker, makers).fills, taker.side) && WithStrangers(Greedy(taker, makers).fills)
  {
    GreedyConsumesPrefix(taker, makers);
    var fills := Greedy(taker, makers).fills;
    forall f | f in fills ensures f.makerUserId != f.takerUserId {
      var i :| 0 <= i < |fills| && fills[i] == f;
      assert FillMatches(taker, makers[i], fills[i]);
    }
    forall o, f | o in orders && f in fills && o.id == f.makerOrderId ensures o.side == Opposite(taker.side) {
      var i :| 0 <= i < |fills| && fills[i] == f;
      assert FillMatches(taker, makers[i], fills[i]);
      assert makers[i] in makers && HasBehind(orders, symbol, makers[i]);
      var q :| q in orders && Behind(q, symbol, makers[i]);
    }
  }

  /** Whatever a placement trades, for every key: what its owner holds has changed by exactly
      its fills, with the fee of each user's role; and the locked part is the open orders'. */
  lemma PlacementChangesHands(x: Exchange, users: Users, fees: Fees, r: Request, key: WalletKey)
    requires FeesOk(fees) && Reserved(x, users, fees) && RequestOk(r) && r.id !in LocalIds(x.desk.orders)
    requires PlaceOrder(x, users, fees, r).Placed?
    ensures var p := PlaceOrder(x, users, fees, r);
            && Worth(p.exchange.desk.wallets, key) == Worth(x.desk.wallets, key) + ByFills(fees, r.symbol, r.side, p.report.fills, key)
            && BalanceOf(p.exchange.desk.wallets, key).locked == LockedSum(p.exchange.desk.orders, key)
  {
    hide PlaceOrder, Worth, ByFills, SidesFit, WithStrangers, AfterMatching;
    PlaceKeepsReserved(x, users, fees, r);
    var o, y, e := PlacementUnfolds(x, users, fees, r);
    LockHolds(x.desk.wallets, users, Mutation(o.LockKey(), o.lockedAmount, o.id), key);
    ReportStays(y, users, fees, o, e.report);
    MakersFit(x, users, fees, r);
    CompletionHolds(y, users, fees, o, e.report, key);
  }

  lemma LockHolds(w: Wallets, users: Users, m: Mutation, key: WalletKey)
    requires Lock(w, users, m).Done?
    ensures Worth(Lock(w, users, m).wallets, key) == Worth(w, key)
  {
    LockExactly(w, users, m);
    hide Lock;
  }

  /** The fills a placement reports are with open orders on the other side, of other users. */
  lemma MakersFit(x: Exchange, users: Users, fees: Fees, r: Request)
    requires FeesOk(fees) && Reserved(x, users, fees) && RequestOk(r) && PlaceOrder(x, users, fees, r).Placed?
    ensures var fills := PlaceOrder(x, users, fees, r).report.fills;
            SidesFit(x.desk.orders, fills, r.side) && WithStrangers(fills)
  {
    hide PlaceOrder, Wf, SubmitAndCascade, Submit, Greedy, SidesFit, WithStrangers, AfterMatching, DeskOk, MakersOk, Backed;
    hide MarketOk, InFlight;
    var o, locked, b, e := PlacedFrom(x, users, fees, r);
    ReportStays(Exchange(x.markets[r.symbol := e.book], locked), users, fees, o, e.report);
    EngineOrderMatches(users, fees, o, b, x.desk.orders);
    LocksOfDesk(x.desk, users, fees, NO_KEY, 0.0);
    MakersAreOpen(x.desk.orders, r.symbol, EngineOrder(o), Makers(b, EngineOrder(o)));
    TurnedAwayTradesNothing(b, EngineOrder(o));
    NothingToFit(x.desk.orders, r.side);
  }

  lemma NothingToFit(orders: seq<StoredOrder>, side: Side)
    ensures SidesFit(orders, [], side) && WithStrangers([])
  {
  }
}
