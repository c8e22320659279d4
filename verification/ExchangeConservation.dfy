/** Nothing is created or lost across the exchange: over every run of orders, cancels and
    transfers, each asset's total moves only by what is deposited or withdrawn and by the fees
    of the fills, and the ledger keeps telling every balance. */
module ExchangeConservation {
  import opened Domain
  import opened FlatBook
  import opened Cascade
  import opened Wallet
  import opened WalletLaws
  import opened Trading
  import opened LockArithmetic
  import opened Reservation
  import opened TradingRuns

  /** Both fees of a fill, charged in the quote asset. */
  function FillFees(fees: Fees, symbol: Pair, f: Fill, asset: Asset): Decimal {
    if asset == symbol.quote
    then CalculateFee(f.price * f.quantity, fees.makerBps) + CalculateFee(f.price * f.quantity, fees.takerBps)
    else 0.0
  }

  function FeesOn(fees: Fees, symbol: Pair, fills: seq<Fill>, asset: Asset): Decimal {
    if fills == [] then 0.0 else FillFees(fees, symbol, fills[0], asset) + FeesOn(fees, symbol, fills[1..], asset)
  }

  /** A sound wallet whose total of an asset is less by an amount. */
  ghost predicate LessBy(before: Wallets, after: Wallets, asset: Asset, amount: Decimal) {
    Sound(after) && TotalOf(after, asset) == TotalOf(before, asset) - amount
  }

  // ---------------------------------------------------------------- one placement

  lemma UnlockConserves(w: Wallets, users: Users, o: StoredOrder, amount: Decimal, asset: Asset)
    requires Sound(w) && UnlockBalance(w, users, o, amount).Done?
    ensures LessBy(w, UnlockBalance(w, users, o, amount).wallets, asset, 0.0)
  {
    if amount > 0.0 {
      UnlockLaws(w, users, Mutation(o.LockKey(), amount, o.id), asset);
    }
  }

  lemma SettleFillConserves(desk: Desk, users: Users, fees: Fees, taker: StoredOrder, fill: Fill, asset: Asset)
    requires Sound(desk.wallets) && SettleFill(desk, users, fees, taker, fill).Going?
    ensures LessBy(desk.wallets, SettleFill(desk, users, fees, taker, fill).desk.wallets, asset, FillFees(fees, taker.symbol, fill, asset))
  {
    var s := SettlementOf(fees, desk.orders, taker, fill);
    SettleTradeLaws(desk.wallets, users, s, asset);
    var settled := desk.(wallets := SettleTrade(desk.wallets, users, s).wallets,
                         accounts := Spend(desk.accounts, taker.id, ConsumedLock(taker.side, fill.price, fill.quantity, fees.takerBps), fill.quantity));
    assert SettleFill(desk, users, fees, taker, fill) == ApplyFill(settled, users, fees, fill);
    FeesSettled(fees, desk.orders, taker, fill, asset);
    BookingConserves(settled, users, fees, fill, asset);
  }

  lemma FeesSettled(fees: Fees, orders: seq<StoredOrder>, taker: StoredOrder, fill: Fill, asset: Asset)
    ensures var s := SettlementOf(fees, orders, taker, fill);
            FillFees(fees, taker.symbol, fill, asset) == if asset == s.quoteAsset then s.makerFee + s.takerFee else 0.0
  {
  }

  lemma BookingConserves(desk: Desk, users: Users, fees: Fees, fill: Fill, asset: Asset)
    requires Sound(desk.wallets) && ApplyFill(desk, users, fees, fill).Going?
    ensures LessBy(desk.wallets, ApplyFill(desk, users, fees, fill).desk.wallets, asset, 0.0)
  {
    var k := Find(desk.orders, fill.makerOrderId);
    if k < |desk.orders| {
      var maker := Filling(fees, desk.orders[k], fill);
      if maker.status.Filled? {
        UnlockConserves(desk.wallets, users, maker, maker.lockedAmount, asset);
      }
    }
  }

  lemma {:induction false} SettleFillsConserve(desk: Desk, users: Users, fees: Fees, taker: StoredOrder, fills: seq<Fill>, asset: Asset)
    requires Sound(desk.wallets) && SettleFills(desk, users, fees, taker, fills).Going?
    ensures LessBy(desk.wallets, SettleFills(desk, users, fees, taker, fills).desk.wallets, asset, FeesOn(fees, taker.symbol, fills, asset))
    decreases |fills|
  {
    if fills != [] {
      SettleFillConserves(desk, users, fees, taker, fills[0], asset);
      SettleFillsConserve(SettleFill(desk, users, fees, taker, fills[0]).desk, users, fees, taker, fills[1..], asset);
    }
  }

  lemma FinishConserves(desk: Desk, users: Users, fees: Fees, o: StoredOrder, fills: seq<Fill>, asset: Asset)
    requires Sound(desk.wallets) && FinishOrder(desk, users, fees, o, fills).Going?
    ensures LessBy(desk.wallets, FinishOrder(desk, users, fees, o, fills).desk.wallets, asset, 0.0)
  {
    hide ConsumedByFills, RestLock, Sound, UnlockBalance;
    UnlockConserves(desk.wallets, users, o, o.lockedAmount - ConsumedByFills(fees, o.side, fills) - RestLock(fees, o), asset);
  }

  lemma CompletionConserves(x: Exchange, users: Users, fees: Fees, o: StoredOrder, report: ExecutionReport, asset: Asset)
    requires Sound(x.desk.wallets) && AfterMatching(x, users, fees, o, report).Placed?
    requires !report.accepted ==> report.fills == []
    ensures LessBy(x.desk.wallets, AfterMatching(x, users, fees, o, report).exchange.desk.wallets, asset,
                   FeesOn(fees, o.symbol, report.fills, asset))
  {
    if !report.accepted {
      UnlockConserves(x.desk.wallets, users, o, o.lockedAmount, asset);
    } else {
      SettleFillsConserve(x.desk, users, fees, o, report.fills, asset);
      FinishConserves(SettleFills(x.desk, users, fees, o, report.fills).desk, users, fees, AfterFills(o, report), report.fills, asset);
    }
  }

  lemma TurnedAwayTradesNothing(b: Book, o: Order)
    ensures !SubmitAndCascade(b, o).report.accepted ==> SubmitAndCascade(b, o).report.fills == []
  {
  }

  /** A placement past its checks, unfolded: the order with its funds locked and the engine's answer. */
  lemma PlacementUnfolds(x: Exchange, users: Users, fees: Fees, r: Request) returns (o: StoredOrder, y: Exchange, e: EngineOutcome)
    requires !PlaceOrder(x, users, fees, r).NotPlaced?
    ensures o == NewOrder(r).(lockedAmount := EstimateLock(fees, NewOrder(r)).value)
    ensures var l := Lock(x.desk.wallets, users, Mutation(o.LockKey(), o.lockedAmount, o.id));
            l.Done? && y.desk.wallets == l.wallets && y.desk.orders == x.desk.orders
    ensures e == SubmitAndCascade(MarketOf(x.markets, r.symbol), EngineOrder(o)) && y.markets == x.markets[r.symbol := e.book]
    ensures !e.report.accepted ==> e.report.fills == []
    ensures PlaceOrder(x, users, fees, r) == AfterMatching(y, users, fees, o, e.report)
  {
    o := NewOrder(r).(lockedAmount := EstimateLock(fees, NewOrder(r)).value);
    e := SubmitAndCascade(MarketOf(x.markets, r.symbol), EngineOrder(o));
    var l := Lock(x.desk.wallets, users, Mutation(o.LockKey(), o.lockedAmount, o.id));
    y := Exchange(x.markets[r.symbol := e.book], LockedFor(x.desk, o, l.wallets));
    TurnedAwayTradesNothing(MarketOf(x.markets, r.symbol), EngineOrder(o));
  }

  /** A placement charges its fills' fees and moves nothing else in or out, for every request
      whose lock is not negative. */
  lemma PlaceConserves(x: Exchange, users: Users, fees: Fees, r: Request, asset: Asset)
    requires Sound(x.desk.wallets) && PlaceOrder(x, users, fees, r).Placed?
    requires EstimateLock(fees, NewOrder(r)).value >= 0.0
    ensures var p := PlaceOrder(x, users, fees, r);
            LessBy(x.desk.wallets, p.exchange.desk.wallets, asset, FeesOn(fees, r.symbol, p.report.fills, asset))
  {
    var o, y, e := PlacementUnfolds(x, users, fees, r);
    LockConserves(x.desk.wallets, users, o, asset);
    ReportStays(y, users, fees, o, e.report);
    CompletionConserves(y, users, fees, o, e.report, asset);
  }

  lemma ReportStays(x: Exchange, users: Users, fees: Fees, o: StoredOrder, report: ExecutionReport)
    ensures AfterMatching(x, users, fees, o, report).Placed? ==> AfterMatching(x, users, fees, o, report).report == report
  {
  }

  lemma LockConserves(w: Wallets, users: Users, o: StoredOrder, asset: Asset)
    requires Sound(w) && o.lockedAmount >= 0.0 && Lock(w, users, Mutation(o.LockKey(), o.lockedAmount, o.id)).Done?
    ensures LessBy(w, Lock(w, users, Mutation(o.LockKey(), o.lockedAmount, o.id)).wallets, asset, 0.0)
  {
    LockLaws(w, users, Mutation(o.LockKey(), o.lockedAmount, o.id), asset);
  }

  lemma CancelConserves(x: Exchange, users: Users, id: Id, symbol: Pair, userId: Id, asset: Asset)
    requires Sound(x.desk.wallets) && CancelOrder(x, users, id, symbol, userId).CancelDone?
    ensures LessBy(x.desk.wallets, CancelOrder(x, users, id, symbol, userId).exchange.desk.wallets, asset, 0.0)
  {
    var k := FindTheirs(x.desk.orders, id, symbol, userId);
    if symbol in x.markets && Cancel(x.markets[symbol], id, userId).cancelled && k < |x.desk.orders| {
      UnlockConserves(x.desk.wallets, users, x.desk.orders[k], x.desk.orders[k].lockedAmount, asset);
    }
  }

  // ---------------------------------------------------------------- runs

  /** What a call takes out of an asset's total: fees, or a withdrawal less a deposit. */
  function Outflow(x: Exchange, users: Users, fees: Fees, op: ExchangeOp, asset: Asset): Decimal {
    match op
    case Place(r) =>
      var p := PlaceOrder(x, users, fees, r);
      if p.Placed? then FeesOn(fees, r.symbol, p.report.fills, asset) else 0.0
    case CancelPlaced(_, _, _) => 0.0
    case Funds(w) => -Flow(x.desk.wallets, users, w, asset)
  }

  function RunOutflow(x: Exchange, users: Users, fees: Fees, ops: seq<ExchangeOp>, asset: Asset): Decimal
    decreases |ops|
  {
    if ops == [] || Step(x, users, fees, ops[0]).None? then 0.0
    else Outflow(x, users, fees, ops[0], asset) + RunOutflow(Step(x, users, fees, ops[0]).value, users, fees, ops[1..], asset)
  }

  lemma StepConserves(x: Exchange, users: Users, fees: Fees, op: ExchangeOp, used: set<Id>, asset: Asset)
    requires FeesOk(fees) && Sound(x.desk.wallets) && OpOk(op, used) && Step(x, users, fees, op).Some?
    ensures LessBy(x.desk.wallets, Step(x, users, fees, op).value.desk.wallets, asset, Outflow(x, users, fees, op, asset))
  {
    match op
    case Place(r) =>
      if PlaceOrder(x, users, fees, r).Placed? {
        ConsumedNonNegative(r.side, r.price.value, r.quantity, fees.takerBps);
        PlaceConserves(x, users, fees, r, asset);
      }
    case CancelPlaced(id, symbol, userId) => CancelConserves(x, users, id, symbol, userId, asset);
    case Funds(w) => StepLaws(x.desk.wallets, users, w, asset);
  }

  /** Over every run: no negative bucket, a ledger that tells every balance, and each asset's
      total down by exactly the fees and withdrawals, up by the deposits. */
  lemma {:induction false} RunConservesAssets(x: Exchange, users: Users, fees: Fees, ops: seq<ExchangeOp>, used: set<Id>, asset: Asset)
    requires FeesOk(fees) && InOrder(x, users, fees) && LocalIds(x.desk.orders) <= used && Admissible(ops, used)
    requires Sound(x.desk.wallets)
    ensures var end := RunExchange(x, users, fees, ops);
            end.Some? && LessBy(x.desk.wallets, end.value.desk.wallets, asset, RunOutflow(x, users, fees, ops, asset))
    decreases |ops|
  {
    if ops != [] {
      StepKeepsOrder(x, users, fees, ops[0], used);
      StepConserves(x, users, fees, ops[0], used, asset);
      RunConservesAssets(Step(x, users, fees, ops[0]).value, users, fees, ops[1..], used + Uses(ops[0]), asset);
    }
  }
}
