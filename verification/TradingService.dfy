/** The trading service as it runs: the list of open orders and the markets change in place,
    the wallet is another object, and fills are settled one after the other. */
module TradingServices {
  import opened Domain
  import opened FlatBook
  import opened Cascade
  import opened Wallet
  import opened WalletServices
  import opened Trading

  /** What a caller of placeOrder gets back. */
  datatype Answer =
    | OrderAnswer(order: StoredOrder, report: ExecutionReport)
    | RequestRefused(reason: RefusalReason)
    | WalletFailed(error: WalletError)

  function AnswerOf(p: Placement): Answer {
    match p
    case Placed(_, order, report) => OrderAnswer(order, report)
    case NotPlaced(reason) => RequestRefused(reason)
    case Broken(_, error) => WalletFailed(error)
  }

  function ErrorOfStep(p: Progress): Option<WalletError> {
    if p.Stuck? then Some(p.error) else None
  }

  /** Where a placement leaves the exchange that it started from. */
  function LeftBy(p: Placement, before: Exchange): Exchange {
    if p.NotPlaced? then before else p.exchange
  }

  datatype CancelAnswer = Cancelled(done: bool) | CancelFailed(error: WalletError)

  function CancelAnswerOf(c: Cancelling): CancelAnswer {
    if c.CancelDone? then CancelAnswer.Cancelled(c.cancelled) else CancelFailed(c.error)
  }

  class TradingService {
    var orders: seq<StoredOrder>
    var markets: Markets
    const wallet: WalletService
    const fees: Fees
    ghost var accounts: map<Id, Account>

    constructor (wallet: WalletService, fees: Fees)
      ensures this.wallet == wallet && this.fees == fees
      ensures View() == Exchange(map[], Desk(wallet.View(), [], map[]))
    {
      orders, markets, accounts := [], map[], map[];
      this.wallet, this.fees := wallet, fees;
    }

    ghost function Books(): Desk
      reads this, wallet
    {
      Desk(wallet.View(), orders, accounts)
    }

    ghost function View(): Exchange
      reads this, wallet
    {
      Exchange(markets, Books())
    }

    method FindOrder(id: Id) returns (k: nat)
      ensures k == Find(orders, id)
    {
      k := 0;
      while k < |orders| && orders[k].id != id
        invariant k <= |orders| && Find(orders, id) == k + Find(orders[k..], id)
      {
        k := k + 1;
      }
    }

    method FindOwned(id: Id, symbol: Pair, userId: Id) returns (k: nat)
      ensures k == FindTheirs(orders, id, symbol, userId)
    {
      k := 0;
      while k < |orders| && !IsTheirs(orders[k], id, symbol, userId)
        invariant k <= |orders| && FindTheirs(orders, id, symbol, userId) == k + FindTheirs(orders[k..], id, symbol, userId)
      {
        k := k + 1;
      }
    }

    method Unlock(o: StoredOrder, amount: Decimal) returns (error: Option<WalletError>)
      modifies wallet
      ensures var u := UnlockBalance(old(wallet.View()), wallet.users, o, amount);
              error == ErrorOf(u) && wallet.View() == Committed(old(wallet.View()), u)
    {
      if amount <= 0.0 {
        return None;
      }
      error := wallet.Unlock(Mutation(o.LockKey(), amount, o.id));
    }

    /** The total of a list of fills, as the order's filled quantity grows. */
    method Fill(fills: seq<Fill>) returns (total: Decimal)
      ensures total == TotalQuantity(fills)
    {
      total := 0.0;
      var i := 0;
      while i < |fills|
        invariant i <= |fills| && total + TotalQuantity(fills[i..]) == TotalQuantity(fills)
      {
        assert fills[i..][0] == fills[i] && fills[i..][1..] == fills[i + 1..];
        total := total + fills[i].quantity;
        i := i + 1;
      }
    }

    method Consume(side: Side, fills: seq<Fill>) returns (total: Decimal)
      ensures total == ConsumedByFills(fees, side, fills)
    {
      total := 0.0;
      var i := 0;
      while i < |fills|
        invariant i <= |fills| && total + ConsumedByFills(fees, side, fills[i..]) == ConsumedByFills(fees, side, fills)
      {
        assert fills[i..][0] == fills[i] && fills[i..][1..] == fills[i + 1..];
        total := total + ConsumedLock(side, fills[i].price, fills[i].quantity, fees.takerBps);
        i := i + 1;
      }
    }

    /** Books a settled fill on the open maker order; a filled one leaves the list. */
    method ApplyToOpenOrders(fill: Fill) returns (error: Option<WalletError>)
      modifies this, wallet
      ensures markets == old(markets)
      ensures var p := ApplyFill(old(Books()), wallet.users, fees, fill);
              error == ErrorOfStep(p) && Books() == p.desk
    {
      hide UnlockBalance, ConsumedLock, Find;
      var k := FindOrder(fill.makerOrderId);
      if k == |orders| {
        return None;
      }
      var maker := orders[k];
      maker := maker.(filledQuantity := maker.filledQuantity + fill.quantity);
      var consumed := ConsumedLock(maker.side, fill.price, fill.quantity, fees.makerBps);
      maker := maker.(lockedAmount := maker.lockedAmount - consumed);
      maker := maker.(status := if maker.filledQuantity >= maker.quantity then Filled else PartiallyFilled);
      accounts := Spend(accounts, maker.id, consumed, fill.quantity);
      ghost var before := orders;
      orders := orders[k := maker];
      if maker.status.Filled? {
        error := Unlock(maker, maker.lockedAmount);
        if error.Some? {
          return;
        }
        accounts := Release(accounts, maker.id, maker.lockedAmount);
        orders := orders[..k] + orders[k + 1..];
        assert orders == Dropped(before, k);
      }
      error := None;
    }

    /** Sends one fill to the wallet, then to the maker's open order. */
    method Settle(taker: StoredOrder, fill: Fill) returns (error: Option<WalletError>)
      modifies this, wallet
      ensures markets == old(markets)
      ensures var p := SettleFill(old(Books()), wallet.users, fees, taker, fill);
              error == ErrorOfStep(p) && Books() == p.desk
    {
      var k := FindOrder(fill.makerOrderId);
      var makerSide := if k < |orders| then orders[k].side else Opposite(taker.side);
      var notional := fill.price * fill.quantity;
      var s := Settlement(fill.makerUserId, fill.takerUserId, makerSide, taker.symbol.base, taker.symbol.quote, fill.price,
                          fill.quantity, CalculateFee(notional, fees.makerBps), CalculateFee(notional, fees.takerBps), taker.id);
      assert s == SettlementOf(fees, orders, taker, fill);
      error := wallet.SettleTrade(s);
      if error.Some? {
        return;
      }
      accounts := Spend(accounts, taker.id, ConsumedLock(taker.side, fill.price, fill.quantity, fees.takerBps), fill.quantity);
      error := ApplyToOpenOrders(fill);
    }

    method SettleAll(taker: StoredOrder, fills: seq<Fill>) returns (error: Option<WalletError>)
      modifies this, wallet
      ensures markets == old(markets)
      ensures var p := SettleFills(old(Books()), wallet.users, fees, taker, fills);
              error == ErrorOfStep(p) && Books() == p.desk
    {
      var i := 0;
      while i < |fills|
        invariant i <= |fills| && markets == old(markets)
        invariant SettleFills(Books(), wallet.users, fees, taker, fills[i..])
               == SettleFills(old(Books()), wallet.users, fees, taker, fills)
      {
        assert fills[i..][0] == fills[i] && fills[i..][1..] == fills[i + 1..];
        error := Settle(taker, fills[i]);
        if error.Some? {
          return;
        }
        i := i + 1;
      }
      error := None;
    }

    /** Returns what neither the fills nor the remainder need, and keeps the order if it rests. */
    method Finish(o: StoredOrder, fills: seq<Fill>) returns (error: Option<WalletError>, finished: StoredOrder)
      modifies this, wallet
      ensures markets == old(markets)
      ensures var p := FinishOrder(old(Books()), wallet.users, fees, o, fills);
              error == ErrorOfStep(p) && Books() == p.desk && (p.Going? ==> finished == o.(lockedAmount := RestLock(fees, o)))
    {
      finished := o;
      var consumed := Consume(o.side, fills);
      var restLock := if ShouldRest(o) then RemainingLock(fees, o) else 0.0;
      var unused := o.lockedAmount - consumed - restLock;
      error := Unlock(o, unused);
      if error.Some? {
        return;
      }
      accounts := Release(accounts, o.id, unused);
      finished := o.(lockedAmount := restLock);
      if ShouldRest(o) {
        orders := orders + [finished];
      }
    }

    /** Locks, submits, settles every fill and finishes: the whole call is the placement the
        specification defines, also when the engine turns the order away. */
    method PlaceOrder(r: Request) returns (answer: Answer)
      modifies this, wallet
      ensures var p := Trading.PlaceOrder(old(View()), wallet.users, fees, r);
              answer == AnswerOf(p) && View() == LeftBy(p, old(View()))
    {
      hide SettleFills, FinishOrder, UnlockBalance, SubmitAndCascade, ConsumedLock, Wallet.Lock;
      var refused := Refused(wallet.users, r.userId);
      if refused.Some? {
        return RequestRefused(CannotTrade(refused.value));
      }
      var order := NewOrder(r);
      var amount := EstimateLock(fees, order);
      if amount.None? {
        return RequestRefused(BuyNeedsPrice);
      }
      order := order.(lockedAmount := amount.value);
      var error := wallet.Lock(Mutation(order.LockKey(), order.lockedAmount, order.id));
      if error.Some? {
        return RequestRefused(NoFunds(error.value));
      }
      accounts := accounts[order.id := Account(order.side, order.LimitPrice(), order.lockedAmount, 0.0, 0.0, 0.0)];
      var outcome := SubmitAndCascade(MarketOf(markets, r.symbol), EngineOrder(order));
      markets := markets[r.symbol := outcome.book];
      answer := Complete(order, outcome.report);
    }

    /** What follows the engine's answer. */
    method Complete(o: StoredOrder, report: ExecutionReport) returns (answer: Answer)
      modifies this, wallet
      ensures var p := AfterMatching(old(View()), wallet.users, fees, o, report);
              answer == AnswerOf(p) && View() == LeftBy(p, old(View()))
    {
      hide SettleFills, FinishOrder, UnlockBalance, TotalQuantity, RestLock;
      var error;
      if !report.accepted {
        error := Unlock(o, o.lockedAmount);
        if error.Some? {
          return WalletFailed(error.value);
        }
        accounts := Release(accounts, o.id, o.lockedAmount);
        return OrderAnswer(o.(status := Rejected), report);
      }
      error := SettleAll(o, report.fills);
      if error.Some? {
        return WalletFailed(error.value);
      }
      var filled := Fill(report.fills);
      var order := o.(filledQuantity := o.filledQuantity + filled, status := MapStatus(report.status));
      error, order := Finish(order, report.fills);
      if error.Some? {
        return WalletFailed(error.value);
      }
      answer := OrderAnswer(order, report);
    }

    method CancelOrder(id: Id, symbol: Pair, userId: Id) returns (answer: CancelAnswer)
      modifies this, wallet
      ensures var c := Trading.CancelOrder(old(View()), wallet.users, id, symbol, userId);
              answer == CancelAnswerOf(c) && View() == c.exchange
    {
      if symbol !in markets {
        return CancelAnswer.Cancelled(false);
      }
      var c := Cancel(markets[symbol], id, userId);
      markets := markets[symbol := c.book];
      var k := FindOwned(id, symbol, userId);
      if c.cancelled && k < |orders| {
        var o := orders[k];
        var error := Unlock(o, o.lockedAmount);
        if error.Some? {
          return CancelFailed(error.value);
        }
        accounts := Release(accounts, o.id, o.lockedAmount);
        orders := orders[..k] + orders[k + 1..];
      }
      answer := CancelAnswer.Cancelled(c.cancelled);
    }
  }
}
