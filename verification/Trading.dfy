/** The trading service: an order locks funds, the engine matches it, every fill is settled
    in the wallet and booked against the maker's lock, and what is left over is returned. */
module Trading {
  import opened Domain
  import opened FlatBook
  import opened Cascade
  import opened Wallet

  /** A symbol, split into the asset traded and the asset it is priced in. */
  datatype Pair = Pair(base: Asset, quote: Asset)

  type Markets = map<Pair, Book>

  /** Fees in basis points. */
  datatype Fees = Fees(makerBps: Decimal, takerBps: Decimal)

  datatype StoredOrder = StoredOrder(
    id: Id,
    userId: Id,
    symbol: Pair,
    side: Side,
    kind: OrderKind,
    price: Option<Decimal>,
    stopPrice: Option<Decimal>,
    quantity: Decimal,
    filledQuantity: Decimal,
    status: OrderStatus,
    lockedAmount: Decimal)
  {
    function LockedAsset(): Asset {
      AssetSpent(symbol, side)
    }

    function LockKey(): WalletKey {
      WalletKey(userId, LockedAsset())
    }

    function Remaining(): Decimal {
      quantity - filledQuantity
    }

    function LimitPrice(): Decimal {
      if price.Some? then price.value else 0.0
    }
  }

  function AssetSpent(symbol: Pair, side: Side): Asset {
    if side.Buy? then symbol.quote else symbol.base
  }

  // ---------------------------------------------------------------- what a lock must hold

  function CalculateFee(notional: Decimal, feeBps: Decimal): Decimal {
    notional * feeBps / 10000.0
  }

  /** What an execution takes out of the lock: the quantity sold, or the cost with its fee. */
  function ConsumedLock(side: Side, price: Decimal, quantity: Decimal, feeBps: Decimal): Decimal {
    if side.Sell? then quantity else price * quantity + CalculateFee(price * quantity, feeBps)
  }

  /** The lock before matching; a buy needs a price to compute it. */
  function EstimateLock(fees: Fees, o: StoredOrder): Option<Decimal> {
    if o.side.Sell? then Some(o.quantity)
    else if o.price.None? then None
    else Some(ConsumedLock(Buy, o.price.value, o.quantity, fees.takerBps))
  }

  function RemainingLock(fees: Fees, o: StoredOrder): Decimal {
    if o.side.Sell? then o.Remaining()
    else if o.price.None? then 0.0
    else ConsumedLock(Buy, o.price.value, o.Remaining(), fees.takerBps)
  }

  predicate ShouldRest(o: StoredOrder) {
    o.Remaining() > 0.0 && (o.status.New? || o.status.PartiallyFilled?)
  }

  /** Engine statuses as the service stores them; a pending stop has no counterpart. */
  function MapStatus(status: OrderStatus): OrderStatus {
    if status.PendingStop? then Rejected else status
  }

  // ---------------------------------------------------------------- settling one fill

  /** What has moved through one order's lock since it was placed. The service does not store
      this; it is kept here so that conservation can be stated. */
  datatype Account = Account(
    side: Side,
    limit: Decimal,
    initial: Decimal,
    consumed: Decimal,
    released: Decimal,
    filled: Decimal)

  /** The wallet and the service's list of open orders. */
  datatype Desk = Desk(wallets: Wallets, orders: seq<StoredOrder>, accounts: map<Id, Account>)

  /** The desk after a step, also when the wallet refused it part of the way. */
  datatype Progress = Going(desk: Desk) | Stuck(desk: Desk, error: WalletError)

  /** The position of the open order with this id, or the length when there is none. */
  function Find(orders: seq<StoredOrder>, id: Id): (k: nat)
    ensures k <= |orders|
    ensures k < |orders| ==> orders[k].id == id
  {
    if orders == [] || orders[0].id == id then 0 else 1 + Find(orders[1..], id)
  }

  function Dropped(orders: seq<StoredOrder>, k: nat): seq<StoredOrder>
    requires k < |orders|
  {
    orders[..k] + orders[k + 1..]
  }

  function SettlementOf(fees: Fees, orders: seq<StoredOrder>, taker: StoredOrder, fill: Fill): Settlement {
    var k := Find(orders, fill.makerOrderId);
    var makerSide := if k < |orders| then orders[k].side else Opposite(taker.side);
    var notional := fill.price * fill.quantity;
    Settlement(fill.makerUserId, fill.takerUserId, makerSide, taker.symbol.base, taker.symbol.quote, fill.price,
               fill.quantity, CalculateFee(notional, fees.makerBps), CalculateFee(notional, fees.takerBps), taker.id)
  }

  /** Returning nothing, or less, is skipped. */
  function UnlockBalance(w: Wallets, users: Users, o: StoredOrder, amount: Decimal): Outcome {
    if amount <= 0.0 then Done(w) else Unlock(w, users, Mutation(o.LockKey(), amount, o.id))
  }

  function Spend(accounts: map<Id, Account>, id: Id, amount: Decimal, quantity: Decimal): map<Id, Account> {
    if id in accounts
    then accounts[id := accounts[id].(consumed := accounts[id].consumed + amount, filled := accounts[id].filled + quantity)]
    else accounts
  }

  function Release(accounts: map<Id, Account>, id: Id, amount: Decimal): map<Id, Account> {
    if id in accounts && amount > 0.0
    then accounts[id := accounts[id].(released := accounts[id].released + amount)]
    else accounts
  }

  /** The open maker order after a fill. */
  function Filling(fees: Fees, maker: StoredOrder, fill: Fill): StoredOrder {
    var filled := maker.filledQuantity + fill.quantity;
    maker.(filledQuantity := filled,
           lockedAmount := maker.lockedAmount - ConsumedLock(maker.side, fill.price, fill.quantity, fees.makerBps),
           status := if filled >= maker.quantity then Filled else PartiallyFilled)
  }

  /** The maker's entry changes; a filled maker gets the rest of its lock back and leaves the list. */
  function ApplyFill(desk: Desk, users: Users, fees: Fees, fill: Fill): Progress {
    var k := Find(desk.orders, fill.makerOrderId);
    if k == |desk.orders| then Going(desk)
    else
      var maker := Filling(fees, desk.orders[k], fill);
      var consumed := ConsumedLock(maker.side, fill.price, fill.quantity, fees.makerBps);
      var accounts := Spend(desk.accounts, maker.id, consumed, fill.quantity);
      if maker.status.Filled? then
        var unlocked := UnlockBalance(desk.wallets, users, maker, maker.lockedAmount);
        if unlocked.Failed? then Stuck(Desk(desk.wallets, desk.orders[k := maker], accounts), unlocked.error)
        else Going(Desk(unlocked.wallets, Dropped(desk.orders, k), Release(accounts, maker.id, maker.lockedAmount)))
      else Going(Desk(desk.wallets, desk.orders[k := maker], accounts))
  }

  function SettleFill(desk: Desk, users: Users, fees: Fees, taker: StoredOrder, fill: Fill): Progress {
    var settled := SettleTrade(desk.wallets, users, SettlementOf(fees, desk.orders, taker, fill));
    if settled.Failed? then Stuck(desk, settled.error)
    else
      var cost := ConsumedLock(taker.side, fill.price, fill.quantity, fees.takerBps);
      ApplyFill(desk.(wallets := settled.wallets, accounts := Spend(desk.accounts, taker.id, cost, fill.quantity)),
                users, fees, fill)
  }

  function SettleFills(desk: Desk, users: Users, fees: Fees, taker: StoredOrder, fills: seq<Fill>): Progress
    decreases |fills|
  {
    if fills == [] then Going(desk)
    else
      var first := SettleFill(desk, users, fees, taker, fills[0]);
      if first.Stuck? then first else SettleFills(first.desk, users, fees, taker, fills[1..])
  }

  // ---------------------------------------------------------------- placing an order

  datatype Request = Request(
    id: Id,
    userId: Id,
    symbol: Pair,
    side: Side,
    kind: OrderKind,
    price: Option<Decimal>,
    stopPrice: Option<Decimal>,
    quantity: Decimal)

  datatype Exchange = Exchange(markets: Markets, desk: Desk)

  datatype RefusalReason = CannotTrade(user: WalletError) | BuyNeedsPrice | NoFunds(wallet: WalletError)

  /** NotPlaced changed nothing; Broken is a wallet failure after the funds were locked, with
      what had been done by then. */
  datatype Placement =
    | Placed(exchange: Exchange, order: StoredOrder, report: ExecutionReport)
    | NotPlaced(reason: RefusalReason)
    | Broken(exchange: Exchange, error: WalletError)

  function NewOrder(r: Request): StoredOrder {
    StoredOrder(r.id, r.userId, r.symbol, r.side, r.kind, r.price, r.stopPrice, r.quantity, 0.0, New, 0.0)
  }

  function EngineOrder(o: StoredOrder): Order {
    Order(o.id, o.userId, o.side, o.kind, o.price, o.stopPrice, o.quantity, o.quantity, 0)
  }

  function MarketOf(markets: Markets, symbol: Pair): Book {
    if symbol in markets then markets[symbol] else EmptyBook
  }

  function ConsumedByFills(fees: Fees, side: Side, fills: seq<Fill>): Decimal {
    if fills == [] then 0.0
    else ConsumedLock(side, fills[0].price, fills[0].quantity, fees.takerBps) + ConsumedByFills(fees, side, fills[1..])
  }

  /** The incoming order after its fills, before what it no longer needs is unlocked. */
  function AfterFills(o: StoredOrder, report: ExecutionReport): StoredOrder {
    o.(filledQuantity := o.filledQuantity + TotalQuantity(report.fills), status := MapStatus(report.status))
  }

  function RestLock(fees: Fees, o: StoredOrder): Decimal {
    if ShouldRest(o) then RemainingLock(fees, o) else 0.0
  }

  /** Unlocks what neither the fills nor the remainder need, and keeps the order if it rests. */
  function FinishOrder(desk: Desk, users: Users, fees: Fees, o: StoredOrder, fills: seq<Fill>): Progress {
    var unused := o.lockedAmount - ConsumedByFills(fees, o.side, fills) - RestLock(fees, o);
    var unlocked := UnlockBalance(desk.wallets, users, o, unused);
    if unlocked.Failed? then Stuck(desk, unlocked.error)
    else
      var kept := o.(lockedAmount := RestLock(fees, o));
      Going(Desk(unlocked.wallets, if ShouldRest(o) then desk.orders + [kept] else desk.orders,
                 Release(desk.accounts, o.id, unused)))
  }

  function AfterMatching(x: Exchange, users: Users, fees: Fees, o: StoredOrder, report: ExecutionReport): Placement {
    if !report.accepted then
      var unlocked := UnlockBalance(x.desk.wallets, users, o, o.lockedAmount);
      if unlocked.Failed? then Broken(x, unlocked.error)
      else
        var desk := x.desk.(wallets := unlocked.wallets, accounts := Release(x.desk.accounts, o.id, o.lockedAmount));
        Placed(x.(desk := desk), o.(status := Rejected), report)
    else
      var settled := SettleFills(x.desk, users, fees, o, report.fills);
      if settled.Stuck? then Broken(x.(desk := settled.desk), settled.error)
      else
        var executed := AfterFills(o, report);
        var finished := FinishOrder(settled.desk, users, fees, executed, report.fills);
        if finished.Stuck? then Broken(x.(desk := finished.desk), finished.error)
        else Placed(x.(desk := finished.desk), executed.(lockedAmount := RestLock(fees, executed)), report)
  }

  /** The order with its funds locked, the moment before it goes to the engine. */
  function LockedFor(desk: Desk, o: StoredOrder, wallets: Wallets): Desk {
    desk.(wallets := wallets, accounts := desk.accounts[o.id := Account(o.side, o.LimitPrice(), o.lockedAmount, 0.0, 0.0, 0.0)])
  }

  function PlaceOrder(x: Exchange, users: Users, fees: Fees, r: Request): Placement {
    var refused := Refused(users, r.userId);
    var amount := EstimateLock(fees, NewOrder(r));
    if refused.Some? then NotPlaced(CannotTrade(refused.value))
    else if amount.None? then NotPlaced(BuyNeedsPrice)
    else
      var o := NewOrder(r).(lockedAmount := amount.value);
      var locked := Lock(x.desk.wallets, users, Mutation(o.LockKey(), o.lockedAmount, o.id));
      if locked.Failed? then NotPlaced(NoFunds(locked.error))
      else
        var outcome := SubmitAndCascade(MarketOf(x.markets, r.symbol), EngineOrder(o));
        AfterMatching(Exchange(x.markets[r.symbol := outcome.book], LockedFor(x.desk, o, locked.wallets)),
                      users, fees, o, outcome.report)
  }

  // ---------------------------------------------------------------- cancelling an order

  datatype Cancelling = CancelDone(exchange: Exchange, cancelled: bool) | CancelBroken(exchange: Exchange, error: WalletError)

  predicate IsTheirs(o: StoredOrder, id: Id, symbol: Pair, userId: Id) {
    o.id == id && o.symbol == symbol && o.userId == userId
  }

  function FindTheirs(orders: seq<StoredOrder>, id: Id, symbol: Pair, userId: Id): (k: nat)
    ensures k <= |orders|
    ensures k < |orders| ==> IsTheirs(orders[k], id, symbol, userId)
  {
    if orders == [] || IsTheirs(orders[0], id, symbol, userId) then 0 else 1 + FindTheirs(orders[1..], id, symbol, userId)
  }

  function CancelOrder(x: Exchange, users: Users, id: Id, symbol: Pair, userId: Id): Cancelling {
    if symbol !in x.markets then CancelDone(x, false)
    else
      var c := Cancel(x.markets[symbol], id, userId);
      var markets := x.markets[symbol := c.book];
      var k := FindTheirs(x.desk.orders, id, symbol, userId);
      if !c.cancelled || k == |x.desk.orders| then CancelDone(x.(markets := markets), c.cancelled)
      else
        var o := x.desk.orders[k];
        var unlocked := UnlockBalance(x.desk.wallets, users, o, o.lockedAmount);
        if unlocked.Failed? then CancelBroken(x.(markets := markets), unlocked.error)
        else CancelDone(Exchange(markets, Desk(unlocked.wallets, Dropped(x.desk.orders, k),
                                               Release(x.desk.accounts, o.id, o.lockedAmount))), true)
  }
}
