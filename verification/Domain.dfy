/** The engine's vocabulary: orders, fills, reports, and the three small rules
    (which price crosses, which side is opposite, which kinds need a price) that the
    order book, the engine shell and the trading service share. */
module Domain {

  /** Decimal arithmetic is exact; only +, -, *, / by a constant and comparison are used. */
  type Decimal = real
  type Id = string

  datatype Option<+T> = None | Some(value: T)

  datatype Side = Buy | Sell
  datatype OrderKind = Market | Limit | StopMarket | StopLimit | Ioc | Fok | PostOnly
  datatype OrderStatus = New | PartiallyFilled | Filled | Cancelled | Expired | Rejected | PendingStop

  datatype Order = Order(
    orderId: Id,
    userId: Id,
    side: Side,
    kind: OrderKind,
    price: Option<Decimal>,
    stopPrice: Option<Decimal>,
    originalQuantity: Decimal,
    remainingQuantity: Decimal,
    sequence: nat)
  {
    /** The limit price; orders that rest always have one. */
    function LimitPrice(): Decimal {
      if price.Some? then price.value else 0.0
    }
  }

  /** One execution between a resting maker and the incoming taker. */
  datatype Fill = Fill(
    makerOrderId: Id,
    takerOrderId: Id,
    makerUserId: Id,
    takerUserId: Id,
    price: Decimal,
    quantity: Decimal)

  datatype RejectReason =
    | DuplicateOrderId
    | QuantityNotPositive
    | PriceRequired
    | StopPriceRequired
    | PostOnlyWouldTake
    | SelfTrade

  datatype ExecutionReport = ExecutionReport(
    orderId: Id,
    accepted: bool,
    status: OrderStatus,
    fills: seq<Fill>,
    reason: Option<RejectReason>)

  predicate RequiresPrice(kind: OrderKind) {
    kind.Limit? || kind.StopLimit? || kind.Ioc? || kind.Fok? || kind.PostOnly?
  }

  predicate IsStop(kind: OrderKind) {
    kind.StopMarket? || kind.StopLimit?
  }

  function Opposite(side: Side): Side {
    if side.Buy? then Sell else Buy
  }

  /** Whether an incoming order accepts to trade at a resting price. */
  predicate Crosses(order: Order, restingPrice: Decimal) {
    order.kind.Market? ||
    (order.price.Some? &&
     if order.side.Buy? then order.price.value >= restingPrice else order.price.value <= restingPrice)
  }

  /** For orders resting on a side: p trades strictly before q. */
  predicate Better(side: Side, p: Decimal, q: Decimal) {
    if side.Buy? then p > q else p < q
  }

  function Min(x: Decimal, y: Decimal): Decimal {
    if x <= y then x else y
  }

  function Rejection(orderId: Id, reason: RejectReason): ExecutionReport {
    ExecutionReport(orderId, false, Rejected, [], Some(reason))
  }

  /** What is left of a list of resting orders. */
  function TotalRemaining(orders: seq<Order>): Decimal {
    if orders == [] then 0.0 else orders[0].remainingQuantity + TotalRemaining(orders[1..])
  }

  function TotalQuantity(fills: seq<Fill>): Decimal {
    if fills == [] then 0.0 else fills[0].quantity + TotalQuantity(fills[1..])
  }

  lemma {:induction false} TotalRemainingAppend(a: seq<Order>, b: seq<Order>)
    ensures TotalRemaining(a + b) == TotalRemaining(a) + TotalRemaining(b)
  {
    if a == [] {
      assert a + b == b;
    } else {
      assert (a + b)[1..] == a[1..] + b;
      TotalRemainingAppend(a[1..], b);
    }
  }

  lemma {:induction false} TotalQuantityAppend(a: seq<Fill>, b: seq<Fill>)
    ensures TotalQuantity(a + b) == TotalQuantity(a) + TotalQuantity(b)
  {
    if a == [] {
      assert a + b == b;
    } else {
      assert (a + b)[1..] == a[1..] + b;
      TotalQuantityAppend(a[1..], b);
    }
  }
}
