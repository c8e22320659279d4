/** The order book without its levels, index and cached totals: each side is one list in
    price-time order. Every operation of the engine's book is defined here on that flat
    view; the class in OrderBook.dfy is proved to compute exactly these functions. */
module FlatBook {
  import opened Domain

  const MAX_AUDIT_LOG_FILLS: nat := 10_000
  const MAX_ORDER_STATUS_ENTRIES: nat := 100_000

  datatype StatusEntry = StatusEntry(status: OrderStatus, filled: Decimal)

  datatype Book = Book(
    bids: seq<Order>,
    asks: seq<Order>,
    stops: seq<Order>,
    status: map<Id, StatusEntry>,
    auditLog: seq<Fill>,
    nextSequence: nat)
  {
    function Resting(side: Side): seq<Order> {
      if side.Buy? then bids else asks
    }

    function WithResting(side: Side, orders: seq<Order>): Book {
      if side.Buy? then this.(bids := orders) else this.(asks := orders)
    }

    function RestingIds(): set<Id> {
      Ids(bids) + Ids(asks)
    }

    function LiveIds(): set<Id> {
      RestingIds() + Ids(stops)
    }
  }

  const EmptyBook := Book([], [], [], map[], [], 0)

  function Ids(orders: seq<Order>): set<Id> {
    set o | o in orders :: o.orderId
  }

  // ---------------------------------------------------------------- pruning

  predicate Retained(status: OrderStatus) {
    status.New? || status.PartiallyFilled? || status.PendingStop?
  }

  /** Forgets finished orders once the status log is over its limit. */
  function PrunedEntries(status: map<Id, StatusEntry>, resting: set<Id>): map<Id, StatusEntry> {
    if |status| <= MAX_ORDER_STATUS_ENTRIES then status
    else map id | id in status && (id in resting || Retained(status[id].status)) :: status[id]
  }

  function PruneStatus(b: Book): Book {
    b.(status := PrunedEntries(b.status, b.RestingIds()))
  }

  /** Every status written, except for a full fill or a self-trade exit, is followed by a pruning. */
  function Recorded(b: Book, orderId: Id, entry: StatusEntry): Book {
    PruneStatus(WithStatus(b, orderId, entry))
  }

  function WithStatus(b: Book, orderId: Id, entry: StatusEntry): Book {
    b.(status := b.status[orderId := entry])
  }

  function PrunedLog(log: seq<Fill>): seq<Fill> {
    if |log| > MAX_AUDIT_LOG_FILLS then log[|log| - MAX_AUDIT_LOG_FILLS..] else log
  }

  function PruneAudit(b: Book): Book {
    b.(auditLog := PrunedLog(b.auditLog))
  }

  // ---------------------------------------------------------------- matching

  datatype Matching = Matching(book: Book, taker: Order, fills: seq<Fill>, blocked: bool)

  predicate CanTrade(taker: Order, makers: seq<Order>) {
    taker.remainingQuantity > 0.0 && makers != [] && Crosses(taker, makers[0].LimitPrice())
  }

  function FillOf(maker: Order, taker: Order): Fill {
    Fill(maker.orderId, taker.orderId, maker.userId, taker.userId, maker.LimitPrice(),
         Min(taker.remainingQuantity, maker.remainingQuantity))
  }

  function Reduced(o: Order, quantity: Decimal): Order {
    o.(remainingQuantity := o.remainingQuantity - quantity)
  }

  /** The best maker leaves the book, completely filled. */
  function MakerFilled(b: Book, side: Side): Book
    requires b.Resting(side) != []
  {
    var maker := b.Resting(side)[0];
    b.WithResting(side, b.Resting(side)[1..])
     .(status := b.status[maker.orderId := StatusEntry(Filled, maker.originalQuantity)])
  }

  function WithFront(b: Book, side: Side, maker: Order): Book
    requires b.Resting(side) != []
  {
    b.WithResting(side, b.Resting(side)[0 := maker])
  }

  /** The best maker stays first with less to give. */
  function MakerReduced(b: Book, side: Side, quantity: Decimal): Book
    requires b.Resting(side) != []
  {
    var maker := Reduced(b.Resting(side)[0], quantity);
    Recorded(WithFront(b, side, maker), maker.orderId,
             StatusEntry(PartiallyFilled, maker.originalQuantity - maker.remainingQuantity))
  }

  /** One turn of the match loop against the best resting maker. */
  function FillBest(b: Book, taker: Order): Book
    requires b.Resting(Opposite(taker.side)) != []
  {
    var side := Opposite(taker.side);
    var maker := b.Resting(side)[0];
    var fill := FillOf(maker, taker);
    var settled := if maker.remainingQuantity - fill.quantity == 0.0
                   then MakerFilled(b, side)
                   else MakerReduced(b, side, fill.quantity);
    settled.(auditLog := b.auditLog + [fill])
  }

  function MatchLoop(b: Book, taker: Order, fills: seq<Fill>): Matching
    decreases |b.Resting(Opposite(taker.side))|, if taker.remainingQuantity > 0.0 then 1 else 0
  {
    var makers := b.Resting(Opposite(taker.side));
    if !CanTrade(taker, makers) then Matching(b, taker, fills, false)
    else if makers[0].userId == taker.userId then Matching(b, taker, fills, true)
    else
      var fill := FillOf(makers[0], taker);
      MatchLoop(FillBest(b, taker), Reduced(taker, fill.quantity), fills + [fill])
  }

  /** What the fill-or-kill pre-check counts: crossing quantity of other users. */
  function CrossingQuantity(taker: Order, makers: seq<Order>): Decimal {
    if makers == [] || !Crosses(taker, makers[0].LimitPrice()) then 0.0
    else (if makers[0].userId != taker.userId then makers[0].remainingQuantity else 0.0)
         + CrossingQuantity(taker, makers[1..])
  }

  predicate WouldCross(taker: Order, makers: seq<Order>) {
    makers != [] && Crosses(taker, makers[0].LimitPrice())
  }

  // ---------------------------------------------------------------- submitting

  datatype Submitted = Submitted(book: Book, report: ExecutionReport)

  /** Behind every resting order whose price is at least as good. */
  function Insert(orders: seq<Order>, o: Order): seq<Order> {
    if orders == [] then [o]
    else if Better(o.side, o.LimitPrice(), orders[0].LimitPrice()) then [o] + orders
    else [orders[0]] + Insert(orders[1..], o)
  }

  function WithInserted(b: Book, o: Order): Book {
    b.WithResting(o.side, Insert(b.Resting(o.side), o))
  }

  function Rest(b: Book, o: Order): Book {
    Recorded(WithInserted(b, o), o.orderId, StatusEntry(New, o.originalQuantity - o.remainingQuantity))
  }

  predicate Rests(taker: Order) {
    taker.remainingQuantity != 0.0 && !taker.kind.Market? && !taker.kind.Ioc? && !taker.kind.Fok?
  }

  function FinalStatus(taker: Order, fills: seq<Fill>): OrderStatus {
    if taker.remainingQuantity == 0.0 then Filled
    else if taker.kind.Market? || taker.kind.Ioc? then (if fills == [] then Rejected else PartiallyFilled)
    else if taker.kind.Fok? then Expired
    else if fills == [] then New
    else PartiallyFilled
  }

  /** The self-trade exit: nothing rests and neither log is pruned. */
  function Blocked(m: Matching): Submitted {
    var status := if m.fills == [] then Rejected else PartiallyFilled;
    var entry := StatusEntry(status, m.taker.originalQuantity - m.taker.remainingQuantity);
    Submitted(WithStatus(m.book, m.taker.orderId, entry),
              ExecutionReport(m.taker.orderId, m.fills != [], status, m.fills, Some(SelfTrade)))
  }

  function Finished(m: Matching): Submitted {
    var status := FinalStatus(m.taker, m.fills);
    var entry := StatusEntry(status, m.taker.originalQuantity - m.taker.remainingQuantity);
    var rested := if Rests(m.taker) then Rest(m.book, m.taker) else m.book;
    Submitted(PruneAudit(Recorded(rested, m.taker.orderId, entry)),
              ExecutionReport(m.taker.orderId, true, status, m.fills, None))
  }

  function Started(b: Book): Book {
    b.(nextSequence := b.nextSequence + 1)
  }

  /** The match loop as submit starts it: a fresh sequence number and no fills. */
  function Matched(b: Book, incoming: Order): Matching {
    MatchLoop(Started(b), incoming.(sequence := b.nextSequence + 1), [])
  }

  function Execute(b: Book, incoming: Order): Submitted {
    var m := Matched(b, incoming);
    if m.blocked then Blocked(m) else Finished(m)
  }

  function WithStop(b: Book, stop: Order): Book {
    b.(stops := b.stops + [stop])
  }

  function AcceptStop(b: Book, incoming: Order): Submitted {
    var pending := Recorded(Started(b), incoming.orderId, StatusEntry(PendingStop, 0.0));
    Submitted(WithStop(pending, incoming.(sequence := b.nextSequence + 1)),
              ExecutionReport(incoming.orderId, true, PendingStop, [], None))
  }

  /** The checks that turn an order away before anything changes. */
  function Refusal(b: Book, o: Order): Option<RejectReason> {
    if o.orderId in b.status || o.orderId in b.RestingIds() then Some(DuplicateOrderId)
    else if o.remainingQuantity <= 0.0 then Some(QuantityNotPositive)
    else if RequiresPrice(o.kind) && o.price.None? then Some(PriceRequired)
    else if IsStop(o.kind) && o.stopPrice.None? then Some(StopPriceRequired)
    else if o.kind.PostOnly? && WouldCross(o, b.Resting(Opposite(o.side))) then Some(PostOnlyWouldTake)
    else None
  }

  predicate Killed(b: Book, o: Order) {
    o.kind.Fok? && CrossingQuantity(o, b.Resting(Opposite(o.side))) < o.remainingQuantity
  }

  function Submit(b: Book, o: Order): Submitted {
    var refusal := Refusal(b, o);
    if refusal.Some? then Submitted(b, Rejection(o.orderId, refusal.value))
    else if IsStop(o.kind) then AcceptStop(b, o)
    else if Killed(b, o) then Submitted(b, ExecutionReport(o.orderId, true, Expired, [], None))
    else Execute(b, o)
  }

  // ---------------------------------------------------------------- cancelling

  /** The position of the user's order with this id, or the length when there is none. */
  function Position(orders: seq<Order>, orderId: Id, userId: Id): (k: nat)
    ensures k <= |orders|
  {
    if orders == [] || (orders[0].orderId == orderId && orders[0].userId == userId) then 0
    else 1 + Position(orders[1..], orderId, userId)
  }

  predicate Owns(orders: seq<Order>, orderId: Id, userId: Id) {
    Position(orders, orderId, userId) < |orders|
  }

  function Without(orders: seq<Order>, k: nat): seq<Order>
    requires k < |orders|
  {
    orders[..k] + orders[k + 1..]
  }

  function MarkCancelled(b: Book, o: Order): Book {
    Recorded(b, o.orderId, StatusEntry(Cancelled, o.originalQuantity - o.remainingQuantity))
  }

  datatype Cancellation = Cancellation(book: Book, cancelled: bool)

  function WithRemoved(b: Book, side: Side, k: nat): Book
    requires k < |b.Resting(side)|
  {
    b.WithResting(side, Without(b.Resting(side), k))
  }

  function CancelResting(b: Book, side: Side, k: nat): Book
    requires k < |b.Resting(side)|
  {
    MarkCancelled(WithRemoved(b, side, k), b.Resting(side)[k])
  }

  function CancelStop(b: Book, k: nat): Book
    requires k < |b.stops|
  {
    MarkCancelled(b.(stops := Without(b.stops, k)), b.stops[k])
  }

  function Cancel(b: Book, orderId: Id, userId: Id): Cancellation {
    if Owns(b.bids, orderId, userId) then Cancellation(CancelResting(b, Buy, Position(b.bids, orderId, userId)), true)
    else if Owns(b.asks, orderId, userId) then Cancellation(CancelResting(b, Sell, Position(b.asks, orderId, userId)), true)
    else if Owns(b.stops, orderId, userId) then Cancellation(CancelStop(b, Position(b.stops, orderId, userId)), true)
    else Cancellation(b, false)
  }

  // ---------------------------------------------------------------- stops

  predicate Triggers(stop: Order, lastPrice: Decimal) {
    stop.stopPrice.Some? &&
    if stop.side.Buy? then lastPrice >= stop.stopPrice.value else lastPrice <= stop.stopPrice.value
  }

  function Activated(stop: Order): Order {
    stop.(kind := if stop.kind.StopMarket? then Market else Limit)
  }

  /** The pending stops that a price fires (or, with ready false, does not fire), in order. */
  function Select(stops: seq<Order>, lastPrice: Decimal, ready: bool): seq<Order> {
    if stops == [] then []
    else (if Triggers(stops[0], lastPrice) == ready then [stops[0]] else []) + Select(stops[1..], lastPrice, ready)
  }

  function ActivateAll(stops: seq<Order>): (activated: seq<Order>)
    ensures |activated| == |stops|
    ensures forall i :: 0 <= i < |stops| ==> activated[i] == Activated(stops[i])
  {
    if stops == [] then [] else [Activated(stops[0])] + ActivateAll(stops[1..])
  }

  datatype Triggered = Triggered(book: Book, reports: seq<ExecutionReport>)

  function SubmitAll(b: Book, orders: seq<Order>): (t: Triggered)
    ensures |t.reports| == |orders|
    decreases |orders|
  {
    if orders == [] then Triggered(b, [])
    else
      var s := Submit(b, orders[0]);
      var rest := SubmitAll(s.book, orders[1..]);
      Triggered(rest.book, [s.report] + rest.reports)
  }

  /** The pending list keeps what did not fire; the fired ids leave the status log. */
  function Disarmed(b: Book, lastPrice: Decimal): Book {
    b.(stops := Select(b.stops, lastPrice, false),
       status := b.status - Ids(Select(b.stops, lastPrice, true)))
  }

  function TriggerStops(b: Book, lastPrice: Decimal): Triggered {
    SubmitAll(Disarmed(b, lastPrice), ActivateAll(Select(b.stops, lastPrice, true)))
  }
}
