/** The reservation invariant: placing and cancelling keep every locked bucket equal to the open
    orders' locks and every resting order backed, and never meet a wallet that cannot pay. */
module PlaceAndCancel {
  import opened Domain
  import opened FlatBook
  import opened BookInvariant
  import opened CancelAndStops
  import opened Cascade
  import opened GreedyMatching
  import opened SubmitLaws
  import opened Wallet
  import opened Trading
  import opened LockArithmetic
  import opened Reservation

  // ---------------------------------------------------------------- the invariant

  /** A sound book without stops whose every resting order is an open order here. */
  ghost predicate MarketOk(b: Book, orders: seq<StoredOrder>, symbol: Pair) {
    Wf(b) && b.stops == [] && Backed(orders, symbol, b.bids) && Backed(orders, symbol, b.asks)
  }

  ghost predicate MarketsOk(markets: Markets, orders: seq<StoredOrder>) {
    forall s :: s in markets ==> MarketOk(markets[s], orders, s)
  }

  const NO_KEY := WalletKey("", "")

  /** Between two calls nothing is in flight: locked buckets are sums of open orders' locks. */
  ghost predicate Reserved(x: Exchange, users: Users, fees: Fees) {
    DeskOk(x.desk, users, fees, NO_KEY, 0.0) && MarketsOk(x.markets, x.desk.orders)
  }

  /** The requests covered: priced orders of the four kinds that are not stops or market orders. */
  predicate RequestOk(r: Request) {
    (r.kind.Limit? || r.kind.PostOnly? || r.kind.Ioc? || r.kind.Fok?) &&
    r.price.Some? && r.price.value > 0.0 && r.quantity > 0.0
  }

  // ---------------------------------------------------------------- what the engine answers

  lemma {:induction false} CascadeIdle(b: Book, prices: seq<Decimal>)
    requires b.stops == []
    ensures RunCascade(b, prices) == Cascaded(b, [])
    decreases |prices|
  {
    if prices != [] {
      var last := |prices| - 1;
      TriggeringShrinks(b, prices[last]);
      assert prices[..last] + [] == prices[..last];
      CascadeIdle(b, prices[..last]);
    }
  }

  ghost predicate TurnedAway(e: EngineOutcome, b: Book) {
    !e.report.accepted && e.book.bids == b.bids && e.book.asks == b.asks
  }

  ghost predicate KilledOutright(e: EngineOutcome, b: Book) {
    e.report.accepted && e.report.status.Expired? && e.report.fills == [] && e.book == b
  }

  /** Matched greedily; the remainder rests or is dropped, and a remainder that rests has a
      status under which the trading service keeps it. */
  ghost predicate Ran(e: EngineOutcome, b: Book, o: Order, g: GreedyResult) {
    var rests := !g.blocked && Rests(Remainder(b, o));
    && e.report.accepted && e.report.fills == g.fills
    && e.book.Resting(Opposite(o.side)) == g.left
    && e.book.Resting(o.side) == (if rests then Insert(b.Resting(o.side), Remainder(b, o)) else b.Resting(o.side))
    && g.remaining == o.remainingQuantity - TotalQuantity(g.fills) >= 0.0
    && (rests ==> g.remaining > 0.0 && (e.report.status.New? || e.report.status.PartiallyFilled?))
  }

  lemma EngineAnswers(b: Book, o: Order)
    requires Wf(b) && b.stops == [] && Unfilled(o) && o.remainingQuantity > 0.0
    requires !IsStop(o.kind)
    ensures var e := SubmitAndCascade(b, o);
            && Wf(e.book) && e.book.stops == []
            && e.book == Submit(b, o).book && e.report == Submit(b, o).report
            && (TurnedAway(e, b) || KilledOutright(e, b) || Ran(e, b, o, Greedy(o, Makers(b, o))))
  {
    hide Wf, Submit, Executes, Greedy;
    SubmitKeepsWf(b, o);
    SubmitKeepsStops(b, o);
    var s := Submit(b, o);
    CascadeIdle(s.book, FillPrices(s.report.fills));
    if Executes(b, o) {
      ExecutedAnswers(b, o);
    } else {
      NotExecutedAnswers(b, o);
    }
  }

  lemma NotExecutedAnswers(b: Book, o: Order)
    requires !Executes(b, o) && !IsStop(o.kind)
    ensures var e := EngineOutcome(Submit(b, o).book, Submit(b, o).report, []);
            TurnedAway(e, b) || KilledOutright(e, b)
  {
  }

  lemma ExecutedAnswers(b: Book, o: Order)
    requires Wf(b) && b.stops == [] && Unfilled(o) && o.remainingQuantity > 0.0 && Executes(b, o)
    ensures var e := EngineOutcome(Submit(b, o).book, Submit(b, o).report, []);
            TurnedAway(e, b) || Ran(e.(fills := []), b, o, Greedy(o, Makers(b, o)))
  {
    hide Wf, Submit, Executes, Matched, Greedy, LeavesGreedy;
    var g := Greedy(o, Makers(b, o));
    MakersSound(b, o);
    SubmitIsGreedy(b, o);
    MatchedGreedily(b, o);
    GreedyFills(o, Makers(b, o));
    ReachableBounds(o, Makers(b, o));
    ReportOf(b, o, g);
  }

  // ---------------------------------------------------------------- keeping the markets backed

  /** Open orders have one symbol each, so another market's orders have other ids. */
  lemma OtherMarketsIds(orders: seq<StoredOrder>, s: Pair, resting: seq<Order>, symbol: Pair, makers: seq<Order>)
    requires Unique(orders) && Backed(orders, s, resting) && Backed(orders, symbol, makers) && s != symbol
    ensures Ids(resting) !! Ids(makers)
  {
    forall m, q | m in resting && q in makers ensures m.orderId != q.orderId {
      var x :| x in orders && Behind(x, s, m);
      var y :| y in orders && Behind(y, symbol, q);
    }
  }

  lemma BackedKept(before: seq<StoredOrder>, after: seq<StoredOrder>, symbol: Pair, resting: seq<Order>, ids: set<Id>)
    requires Backed(before, symbol, resting) && KeptOutside(before, after, ids) && Ids(resting) !! ids
    ensures Backed(after, symbol, resting)
  {
    forall m | m in resting ensures HasBehind(after, symbol, m) {
      var x :| x in before && Behind(x, symbol, m);
      assert m.orderId in Ids(resting);
      assert x in after;
    }
  }

  lemma BackedMore(orders: seq<StoredOrder>, more: seq<StoredOrder>, symbol: Pair, resting: seq<Order>)
    requires Backed(orders, symbol, resting) && forall o :: o in orders ==> o in more
    ensures Backed(more, symbol, resting)
  {
    forall m | m in resting ensures HasBehind(more, symbol, m) {
      var x :| x in orders && Behind(x, symbol, m);
      assert x in more;
    }
  }

  ghost predicate OthersOk(markets: Markets, orders: seq<StoredOrder>, symbol: Pair) {
    forall s :: s in markets && s != symbol ==> MarketOk(markets[s], orders, s)
  }

  /** A change confined to one market's orders leaves every other market backed. */
  lemma OthersKept(markets: Markets, before: seq<StoredOrder>, after: seq<StoredOrder>, symbol: Pair, makers: seq<Order>)
    requires MarketsOk(markets, before) && Unique(before) && Backed(before, symbol, makers)
    requires KeptOutside(before, after, Ids(makers))
    ensures OthersOk(markets, after, symbol)
  {
    forall s | s in markets && s != symbol ensures MarketOk(markets[s], after, s) {
      var other := markets[s];
      OtherMarketsIds(before, s, other.bids, symbol, makers);
      OtherMarketsIds(before, s, other.asks, symbol, makers);
      BackedKept(before, after, s, other.bids, Ids(makers));
      BackedKept(before, after, s, other.asks, Ids(makers));
    }
  }

  lemma OthersMore(markets: Markets, orders: seq<StoredOrder>, more: seq<StoredOrder>, symbol: Pair)
    requires OthersOk(markets, orders, symbol) && forall o :: o in orders ==> o in more
    ensures OthersOk(markets, more, symbol)
  {
    forall s | s in markets && s != symbol ensures MarketOk(markets[s], more, s) {
      BackedMore(orders, more, s, markets[s].bids);
      BackedMore(orders, more, s, markets[s].asks);
    }
  }

  // ---------------------------------------------------------------- locking and finishing

  /** An order as it goes to the engine: nothing filled, its whole estimate locked. */
  ghost predicate InFlight(users: Users, fees: Fees, o: StoredOrder) {
    Refused(users, o.userId).None? && o.price.Some? && o.LimitPrice() > 0.0 && o.quantity > 0.0 && o.filledQuantity == 0.0 &&
    (o.kind.Limit? || o.kind.PostOnly? || o.kind.Ioc? || o.kind.Fok?) &&
    o.lockedAmount == ConsumedLock(o.side, o.LimitPrice(), o.quantity, fees.takerBps)
  }

  lemma InflightHeld(desk: Desk, users: Users, fees: Fees, key: WalletKey, inflight: Decimal)
    requires TakerFeeOk(fees) && DeskOk(desk, users, fees, key, inflight)
    ensures inflight <= BalanceOf(desk.wallets, key).locked
  {
    if desk.orders != [] {
      LocksNonNegative(users, fees, desk.orders);
      LockedSumBounds(desk.orders, 0, key);
    }
  }

  lemma LockedDesk(desk: Desk, users: Users, fees: Fees, o: StoredOrder)
    requires TakerFeeOk(fees) && DeskOk(desk, users, fees, NO_KEY, 0.0) && InFlight(users, fees, o)
    ensures o.lockedAmount >= 0.0
    ensures var l := Lock(desk.wallets, users, Mutation(o.LockKey(), o.lockedAmount, o.id));
            l.Done? ==> DeskOk(LockedFor(desk, o, l.wallets), users, fees, o.LockKey(), o.lockedAmount)
  {
    ConsumedNonNegative(o.side, o.LimitPrice(), o.quantity, fees.takerBps);
    LockMoves(desk.wallets, users, Mutation(o.LockKey(), o.lockedAmount, o.id));
  }

  /** Returning part of the lock in flight leaves the rest in flight. */
  lemma UnlockedDesk(desk: Desk, users: Users, fees: Fees, o: StoredOrder, inflight: Decimal, amount: Decimal)
    requires TakerFeeOk(fees) && DeskOk(desk, users, fees, o.LockKey(), inflight) && Refused(users, o.userId).None?
    requires 0.0 <= amount <= inflight
    ensures var u := UnlockBalance(desk.wallets, users, o, amount);
            u.Done? && DeskOk(desk.(wallets := u.wallets), users, fees, o.LockKey(), inflight - amount)
  {
    InflightHeld(desk, users, fees, o.LockKey(), inflight);
    UnlockMoves(desk.wallets, users, o, amount);
  }

  lemma NothingInFlight(desk: Desk, users: Users, fees: Fees, key: WalletKey)
    requires DeskOk(desk, users, fees, key, 0.0)
    ensures DeskOk(desk, users, fees, NO_KEY, 0.0)
  {
  }

  /** Keeping the order turns what it has in flight into its lock. */
  lemma KeptDesk(desk: Desk, users: Users, fees: Fees, kept: StoredOrder)
    requires DeskOk(desk, users, fees, kept.LockKey(), kept.lockedAmount)
    requires OrderOk(users, fees, kept) && kept.id !in LocalIds(desk.orders)
    ensures DeskOk(desk.(orders := desk.orders + [kept]), users, fees, NO_KEY, 0.0)
  {
    var orders := desk.orders + [kept];
    forall i, j | 0 <= i < j < |orders| ensures orders[i].id != orders[j].id {
      assert orders[i] in desk.orders;
    }
    forall key ensures BalanceOf(desk.wallets, key).locked == LockedSum(orders, key) + if key == NO_KEY then 0.0 else 0.0 {
      LockedSumAppend(desk.orders, [kept], key);
      assert [kept][1..] == [];
    }
  }

  /** What the fills and the remainder do not need goes back; the remainder's lock stays. */
  lemma FinishOk(desk: Desk, users: Users, fees: Fees, o: StoredOrder, fills: seq<Fill>)
    requires TakerFeeOk(fees) && Refused(users, o.userId).None?
    requires DeskOk(desk, users, fees, o.LockKey(), o.lockedAmount - ConsumedByFills(fees, o.side, fills))
    requires 0.0 <= RestLock(fees, o) <= o.lockedAmount - ConsumedByFills(fees, o.side, fills)
    requires ShouldRest(o) ==> OrderOk(users, fees, o.(lockedAmount := RestLock(fees, o))) && o.id !in LocalIds(desk.orders)
    ensures var f := FinishOrder(desk, users, fees, o, fills);
            && f.Going? && DeskOk(f.desk, users, fees, NO_KEY, 0.0)
            && f.desk.orders == (if ShouldRest(o) then desk.orders + [o.(lockedAmount := RestLock(fees, o))] else desk.orders)
  {
    var inflight := o.lockedAmount - ConsumedByFills(fees, o.side, fills);
    var unused := inflight - RestLock(fees, o);
    UnlockedDesk(desk, users, fees, o, inflight, unused);
    var unlocked := desk.(wallets := UnlockBalance(desk.wallets, users, o, unused).wallets);
    var accounts := Release(desk.accounts, o.id, unused);
    if ShouldRest(o) {
      KeptDesk(unlocked.(accounts := accounts), users, fees, o.(lockedAmount := RestLock(fees, o)));
    } else {
      NothingInFlight(unlocked.(accounts := accounts), users, fees, o.LockKey());
    }
  }

  // ---------------------------------------------------------------- an order that matched

  lemma EngineOrderMatches(users: Users, fees: Fees, o: StoredOrder, b: Book, orders: seq<StoredOrder>)
    requires InFlight(users, fees, o) && MarketOk(b, orders, o.symbol)
    ensures Matches(o, EngineOrder(o)) && MakersOk(Makers(b, EngineOrder(o)), o.side)
    ensures Backed(orders, o.symbol, Makers(b, EngineOrder(o))) && Backed(orders, o.symbol, b.Resting(o.side))
    ensures Ids(b.Resting(o.side)) !! Ids(Makers(b, EngineOrder(o)))
    ensures Covers(fees, o, o.quantity, o.lockedAmount)
  {
  }

  /** The order after matching, with the lock it needs to stay open. */
  lemma ExecutedOk(users: Users, fees: Fees, o: StoredOrder, report: ExecutionReport, remaining: Decimal, left: Decimal)
    requires TakerFeeOk(fees) && InFlight(users, fees, o)
    requires remaining == o.quantity - TotalQuantity(report.fills) >= 0.0 && TotalQuantity(report.fills) >= 0.0
    requires Covers(fees, o, remaining, left)
    ensures var executed := AfterFills(o, report);
            && 0.0 <= RestLock(fees, executed) <= left
            && executed.Remaining() == remaining
            && (ShouldRest(executed) ==> OrderOk(users, fees, executed.(lockedAmount := RestLock(fees, executed))))
  {
    ConsumedNonNegative(o.side, o.LimitPrice(), remaining, fees.takerBps);
  }

  /** The own side after matching is backed, the remainder by the order just kept. */
  lemma OwnSideBacked(before: seq<StoredOrder>, settled: seq<StoredOrder>, final: seq<StoredOrder>, symbol: Pair,
                      own: seq<Order>, rest: Order, rests: bool, ids: set<Id>)
    requires Backed(before, symbol, own) && KeptOutside(before, settled, ids) && Ids(own) !! ids
    requires forall o :: o in settled ==> o in final
    requires rests ==> HasBehind(final, symbol, rest)
    ensures Backed(final, symbol, if rests then Insert(own, rest) else own)
  {
    BackedKept(before, settled, symbol, own, ids);
    BackedMore(settled, final, symbol, own);
    InsertMembers(own, rest);
  }

  ghost predicate PlacedWell(p: Placement, users: Users, fees: Fees, before: seq<StoredOrder>, id: Id) {
    p.Placed? && Reserved(p.exchange, users, fees) && LocalIds(p.exchange.desk.orders) <= LocalIds(before) + {id}
  }

  /** The orders after a match that ran: settled, finished and still covering the book. */
  lemma RanDesk(desk: Desk, users: Users, fees: Fees, o: StoredOrder, b: Book, e: EngineOutcome)
      returns (settled: Desk, final: Desk)
    requires FeesOk(fees) && InFlight(users, fees, o) && o.id !in LocalIds(desk.orders)
    requires DeskOk(desk, users, fees, o.LockKey(), o.lockedAmount) && MarketOk(b, desk.orders, o.symbol)
    requires Ran(e, b, EngineOrder(o), Greedy(EngineOrder(o), Makers(b, EngineOrder(o))))
    ensures SettleFills(desk, users, fees, o, e.report.fills) == Going(settled)
    ensures FinishOrder(settled, users, fees, AfterFills(o, e.report), e.report.fills) == Going(final)
    ensures DeskOk(final, users, fees, NO_KEY, 0.0)
    ensures KeptOutside(desk.orders, settled.orders, Ids(Makers(b, EngineOrder(o))))
    ensures forall q :: q in settled.orders ==> q in final.orders
    ensures LocalIds(final.orders) <= LocalIds(desk.orders) + {o.id}
    ensures Backed(final.orders, o.symbol, e.book.bids) && Backed(final.orders, o.symbol, e.book.asks)
  {
    hide Wf, DeskOk, Greedy, SettleFills, FinishOrder, Backed, ConsumedLock, Matches, MakersOk, Covers, OrderOk;
    var eo := EngineOrder(o);
    var makers := Makers(b, eo);
    var g := Greedy(eo, makers);
    var executed := AfterFills(o, e.report);
    EngineOrderMatches(users, fees, o, b, desk.orders);
    SettleFillsOk(desk, users, fees, o, eo, makers, o.lockedAmount);
    settled := SettleFills(desk, users, fees, o, g.fills).desk;
    GreedyFills(eo, makers);
    ReachableBounds(eo, makers);
    ExecutedOk(users, fees, o, e.report, g.remaining, o.lockedAmount - ConsumedByFills(fees, o.side, g.fills));
    FinishOk(settled, users, fees, executed, g.fills);
    final := FinishOrder(settled, users, fees, executed, g.fills).desk;
    var kept := executed.(lockedAmount := RestLock(fees, executed));
    BackedMore(settled.orders, final.orders, o.symbol, g.left);
    var rests := !g.blocked && Rests(Remainder(b, eo));
    if rests {
      assert kept in final.orders && Behind(kept, o.symbol, Remainder(b, eo));
    }
    OwnSideBacked(desk.orders, settled.orders, final.orders, o.symbol, b.Resting(o.side), Remainder(b, eo), rests, Ids(makers));
  }

  lemma RanOk(x: Exchange, users: Users, fees: Fees, o: StoredOrder, b: Book, e: EngineOutcome)
    requires FeesOk(fees) && InFlight(users, fees, o) && o.id !in LocalIds(x.desk.orders)
    requires DeskOk(x.desk, users, fees, o.LockKey(), o.lockedAmount)
    requires MarketsOk(x.markets, x.desk.orders) && MarketOk(b, x.desk.orders, o.symbol)
    requires Wf(e.book) && e.book.stops == []
    requires Ran(e, b, EngineOrder(o), Greedy(EngineOrder(o), Makers(b, EngineOrder(o))))
    ensures PlacedWell(AfterMatching(Exchange(x.markets[o.symbol := e.book], x.desk), users, fees, o, e.report),
                       users, fees, x.desk.orders, o.id)
  {
    var settled, final := RanDesk(x.desk, users, fees, o, b, e);
    EngineOrderMatches(users, fees, o, b, x.desk.orders);
    OthersKept(x.markets, x.desk.orders, settled.orders, o.symbol, Makers(b, EngineOrder(o)));
    OthersMore(x.markets, settled.orders, final.orders, o.symbol);
  }

  // ---------------------------------------------------------------- placing

  lemma TurnedAwayOk(x: Exchange, users: Users, fees: Fees, o: StoredOrder, b: Book, e: EngineOutcome)
    requires FeesOk(fees) && InFlight(users, fees, o) && o.lockedAmount >= 0.0
    requires DeskOk(x.desk, users, fees, o.LockKey(), o.lockedAmount)
    requires MarketsOk(x.markets, x.desk.orders) && MarketOk(b, x.desk.orders, o.symbol)
    requires Wf(e.book) && e.book.stops == [] && TurnedAway(e, b)
    ensures PlacedWell(AfterMatching(Exchange(x.markets[o.symbol := e.book], x.desk), users, fees, o, e.report),
                       users, fees, x.desk.orders, o.id)
  {
    UnlockedDesk(x.desk, users, fees, o, o.lockedAmount, o.lockedAmount);
    NothingInFlight(x.desk.(wallets := UnlockBalance(x.desk.wallets, users, o, o.lockedAmount).wallets), users, fees, o.LockKey());
  }

  lemma KilledOk(x: Exchange, users: Users, fees: Fees, o: StoredOrder, b: Book, e: EngineOutcome)
    requires FeesOk(fees) && InFlight(users, fees, o) && o.lockedAmount >= 0.0
    requires DeskOk(x.desk, users, fees, o.LockKey(), o.lockedAmount)
    requires MarketsOk(x.markets, x.desk.orders) && MarketOk(b, x.desk.orders, o.symbol)
    requires KilledOutright(e, b)
    ensures PlacedWell(AfterMatching(Exchange(x.markets[o.symbol := e.book], x.desk), users, fees, o, e.report),
                       users, fees, x.desk.orders, o.id)
  {
    FinishOk(x.desk, users, fees, AfterFills(o, e.report), []);
  }

  lemma EmptyMarketOk(orders: seq<StoredOrder>, symbol: Pair)
    ensures MarketOk(EmptyBook, orders, symbol)
  {
  }

  /** A placement that gets past its checks: the order in flight, the desk holding its funds,
      and the engine's answer. */
  lemma PlacedFrom(x: Exchange, users: Users, fees: Fees, r: Request) returns (o: StoredOrder, locked: Desk, b: Book, e: EngineOutcome)
    requires FeesOk(fees) && Reserved(x, users, fees) && RequestOk(r) && !PlaceOrder(x, users, fees, r).NotPlaced?
    ensures o == NewOrder(r).(lockedAmount := o.lockedAmount) && InFlight(users, fees, o) && o.lockedAmount >= 0.0
    ensures locked == LockedFor(x.desk, o, locked.wallets) && DeskOk(locked, users, fees, o.LockKey(), o.lockedAmount)
    ensures b == MarketOf(x.markets, r.symbol) && MarketOk(b, x.desk.orders, r.symbol)
    ensures e == SubmitAndCascade(b, EngineOrder(o)) && EngineOrder(o) == EngineOrder(NewOrder(r))
    ensures e.book == Submit(b, EngineOrder(o)).book && e.report == Submit(b, EngineOrder(o)).report
    ensures Wf(e.book) && e.book.stops == []
    ensures TurnedAway(e, b) || KilledOutright(e, b) || Ran(e, b, EngineOrder(o), Greedy(EngineOrder(o), Makers(b, EngineOrder(o))))
    ensures PlaceOrder(x, users, fees, r)
         == AfterMatching(Exchange(x.markets[r.symbol := e.book], locked), users, fees, o, e.report)
  {
    hide Wf, Backed, Submit, SubmitAndCascade, DeskOk, AfterMatching, Ran, TurnedAway, KilledOutright, Greedy;
    o := NewOrder(r).(lockedAmount := EstimateLock(fees, NewOrder(r)).value);
    LockedDesk(x.desk, users, fees, o);
    locked := LockedFor(x.desk, o, Lock(x.desk.wallets, users, Mutation(o.LockKey(), o.lockedAmount, o.id)).wallets);
    b := MarketOf(x.markets, r.symbol);
    EmptyMarketOk(x.desk.orders, r.symbol);
    e := SubmitAndCascade(b, EngineOrder(o));
    EngineAnswers(b, EngineOrder(o));
  }

  /** Placing an order with a fresh id never meets a wallet that cannot pay, and leaves the
      exchange reserved whatever the engine answers. */
  lemma PlaceKeepsReserved(x: Exchange, users: Users, fees: Fees, r: Request)
    requires FeesOk(fees) && Reserved(x, users, fees) && RequestOk(r) && r.id !in LocalIds(x.desk.orders)
    ensures var p := PlaceOrder(x, users, fees, r);
            p.NotPlaced? || PlacedWell(p, users, fees, x.desk.orders, r.id)
  {
    if !PlaceOrder(x, users, fees, r).NotPlaced? {
      var o, locked, b, e := PlacedFrom(x, users, fees, r);
      var y := x.(desk := locked);
      if TurnedAway(e, b) {
        TurnedAwayOk(y, users, fees, o, b, e);
      } else if KilledOutright(e, b) {
        KilledOk(y, users, fees, o, b, e);
      } else {
        RanOk(y, users, fees, o, b, e);
      }
    }
  }

  // ---------------------------------------------------------------- cancelling

  lemma {:induction false} FindsTheirs(orders: seq<StoredOrder>, o: StoredOrder)
    requires Unique(orders) && o in orders
    ensures var k := FindTheirs(orders, o.id, o.symbol, o.userId);
            k < |orders| && orders[k] == o
  {
    if !IsTheirs(orders[0], o.id, o.symbol, o.userId) {
      assert forall i, j :: 0 <= i < j < |orders[1..]| ==> orders[1..][i].id == orders[i + 1].id && orders[1..][j].id == orders[j + 1].id;
      FindsTheirs(orders[1..], o);
    } else {
      var i :| 0 <= i < |orders| && orders[i] == o;
    }
  }

  /** What a successful cancel takes out of a book: one order of the user's, and nothing else. */
  ghost predicate Removed(before: seq<Order>, after: seq<Order>, m: Order) {
    forall q :: q in after ==> q in before && q.orderId != m.orderId
  }

  lemma CancelTakesOne(b: Book, id: Id, userId: Id) returns (m: Order)
    requires Wf(b) && b.stops == [] && Cancel(b, id, userId).cancelled
    ensures m in b.bids || m in b.asks
    ensures m.orderId == id && m.userId == userId
    ensures var after := Cancel(b, id, userId).book;
            Wf(after) && after.stops == [] && Removed(b.bids, after.bids, m) && Removed(b.asks, after.asks, m)
  {
    CancelKeepsWf(b, id, userId);
    var side := if Owns(b.bids, id, userId) then Buy else Sell;
    var orders := b.Resting(side);
    var k := Position(orders, id, userId);
    PositionFinds(orders, id, userId);
    m := orders[k];
    assert m in orders;
    WithoutMembers(orders, k);
    assert forall q :: q in b.Resting(Opposite(side)) ==> q.orderId in Ids(b.Resting(Opposite(side)));
  }

  lemma BackedWithout(before: seq<StoredOrder>, after: seq<StoredOrder>, symbol: Pair, resting: seq<Order>, left: seq<Order>, m: Order)
    requires Backed(before, symbol, resting) && Removed(resting, left, m) && KeptBut(before, after, m.orderId)
    ensures Backed(after, symbol, left)
  {
    forall q | q in left ensures HasBehind(after, symbol, q) {
      var x :| x in before && Behind(x, symbol, q);
      assert x in after;
    }
  }

  /** One open order leaves the list, and every other is as it was. */
  ghost predicate Closes(before: seq<StoredOrder>, after: seq<StoredOrder>, id: Id) {
    id in LocalIds(before) && LocalIds(after) == LocalIds(before) - {id} && KeptBut(before, after, id)
  }

  /** Cancelling never meets a bucket that cannot give the lock back, and returns exactly the
      lock of the order the engine let go of. */
  lemma CancelKeepsReserved(x: Exchange, users: Users, fees: Fees, id: Id, symbol: Pair, userId: Id)
    requires FeesOk(fees) && Reserved(x, users, fees)
    ensures var c := CancelOrder(x, users, id, symbol, userId);
            && c.CancelDone? && Reserved(c.exchange, users, fees)
            && (c.cancelled ==> Closes(x.desk.orders, c.exchange.desk.orders, id))
            && (!c.cancelled ==> c.exchange == x)
  {
    if symbol in x.markets {
      var b := x.markets[symbol];
      if Cancel(b, id, userId).cancelled {
        CancelFindsLock(x, users, fees, id, symbol, userId);
      } else {
        assert x.markets[symbol := b] == x.markets;
      }
    }
  }

  /** The open order whose engine order a cancel removed. */
  lemma CancelledOrder(orders: seq<StoredOrder>, b: Book, id: Id, symbol: Pair, userId: Id) returns (k: nat)
    requires MarketOk(b, orders, symbol) && Unique(orders) && Cancel(b, id, userId).cancelled
    ensures k == FindTheirs(orders, id, symbol, userId) < |orders|
    ensures MarketOk(Cancel(b, id, userId).book, Dropped(orders, k), symbol)
  {
    var m := CancelTakesOne(b, id, userId);
    assert HasBehind(orders, symbol, m);
    var o :| o in orders && Behind(o, symbol, m);
    FindsTheirs(orders, o);
    k := FindTheirs(orders, id, symbol, userId);
    UniqueAfterDrop(orders, k);
    var left := Cancel(b, id, userId).book;
    BackedWithout(orders, Dropped(orders, k), symbol, b.bids, left.bids, m);
    BackedWithout(orders, Dropped(orders, k), symbol, b.asks, left.asks, m);
  }

  lemma CancelFindsLock(x: Exchange, users: Users, fees: Fees, id: Id, symbol: Pair, userId: Id)
    requires FeesOk(fees) && Reserved(x, users, fees)
    requires symbol in x.markets && Cancel(x.markets[symbol], id, userId).cancelled
    ensures var c := CancelOrder(x, users, id, symbol, userId);
            c.CancelDone? && c.cancelled && Reserved(c.exchange, users, fees) && Closes(x.desk.orders, c.exchange.desk.orders, id)
  {
    hide Wf, Backed, Cancel, Balanced, UnlockBalance;
    var orders := x.desk.orders;
    var k := CancelledOrder(orders, x.markets[symbol], id, symbol, userId);
    var o := orders[k];
    assert o in orders;
    DroppedDesk(x.desk, users, fees, k);
    UniqueAfterDrop(orders, k);
    DroppedOthers(x.markets, orders, Dropped(orders, k), o);
    DroppedIds(orders, Dropped(orders, k), o);
  }

  lemma DroppedIds(orders: seq<StoredOrder>, after: seq<StoredOrder>, o: StoredOrder)
    requires o in orders && KeptBut(orders, after, o.id)
    requires forall q :: q in after ==> q in orders && q.id != o.id
    ensures LocalIds(after) == LocalIds(orders) - {o.id}
  {
  }

  /** The dropped order's market aside, nothing rested on it. */
  lemma DroppedOthers(markets: Markets, orders: seq<StoredOrder>, after: seq<StoredOrder>, o: StoredOrder)
    requires MarketsOk(markets, orders) && Unique(orders) && o in orders && KeptBut(orders, after, o.id)
    ensures OthersOk(markets, after, o.symbol)
  {
    forall s | s in markets && s != o.symbol ensures MarketOk(markets[s], after, s) {
      forall m | m in markets[s].bids || m in markets[s].asks ensures HasBehind(after, s, m) {
        var x :| x in orders && Behind(x, s, m);
        assert x.id != o.id;
        assert x in after;
      }
    }
  }

  /** Returning an open order's whole lock and dropping it. */
  lemma DroppedDesk(desk: Desk, users: Users, fees: Fees, k: nat)
    requires TakerFeeOk(fees) && DeskOk(desk, users, fees, NO_KEY, 0.0) && k < |desk.orders|
    ensures var u := UnlockBalance(desk.wallets, users, desk.orders[k], desk.orders[k].lockedAmount);
            && u.Done?
            && forall accounts :: DeskOk(Desk(u.wallets, Dropped(desk.orders, k), accounts), users, fees, NO_KEY, 0.0)
  {
    var o := desk.orders[k];
    assert o in desk.orders && OrderOk(users, fees, o);
    LocksNonNegative(users, fees, desk.orders);
    LockedSumBounds(desk.orders, k, o.LockKey());
    UnlockMoves(desk.wallets, users, o, o.lockedAmount);
    DropBalances(desk.wallets, UnlockBalance(desk.wallets, users, o, o.lockedAmount).wallets, desk.orders, k, NO_KEY, 0.0);
    UniqueAfterDrop(desk.orders, k);
  }
}
