/** What holds over whole runs of one book: the invariant in every reachable state, statuses
    that only move forward, and an audit log that is a bounded suffix of all fills ever made. */
module History {
  import opened Domain
  import opened FlatBook
  import opened BookInvariant
  import opened CancelAndStops
  import opened GreedyMatching
  import opened SubmitLaws
  import opened Cascade

  // ---------------------------------------------------------------- statuses move forward

  predicate Closed(status: OrderStatus) {
    status.Filled? || status.Cancelled? || status.Rejected? || status.Expired?
  }

  ghost predicate Advances(before: StatusEntry, after: StatusEntry) {
    before.filled <= after.filled && (Closed(before.status) ==> after == before)
  }

  /** Every entry kept comes from an entry before, advanced, or belongs to one of ids. */
  ghost predicate Evolves(before: map<Id, StatusEntry>, after: map<Id, StatusEntry>, ids: set<Id>) {
    forall id :: id in after ==> id in ids || (id in before && Advances(before[id], after[id]))
  }

  lemma FillBestEvolves(b: Book, taker: Order)
    requires Wf(b) && CanTrade(taker, b.Resting(Opposite(taker.side)))
    ensures Evolves(b.status, FillBest(b, taker).status, {})
  {
    hide Wf;
    RestingHasEntry(b, Opposite(taker.side), 0);
  }

  lemma RestingHasEntry(b: Book, side: Side, k: nat)
    requires Wf(b) && k < |b.Resting(side)|
    ensures var o := b.Resting(side)[k];
            0.0 < o.remainingQuantity <= o.originalQuantity && HasEntry(b.status, o.orderId, RestingEntry(o))
  {
    assert b.Resting(side)[k] in b.Resting(side);
  }

  lemma {:induction false} MatchEvolves(b: Book, taker: Order, fills: seq<Fill>)
    requires Midway(b, taker)
    ensures Evolves(b.status, MatchLoop(b, taker, fills).book.status, {})
    decreases |b.Resting(Opposite(taker.side))|, if taker.remainingQuantity > 0.0 then 1 else 0
  {
    var makers := b.Resting(Opposite(taker.side));
    if CanTrade(taker, makers) && makers[0].userId != taker.userId {
      FillBestKeepsMidway(b, taker);
      FillBestEvolves(b, taker);
      var fill := FillOf(makers[0], taker);
      MatchEvolves(FillBest(b, taker), Reduced(taker, fill.quantity), fills + [fill]);
    }
  }

  lemma SubmitEvolves(b: Book, o: Order)
    requires Wf(b) && Unfilled(o)
    ensures Evolves(b.status, Submit(b, o).book.status, {o.orderId})
    ensures o.orderId in b.status ==> Submit(b, o) == Submitted(b, Rejection(o.orderId, DuplicateOrderId))
  {
    if Executes(b, o) {
      AcceptedIsFresh(b, o);
      SubmitStartsMidway(b, o);
      MatchEvolves(Started(b), o.(sequence := b.nextSequence + 1), []);
      MatchKeepsMidway(Started(b), o.(sequence := b.nextSequence + 1), []);
      EndEvolves(Matched(b, o), o.orderId);
    }
  }

  lemma EndEvolves(m: Matching, id: Id)
    requires m.taker.orderId == id
    ensures Evolves(m.book.status, (if m.blocked then Blocked(m) else Finished(m)).book.status, {id})
  {
  }

  lemma CancelEvolves(b: Book, orderId: Id, userId: Id)
    requires Wf(b)
    ensures Evolves(b.status, Cancel(b, orderId, userId).book.status, {})
  {
    hide Wf, CancelResting;
    if Owns(b.bids, orderId, userId) {
      CancelRestingEvolves(b, Buy, Position(b.bids, orderId, userId));
    } else if Owns(b.asks, orderId, userId) {
      CancelRestingEvolves(b, Sell, Position(b.asks, orderId, userId));
    } else if Owns(b.stops, orderId, userId) {
      StopHasEntry(b, Position(b.stops, orderId, userId));
    }
  }

  lemma StopHasEntry(b: Book, k: nat)
    requires Wf(b) && k < |b.stops|
    ensures b.stops[k].remainingQuantity == b.stops[k].originalQuantity
    ensures HasEntry(b.status, b.stops[k].orderId, StatusEntry(PendingStop, 0.0))
  {
    assert b.stops[k] in b.stops;
  }

  lemma CancelRestingEvolves(b: Book, side: Side, k: nat)
    requires Wf(b) && k < |b.Resting(side)|
    ensures Evolves(b.status, CancelResting(b, side, k).status, {})
  {
    hide Wf;
    RestingHasEntry(b, side, k);
  }

  lemma {:induction false} SubmitAllEvolves(b: Book, orders: seq<Order>)
    requires Wf(b) && Queued(b, orders)
    ensures Evolves(b.status, SubmitAll(b, orders).book.status, Ids(orders))
    decreases |orders|
  {
    if orders != [] {
      assert orders[0] in orders;
      SubmitKeepsWf(b, orders[0]);
      QueueAdvances(b, orders);
      SubmitEvolves(b, orders[0]);
      SubmitAllEvolves(Submit(b, orders[0]).book, orders[1..]);
      assert forall o :: o in orders[1..] ==> o in orders;
    }
  }

  lemma TriggerStopsEvolves(b: Book, p: Decimal)
    requires Wf(b)
    ensures Evolves(b.status, TriggerStops(b, p).book.status, Ids(b.stops))
  {
    var ready := Select(b.stops, p, true);
    DisarmedKeepsWf(b, p);
    FiredStopsQueue(b, p);
    SelectMembers(b.stops, p, true);
    SubmitAllEvolves(Disarmed(b, p), ActivateAll(ready));
    SameIds(ready, ActivateAll(ready));
  }

  lemma {:induction false} CascadeEvolves(b: Book, prices: seq<Decimal>)
    requires Wf(b)
    ensures Evolves(b.status, RunCascade(b, prices).book.status, Ids(b.stops))
    decreases |b.stops|, |prices|
  {
    if prices != [] {
      var last := |prices| - 1;
      var t := TriggerStops(b, prices[last]);
      TriggeringShrinks(b, prices[last]);
      TriggerStopsKeepsWf(b, prices[last]);
      TriggerStopsEvolves(b, prices[last]);
      CascadeEvolves(t.book, prices[..last] + FillPrices(ReportFills(t.reports)));
      assert Ids(t.book.stops) <= Ids(b.stops);
    }
  }

  // ---------------------------------------------------------------- the audit log

  ghost predicate SuffixOf<T>(x: seq<T>, y: seq<T>) {
    |x| <= |y| && x == y[|y| - |x|..]
  }

  /** All of y, or its last 10,000 at least. */
  ghost predicate MostRecent<T>(x: seq<T>, y: seq<T>) {
    SuffixOf(x, y) && (|x| == |y| || |x| >= 10_000)
  }

  /** Two stretches of logging, one after the other. */
  lemma RecentChains<T>(x: seq<T>, first: seq<T>, y: seq<T>, second: seq<T>, z: seq<T>)
    requires MostRecent(y, x + first) && MostRecent(z, y + second)
    ensures MostRecent(z, x + (first + second))
  {
    SuffixChains(x, first, y, second, z);
    hide SuffixOf;
    SuffixShorter(y, x + first);
    SuffixShorter(z, y + second);
  }

  lemma SuffixShorter<T>(x: seq<T>, y: seq<T>)
    requires SuffixOf(x, y)
    ensures |x| <= |y|
  {
  }

  lemma SuffixChains<T>(x: seq<T>, first: seq<T>, y: seq<T>, second: seq<T>, z: seq<T>)
    requires SuffixOf(y, x + first) && SuffixOf(z, y + second)
    ensures SuffixOf(z, x + (first + second))
  {
    var d := |x + first| - |y|;
    var e := |y + second| - |z|;
    var all := x + (first + second);
    assert y + second == all[d..] by {
      assert all == (x + first) + second;
      assert all[d..] == (x + first)[d..] + second;
    }
    assert z == all[d..][e..] == all[d + e..];
  }

  lemma NothingLogged<T>(x: seq<T>)
    ensures MostRecent(x, x + [])
  {
    assert x + [] == x;
  }

  /** Submit appends its fills and may drop the oldest entries; once matching runs to its
      end the log is within its bound. */
  lemma SubmitLogs(b: Book, o: Order)
    ensures MostRecent(Submit(b, o).book.auditLog, b.auditLog + Submit(b, o).report.fills)
    ensures Executes(b, o) && Submit(b, o).report.reason.None? ==> |Submit(b, o).book.auditLog| <= 10_000
  {
    if Executes(b, o) {
      MatchedGreedily(b, o);
      EndIsGreedy(Matched(b, o), b, o, Greedy(o, Makers(b, o)));
      ExecutedEnd(b, o);
      PrunedIsRecent(b.auditLog + Greedy(o, Makers(b, o)).fills);
    } else {
      assert b.auditLog + [] == b.auditLog;
    }
  }

  lemma PrunedIsRecent(log: seq<Fill>)
    ensures MostRecent(PrunedLog(log), log) && MostRecent(log, log) && |PrunedLog(log)| <= 10_000
  {
  }

  lemma {:induction false} SubmitAllLogs(b: Book, orders: seq<Order>)
    ensures var t := SubmitAll(b, orders);
            MostRecent(t.book.auditLog, b.auditLog + ReportFills(t.reports))
    decreases |orders|
  {
    if orders == [] {
      NothingLogged(b.auditLog);
    } else {
      var s := Submit(b, orders[0]);
      SubmitLogs(b, orders[0]);
      SubmitAllLogs(s.book, orders[1..]);
      var rest := SubmitAll(s.book, orders[1..]);
      RecentChains(b.auditLog, s.report.fills, s.book.auditLog, ReportFills(rest.reports), rest.book.auditLog);
      assert ([s.report] + rest.reports)[1..] == rest.reports;
    }
  }

  lemma {:induction false} CascadeLogs(b: Book, prices: seq<Decimal>)
    ensures var c := RunCascade(b, prices);
            MostRecent(c.book.auditLog, b.auditLog + c.fills)
    decreases |b.stops|, |prices|
  {
    if prices == [] {
      NothingLogged(b.auditLog);
    } else {
      var last := |prices| - 1;
      var t := TriggerStops(b, prices[last]);
      var queue := prices[..last] + FillPrices(ReportFills(t.reports));
      TriggeringShrinks(b, prices[last]);
      SubmitAllLogs(Disarmed(b, prices[last]), ActivateAll(Select(b.stops, prices[last], true)));
      CascadeLogs(t.book, queue);
      var rest := RunCascade(t.book, queue);
      RecentChains(b.auditLog, ReportFills(t.reports), t.book.auditLog, rest.fills, rest.book.auditLog);
    }
  }

  // ---------------------------------------------------------------- runs

  datatype BookOp = SubmitOp(order: Order) | CancelOp(orderId: Id, userId: Id)

  function Apply(b: Book, op: BookOp): Book {
    match op
    case SubmitOp(o) => SubmitAndCascade(b, o).book
    case CancelOp(orderId, userId) => Cancel(b, orderId, userId).book
  }

  function FillsOf(b: Book, op: BookOp): seq<Fill> {
    match op
    case SubmitOp(o) => SubmitAndCascade(b, o).fills
    case CancelOp(_, _) => []
  }

  function Run(b: Book, ops: seq<BookOp>): Book
    decreases |ops|
  {
    if ops == [] then b else Run(Apply(b, ops[0]), ops[1..])
  }

  function RunFills(b: Book, ops: seq<BookOp>): seq<Fill>
    decreases |ops|
  {
    if ops == [] then [] else FillsOf(b, ops[0]) + RunFills(Apply(b, ops[0]), ops[1..])
  }

  /** Clients send orders with nothing filled. */
  ghost predicate FromClients(ops: seq<BookOp>) {
    forall op :: op in ops && op.SubmitOp? ==> Unfilled(op.order)
  }

  /** One engine step keeps the invariant, and every status it keeps has only advanced:
      closed entries are untouched and no filled quantity falls. */
  lemma StepIsSound(b: Book, op: BookOp)
    requires Wf(b) && (op.SubmitOp? ==> Unfilled(op.order))
    ensures Wf(Apply(b, op))
    ensures forall id :: id in b.status && id in Apply(b, op).status ==> Advances(b.status[id], Apply(b, op).status[id])
  {
    match op
    case CancelOp(orderId, userId) =>
      CancelKeepsWf(b, orderId, userId);
      CancelEvolves(b, orderId, userId);
    case SubmitOp(o) =>
      SubmitAndCascadeSettles(b, o);
      SubmitStepAdvances(b, o);
  }

  lemma SubmitStepAdvances(b: Book, o: Order)
    requires Wf(b) && Unfilled(o) && Wf(SubmitAndCascade(b, o).book)
    ensures var after := SubmitAndCascade(b, o).book;
            forall id :: id in b.status && id in after.status ==> Advances(b.status[id], after.status[id])
  {
    SubmitEvolves(b, o);
    SubmitKeepsWf(b, o);
    var s := Submit(b, o);
    if o.orderId !in b.status {
      CascadeEvolves(s.book, FillPrices(s.report.fills));
      var after := SubmitAndCascade(b, o).book;
      StopsComeFrom(b, o);
      forall id | id in b.status && id in after.status ensures Advances(b.status[id], after.status[id]) {
        if id in Ids(s.book.stops) {
          var stop :| stop in b.stops && stop.orderId == id;
          assert HasEntry(b.status, id, StatusEntry(PendingStop, 0.0));
        }
      }
    }
  }

  lemma StopsComeFrom(b: Book, o: Order)
    requires Wf(b) && Unfilled(o)
    ensures forall stop :: stop in Submit(b, o).book.stops ==> stop in b.stops || stop.orderId == o.orderId
  {
    if !IsStop(o.kind) {
      SubmitKeepsStops(b, o);
    }
  }

  /** In every state of a run the book satisfies its whole invariant: never crossed, ids
      distinct, statuses in agreement. */
  lemma {:induction false} RunIsSound(b: Book, ops: seq<BookOp>)
    requires Wf(b) && FromClients(ops)
    ensures Wf(Run(b, ops))
    decreases |ops|
  {
    if ops != [] {
      assert ops[0] in ops && forall op :: op in ops[1..] ==> op in ops;
      StepIsSound(b, ops[0]);
      RunIsSound(Apply(b, ops[0]), ops[1..]);
    }
  }

  lemma StepLogs(b: Book, op: BookOp)
    ensures MostRecent(Apply(b, op).auditLog, b.auditLog + FillsOf(b, op))
  {
    hide MostRecent, Submit, RunCascade;
    match op
    case CancelOp(orderId, userId) =>
      assert Cancel(b, orderId, userId).book.auditLog == b.auditLog;
      NothingLogged(b.auditLog);
    case SubmitOp(o) =>
      var s := Submit(b, o);
      var c := RunCascade(s.book, FillPrices(s.report.fills));
      SubmitLogs(b, o);
      CascadeLogs(s.book, FillPrices(s.report.fills));
      RecentChains(b.auditLog, s.report.fills, s.book.auditLog, c.fills, c.book.auditLog);
  }

  /** The audit log is always the most recent part of every fill ever made. */
  lemma {:induction false} RunLogs(b: Book, ops: seq<BookOp>)
    ensures MostRecent(Run(b, ops).auditLog, b.auditLog + RunFills(b, ops))
    decreases |ops|
  {
    if ops == [] {
      NothingLogged(b.auditLog);
    } else {
      var next := Apply(b, ops[0]);
      StepLogs(b, ops[0]);
      RunLogs(next, ops[1..]);
      RecentChains(b.auditLog, FillsOf(b, ops[0]), next.auditLog, RunFills(next, ops[1..]), Run(next, ops[1..]).auditLog);
    }
  }

  lemma EmptyBookIsSound()
    ensures Wf(EmptyBook)
  {
  }

  /** Every state reachable from the empty book. */
  lemma ReachableIsSound(ops: seq<BookOp>)
    requires FromClients(ops)
    ensures Wf(Run(EmptyBook, ops))
    ensures MostRecent(Run(EmptyBook, ops).auditLog, RunFills(EmptyBook, ops))
  {
    EmptyBookIsSound();
    RunIsSound(EmptyBook, ops);
    RunLogs(EmptyBook, ops);
    assert [] + RunFills(EmptyBook, ops) == RunFills(EmptyBook, ops);
  }

  // ---------------------------------------------------------------- live ids are protected

  /** A live id is never forgotten, so it is never accepted a second time. */
  lemma LiveIdsAreRefused(ops: seq<BookOp>, o: Order)
    requires FromClients(ops)
    requires o.orderId in Run(EmptyBook, ops).LiveIds()
    ensures Submit(Run(EmptyBook, ops), o) == Submitted(Run(EmptyBook, ops), Rejection(o.orderId, DuplicateOrderId))
  {
    ReachableIsSound(ops);
  }

  // ---------------------------------------------------------------- cancelling undoes resting

  lemma {:induction false} InsertedPosition(orders: seq<Order>, o: Order)
    requires o.orderId !in Ids(orders)
    ensures var placed := Insert(orders, o);
            var k := Position(placed, o.orderId, o.userId);
            k < |placed| && placed[k] == o && Without(placed, k) == orders
  {
    if orders != [] {
      assert orders[0] in orders;
      if Better(o.side, o.LimitPrice(), orders[0].LimitPrice()) {
        assert ([o] + orders)[1..] == orders;
      } else {
        assert orders == [orders[0]] + orders[1..];
        InsertedPosition(orders[1..], o);
        PositionBehind(orders[0], Insert(orders[1..], o), o);
      }
    }
  }

  /** Another order in front moves the position by one and stays when the order is removed. */
  lemma PositionBehind(first: Order, rest: seq<Order>, o: Order)
    requires first.orderId != o.orderId && Owns(rest, o.orderId, o.userId)
    ensures var k := Position(rest, o.orderId, o.userId);
            && Position([first] + rest, o.orderId, o.userId) == k + 1
            && Without([first] + rest, k + 1) == [first] + Without(rest, k)
  {
    assert ([first] + rest)[1..] == rest;
  }

  lemma RestsUntouched(b: Book, o: Order)
    requires Wf(b) && Unfilled(o) && Refusal(b, o).None?
    requires o.kind.Limit? || o.kind.PostOnly?
    requires !WouldCross(o, Makers(b, o))
    ensures var placed := Submit(b, o);
            && placed.report.status == New
            && placed.book.Resting(Opposite(o.side)) == Makers(b, o)
            && placed.book.Resting(o.side) == Insert(b.Resting(o.side), o.(sequence := b.nextSequence + 1))
            && placed.book.stops == b.stops
  {
    SubmitIsGreedy(b, o);
    MatchedGreedily(b, o);
    assert Greedy(o, Makers(b, o)) == GreedyResult([], Makers(b, o), o.remainingQuantity, false);
    assert Submit(b, o) == Execute(b, o);
  }

  /** A fresh limit order that does not cross, then its owner's cancel: the market is back
      exactly as it was. */
  lemma RestThenCancelRestores(b: Book, o: Order)
    requires Wf(b) && Unfilled(o) && Refusal(b, o).None?
    requires o.kind.Limit? || o.kind.PostOnly?
    requires !WouldCross(o, Makers(b, o))
    ensures var c := Cancel(Submit(b, o).book, o.orderId, o.userId);
            c.cancelled && c.book.bids == b.bids && c.book.asks == b.asks && c.book.stops == b.stops
  {
    hide Wf, Submit, WouldCross, Refusal, Insert;
    AcceptedIsFresh(b, o);
    RestsUntouched(b, o);
    InsertedPosition(b.Resting(o.side), o.(sequence := b.nextSequence + 1));
    assert forall x :: x in b.bids || x in b.asks || x in b.stops ==> x.orderId in b.LiveIds();
    NotOwned(Makers(b, o), o.orderId, o.userId);
  }

  /** Nobody but the owner can cancel: the book does not change at all. */
  lemma ForeignCancelChangesNothing(b: Book, orderId: Id, userId: Id)
    requires Wf(b)
    requires forall o :: (o in b.bids || o in b.asks || o in b.stops) && o.orderId == orderId ==> o.userId != userId
    ensures Cancel(b, orderId, userId) == Cancellation(b, false)
  {
    NotOwned(b.bids, orderId, userId);
    NotOwned(b.asks, orderId, userId);
    NotOwned(b.stops, orderId, userId);
  }
}
