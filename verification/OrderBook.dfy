/** The engine's order book as it is stored: two price-sorted maps of levels with cached
    totals, an id index, a pending-stop list, a status log and an audit log, all changed in
    place. Every method is proved to compute the flat book's function of the same name. */
module OrderBook {
  import opened Domain
  import opened FlatBook
  import opened BookInvariant
  import opened CancelAndStops
  import opened GreedyMatching
  import opened PriceLevels
  import opened Snapshots

  class OrderBook {
    var bids: Levels
    var asks: Levels
    var stopOrders: seq<Order>
    var orderIndex: OrderIndex
    var status: map<Id, StatusEntry>
    var auditLog: seq<Fill>
    var nextSequence: nat

    ghost function Stored(): State
      reads this
    {
      State(bids, asks, stopOrders, orderIndex, status, auditLog, nextSequence)
    }

    ghost function View(): Book
      reads this
    {
      Book(Flatten(bids, Buy), Flatten(asks, Sell), stopOrders, status, auditLog, nextSequence)
    }

    /** Levels non-empty, keyed by price, totals exact; the index in step with the levels. */
    ghost predicate Consistent()
      reads this`bids, this`asks, this`orderIndex
    {
      LevelsOk(bids) && LevelsOk(asks) && IndexAgrees(orderIndex, Flatten(bids, Buy), Flatten(asks, Sell))
    }

    ghost predicate Valid()
      reads this
    {
      Consistent() && Wf(View())
    }

    constructor ()
      ensures Valid() && View() == EmptyBook
    {
      bids, asks, stopOrders, orderIndex, status, auditLog, nextSequence := map[], map[], [], map[], map[], [], 0;
    }

    /** Rebuilds a book from a snapshot, level by level. */
    constructor FromSnapshot(snapshot: BookSnapshot)
      ensures Stored() == Restored(snapshot)
    {
      hide RestoredLevels, IndexLevels, RestoredStatus, Flatten;
      stopOrders, auditLog, nextSequence := snapshot.stopOrders, snapshot.auditLog, snapshot.nextSequence;
      bids, asks, orderIndex, status := map[], map[], map[], map[];
      new;
      status := CollectStatus(snapshot.status);
      RestoredNone();
      var i := 0;
      while i < |snapshot.bids|
        invariant i <= |snapshot.bids|
        invariant Stored() == Restored(snapshot).(bids := RestoredLevels(snapshot.bids[..i]), asks := map[],
                                                  orderIndex := IndexLevels(map[], Buy, snapshot.bids[..i]))
      {
        RestoredNext(snapshot.bids, i, map[], Buy);
        RestoreLevel(Buy, snapshot.bids[i]);
        i := i + 1;
      }
      assert snapshot.bids[..i] == snapshot.bids;
      i := 0;
      while i < |snapshot.asks|
        invariant i <= |snapshot.asks|
        invariant Stored() == Restored(snapshot).(
                    asks := RestoredLevels(snapshot.asks[..i]),
                    orderIndex := IndexLevels(IndexLevels(map[], Buy, snapshot.bids), Sell, snapshot.asks[..i]))
      {
        RestoredNext(snapshot.asks, i, IndexLevels(map[], Buy, snapshot.bids), Sell);
        RestoreLevel(Sell, snapshot.asks[i]);
        i := i + 1;
      }
      assert snapshot.asks[..i] == snapshot.asks;
    }

    static method CollectStatus(list: seq<StatusSnapshot>) returns (log: map<Id, StatusEntry>)
      ensures log == RestoredStatus(list)
    {
      log := map[];
      var i := 0;
      while i < |list|
        invariant i <= |list| && log == RestoredStatus(list[..i])
      {
        TakeOneMore(list, i);
        log := log[list[i].orderId := list[i].entry];
        i := i + 1;
      }
      assert list[..i] == list;
    }

    method RestoreLevel(side: Side, snapshot: LevelSnapshot)
      modifies this`bids, this`asks, this`orderIndex
      ensures LevelsOf(side) == old(LevelsOf(side))[snapshot.price := RestoredLevel(snapshot)]
      ensures LevelsOf(Opposite(side)) == old(LevelsOf(Opposite(side)))
      ensures orderIndex == IndexOrders(old(orderIndex), side, snapshot.price, snapshot.orders)
    {
      var i, total := 0, 0.0;
      while i < |snapshot.orders|
        invariant i <= |snapshot.orders|
        invariant total == TotalRemaining(snapshot.orders[..i])
        invariant orderIndex == IndexOrders(old(orderIndex), side, snapshot.price, snapshot.orders[..i])
        modifies this`orderIndex
      {
        var order := snapshot.orders[i];
        TakeOneMore(snapshot.orders, i);
        TotalRemainingAppend(snapshot.orders[..i], [order]);
        assert snapshot.orders[..i + 1] == snapshot.orders[..i] + [order];
        assert TotalRemaining([order]) == order.remainingQuantity;
        total := total + order.remainingQuantity;
        orderIndex := orderIndex[order.orderId := (side, snapshot.price)];
        i := i + 1;
      }
      assert snapshot.orders[..i] == snapshot.orders;
      SetLevels(side, LevelsOf(side)[snapshot.price := PriceLevel(snapshot.price, snapshot.orders, total)]);
    }

    /** Writes everything but the cached totals and the index. */
    method ToSnapshot() returns (snapshot: BookSnapshot)
      ensures SnapshotOf(snapshot, Stored())
    {
      var entries := ListStatus(status);
      snapshot := BookSnapshot(LevelList(bids), LevelList(asks), stopOrders, entries, auditLog, nextSequence);
    }

    /** The status log in the order a hash map happens to yield its entries. */
    static method ListStatus(log: map<Id, StatusEntry>) returns (entries: seq<StatusSnapshot>)
      ensures ListsStatus(entries, log)
    {
      entries := [];
      var rest := log.Keys;
      while rest != {}
        invariant rest <= log.Keys
        invariant forall e :: e in entries ==> HasEntry(log, e.orderId, e.entry)
        invariant forall id :: id in log && id !in rest ==> StatusSnapshot(id, log[id]) in entries
        decreases |rest|
      {
        var id :| id in rest;
        entries := entries + [StatusSnapshot(id, log[id])];
        rest := rest - {id};
      }
    }

    function LevelsOf(side: Side): Levels
      reads this
    {
      if side.Buy? then bids else asks
    }

    method SetLevels(side: Side, levels: Levels)
      modifies this`bids, this`asks
      ensures LevelsOf(side) == levels && LevelsOf(Opposite(side)) == old(LevelsOf(Opposite(side)))
    {
      if side.Buy? {
        bids := levels;
      } else {
        asks := levels;
      }
    }

    /** New levels on one side with the index that belongs to them. */
    method ChangeSide(side: Side, levels: Levels, index: OrderIndex, ghost after: Book)
      requires LevelsOk(levels) && LevelsOk(LevelsOf(Opposite(side)))
      requires after == View().WithResting(side, Flatten(levels, side))
      requires IndexAgrees(index, after.bids, after.asks)
      modifies this`bids, this`asks, this`orderIndex
      ensures View() == after && Consistent()
    {
      SetLevels(side, levels);
      orderIndex := index;
    }

    lemma SideIsFlattened(side: Side)
      ensures View().Resting(side) == Flatten(LevelsOf(side), side)
    {
    }

    lemma BestIsFirst(side: Side)
      requires LevelsOk(LevelsOf(side))
      ensures LevelsOf(side) == map[] <==> View().Resting(side) == []
      ensures LevelsOf(side) != map[] ==>
                var best := Best(LevelsOf(side).Keys, side);
                && LevelsOf(side)[best].orders != []
                && LevelsOf(side)[best].orders[0] == View().Resting(side)[0]
                && View().Resting(side)[0].LimitPrice() == best
    {
      var levels := LevelsOf(side);
      if levels != map[] {
        var best := Best(levels.Keys, side);
        assert LevelOk(best, levels[best]);
        assert levels[best].orders[0] in levels[best].orders;
      }
    }

    method PruneStatusLog()
      requires Consistent()
      modifies this`status
      ensures View() == PruneStatus(old(View()))
    {
      if |status| <= MAX_ORDER_STATUS_ENTRIES {
        return;
      }
      status := map id | id in status && (id in orderIndex || Retained(status[id].status)) :: status[id];
    }

    method WriteStatus(orderId: Id, entry: StatusEntry)
      requires Consistent()
      modifies this`status
      ensures View() == WithStatus(old(View()), orderId, entry) && Consistent()
    {
      status := status[orderId := entry];
    }

    method RecordStatus(orderId: Id, entry: StatusEntry)
      requires Consistent()
      modifies this`status
      ensures View() == Recorded(old(View()), orderId, entry) && Consistent()
    {
      WriteStatus(orderId, entry);
      PruneStatusLog();
    }

    method PruneAuditLog()
      requires Consistent()
      modifies this`auditLog
      ensures View() == PruneAudit(old(View())) && Consistent()
    {
      if |auditLog| > MAX_AUDIT_LOG_FILLS {
        var removeCount := |auditLog| - MAX_AUDIT_LOG_FILLS;
        auditLog := auditLog[removeCount..];
      }
    }

    method WouldCross(incoming: Order) returns (crosses: bool)
      requires Valid()
      ensures crosses == FlatBook.WouldCross(incoming, View().Resting(Opposite(incoming.side)))
    {
      var side := Opposite(incoming.side);
      BestIsFirst(side);
      if LevelsOf(side) == map[] {
        return false;
      }
      crosses := Crosses(incoming, Best(LevelsOf(side).Keys, side));
    }

    /** The front order of the best level leaves, completely filled; an emptied level goes. */
    method PopMaker(side: Side)
      requires Valid() && View().Resting(side) != []
      modifies this
      ensures View() == MakerFilled(old(View()), side) && Consistent()
    {
      hide Wf, IndexAgrees, LevelsOk, Flatten;
      BestIsFirst(side);
      var levels := LevelsOf(side);
      var price := Best(levels.Keys, side);
      var resting := levels[price].orders[0];
      PoppedOk(levels, side);
      IndexPopped(View(), side, orderIndex);
      SetLevels(side, Popped(levels, price));
      orderIndex := orderIndex - {resting.orderId};
      status := status[resting.orderId := StatusEntry(Filled, resting.originalQuantity)];
    }

    /** The front order of the best level gives part of its quantity; the cached total follows. */
    method ReduceFront(side: Side, quantity: Decimal) returns (left: Order)
      requires Consistent() && View().Resting(side) != []
      modifies this`bids, this`asks
      ensures left == Reduced(old(View()).Resting(side)[0], quantity)
      ensures View() == WithFront(old(View()), side, left) && Consistent()
    {
      BestIsFirst(side);
      var levels := LevelsOf(side);
      var price := Best(levels.Keys, side);
      left := Reduced(levels[price].orders[0], quantity);
      FrontReducedOk(levels, side, quantity);
      IndexReduced(View(), side, quantity, orderIndex);
      SetLevels(side, FrontReduced(levels, price, quantity));
    }

    method ReduceMaker(side: Side, quantity: Decimal)
      requires Consistent() && View().Resting(side) != []
      modifies this
      ensures View() == MakerReduced(old(View()), side, quantity) && Consistent()
    {
      ghost var before := View();
      var left := ReduceFront(side, quantity);
      ghost var reduced := View();
      RecordStatus(left.orderId, StatusEntry(PartiallyFilled, left.originalQuantity - left.remainingQuantity));
      MakerReducedSteps(before, side, quantity, left, reduced, View());
    }

    /** One turn of the match loop: the best maker and the taker trade, the maker's queue,
        cached total, index entry and status follow, and the fill is logged. */
    method FillBestMaker(taker: Order) returns (fill: Fill)
      requires Valid() && CanTrade(taker, View().Resting(Opposite(taker.side)))
      modifies this
      ensures View() == FillBest(old(View()), taker)
      ensures fill == FillOf(old(View()).Resting(Opposite(taker.side))[0], taker)
      ensures Consistent()
    {
      var side := Opposite(taker.side);
      BestIsFirst(side);
      var price := Best(LevelsOf(side).Keys, side);
      var resting := LevelsOf(side)[price].orders[0];
      var quantity := Min(taker.remainingQuantity, resting.remainingQuantity);
      fill := Fill(resting.orderId, taker.orderId, resting.userId, taker.userId, price, quantity);
      if resting.remainingQuantity - quantity == 0.0 {
        PopMaker(side);
      } else {
        ReduceMaker(side, quantity);
      }
      auditLog := auditLog + [fill];
    }

    /** The match loop. It ends because each turn pops a maker or finishes the taker. */
    method MatchIncoming(incoming: Order) returns (taker: Order, fills: seq<Fill>, blocked: bool)
      requires Valid() && Midway(View(), incoming)
      modifies this
      ensures Valid() && Midway(View(), taker)
      ensures Matching(View(), taker, fills, blocked) == MatchLoop(old(View()), incoming, [])
    {
      taker, fills, blocked := incoming, [], false;
      var side := Opposite(incoming.side);
      while taker.remainingQuantity > 0.0
        invariant Consistent() && Midway(View(), taker) && taker.side == incoming.side
        invariant MatchLoop(View(), taker, fills) == MatchLoop(old(View()), incoming, [])
        invariant !blocked
        decreases |View().Resting(side)|, if taker.remainingQuantity > 0.0 then 1 else 0
      {
        BestIsFirst(side);
        if LevelsOf(side) == map[] {
          return;
        }
        var price := Best(LevelsOf(side).Keys, side);
        if !Crosses(taker, price) {
          return;
        }
        if LevelsOf(side)[price].orders[0].userId == taker.userId {
          blocked := true;
          return;
        }
        ghost var before := View();
        FillBestKeepsMidway(before, taker);
        FillBestMeasure(before, taker);
        var fill := FillBestMaker(taker);
        taker := Reduced(taker, fill.quantity);
        fills := fills + [fill];
      }
    }

    /** The remainder joins the queue at its own price, in a new level when needed. */
    method RestOrder(order: Order)
      requires Consistent() && order.price.Some? && order.orderId !in View().RestingIds()
      modifies this
      ensures View() == Rest(old(View()), order) && Consistent()
    {
      ghost var before := View();
      PlaceOrder(order);
      ghost var placed := View();
      RecordStatus(order.orderId, StatusEntry(New, order.originalQuantity - order.remainingQuantity));
      RestSteps(before, order, placed, View());
    }

    method PlaceOrder(order: Order)
      requires Consistent() && order.price.Some? && order.orderId !in View().RestingIds()
      modifies this`bids, this`asks, this`orderIndex
      ensures View() == WithInserted(old(View()), order) && Consistent()
    {
      ghost var after := WithInserted(View(), order);
      SideIsFlattened(order.side);
      PushRefinesInsert(LevelsOf(order.side), order);
      PushKeepsLevels(LevelsOf(order.side), order);
      IndexPlaced(View(), order, orderIndex);
      ChangeSide(order.side, Pushed(LevelsOf(order.side), order),
                 orderIndex[order.orderId := (order.side, order.LimitPrice())], after);
    }

    /** After matching: rest, expire or drop the remainder, record the status, prune. */
    method Finish(taker: Order, fills: seq<Fill>) returns (report: ExecutionReport)
      requires Valid() && Midway(View(), taker)
      modifies this
      ensures Submitted(View(), report) == Finished(Matching(old(View()), taker, fills, false))
      ensures Consistent()
    {
      if Rests(taker) {
        RestOrder(taker);
      }
      var final := FinalStatus(taker, fills);
      RecordStatus(taker.orderId, StatusEntry(final, taker.originalQuantity - taker.remainingQuantity));
      PruneAuditLog();
      report := ExecutionReport(taker.orderId, true, final, fills, None);
    }

    /** Counts crossing quantity of other users level by level, until it suffices. */
    method AvailableCrossingQuantity(incoming: Order) returns (available: Decimal)
      requires Valid()
      ensures var crossing := CrossingQuantity(incoming, View().Resting(Opposite(incoming.side)));
              available == crossing || incoming.remainingQuantity <= available <= crossing
    {
      var side := Opposite(incoming.side);
      SideIsFlattened(side);
      var rest := LevelsOf(side);
      ghost var all := CrossingQuantity(incoming, Flatten(rest, side));
      available := 0.0;
      while rest != map[]
        invariant LevelsOk(rest) && AllPositive(Flatten(rest, side))
        invariant available + CrossingQuantity(incoming, Flatten(rest, side)) == all
        decreases |rest|
      {
        var best := Best(rest.Keys, side);
        var level := rest[best];
        ghost var beyond := Flatten(rest - {best}, side);
        assert LevelOk(best, level) && level.orders[0] in level.orders;
        if !Crosses(incoming, level.price) {
          return;
        }
        AllAt(level, best);
        AppendPositive(level.orders, beyond);
        CrossingOfLevel(incoming, level.orders, beyond);
        var enough;
        available, enough := AddLevel(incoming, level.orders, available);
        if enough {
          ReachableBounds(incoming, beyond);
          return;
        }
        rest := rest - {best};
      }
    }

    /** The inner loop over one level's queue. */
    static method AddLevel(incoming: Order, orders: seq<Order>, start: Decimal) returns (available: Decimal, enough: bool)
      requires AllPositive(orders)
      ensures available <= start + OthersQuantity(incoming, orders)
      ensures enough ==> available >= incoming.remainingQuantity
      ensures !enough ==> available == start + OthersQuantity(incoming, orders)
    {
      available, enough := start, false;
      var i := 0;
      while i < |orders|
        invariant i <= |orders|
        invariant available + OthersQuantity(incoming, orders[i..]) == start + OthersQuantity(incoming, orders)
      {
        assert orders[i..][1..] == orders[i + 1..];
        assert AllPositive(orders[i + 1..]) by {
          assert forall o :: o in orders[i + 1..] ==> o in orders;
        }
        OthersNonNegative(incoming, orders[i + 1..]);
        if orders[i].userId != incoming.userId {
          available := available + orders[i].remainingQuantity;
          if available >= incoming.remainingQuantity {
            return available, true;
          }
        }
        i := i + 1;
      }
    }

    method AppendStop(stop: Order)
      requires Consistent()
      modifies this`stopOrders
      ensures View() == WithStop(old(View()), stop) && Consistent()
    {
      stopOrders := stopOrders + [stop];
    }

    method AcceptStopOrder(incoming: Order) returns (report: ExecutionReport)
      requires Consistent()
      modifies this
      ensures Submitted(View(), report) == AcceptStop(old(View()), incoming)
      ensures Consistent()
    {
      hide Consistent, Recorded;
      var n := TakeSequence();
      RecordStatus(incoming.orderId, StatusEntry(PendingStop, 0.0));
      AppendStop(incoming.(sequence := n));
      report := ExecutionReport(incoming.orderId, true, PendingStop, [], None);
    }

    /** The self-trade exit. */
    method Block(taker: Order, fills: seq<Fill>) returns (report: ExecutionReport)
      requires Consistent()
      modifies this`status
      ensures Submitted(View(), report) == Blocked(Matching(old(View()), taker, fills, true))
      ensures Consistent()
    {
      var outcome := if fills == [] then Rejected else PartiallyFilled;
      WriteStatus(taker.orderId, StatusEntry(outcome, taker.originalQuantity - taker.remainingQuantity));
      report := ExecutionReport(taker.orderId, fills != [], outcome, fills, Some(SelfTrade));
    }

    method TakeSequence() returns (n: nat)
      requires Consistent()
      modifies this`nextSequence
      ensures View() == Started(old(View())) && n == old(View()).nextSequence + 1 && Consistent()
    {
      nextSequence := nextSequence + 1;
      n := nextSequence;
    }

    method ExecuteIncoming(incoming: Order) returns (report: ExecutionReport)
      requires Valid() && Unfilled(incoming) && Refusal(View(), incoming).None? && !IsStop(incoming.kind)
      modifies this
      ensures Submitted(View(), report) == Execute(old(View()), incoming)
      ensures Consistent()
    {
      AcceptedIsFresh(View(), incoming);
      SubmitStartsMidway(View(), incoming);
      var n := TakeSequence();
      var taker, fills, blocked := MatchIncoming(incoming.(sequence := n));
      if blocked {
        report := Block(taker, fills);
      } else {
        report := Finish(taker, fills);
      }
    }

    /** Accepts, refuses or executes one incoming order. */
    method Submit(incoming: Order) returns (report: ExecutionReport)
      requires Valid() && Unfilled(incoming)
      modifies this
      ensures Submitted(View(), report) == FlatBook.Submit(old(View()), incoming)
      ensures Valid()
    {
      SubmitKeepsWf(View(), incoming);
      if incoming.orderId in status || incoming.orderId in orderIndex {
        return Rejection(incoming.orderId, DuplicateOrderId);
      }
      if incoming.remainingQuantity <= 0.0 {
        return Rejection(incoming.orderId, QuantityNotPositive);
      }
      if RequiresPrice(incoming.kind) && incoming.price.None? {
        return Rejection(incoming.orderId, PriceRequired);
      }
      if IsStop(incoming.kind) {
        if incoming.stopPrice.None? {
          return Rejection(incoming.orderId, StopPriceRequired);
        }
        report := AcceptStopOrder(incoming);
        return;
      }
      if incoming.kind.PostOnly? {
        var crosses := WouldCross(incoming);
        if crosses {
          return Rejection(incoming.orderId, PostOnlyWouldTake);
        }
      }
      if incoming.kind.Fok? {
        var available := AvailableCrossingQuantity(incoming);
        if available < incoming.remainingQuantity {
          return ExecutionReport(incoming.orderId, true, Expired, [], None);
        }
      }
      report := ExecuteIncoming(incoming);
    }

    /** Where the index leads for a resting id, and that nothing else on the side answers to it. */
    lemma IndexLeads(orderId: Id, userId: Id) returns (o: Order)
      requires Valid() && orderId in orderIndex
      ensures var side, price := orderIndex[orderId].0, orderIndex[orderId].1;
              && o in View().Resting(side) && o.orderId == orderId
              && price in LevelsOf(side) && o in LevelsOf(side)[price].orders
              && (Owns(LevelsOf(side)[price].orders, orderId, userId) ==> HeldAt(side, price, orderId, userId))
    {
      assert orderId in View().RestingIds();
      if orderId in Ids(View().bids) {
        o :| o in View().bids && o.orderId == orderId;
      } else {
        o :| o in View().asks && o.orderId == orderId;
      }
      SideIsFlattened(o.side);
      LevelHolds(LevelsOf(o.side), o.side, o);
      HeldOnce(LevelsOf(o.side), o.side, o, userId);
    }

    method CancelStopOrder(orderId: Id, userId: Id) returns (cancelled: bool)
      requires Valid() && !Owns(View().bids, orderId, userId) && !Owns(View().asks, orderId, userId)
      modifies this
      ensures Cancellation(View(), cancelled) == FlatBook.Cancel(old(View()), orderId, userId)
      ensures Consistent()
    {
      var k := Position(stopOrders, orderId, userId);
      if k == |stopOrders| {
        return false;
      }
      PositionFinds(stopOrders, orderId, userId);
      var order := stopOrders[k];
      stopOrders := Without(stopOrders, k);
      RecordCancelled(order);
      cancelled := true;
    }

    method RecordCancelled(order: Order)
      requires Consistent()
      modifies this`status
      ensures View() == MarkCancelled(old(View()), order) && Consistent()
    {
      RecordStatus(order.orderId, StatusEntry(Cancelled, order.originalQuantity - order.remainingQuantity));
    }

    ghost predicate HeldAt(side: Side, price: Decimal, orderId: Id, userId: Id)
      reads this
    {
      price in LevelsOf(side) && Owns(LevelsOf(side)[price].orders, orderId, userId) &&
      forall q :: q in LevelsOf(side) && q != price ==> !Owns(LevelsOf(side)[q].orders, orderId, userId)
    }

    lemma RemovalRefines(side: Side, price: Decimal, orderId: Id, userId: Id, at: nat, after: Book)
      requires Valid() && HeldAt(side, price, orderId, userId)
      requires at == Position(View().Resting(side), orderId, userId)
      requires at < |View().Resting(side)| ==> after == WithRemoved(View(), side, at)
      ensures var k := Position(LevelsOf(side)[price].orders, orderId, userId);
              && at < |View().Resting(side)|
              && LevelsOf(side)[price].orders[k] == View().Resting(side)[at]
              && View().Resting(side)[at].orderId == orderId
              && Flatten(Removed(LevelsOf(side), price, k), side) == after.Resting(side)
              && LevelsOk(Removed(LevelsOf(side), price, k))
      ensures IndexAgrees(orderIndex - {orderId}, after.bids, after.asks)
    {
      var levels := LevelsOf(side);
      var k := Position(levels[price].orders, orderId, userId);
      SideIsFlattened(side);
      PositionFinds(levels[price].orders, orderId, userId);
      RemoveRefinesWithout(levels, side, price, orderId, userId);
      RemoveKeepsLevels(levels, price, k);
      IndexWithout(View(), side, at, orderIndex);
    }

    /** Takes the k-th order of a level out of the level, its total and the index. */
    method RemoveFromLevel(side: Side, price: Decimal, orderId: Id, userId: Id) returns (order: Order)
      requires Valid() && HeldAt(side, price, orderId, userId)
      modifies this`bids, this`asks, this`orderIndex
      ensures var before := old(View());
              var k := Position(before.Resting(side), orderId, userId);
              && k < |before.Resting(side)| && order == before.Resting(side)[k] && order.orderId == orderId
              && View() == WithRemoved(before, side, k)
      ensures Consistent()
    {
      hide Wf, IndexAgrees, LevelsOk, Flatten, Removed;
      var levels := LevelsOf(side);
      var k := Position(levels[price].orders, orderId, userId);
      order := levels[price].orders[k];
      ghost var before := View();
      ghost var at := Position(before.Resting(side), orderId, userId);
      ghost var after := if at < |before.Resting(side)| then WithRemoved(before, side, at) else before;
      RemovalRefines(side, price, orderId, userId, at, after);
      ChangeSide(side, Removed(levels, price, k), orderIndex - {orderId}, after);
    }

    /** Only the owner's cancel of a live order takes effect. */
    method Cancel(orderId: Id, userId: Id) returns (cancelled: bool)
      requires Valid()
      modifies this
      ensures Cancellation(View(), cancelled) == FlatBook.Cancel(old(View()), orderId, userId)
      ensures Valid()
    {
      CancelKeepsWf(View(), orderId, userId);
      if orderId !in orderIndex {
        NotIndexed(View(), orderIndex, orderId, userId);
        cancelled := CancelStopOrder(orderId, userId);
        return;
      }
      var side, price := orderIndex[orderId].0, orderIndex[orderId].1;
      ghost var held := IndexLeads(orderId, userId);
      if !Owns(LevelsOf(side)[price].orders, orderId, userId) {
        SideIsFlattened(side);
        ForeignOrder(View(), side, held, userId, LevelsOf(side)[price].orders);
        return false;
      }
      var order := RemoveFromLevel(side, price, orderId, userId);
      RecordCancelled(order);
      CancelFinds(old(View()), side, orderId, userId);
      cancelled := true;
    }

    /** One pass over the pending stops: which fire, which stay, and the log without the fired. */
    static method Drain(stops: seq<Order>, lastPrice: Decimal, log: map<Id, StatusEntry>)
      returns (ready: seq<Order>, pending: seq<Order>, kept: map<Id, StatusEntry>)
      requires forall o :: o in stops ==> o.stopPrice.Some?
      ensures ready == ActivateAll(Select(stops, lastPrice, true))
      ensures pending == Select(stops, lastPrice, false)
      ensures kept == log - Ids(Select(stops, lastPrice, true))
    {
      hide Select, ActivateAll, Partitioned, Ids;
      ghost var fired, left := Select(stops, lastPrice, true), Select(stops, lastPrice, false);
      ready, pending, kept := [], [], log;
      PartitionStarts(stops, lastPrice, log);
      var i := 0;
      while i < |stops|
        invariant i <= |stops| && Partitioned(stops[i..], lastPrice, ready, pending, ActivateAll(fired), left)
        invariant kept == log - Ids(ready)
      {
        var order := stops[i];
        PartitionStep(stops, i, lastPrice, ready, pending, ActivateAll(fired), left);
        if Triggers(order, lastPrice) {
          KeptStep(log, ready, order);
          kept := kept - {order.orderId};
          ready := ready + [Activated(order)];
        } else {
          pending := pending + [order];
        }
        i := i + 1;
      }
      assert stops[i..] == [];
      PartitionEnds(lastPrice, ready, pending, fired, left);
    }

    /** The fired stops leave the pending list and the status log, and change kind. */
    method Disarm(lastPrice: Decimal) returns (ready: seq<Order>)
      requires Valid()
      modifies this`stopOrders, this`status
      ensures View() == Disarmed(old(View()), lastPrice) && Consistent()
      ensures ready == ActivateAll(Select(old(stopOrders), lastPrice, true))
    {
      ready, stopOrders, status := Drain(stopOrders, lastPrice, status);
    }

    /** Fires every stop the price reaches and submits it, in arrival order. */
    method TriggerStops(lastPrice: Decimal) returns (reports: seq<ExecutionReport>)
      requires Valid()
      modifies this
      ensures Triggered(View(), reports) == FlatBook.TriggerStops(old(View()), lastPrice)
      ensures Valid()
    {
      DisarmedKeepsWf(View(), lastPrice);
      FiredStopsQueue(View(), lastPrice);
      var ready := Disarm(lastPrice);
      reports := SubmitEach(ready);
    }

    method SubmitEach(ready: seq<Order>) returns (reports: seq<ExecutionReport>)
      requires Valid() && Queued(View(), ready)
      modifies this
      ensures Triggered(View(), reports) == SubmitAll(old(View()), ready)
      ensures Valid()
    {
      hide FlatBook.Submit, SubmitAll, Queued, Wf, Continues;
      reports := [];
      ContinuesAtFirst(View(), ready);
      ghost var all := SubmitAll(View(), ready);
      var i := 0;
      while i < |ready|
        invariant i <= |ready| && Valid() && Queued(View(), ready[i..])
        invariant Continues(SubmitAll(View(), ready[i..]), reports, all)
      {
        SubmitAllStep(View(), ready, i, reports, all);
        var report := Submit(ready[i]);
        reports := reports + [report];
        i := i + 1;
      }
      assert ready[i..] == [];
      ContinuesToEnd(View(), reports, all);
    }
  }

  lemma ContinuesAtFirst(b: Book, orders: seq<Order>)
    ensures orders[0..] == orders && Continues(SubmitAll(b, orders), [], SubmitAll(b, orders))
  {
    assert [] + SubmitAll(b, orders).reports == SubmitAll(b, orders).reports;
  }

  lemma ContinuesToEnd(b: Book, done: seq<ExecutionReport>, all: Triggered)
    requires Continues(SubmitAll(b, []), done, all)
    ensures Triggered(b, done) == all
  {
  }

  ghost predicate Continues(t: Triggered, done: seq<ExecutionReport>, all: Triggered) {
    t.book == all.book && done + t.reports == all.reports
  }

  lemma SubmitAllStep(b: Book, orders: seq<Order>, i: nat, done: seq<ExecutionReport>, all: Triggered)
    requires i < |orders| && Wf(b) && Queued(b, orders[i..]) && Continues(SubmitAll(b, orders[i..]), done, all)
    ensures Unfilled(orders[i])
    ensures var s := FlatBook.Submit(b, orders[i]);
            Queued(s.book, orders[i + 1..]) && Continues(SubmitAll(s.book, orders[i + 1..]), done + [s.report], all)
  {
    assert orders[i..][0] == orders[i] && orders[i..][1..] == orders[i + 1..];
    assert orders[i] in orders[i..];
    QueueAdvances(b, orders[i..]);
    var s := FlatBook.Submit(b, orders[i]);
    var rest := SubmitAll(s.book, orders[i + 1..]).reports;
    assert (done + [s.report]) + rest == done + ([s.report] + rest);
  }

  /** What is ready and pending so far, with what the rest will add. */
  ghost predicate Partitioned(rest: seq<Order>, p: Decimal, ready: seq<Order>, pending: seq<Order>,
                              allReady: seq<Order>, allPending: seq<Order>) {
    ready + ActivateAll(Select(rest, p, true)) == allReady && pending + Select(rest, p, false) == allPending
  }

  lemma PartitionStarts(stops: seq<Order>, p: Decimal, log: map<Id, StatusEntry>)
    ensures Partitioned(stops[0..], p, [], [], ActivateAll(Select(stops, p, true)), Select(stops, p, false))
    ensures log - Ids([]) == log
  {
    assert stops[0..] == stops;
  }

  lemma PartitionEnds(p: Decimal, ready: seq<Order>, pending: seq<Order>, fired: seq<Order>, left: seq<Order>)
    requires Partitioned([], p, ready, pending, ActivateAll(fired), left)
    ensures ready == ActivateAll(fired) && pending == left && Ids(ready) == Ids(fired)
  {
    assert ready + [] == ready && pending + [] == pending;
    SameIds(ready, fired);
  }

  lemma KeptStep(log: map<Id, StatusEntry>, ready: seq<Order>, o: Order)
    ensures log - Ids(ready) - {o.orderId} == log - Ids(ready + [Activated(o)])
  {
    IdsPush(ready, Activated(o));
  }

  lemma PartitionStep(stops: seq<Order>, i: nat, p: Decimal, ready: seq<Order>, pending: seq<Order>,
                      allReady: seq<Order>, allPending: seq<Order>)
    requires i < |stops| && Partitioned(stops[i..], p, ready, pending, allReady, allPending)
    ensures if Triggers(stops[i], p)
            then Partitioned(stops[i + 1..], p, ready + [Activated(stops[i])], pending, allReady, allPending)
            else Partitioned(stops[i + 1..], p, ready, pending + [stops[i]], allReady, allPending)
  {
    var stop, rest := stops[i], stops[i + 1..];
    assert stops[i..] == [stop] + rest;
    SelectFirst(stop, rest, p);
    hide Select, ActivateAll, Triggers, Activated;
    if Triggers(stop, p) {
      Regroup(ready, Activated(stop), ActivateAll(Select(rest, p, true)), allReady);
    } else {
      Regroup(pending, stop, Select(rest, p, false), allPending);
    }
  }

  lemma Regroup<T>(a: seq<T>, x: T, b: seq<T>, all: seq<T>)
    requires a + ([x] + b) == all
    ensures (a + [x]) + b == all
  {
    assert (a + [x]) + b == a + ([x] + b);
  }

  lemma SelectFirst(stop: Order, rest: seq<Order>, p: Decimal)
    ensures var fired, kept := Select([stop] + rest, p, true), Select([stop] + rest, p, false);
            if Triggers(stop, p)
            then ActivateAll(fired) == [Activated(stop)] + ActivateAll(Select(rest, p, true)) && kept == Select(rest, p, false)
            else ActivateAll(fired) == ActivateAll(Select(rest, p, true)) && kept == [stop] + Select(rest, p, false)
  {
    assert ([stop] + rest)[1..] == rest;
    var fired := Select(rest, p, true);
    assert ([stop] + fired)[1..] == fired;
    assert [] + fired == fired && [] + Select(rest, p, false) == Select(rest, p, false);
  }

  lemma RestoredNone()
    ensures RestoredLevels([]) == map[]
    ensures forall index: OrderIndex, side :: IndexLevels(index, side, []) == index
  {
  }

  lemma RestoredNext(list: seq<LevelSnapshot>, i: nat, index: OrderIndex, side: Side)
    requires i < |list|
    ensures RestoredLevels(list[..i + 1]) == RestoredLevels(list[..i])[list[i].price := RestoredLevel(list[i])]
    ensures IndexLevels(index, side, list[..i + 1])
         == IndexOrders(IndexLevels(index, side, list[..i]), side, list[i].price, list[i].orders)
  {
    TakeOneMore(list, i);
  }

  lemma TakeOneMore<T>(list: seq<T>, i: nat)
    requires i < |list|
    ensures list[..i + 1] != [] && list[..i + 1][|list[..i + 1]| - 1] == list[i]
    ensures list[..i + 1][..|list[..i + 1]| - 1] == list[..i]
  {
  }

  lemma IdsPush(orders: seq<Order>, o: Order)
    ensures Ids(orders + [o]) == Ids(orders) + {o.orderId}
  {
    assert forall x :: x in orders + [o] <==> x == o || x in orders;
  }

  lemma NotIndexed(b: Book, index: OrderIndex, orderId: Id, userId: Id)
    requires IndexAgrees(index, b.bids, b.asks) && orderId !in index
    ensures !Owns(b.bids, orderId, userId) && !Owns(b.asks, orderId, userId)
  {
    assert forall o :: o in b.bids ==> o.orderId in Ids(b.bids);
    assert forall o :: o in b.asks ==> o.orderId in Ids(b.asks);
    NotOwned(b.bids, orderId, userId);
    NotOwned(b.asks, orderId, userId);
  }

  /** A resting order that its level does not show under this user belongs to someone else. */
  lemma ForeignOrder(b: Book, side: Side, held: Order, userId: Id, queue: seq<Order>)
    requires Wf(b) && held in b.Resting(side) && held in queue && !Owns(queue, held.orderId, userId)
    ensures FlatBook.Cancel(b, held.orderId, userId) == Cancellation(b, false)
  {
    PositionFinds(queue, held.orderId, userId);
    assert held.userId != userId;
    forall o | o in b.bids || o in b.asks || o in b.stops ensures o.orderId != held.orderId || o.userId != userId {
      if o.orderId == held.orderId {
        LiveIdUnique(b, side, held, o);
      }
    }
    NotOwned(b.bids, held.orderId, userId);
    NotOwned(b.asks, held.orderId, userId);
    NotOwned(b.stops, held.orderId, userId);
  }

  lemma LiveIdUnique(b: Book, side: Side, x: Order, y: Order)
    requires Wf(b) && x in b.Resting(side) && (y in b.bids || y in b.asks || y in b.stops) && x.orderId == y.orderId
    ensures x == y
  {
    assert forall o :: o in b.bids ==> o.orderId in Ids(b.bids);
    assert forall o :: o in b.asks ==> o.orderId in Ids(b.asks);
    assert forall o :: o in b.stops ==> o.orderId in Ids(b.stops);
    SameIdSameOrder(b.Resting(side), x, y);
  }

  lemma CancelFinds(b: Book, side: Side, orderId: Id, userId: Id)
    requires Wf(b) && Owns(b.Resting(side), orderId, userId)
    ensures var k := Position(b.Resting(side), orderId, userId);
            FlatBook.Cancel(b, orderId, userId) == Cancellation(MarkCancelled(WithRemoved(b, side, k), b.Resting(side)[k]), true)
  {
    if side.Sell? {
      PositionFinds(b.asks, orderId, userId);
      var o := b.asks[Position(b.asks, orderId, userId)];
      assert o in b.asks && o.orderId in Ids(b.asks);
      forall x | x in b.bids ensures x.orderId != orderId {
        assert x.orderId in Ids(b.bids);
      }
      NotOwned(b.bids, orderId, userId);
    }
  }

  lemma IndexWithout(b: Book, side: Side, k: nat, index: OrderIndex)
    requires Wf(b) && IndexAgrees(index, b.bids, b.asks) && k < |b.Resting(side)|
    ensures var after := WithRemoved(b, side, k);
            IndexAgrees(index - {b.Resting(side)[k].orderId}, after.bids, after.asks)
  {
    var orders := b.Resting(side);
    WithoutMembers(orders, k);
    assert orders[k] in orders && orders[k].orderId in Ids(orders);
    assert forall o :: o in b.Resting(Opposite(side)) ==> o.orderId in Ids(b.Resting(Opposite(side)));
  }

  // ---------------------------------------------------------------- the pre-check's loops

  /** What other users have in one queue. */
  function OthersQuantity(taker: Order, orders: seq<Order>): Decimal {
    if orders == [] then 0.0
    else (if orders[0].userId != taker.userId then orders[0].remainingQuantity else 0.0) + OthersQuantity(taker, orders[1..])
  }

  lemma {:induction false} OthersNonNegative(taker: Order, orders: seq<Order>)
    requires AllPositive(orders)
    ensures OthersQuantity(taker, orders) >= 0.0
  {
    if orders != [] {
      TailPositive(orders);
      OthersNonNegative(taker, orders[1..]);
    }
  }

  lemma {:induction false} CrossingOfLevel(taker: Order, orders: seq<Order>, back: seq<Order>)
    requires forall o :: o in orders ==> Crosses(taker, o.LimitPrice())
    ensures CrossingQuantity(taker, orders + back) == OthersQuantity(taker, orders) + CrossingQuantity(taker, back)
  {
    if orders == [] {
      assert orders + back == back;
    } else {
      assert orders[0] in orders && forall o :: o in orders[1..] ==> o in orders;
      assert (orders + back)[1..] == orders[1..] + back;
      CrossingOfLevel(taker, orders[1..], back);
    }
  }

  lemma AppendPositive(a: seq<Order>, b: seq<Order>)
    requires AllPositive(a + b)
    ensures AllPositive(a) && AllPositive(b)
  {
    assert forall o :: o in a ==> o in a + b;
    assert forall o :: o in b ==> o in a + b;
  }

  lemma MakerReducedSteps(b: Book, side: Side, q: Decimal, left: Order, reduced: Book, after: Book)
    requires b.Resting(side) != [] && left == Reduced(b.Resting(side)[0], q) && reduced == WithFront(b, side, left)
    requires after == Recorded(reduced, left.orderId,
                               StatusEntry(PartiallyFilled, left.originalQuantity - left.remainingQuantity))
    ensures after == MakerReduced(b, side, q)
  {
  }

  lemma RestSteps(b: Book, o: Order, placed: Book, after: Book)
    requires placed == WithInserted(b, o)
    requires after == Recorded(placed, o.orderId, StatusEntry(New, o.originalQuantity - o.remainingQuantity))
    ensures after == Rest(b, o)
  {
  }

  lemma FillBestMeasure(b: Book, taker: Order)
    requires Wf(b) && CanTrade(taker, b.Resting(Opposite(taker.side)))
    ensures var side := Opposite(taker.side);
            var makers := b.Resting(side);
            var after := FillBest(b, taker).Resting(side);
            |after| < |makers| ||
            (|after| == |makers| && Reduced(taker, FillOf(makers[0], taker).quantity).remainingQuantity == 0.0)
  {
    assert b.Resting(Opposite(taker.side))[0] in b.Resting(Opposite(taker.side));
  }

  lemma IndexPlaced(b: Book, o: Order, index: OrderIndex)
    requires IndexAgrees(index, b.bids, b.asks) && o.orderId !in b.RestingIds()
    ensures var after := WithInserted(b, o);
            IndexAgrees(index[o.orderId := (o.side, o.LimitPrice())], after.bids, after.asks)
  {
    InsertMembers(b.Resting(o.side), o);
    assert forall x :: x in b.bids || x in b.asks ==> x.orderId in b.RestingIds();
  }

  lemma IndexPopped(b: Book, side: Side, index: OrderIndex)
    requires Wf(b) && IndexAgrees(index, b.bids, b.asks) && b.Resting(side) != []
    ensures var after := b.WithResting(side, b.Resting(side)[1..]);
            IndexAgrees(index - {b.Resting(side)[0].orderId}, after.bids, after.asks)
  {
    hide Wf, IndexAgrees;
    IndexWithout(b, side, 0, index);
    assert Without(b.Resting(side), 0) == b.Resting(side)[1..];
  }

  lemma IndexReduced(b: Book, side: Side, q: Decimal, index: OrderIndex)
    requires IndexAgrees(index, b.bids, b.asks) && b.Resting(side) != []
    ensures var after := WithFront(b, side, Reduced(b.Resting(side)[0], q));
            IndexAgrees(index, after.bids, after.asks)
  {
    var orders := b.Resting(side);
    var changed := orders[0 := Reduced(orders[0], q)];
    SameIds(orders, changed);
    forall o | o in changed ensures exists x :: x in orders && x.orderId == o.orderId && x.side == o.side && x.price == o.price {
      var i :| 0 <= i < |changed| && changed[i] == o;
      assert orders[i] in orders;
    }
  }
}
