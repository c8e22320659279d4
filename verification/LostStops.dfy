/** The other half of recovery: as long as no status log outgrows its limit, a lost stop shows
    until the disk is rebased. Every order a book accepts takes one sequence number and one
    status entry; a stop that fires takes a second number that replay never takes. */
module LostStops {
  import opened Domain
  import opened FlatBook
  import opened BookInvariant
  import opened CancelAndStops
  import opened SubmitLaws
  import opened Cascade
  import opened History
  import opened Symbols
  import opened Recovery

  /** Sequence numbers beyond the status entries. */
  function Surplus(b: Book): int {
    b.nextSequence - |b.status|
  }

  /** Room for one more status entry without pruning. */
  predicate Roomy(b: Book) {
    |b.status| < MAX_ORDER_STATUS_ENTRIES
  }

  // ---------------------------------------------------------------- one submit

  lemma SameSize(a: map<Id, StatusEntry>, b: map<Id, StatusEntry>)
    requires a.Keys == b.Keys
    ensures |a| == |b|
  {
    assert |a.Keys| == |a| && |b.Keys| == |b|;
  }

  /** Writing under a known id, then pruning a log within its limit, keeps the ids. */
  lemma RecordedKeepsKeys(b: Book, id: Id, entry: StatusEntry)
    requires id in b.status && |b.status| <= MAX_ORDER_STATUS_ENTRIES
    ensures Recorded(b, id, entry).status == b.status[id := entry]
    ensures b.status[id := entry].Keys == b.status.Keys && |b.status[id := entry]| == |b.status|
  {
    SameSize(b.status[id := entry], b.status);
  }

  lemma FillBestKeepsKeys(b: Book, taker: Order)
    requires Wf(b) && CanTrade(taker, b.Resting(Opposite(taker.side))) && |b.status| <= MAX_ORDER_STATUS_ENTRIES
    ensures FillBest(b, taker).status.Keys == b.status.Keys
  {
    var side := Opposite(taker.side);
    var maker := b.Resting(side)[0];
    assert maker in b.Resting(side) && HasEntry(b.status, maker.orderId, RestingEntry(maker));
    var reduced := Reduced(maker, FillOf(maker, taker).quantity);
    RecordedKeepsKeys(WithFront(b, side, reduced), maker.orderId,
                      StatusEntry(PartiallyFilled, reduced.originalQuantity - reduced.remainingQuantity));
    RecordedKeepsKeys(b, maker.orderId, StatusEntry(Filled, maker.originalQuantity));
  }

  lemma {:induction false} MatchKeepsKeys(b: Book, taker: Order, fills: seq<Fill>)
    requires Midway(b, taker) && |b.status| <= MAX_ORDER_STATUS_ENTRIES
    ensures MatchLoop(b, taker, fills).book.status.Keys == b.status.Keys
    decreases |b.Resting(Opposite(taker.side))|, if taker.remainingQuantity > 0.0 then 1 else 0
  {
    var makers := b.Resting(Opposite(taker.side));
    if CanTrade(taker, makers) && makers[0].userId != taker.userId {
      var fill := FillOf(makers[0], taker);
      FillBestKeepsMidway(b, taker);
      FillBestKeepsKeys(b, taker);
      SameSize(FillBest(b, taker).status, b.status);
      MatchKeepsKeys(FillBest(b, taker), Reduced(taker, fill.quantity), fills + [fill]);
    }
  }

  lemma OneMoreKey(status: map<Id, StatusEntry>, id: Id, entry: StatusEntry)
    ensures status[id := entry].Keys == status.Keys + {id}
    ensures |status[id := entry]| == |status| + if id in status then 0 else 1
  {
    var more := status[id := entry];
    assert |more.Keys| == |more| && |status.Keys| == |status|;
    assert more.Keys == status.Keys + {id};
  }

  lemma RecordedAddsKey(b: Book, id: Id, entry: StatusEntry)
    requires Roomy(b) || (id in b.status && |b.status| <= MAX_ORDER_STATUS_ENTRIES)
    ensures Recorded(b, id, entry).status == b.status[id := entry]
    ensures Recorded(b, id, entry).status.Keys == b.status.Keys + {id}
    ensures |Recorded(b, id, entry).status| <= MAX_ORDER_STATUS_ENTRIES
  {
    OneMoreKey(b.status, id, entry);
  }

  lemma EndAddsKey(m: Matching)
    requires Roomy(m.book)
    ensures (if m.blocked then Blocked(m) else Finished(m)).book.status.Keys == m.book.status.Keys + {m.taker.orderId}
  {
    var id := m.taker.orderId;
    var filled := m.taker.originalQuantity - m.taker.remainingQuantity;
    var final := StatusEntry(FinalStatus(m.taker, m.fills), filled);
    if m.blocked {
    } else if Rests(m.taker) {
      RecordedAddsKey(WithInserted(m.book, m.taker), id, StatusEntry(New, filled));
      RecordedAddsKey(Rest(m.book, m.taker), id, final);
    } else {
      RecordedAddsKey(m.book, id, final);
    }
  }

  /** A submit that is accepted takes a number and an entry; one that is not takes neither. */
  lemma SubmitBalances(b: Book, o: Order)
    requires Wf(b) && Unfilled(o) && Roomy(b)
    ensures Surplus(Submit(b, o).book) == Surplus(b)
    ensures |b.status| <= |Submit(b, o).book.status| <= |b.status| + 1
    ensures b.status.Keys <= Submit(b, o).book.status.Keys
    ensures Executes(b, o) ==> |Submit(b, o).book.status| == |b.status| + 1
  {
    if Refusal(b, o).None? && (IsStop(o.kind) || !Killed(b, o)) {
      AcceptedIsFresh(b, o);
      if IsStop(o.kind) {
        OneMoreKey(b.status, o.orderId, StatusEntry(PendingStop, 0.0));
      } else {
        ExecuteBalances(b, o);
      }
    }
  }

  lemma ExecuteBalances(b: Book, o: Order)
    requires Wf(b) && Unfilled(o) && Roomy(b) && Executes(b, o) && Fresh(b, o.orderId)
    ensures Submit(b, o).book.nextSequence == b.nextSequence + 1
    ensures |Submit(b, o).book.status| == |b.status| + 1
    ensures Submit(b, o).book.status.Keys == b.status.Keys + {o.orderId}
  {
    hide Wf, Finished, Blocked, Submit, Refusal;
    var m := Matched(b, o);
    ExecuteCounts(b, o);
    SubmitStartsMidway(b, o);
    MatchKeepsMidway(Started(b), o.(sequence := b.nextSequence + 1), []);
    MatchKeepsKeys(Started(b), o.(sequence := b.nextSequence + 1), []);
    SameSize(m.book.status, b.status);
    EndAddsKey(m);
    ExecutedEnd(b, o);
    var after := Submit(b, o).book.status;
    assert |after.Keys| == |after| && |b.status.Keys| == |b.status| && after.Keys == b.status.Keys + {o.orderId};
  }

  lemma CancelBalances(b: Book, orderId: Id, userId: Id)
    requires Wf(b) && |b.status| <= MAX_ORDER_STATUS_ENTRIES
    ensures Surplus(Cancel(b, orderId, userId).book) == Surplus(b)
    ensures Cancel(b, orderId, userId).book.status.Keys == b.status.Keys
  {
    PositionFinds(b.bids, orderId, userId);
    PositionFinds(b.asks, orderId, userId);
    PositionFinds(b.stops, orderId, userId);
    if Owns(b.bids, orderId, userId) {
      CancelledBalances(b, WithRemoved(b, Buy, Position(b.bids, orderId, userId)), b.bids[Position(b.bids, orderId, userId)]);
    } else if Owns(b.asks, orderId, userId) {
      CancelledBalances(b, WithRemoved(b, Sell, Position(b.asks, orderId, userId)), b.asks[Position(b.asks, orderId, userId)]);
    } else if Owns(b.stops, orderId, userId) {
      var k := Position(b.stops, orderId, userId);
      CancelledBalances(b, b.(stops := Without(b.stops, k)), b.stops[k]);
    }
  }

  lemma CancelledBalances(b: Book, removed: Book, o: Order)
    requires Wf(b) && (o in b.bids || o in b.asks || o in b.stops) && |b.status| <= MAX_ORDER_STATUS_ENTRIES
    requires removed.status == b.status && removed.nextSequence == b.nextSequence
    ensures Surplus(MarkCancelled(removed, o)) == Surplus(b) && MarkCancelled(removed, o).status.Keys == b.status.Keys
  {
    assert o.orderId in b.status;
    RecordedKeepsKeys(removed, o.orderId, StatusEntry(Cancelled, o.originalQuantity - o.remainingQuantity));
  }

  // ---------------------------------------------------------------- stops

  lemma {:induction false} SubmitAllBalances(b: Book, orders: seq<Order>)
    requires Wf(b) && Queued(b, orders) && |b.status| + |orders| <= MAX_ORDER_STATUS_ENTRIES
    ensures Surplus(SubmitAll(b, orders).book) == Surplus(b)
    ensures |SubmitAll(b, orders).book.status| == |b.status| + |orders|
    decreases |orders|
  {
    if orders != [] {
      var o := orders[0];
      assert o in orders;
      SubmitBalances(b, o);
      SubmitKeepsWf(b, o);
      QueueAdvances(b, orders);
      SubmitAllBalances(Submit(b, o).book, orders[1..]);
    }
  }

  lemma DisarmedSize(b: Book, p: Decimal)
    requires Wf(b)
    ensures |Disarmed(b, p).status| == |b.status| - |Select(b.stops, p, true)|
  {
    var ready := Select(b.stops, p, true);
    SelectMembers(b.stops, p, true);
    IdsSize(ready);
    assert forall o :: o in ready ==> HasEntry(b.status, o.orderId, StatusEntry(PendingStop, 0.0));
    var left := b.status - Ids(ready);
    assert Ids(ready) <= b.status.Keys;
    assert left.Keys == b.status.Keys - Ids(ready);
    assert |left.Keys| == |left| && |b.status.Keys| == |b.status|;
  }

  lemma {:induction false} IdsSize(orders: seq<Order>)
    requires DistinctIds(orders)
    ensures |Ids(orders)| == |orders|
  {
    if orders == [] {
      assert Ids(orders) == {};
    } else {
      FirstIdAlone(orders);
      IdsSize(orders[1..]);
      assert orders == [orders[0]] + orders[1..];
      assert Ids(orders) == Ids(orders[1..]) + {orders[0].orderId};
    }
  }

  /** Each stop that fires is a number more, and no entry more. */
  lemma TriggerBalances(b: Book, p: Decimal)
    requires Wf(b) && |b.status| <= MAX_ORDER_STATUS_ENTRIES
    ensures Surplus(TriggerStops(b, p).book) == Surplus(b) + |Select(b.stops, p, true)|
    ensures |TriggerStops(b, p).book.status| == |b.status|
    ensures Armed(b, p) ==> |Select(b.stops, p, true)| > 0
  {
    DisarmedKeepsWf(b, p);
    FiredStopsQueue(b, p);
    DisarmedSize(b, p);
    SubmitAllBalances(Disarmed(b, p), ActivateAll(Select(b.stops, p, true)));
    SelectMembers(b.stops, p, true);
  }

  lemma {:induction false} CascadeBalances(b: Book, prices: seq<Decimal>)
    requires Wf(b) && |b.status| <= MAX_ORDER_STATUS_ENTRIES
    ensures Surplus(RunCascade(b, prices).book) >= Surplus(b)
    ensures (exists p :: p in prices && Armed(b, p)) ==> Surplus(RunCascade(b, prices).book) > Surplus(b)
    decreases |b.stops|, |prices|
  {
    if prices != [] {
      var last := |prices| - 1;
      var p := prices[last];
      TriggeringShrinks(b, p);
      TriggerBalances(b, p);
      TriggerStopsKeepsWf(b, p);
      var queue := prices[..last] + FillPrices(ReportFills(TriggerStops(b, p).reports));
      CascadeBalances(TriggerStops(b, p).book, queue);
      if !Armed(b, p) {
        NoneReady(b, p);
        StillQueued(b, prices, queue);
      }
    }
  }

  lemma StillQueued(b: Book, prices: seq<Decimal>, queue: seq<Decimal>)
    requires prices != [] && !Armed(b, prices[|prices| - 1]) && prices[..|prices| - 1] <= queue
    ensures (exists p :: p in prices && Armed(b, p)) ==> exists p :: p in queue && Armed(b, p)
  {
    if p :| p in prices && Armed(b, p) {
      var i :| 0 <= i < |prices| && prices[i] == p;
      assert i < |prices| - 1;
      assert queue[i] == p;
    }
  }

  lemma SubmitSize(b: Book, o: Order)
    requires Wf(b) && Unfilled(o) && Roomy(b)
    ensures Surplus(Submit(b, o).book) == Surplus(b) && |Submit(b, o).book.status| <= MAX_ORDER_STATUS_ENTRIES
  {
    hide Wf, Submit;
    SubmitBalances(b, o);
  }

  lemma CallBalances(b: Book, o: Order)
    requires Wf(b) && Unfilled(o) && Roomy(b)
    ensures Surplus(SubmitAndCascade(b, o).book) >= Surplus(b)
    ensures Fires(b, o) ==> Surplus(SubmitAndCascade(b, o).book) > Surplus(b)
  {
    hide Wf, Submit, RunCascade, Surplus, Armed;
    SubmitSize(b, o);
    SubmitKeepsWf(b, o);
    var fills := Submit(b, o).report.fills;
    CascadeBalances(Submit(b, o).book, FillPrices(fills));
    if Fires(b, o) {
      var f :| f in fills && Armed(Submit(b, o).book, f.price);
      var i :| 0 <= i < |fills| && fills[i] == f;
      assert FillPrices(fills)[i] == f.price;
    }
  }

  // ---------------------------------------------------------------- live and recovered books

  /** The recovered books lag the live ones, or would, had a stop been lost. */
  ghost predicate Lags(recovered: Books, live: Books, lost: bool) {
    recovered.Keys == live.Keys &&
    (forall s :: s in live ==> Surplus(recovered[s]) <= Surplus(live[s])) &&
    (lost ==> exists s :: s in live && Surplus(recovered[s]) < Surplus(live[s]))
  }

  /** No book's status log, live or recovered, is at its limit. */
  ghost predicate AllRoomy(e: Engine) {
    (forall s :: s in e.books ==> Roomy(e.books[s])) && (forall s :: s in Recover(e.disk) ==> Roomy(Recover(e.disk)[s]))
  }

  ghost predicate AlwaysRoomy(e: Engine, steps: seq<Step>)
    decreases |steps|
  {
    AllRoomy(e) && (steps != [] ==> AlwaysRoomy(Take(e, steps[0]), steps[1..]))
  }

  lemma LoggedReplays(e: Engine, record: WalRecord)
    ensures Recover(Logged(e, record).disk) == ReplayRecord(Recover(e.disk), record)
  {
    var wal := e.disk.wal + [record];
    assert wal[..|wal| - 1] == e.disk.wal;
  }

  lemma LaggingSet(recovered: Books, live: Books, key: Symbol, r: Book, l: Book, lost: bool, loses: bool)
    requires Lags(recovered, live, lost)
    requires Surplus(r) == Surplus(BookFor(recovered, key)) && Surplus(l) >= Surplus(BookFor(live, key))
    requires loses ==> Surplus(l) > Surplus(BookFor(live, key))
    ensures Lags(recovered[key := r], live[key := l], lost || loses)
  {
    var recovered', live' := recovered[key := r], live[key := l];
    assert Surplus(r) <= Surplus(l) && (loses ==> Surplus(r) < Surplus(l));
    if lost {
      var s :| s in live && Surplus(recovered[s]) < Surplus(live[s]);
      assert Surplus(recovered'[s]) < Surplus(live'[s]);
    } else if loses {
      assert key in live' && Surplus(recovered'[key]) < Surplus(live'[key]);
    }
  }

  lemma SubmitLags(e: Engine, symbol: string, order: Order, lost: bool)
    requires EngineSound(e) && BooksSound(Recover(e.disk)) && AllRoomy(e) && Unfilled(order)
    requires Lags(Recover(e.disk), e.books, lost) && !Rebases(e, SubmitStep(symbol, order))
    ensures var next := SubmitOrder(e, symbol, order);
            Lags(Recover(next.disk), next.books, lost || LosesStop(e, SubmitStep(symbol, order)))
  {
    hide Normalize, Submit, SubmitAndCascade, Wf, Surplus, Lags, Recover, Fires;
    var key := Normalize(symbol);
    NormalizeIdempotent(symbol);
    EmptyBookIsSound();
    var r, l := BookFor(Recover(e.disk), key), BookFor(e.books, key);
    assert Roomy(r) && Roomy(l) && Wf(r) && Wf(l);
    LoggedReplays(e, SubmitRecordOf(symbol, order));
    SubmitBalances(r, order);
    CallBalances(l, order);
    LaggingSet(Recover(e.disk), e.books, key, Submit(r, order).book, SubmitAndCascade(l, order).book, lost,
               LosesStop(e, SubmitStep(symbol, order)));
    UnrebasedSubmit(e, symbol, order);
  }

  lemma UnrebasedSubmit(e: Engine, symbol: string, order: Order)
    requires !Rebases(e, SubmitStep(symbol, order))
    ensures var key := Normalize(symbol);
            var next := SubmitOrder(e, symbol, order);
            && next.books == e.books[key := SubmitAndCascade(BookFor(e.books, key), order).book]
            && next.disk == Logged(e, SubmitRecordOf(symbol, order)).disk
  {
  }

  lemma CancelLags(e: Engine, symbol: string, orderId: Id, userId: Id, lost: bool)
    requires EngineSound(e) && BooksSound(Recover(e.disk)) && AllRoomy(e)
    requires Lags(Recover(e.disk), e.books, lost)
    ensures var next := CancelOrder(e, symbol, orderId, userId);
            Lags(Recover(next.disk), next.books, lost)
  {
    var key := Normalize(symbol);
    NormalizeIdempotent(symbol);
    LoggedReplays(e, CancelRecordOf(symbol, orderId, userId));
    if key in e.books {
      var r, l := Recover(e.disk)[key], e.books[key];
      CancelBalances(r, orderId, userId);
      CancelBalances(l, orderId, userId);
      LaggingSet(Recover(e.disk), e.books, key, Cancel(r, orderId, userId).book, Cancel(l, orderId, userId).book, lost, false);
    }
  }

  lemma StepLags(e: Engine, step: Step, lost: bool)
    requires EngineSound(e) && AllRoomy(e) && StepSound(step) && Lags(Recover(e.disk), e.books, lost)
    ensures var next := Take(e, step);
            Lags(Recover(next.disk), next.books, !Rebases(e, step) && (lost || LosesStop(e, step)))
  {
    RestartSound(e);
    if Rebases(e, step) {
      RebasedInSync(e, step);
    } else if step.SubmitStep? {
      SubmitLags(e, step.symbol, step.order, lost);
    } else {
      CancelLags(e, step.symbol, step.orderId, step.userId, lost);
    }
  }

  lemma LaggingDiffers(recovered: Books, live: Books)
    requires Lags(recovered, live, true)
    ensures recovered != live
  {
  }

  /** State by state, with room in every status log: recovery is exact if and only if no
      operation still in the log fired a stop. */
  lemma {:induction false} RecoveryExactlyWhereNothingLost(e: Engine, steps: seq<Step>, lost: bool)
    requires EngineSound(e) && AlwaysRoomy(e, steps) && (forall s :: s in steps ==> StepSound(s))
    requires (!lost ==> InSync(e)) && Lags(Recover(e.disk), e.books, lost)
    ensures InSync(End(e, steps)) <==> !Lost(e, steps, lost)
    decreases |steps|
  {
    if steps == [] {
      if lost {
        LaggingDiffers(Recover(e.disk), e.books);
      }
    } else {
      assert steps[0] in steps && forall s :: s in steps[1..] ==> s in steps;
      TakeKeepsSound(e, steps[0]);
      StepLags(e, steps[0], lost);
      if Rebases(e, steps[0]) {
        RebasedInSync(e, steps[0]);
      } else if !lost {
        StepInSync(e, steps[0]);
      }
      RecoveryExactlyWhereNothingLost(Take(e, steps[0]), steps[1..], !Rebases(e, steps[0]) && (lost || LosesStop(e, steps[0])));
    }
  }

  /** In particular from an empty disk. */
  lemma FreshRecoveryExactly(interval: nat, steps: seq<Step>)
    requires AlwaysRoomy(FreshEngine(interval), steps) && forall s :: s in steps ==> StepSound(s)
    ensures InSync(End(FreshEngine(interval), steps)) <==> !Lost(FreshEngine(interval), steps, false)
  {
    FreshEngineInSync(interval);
    RecoveryExactlyWhereNothingLost(FreshEngine(interval), steps, false);
  }
}
