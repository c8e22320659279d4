/** The engine shell on flat books: the write-ahead log, the snapshot, the trade-count
    interval, restarts and crashes; and exactly when recovery gives back the live books. */
module Recovery {
  import opened Domain
  import opened FlatBook
  import opened BookInvariant
  import opened CancelAndStops
  import opened Cascade
  import opened History
  import opened Symbols

  type Books = map<Symbol, Book>

  datatype WalRecord =
    | SubmitRecord(symbol: Symbol, order: Order)
    | CancelRecord(symbol: Symbol, orderId: Id, userId: Id)

  /** What survives the process: the last snapshot, if any, and the records since. */
  datatype Disk = Disk(snapshot: Option<Books>, wal: seq<WalRecord>)

  datatype Engine = Engine(books: Books, disk: Disk, tradesSinceSnapshot: nat, interval: nat)

  function BookFor(books: Books, symbol: Symbol): Book {
    if symbol in books then books[symbol] else EmptyBook
  }

  // ---------------------------------------------------------------- recovery

  /** Replay submits without firing stops, and cancels only where a book exists. */
  function ReplayRecord(books: Books, record: WalRecord): Books {
    var symbol := Normalize(record.symbol);
    match record
    case SubmitRecord(_, order) => books[symbol := Submit(BookFor(books, symbol), order).book]
    case CancelRecord(_, orderId, userId) =>
      if symbol in books then books[symbol := Cancel(books[symbol], orderId, userId).book] else books
  }

  function Replay(books: Books, wal: seq<WalRecord>): Books {
    if wal == [] then books
    else ReplayRecord(Replay(books, wal[..|wal| - 1]), wal[|wal| - 1])
  }

  function Recover(disk: Disk): Books {
    Replay(if disk.snapshot.Some? then disk.snapshot.value else map[], disk.wal)
  }

  // ---------------------------------------------------------------- the live engine

  function Logged(e: Engine, record: WalRecord): Engine {
    e.(disk := e.disk.(wal := e.disk.wal + [record]))
  }

  function SnapshotToDisk(e: Engine): Engine {
    e.(disk := Disk(Some(e.books), []))
  }

  /** Counts trades and, at the interval, writes a snapshot and starts over. */
  function RecordTrades(e: Engine, count: nat): Engine {
    if count == 0 then e
    else if e.tradesSinceSnapshot + count >= e.interval then SnapshotToDisk(e.(tradesSinceSnapshot := 0))
    else e.(tradesSinceSnapshot := e.tradesSinceSnapshot + count)
  }

  function SubmitRecordOf(symbol: string, order: Order): WalRecord {
    SubmitRecord(Normalize(symbol), order)
  }

  function CancelRecordOf(symbol: string, orderId: Id, userId: Id): WalRecord {
    CancelRecord(Normalize(symbol), orderId, userId)
  }

  function SubmitOrder(e: Engine, symbol: string, order: Order): Engine {
    var key := Normalize(symbol);
    var outcome := SubmitAndCascade(BookFor(e.books, key), order);
    var logged := Logged(e, SubmitRecordOf(symbol, order));
    RecordTrades(logged.(books := e.books[key := outcome.book]), |outcome.fills|)
  }

  function CancelOrder(e: Engine, symbol: string, orderId: Id, userId: Id): Engine {
    var key := Normalize(symbol);
    var logged := Logged(e, CancelRecordOf(symbol, orderId, userId));
    if key in e.books then logged.(books := e.books[key := Cancel(e.books[key], orderId, userId).book]) else logged
  }

  function Restart(e: Engine): Engine {
    e.(books := Recover(e.disk), tradesSinceSnapshot := 0)
  }

  datatype Step =
    | SubmitStep(symbol: string, order: Order)
    | CancelStep(symbol: string, orderId: Id, userId: Id)
    | SnapshotStep
    | RestartStep
    | CrashedSubmit(symbol: string, order: Order)              // dies after the log append, restarts
    | CrashedCancel(symbol: string, orderId: Id, userId: Id)

  function Take(e: Engine, step: Step): Engine {
    match step
    case SubmitStep(symbol, order) => SubmitOrder(e, symbol, order)
    case CancelStep(symbol, orderId, userId) => CancelOrder(e, symbol, orderId, userId)
    case SnapshotStep => SnapshotToDisk(e)
    case RestartStep => Restart(e)
    case CrashedSubmit(symbol, order) => Restart(Logged(e, SubmitRecordOf(symbol, order)))
    case CrashedCancel(symbol, orderId, userId) => Restart(Logged(e, CancelRecordOf(symbol, orderId, userId)))
  }

  // ---------------------------------------------------------------- soundness of every state

  ghost predicate BooksSound(books: Books) {
    forall s :: s in books ==> Wf(books[s]) && Normalize(s) == s
  }

  ghost predicate RecordSound(record: WalRecord) {
    record.SubmitRecord? ==> Unfilled(record.order)
  }

  ghost predicate EngineSound(e: Engine) {
    BooksSound(e.books) && (e.disk.snapshot.Some? ==> BooksSound(e.disk.snapshot.value)) &&
    forall r :: r in e.disk.wal ==> RecordSound(r)
  }

  ghost predicate StepSound(step: Step) {
    (step.SubmitStep? ==> Unfilled(step.order)) && (step.CrashedSubmit? ==> Unfilled(step.order))
  }

  lemma ReplayRecordSound(books: Books, record: WalRecord)
    requires BooksSound(books) && RecordSound(record)
    ensures BooksSound(ReplayRecord(books, record))
  {
    NormalizeIdempotent(record.symbol);
    EmptyBookIsSound();
    match record
    case SubmitRecord(_, order) =>
      SubmitKeepsWf(BookFor(books, Normalize(record.symbol)), order);
    case CancelRecord(_, orderId, userId) =>
      if Normalize(record.symbol) in books {
        CancelKeepsWf(books[Normalize(record.symbol)], orderId, userId);
      }
  }

  lemma {:induction false} ReplaySound(books: Books, wal: seq<WalRecord>)
    requires BooksSound(books) && forall r :: r in wal ==> RecordSound(r)
    ensures BooksSound(Replay(books, wal))
  {
    if wal != [] {
      assert forall r :: r in wal[..|wal| - 1] ==> r in wal;
      ReplaySound(books, wal[..|wal| - 1]);
      assert wal[|wal| - 1] in wal;
      ReplayRecordSound(Replay(books, wal[..|wal| - 1]), wal[|wal| - 1]);
    }
  }

  lemma LoggedSound(e: Engine, record: WalRecord)
    requires EngineSound(e) && RecordSound(record)
    ensures EngineSound(Logged(e, record))
  {
    assert forall r :: r in e.disk.wal + [record] <==> r in e.disk.wal || r == record;
  }

  lemma RestartSound(e: Engine)
    requires EngineSound(e)
    ensures EngineSound(Restart(e))
  {
    ReplaySound(if e.disk.snapshot.Some? then e.disk.snapshot.value else map[], e.disk.wal);
  }

  lemma RecordTradesSound(e: Engine, count: nat)
    requires EngineSound(e)
    ensures EngineSound(RecordTrades(e, count))
  {
  }

  lemma SubmitOrderSound(e: Engine, symbol: string, order: Order)
    requires EngineSound(e) && Unfilled(order)
    ensures EngineSound(SubmitOrder(e, symbol, order))
  {
    hide Submit, SubmitAndCascade, Normalize, Wf;
    var key := Normalize(symbol);
    NormalizeIdempotent(symbol);
    EmptyBookIsSound();
    LoggedSound(e, SubmitRecordOf(symbol, order));
    SubmitAndCascadeSettles(BookFor(e.books, key), order);
    var outcome := SubmitAndCascade(BookFor(e.books, key), order);
    var updated := Logged(e, SubmitRecordOf(symbol, order)).(books := e.books[key := outcome.book]);
    assert BooksSound(updated.books);
    RecordTradesSound(updated, |outcome.fills|);
  }

  lemma CancelOrderSound(e: Engine, symbol: string, orderId: Id, userId: Id)
    requires EngineSound(e)
    ensures EngineSound(CancelOrder(e, symbol, orderId, userId))
  {
    var key := Normalize(symbol);
    LoggedSound(e, CancelRecordOf(symbol, orderId, userId));
    if key in e.books {
      CancelKeepsWf(e.books[key], orderId, userId);
      assert BooksSound(e.books[key := Cancel(e.books[key], orderId, userId).book]);
    }
  }

  /** Every step keeps every book sound, live and on disk. */
  lemma TakeKeepsSound(e: Engine, step: Step)
    requires EngineSound(e) && StepSound(step)
    ensures EngineSound(Take(e, step))
  {
    match step
    case SubmitStep(symbol, order) => SubmitOrderSound(e, symbol, order);
    case CancelStep(symbol, orderId, userId) => CancelOrderSound(e, symbol, orderId, userId);
    case SnapshotStep =>
    case RestartStep => RestartSound(e);
    case CrashedSubmit(symbol, order) =>
      LoggedSound(e, SubmitRecordOf(symbol, order));
      RestartSound(Logged(e, SubmitRecordOf(symbol, order)));
    case CrashedCancel(symbol, orderId, userId) =>
      LoggedSound(e, CancelRecordOf(symbol, orderId, userId));
      RestartSound(Logged(e, CancelRecordOf(symbol, orderId, userId)));
  }

  // ---------------------------------------------------------------- when a submit fires a stop

  /** Some fill of the order itself reaches a pending stop. */
  ghost predicate Fires(b: Book, o: Order) {
    exists f :: f in Submit(b, o).report.fills && Armed(Submit(b, o).book, f.price)
  }

  lemma {:induction false} SelectNone(stops: seq<Order>, p: Decimal)
    requires forall o :: o in stops ==> !Triggers(o, p)
    ensures Select(stops, p, true) == [] && Select(stops, p, false) == stops
  {
    if stops != [] {
      assert stops[0] in stops && forall o :: o in stops[1..] ==> o in stops;
      SelectNone(stops[1..], p);
    }
  }

  lemma NoneReady(b: Book, p: Decimal)
    requires !Armed(b, p)
    ensures TriggerStops(b, p) == Triggered(b, [])
  {
    SelectNone(b.stops, p);
    assert b.status - Ids([]) == b.status;
  }

  lemma {:induction false} QuietCascade(b: Book, prices: seq<Decimal>)
    requires forall p :: p in prices ==> !Armed(b, p)
    ensures RunCascade(b, prices) == Cascaded(b, [])
    decreases |prices|
  {
    if prices != [] {
      var last := |prices| - 1;
      NoneReady(b, prices[last]);
      assert prices[..last] + FillPrices([]) == prices[..last];
      QuietCascade(b, prices[..last]);
    }
  }

  lemma QuietSubmit(b: Book, o: Order)
    requires !Fires(b, o)
    ensures SubmitAndCascade(b, o).book == Submit(b, o).book
  {
    var fills := Submit(b, o).report.fills;
    var prices := FillPrices(fills);
    forall p | p in prices ensures !Armed(Submit(b, o).book, p) {
      var i :| 0 <= i < |prices| && prices[i] == p;
      assert fills[i] in fills;
    }
    QuietCascade(Submit(b, o).book, prices);
  }

  lemma {:induction false} SubmitAllCounts(b: Book, orders: seq<Order>)
    requires Wf(b) && Queued(b, orders)
    ensures SubmitAll(b, orders).book.nextSequence == b.nextSequence + |orders|
    decreases |orders|
  {
    if orders != [] {
      var o := orders[0];
      QueuedCounts(b, o, orders);
      QueueAdvances(b, orders);
      SubmitAllCounts(Submit(b, o).book, orders[1..]);
    }
  }

  lemma QueuedCounts(b: Book, o: Order, orders: seq<Order>)
    requires Wf(b) && Queued(b, orders) && o in orders
    ensures Wf(Submit(b, o).book) && Submit(b, o).book.nextSequence == b.nextSequence + 1
  {
    hide Wf, Submit, Execute, Queued;
    QueuedExecutes(b, o, orders);
    SubmitKeepsWf(b, o);
    ExecuteCounts(b, o);
  }

  lemma QueuedExecutes(b: Book, o: Order, orders: seq<Order>)
    requires Queued(b, orders) && o in orders
    ensures Unfilled(o) && Submit(b, o) == Execute(b, o)
  {
    hide Execute;
  }

  lemma ExecuteCounts(b: Book, o: Order)
    ensures Execute(b, o).book.nextSequence == b.nextSequence + 1
  {
    hide Blocked, Finished, MatchLoop;
    MatchCounts(Started(b), o.(sequence := b.nextSequence + 1), []);
    EndKeepsStops(Matched(b, o));
  }

  lemma {:induction false} MatchCounts(b: Book, taker: Order, fills: seq<Fill>)
    ensures MatchLoop(b, taker, fills).book.nextSequence == b.nextSequence
    decreases |b.Resting(Opposite(taker.side))|, if taker.remainingQuantity > 0.0 then 1 else 0
  {
    var makers := b.Resting(Opposite(taker.side));
    if CanTrade(taker, makers) && makers[0].userId != taker.userId {
      var fill := FillOf(makers[0], taker);
      MatchCounts(FillBest(b, taker), Reduced(taker, fill.quantity), fills + [fill]);
    }
  }

  /** Each fired stop takes a sequence number. */
  lemma TriggeringCounts(b: Book, p: Decimal)
    requires Wf(b)
    ensures TriggerStops(b, p).book.nextSequence == b.nextSequence + |Select(b.stops, p, true)|
    ensures Armed(b, p) ==> TriggerStops(b, p).book.nextSequence > b.nextSequence
  {
    DisarmedKeepsWf(b, p);
    FiredStopsQueue(b, p);
    SubmitAllCounts(Disarmed(b, p), ActivateAll(Select(b.stops, p, true)));
    SelectMembers(b.stops, p, true);
  }

  /** A cascade that fires anything leaves a higher sequence number than it found. */
  lemma {:induction false} CascadeCounts(b: Book, prices: seq<Decimal>)
    requires Wf(b)
    ensures RunCascade(b, prices).book.nextSequence >= b.nextSequence
    ensures (exists p :: p in prices && Armed(b, p)) ==> RunCascade(b, prices).book.nextSequence > b.nextSequence
    decreases |b.stops|, |prices|
  {
    if prices != [] {
      var last := |prices| - 1;
      var p := prices[last];
      TriggeringShrinks(b, p);
      TriggeringCounts(b, p);
      TriggerStopsKeepsWf(b, p);
      var queue := prices[..last] + FillPrices(ReportFills(TriggerStops(b, p).reports));
      CascadeCounts(TriggerStops(b, p).book, queue);
      if !Armed(b, p) && exists q :: q in prices && Armed(b, q) {
        var q :| q in prices && Armed(b, q);
        NoneReady(b, p);
        assert q in prices[..last];
        assert q in queue;
      }
    }
  }

  lemma FiringDiverges(b: Book, o: Order)
    requires Wf(b) && Unfilled(o) && Fires(b, o)
    ensures SubmitAndCascade(b, o).book.nextSequence > Submit(b, o).book.nextSequence
  {
    SubmitKeepsWf(b, o);
    var fills := Submit(b, o).report.fills;
    var f :| f in fills && Armed(Submit(b, o).book, f.price);
    var i :| 0 <= i < |fills| && fills[i] == f;
    assert FillPrices(fills)[i] == f.price;
    CascadeCounts(Submit(b, o).book, FillPrices(fills));
  }

  // ---------------------------------------------------------------- recovery refines the live engine

  /** Recovering from the disk would give back the live books. */
  ghost predicate InSync(e: Engine) {
    Recover(e.disk) == e.books
  }

  /** The step fires a stop and no snapshot is written before it ends. */
  ghost predicate LosesStop(e: Engine, step: Step) {
    step.SubmitStep? &&
    var b := BookFor(e.books, Normalize(step.symbol));
    Fires(b, step.order) &&
    e.tradesSinceSnapshot + |SubmitAndCascade(b, step.order).fills| < e.interval
  }

  lemma LoggedRecovers(e: Engine, record: WalRecord)
    requires InSync(e)
    ensures Recover(Logged(e, record).disk) == ReplayRecord(e.books, record)
  {
    var wal := e.disk.wal + [record];
    assert wal[..|wal| - 1] == e.disk.wal;
  }

  lemma FiringTrades(b: Book, o: Order)
    requires Fires(b, o)
    ensures SubmitAndCascade(b, o).fills != []
  {
    var f :| f in Submit(b, o).report.fills && Armed(Submit(b, o).book, f.price);
  }

  lemma SubmitInSync(e: Engine, symbol: string, order: Order)
    requires EngineSound(e) && InSync(e) && Unfilled(order)
    ensures InSync(SubmitOrder(e, symbol, order)) <==> !LosesStop(e, SubmitStep(symbol, order))
  {
    hide Submit, SubmitAndCascade, Normalize, Wf, Fires;
    var key := Normalize(symbol);
    var b := BookFor(e.books, key);
    NormalizeIdempotent(symbol);
    EmptyBookIsSound();
    LoggedRecovers(e, SubmitRecordOf(symbol, order));
    var recovered := e.books[key := Submit(b, order).book];
    var live := e.books[key := SubmitAndCascade(b, order).book];
    if Fires(b, order) {
      FiringDiverges(b, order);
      FiringTrades(b, order);
      assert recovered[key] != live[key];
    } else {
      QuietSubmit(b, order);
    }
    assert SubmitOrder(e, symbol, order).books == live;
  }

  /** One step from a state in sync stays in sync exactly when it does not fire a stop that
      no snapshot of the same call covers. */
  lemma StepInSync(e: Engine, step: Step)
    requires EngineSound(e) && InSync(e) && StepSound(step)
    ensures InSync(Take(e, step)) <==> !LosesStop(e, step)
  {
    match step
    case SubmitStep(symbol, order) => SubmitInSync(e, symbol, order);
    case CancelStep(symbol, orderId, userId) =>
      NormalizeIdempotent(symbol);
      LoggedRecovers(e, CancelRecordOf(symbol, orderId, userId));
    case SnapshotStep =>
    case RestartStep =>
    case CrashedSubmit(symbol, order) =>
    case CrashedCancel(symbol, orderId, userId) =>
  }

  /** The states a run goes through, the first included. */
  function States(e: Engine, steps: seq<Step>): (states: seq<Engine>)
    ensures |states| == |steps| + 1 && states[0] == e
    decreases |steps|
  {
    if steps == [] then [e] else [e] + States(Take(e, steps[0]), steps[1..])
  }

  ghost predicate AlwaysInSync(e: Engine, steps: seq<Step>) {
    forall i :: 0 <= i <= |steps| ==> InSync(States(e, steps)[i])
  }

  ghost predicate NeverLosesStop(e: Engine, steps: seq<Step>) {
    forall i :: 0 <= i < |steps| ==> !LosesStop(States(e, steps)[i], steps[i])
  }

  lemma SyncSplits(e: Engine, steps: seq<Step>)
    requires steps != []
    ensures AlwaysInSync(e, steps) <==> InSync(e) && AlwaysInSync(Take(e, steps[0]), steps[1..])
  {
    var next, rest := Take(e, steps[0]), steps[1..];
    var states, later := States(e, steps), States(next, rest);
    assert forall i :: 0 <= i <= |rest| ==> later[i] == states[i + 1];
    assert forall i :: 0 < i <= |steps| ==> states[i] == later[i - 1];
  }

  lemma LossSplits(e: Engine, steps: seq<Step>)
    requires steps != []
    ensures NeverLosesStop(e, steps) <==> !LosesStop(e, steps[0]) && NeverLosesStop(Take(e, steps[0]), steps[1..])
  {
    hide Take, LosesStop;
    var next, rest := Take(e, steps[0]), steps[1..];
    var states, later := States(e, steps), States(next, rest);
    assert states == [e] + later;
    assert forall i :: 0 <= i < |rest| ==> later[i] == states[i + 1] && rest[i] == steps[i + 1];
    assert forall i :: 0 < i < |steps| ==> states[i] == later[i - 1] && steps[i] == rest[i - 1];
  }

  /** Recovery is exact in every state of a run if and only if no step of it fires a stop
      without a snapshot: restarts, interval snapshots and crashes never matter. */
  lemma {:induction false} RecoveryIsExact(e: Engine, steps: seq<Step>)
    requires EngineSound(e) && InSync(e)
    requires forall s :: s in steps ==> StepSound(s)
    ensures AlwaysInSync(e, steps) <==> NeverLosesStop(e, steps)
    decreases |steps|
  {
    if steps != [] {
      assert steps[0] in steps && forall s :: s in steps[1..] ==> s in steps;
      var next := Take(e, steps[0]);
      SyncSplits(e, steps);
      LossSplits(e, steps);
      StepInSync(e, steps[0]);
      TakeKeepsSound(e, steps[0]);
      if InSync(next) {
        RecoveryIsExact(next, steps[1..]);
      } else {
        assert States(next, steps[1..])[0] == next;
      }
    }
  }

  // ---------------------------------------------------------------- state by state

  /** The step leaves a disk that recovers to the live books whatever was on it: a snapshot,
      asked for or due, or a restart, with or without a crash before it. */
  ghost predicate Rebases(e: Engine, step: Step) {
    match step
    case SubmitStep(symbol, order) =>
      var count := |SubmitAndCascade(BookFor(e.books, Normalize(symbol)), order).fills|;
      0 < count && e.interval <= e.tradesSinceSnapshot + count
    case CancelStep(_, _, _) => false
    case _ => true
  }

  lemma RebasedInSync(e: Engine, step: Step)
    requires Rebases(e, step)
    ensures InSync(Take(e, step))
  {
  }

  /** Some operation still in the log fired a stop, when lost says whether one did at first. */
  ghost predicate Lost(e: Engine, steps: seq<Step>, lost: bool)
    decreases |steps|
  {
    if steps == [] then lost
    else Lost(Take(e, steps[0]), steps[1..], !Rebases(e, steps[0]) && (lost || LosesStop(e, steps[0])))
  }

  /** Recovery was not exact in some state since the disk was last rebased. */
  ghost predicate Diverged(e: Engine, steps: seq<Step>, diverged: bool)
    decreases |steps|
  {
    if steps == [] then diverged
    else Diverged(Take(e, steps[0]), steps[1..], !Rebases(e, steps[0]) && (diverged || !InSync(Take(e, steps[0]))))
  }

  function End(e: Engine, steps: seq<Step>): Engine
    decreases |steps|
  {
    if steps == [] then e else End(Take(e, steps[0]), steps[1..])
  }

  /** In every state of every run, whatever was lost before: recovery is exact where no
      operation still in the log fired a stop. And it has been exact in all states since the
      disk was last rebased if and only if none of their operations did. */
  lemma {:induction false} RecoveryStateByState(e: Engine, steps: seq<Step>, lost: bool)
    requires EngineSound(e) && (!lost ==> InSync(e))
    requires forall s :: s in steps ==> StepSound(s)
    ensures !Lost(e, steps, lost) ==> InSync(End(e, steps))
    ensures Lost(e, steps, lost) <==> Diverged(e, steps, lost)
    decreases |steps|
  {
    if steps != [] {
      assert steps[0] in steps && forall s :: s in steps[1..] ==> s in steps;
      var next := Take(e, steps[0]);
      TakeKeepsSound(e, steps[0]);
      if Rebases(e, steps[0]) {
        RebasedInSync(e, steps[0]);
      } else if !lost {
        StepInSync(e, steps[0]);
      }
      RecoveryStateByState(next, steps[1..], !Rebases(e, steps[0]) && (lost || LosesStop(e, steps[0])));
    }
  }

  function FreshEngine(interval: nat): Engine {
    Engine(map[], Disk(None, []), 0, if interval >= 1 then interval else 1)
  }

  lemma FreshEngineInSync(interval: nat)
    ensures EngineSound(FreshEngine(interval)) && InSync(FreshEngine(interval))
  {
  }

  /** In particular from an empty disk. */
  lemma FreshRecovery(interval: nat, steps: seq<Step>)
    requires forall s :: s in steps ==> StepSound(s)
    ensures var e := FreshEngine(interval);
            && (!Lost(e, steps, false) ==> InSync(End(e, steps)))
            && (Lost(e, steps, false) <==> Diverged(e, steps, false))
            && (AlwaysInSync(e, steps) <==> NeverLosesStop(e, steps))
  {
    FreshEngineInSync(interval);
    RecoveryStateByState(FreshEngine(interval), steps, false);
    RecoveryIsExact(FreshEngine(interval), steps);
  }

  // ---------------------------------------------------------------- crashes

  /** A crash between the log append and the application recovers to the applied state, if
      and only if the order fires no stop. */
  lemma CrashRecoversApplied(e: Engine, symbol: string, order: Order)
    requires EngineSound(e) && InSync(e) && Unfilled(order)
    ensures (Take(e, CrashedSubmit(symbol, order)).books == Take(e, SubmitStep(symbol, order)).books) <==>
              !Fires(BookFor(e.books, Normalize(symbol)), order)
  {
    var key := Normalize(symbol);
    var b := BookFor(e.books, key);
    EmptyBookIsSound();
    SubmittedBooks(e, symbol, order);
    hide Take, Normalize, Submit, SubmitAndCascade, Fires, Wf, InSync;
    if Fires(b, order) {
      FiringDiverges(b, order);
      assert e.books[key := Submit(b, order).book][key] != e.books[key := SubmitAndCascade(b, order).book][key];
    } else {
      QuietSubmit(b, order);
    }
  }

  /** The books after a submit, recovered from its record or live. */
  lemma SubmittedBooks(e: Engine, symbol: string, order: Order)
    requires InSync(e)
    ensures var key := Normalize(symbol);
            var b := BookFor(e.books, key);
            && Take(e, CrashedSubmit(symbol, order)).books == e.books[key := Submit(b, order).book]
            && Take(e, SubmitStep(symbol, order)).books == e.books[key := SubmitAndCascade(b, order).book]
  {
    hide Submit, SubmitAndCascade, Normalize;
    NormalizeIdempotent(symbol);
    LoggedRecovers(e, SubmitRecordOf(symbol, order));
  }

  /** A crashed cancel always recovers to the applied state. */
  lemma CrashedCancelRecoversApplied(e: Engine, symbol: string, orderId: Id, userId: Id)
    requires InSync(e)
    ensures Take(e, CrashedCancel(symbol, orderId, userId)).books == Take(e, CancelStep(symbol, orderId, userId)).books
  {
    NormalizeIdempotent(symbol);
    LoggedRecovers(e, CancelRecordOf(symbol, orderId, userId));
  }
}
