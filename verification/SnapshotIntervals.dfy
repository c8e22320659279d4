/** When the engine writes a snapshot on its own: with the submit whose trades bring the count
    since the last time, or since the start of the process, to the interval. */
module SnapshotIntervals {
  import opened Domain
  import opened Cascade
  import opened Symbols
  import opened Recovery

  function TradesOf(e: Engine, symbol: string, order: Order): nat {
    |SubmitAndCascade(BookFor(e.books, Normalize(symbol)), order).fills|
  }

  /** What a submit leaves on the disk: all live books and an empty log at the interval, and
      otherwise the snapshot it found and one more record. */
  lemma SnapshotsAtInterval(e: Engine, symbol: string, order: Order)
    requires e.tradesSinceSnapshot < e.interval
    ensures var after, count := SubmitOrder(e, symbol, order), e.tradesSinceSnapshot + TradesOf(e, symbol, order);
            && after.interval == e.interval
            && if count >= e.interval
               then after.disk == Disk(Some(after.books), []) && after.tradesSinceSnapshot == 0
               else
                 && after.disk == Disk(e.disk.snapshot, e.disk.wal + [SubmitRecord(Normalize(symbol), order)])
                 && after.tradesSinceSnapshot == count
  {
    hide SubmitAndCascade, Normalize;
  }

  /** A cancel is logged whether or not its symbol has a book, and counts no trade. */
  lemma CancelIsLogged(e: Engine, symbol: string, orderId: Id, userId: Id)
    ensures var after := CancelOrder(e, symbol, orderId, userId);
            && after.disk == Disk(e.disk.snapshot, e.disk.wal + [CancelRecord(Normalize(symbol), orderId, userId)])
            && after.tradesSinceSnapshot == e.tradesSinceSnapshot && after.interval == e.interval
  {
    hide FlatBook.Cancel, Normalize;
  }

  /** The trades of a run since the last submit that emptied the log, or the last restart. */
  function TradesSince(e: Engine, steps: seq<Step>, before: nat): nat
    decreases |steps|
  {
    if steps == [] then before
    else
      var next := Take(e, steps[0]);
      var counted :=
        match steps[0]
        case SubmitStep(symbol, order) => if next.disk.wal == [] then 0 else before + TradesOf(e, symbol, order)
        case CancelStep(_, _, _) => before
        case SnapshotStep => before
        case _ => 0;
      TradesSince(next, steps[1..], counted)
  }

  /** Over every run of restarts, crashes and snapshots the counter is that number, and below
      the interval. */
  lemma {:induction false} CounterCountsTrades(e: Engine, steps: seq<Step>)
    requires e.tradesSinceSnapshot < e.interval
    ensures var end := End(e, steps);
            end.tradesSinceSnapshot == TradesSince(e, steps, e.tradesSinceSnapshot) < end.interval == e.interval
    decreases |steps|
  {
    hide SubmitOrder, CancelOrder, TradesOf;
    if steps != [] {
      StepCounts(e, steps[0]);
      CounterCountsTrades(Take(e, steps[0]), steps[1..]);
    }
  }

  lemma StepCounts(e: Engine, step: Step)
    requires e.tradesSinceSnapshot < e.interval
    ensures var next := Take(e, step);
            && next.tradesSinceSnapshot < next.interval == e.interval
            && next.tradesSinceSnapshot ==
                 match step
                 case SubmitStep(symbol, order) => (if next.disk.wal == [] then 0 else e.tradesSinceSnapshot + TradesOf(e, symbol, order))
                 case CancelStep(_, _, _) => e.tradesSinceSnapshot
                 case SnapshotStep => e.tradesSinceSnapshot
                 case _ => 0
  {
    hide SubmitOrder, SubmitAndCascade, Normalize;
    if step.SubmitStep? {
      SnapshotsAtInterval(e, step.symbol, step.order);
    }
  }
}
