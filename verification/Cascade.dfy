/** The stop cascade: every traded price may fire stops, whose trades make new prices. */
module Cascade {
  import opened Domain
  import opened FlatBook
  import opened BookInvariant
  import opened CancelAndStops

  function FillPrices(fills: seq<Fill>): (prices: seq<Decimal>)
    ensures |prices| == |fills| && forall i :: 0 <= i < |fills| ==> prices[i] == fills[i].price
  {
    if fills == [] then [] else [fills[0].price] + FillPrices(fills[1..])
  }

  function ReportFills(reports: seq<ExecutionReport>): seq<Fill> {
    if reports == [] then [] else reports[0].fills + ReportFills(reports[1..])
  }

  /** The book after a cascade, and every fill of the stops it fired. */
  datatype Cascaded = Cascaded(book: Book, fills: seq<Fill>)

  /** Pops the last queued price, fires its stops, and queues the prices they make. */
  function RunCascade(b: Book, prices: seq<Decimal>): Cascaded
    decreases |b.stops|, |prices|
  {
    if prices == [] then Cascaded(b, [])
    else
      var last := |prices| - 1;
      var t := TriggerStops(b, prices[last]);
      var made := ReportFills(t.reports);
      TriggeringShrinks(b, prices[last]);
      var rest := RunCascade(t.book, prices[..last] + FillPrices(made));
      Cascaded(rest.book, made + rest.fills)
  }

  /** What an engine call returns, with every fill it caused. */
  datatype EngineOutcome = EngineOutcome(book: Book, report: ExecutionReport, fills: seq<Fill>)

  /** One engine call: submit, then the cascade its fills set off. */
  function SubmitAndCascade(b: Book, o: Order): EngineOutcome {
    var s := Submit(b, o);
    var c := RunCascade(s.book, FillPrices(s.report.fills));
    EngineOutcome(c.book, s.report, s.report.fills + c.fills)
  }

  // ---------------------------------------------------------------- termination

  lemma {:induction false} MatchKeepsStops(b: Book, taker: Order, fills: seq<Fill>)
    ensures MatchLoop(b, taker, fills).book.stops == b.stops
    ensures MatchLoop(b, taker, fills).taker == taker.(remainingQuantity := MatchLoop(b, taker, fills).taker.remainingQuantity)
    decreases |b.Resting(Opposite(taker.side))|, if taker.remainingQuantity > 0.0 then 1 else 0
  {
    var makers := b.Resting(Opposite(taker.side));
    if CanTrade(taker, makers) && makers[0].userId != taker.userId {
      var fill := FillOf(makers[0], taker);
      MatchKeepsStops(FillBest(b, taker), Reduced(taker, fill.quantity), fills + [fill]);
    }
  }

  lemma ExecuteKeepsStops(b: Book, o: Order)
    ensures Execute(b, o).book.stops == b.stops
  {
    hide Blocked, Finished, MatchLoop;
    MatchKeepsStops(Started(b), o.(sequence := b.nextSequence + 1), []);
    EndKeepsStops(Matched(b, o));
  }

  lemma SubmitKeepsStops(b: Book, o: Order)
    requires !IsStop(o.kind)
    ensures Submit(b, o).book.stops == b.stops
  {
    ExecuteKeepsStops(b, o);
  }

  lemma {:induction false} SubmitAllKeepsStops(b: Book, orders: seq<Order>)
    requires forall o :: o in orders ==> !IsStop(o.kind)
    ensures SubmitAll(b, orders).book.stops == b.stops
    decreases |orders|
  {
    if orders != [] {
      assert orders[0] in orders;
      SubmitKeepsStops(b, orders[0]);
      SubmitAllKeepsStops(Submit(b, orders[0]).book, orders[1..]);
    }
  }

  /** Firing consumes stops; a price that fires none makes no new price. */
  lemma TriggeringShrinks(b: Book, p: Decimal)
    ensures var t := TriggerStops(b, p);
            |t.book.stops| < |b.stops| || (t.book == b && t.reports == [])
  {
    var ready := Select(b.stops, p, true);
    SelectMembers(b.stops, p, true);
    SubmitAllKeepsStops(Disarmed(b, p), ActivateAll(ready));
    if ready == [] {
      SelectAll(b.stops, p);
      assert b.status - Ids(ready) == b.status;
    }
  }

  lemma {:induction false} SelectAll(stops: seq<Order>, p: Decimal)
    requires Select(stops, p, true) == []
    ensures Select(stops, p, false) == stops
  {
    if stops != [] {
      SelectAll(stops[1..], p);
    }
  }

  // ---------------------------------------------------------------- what a cascade leaves

  ghost predicate Armed(b: Book, p: Decimal) {
    exists o :: o in b.stops && Triggers(o, p)
  }

  /** Disarming the queue that remains, and the price just popped, disarms every price. */
  lemma QueueCovers(b: Book, prices: seq<Decimal>, made: seq<Fill>, later: seq<Fill>)
    requires prices != [] && !Armed(b, prices[|prices| - 1])
    requires forall p :: p in prices[..|prices| - 1] + FillPrices(made) ==> !Armed(b, p)
    requires forall f :: f in later ==> !Armed(b, f.price)
    ensures forall p :: p in prices ==> !Armed(b, p)
    ensures forall f :: f in made + later ==> !Armed(b, f.price)
  {
    var last := |prices| - 1;
    var queue := prices[..last] + FillPrices(made);
    forall i | 0 <= i < |prices| ensures !Armed(b, prices[i]) {
      assert i < last ==> queue[i] == prices[i];
    }
    forall i | 0 <= i < |made| ensures !Armed(b, made[i].price) {
      assert queue[last + i] == made[i].price;
    }
  }

  /** The cascade keeps the book sound and leaves no pending stop that any queued or newly
      traded price should have fired; pending stops are never invented. */
  lemma {:induction false} CascadeSettles(b: Book, prices: seq<Decimal>)
    requires Wf(b)
    ensures var c := RunCascade(b, prices);
            && Wf(c.book)
            && (forall o :: o in c.book.stops ==> o in b.stops)
            && (forall p :: p in prices ==> !Armed(c.book, p))
            && (forall f :: f in c.fills ==> !Armed(c.book, f.price))
            && c.book.LiveIds() <= b.LiveIds()
            && c.book.status.Keys <= b.status.Keys
    decreases |b.stops|, |prices|
  {
    if prices != [] {
      var last := |prices| - 1;
      var t := TriggerStops(b, prices[last]);
      var made := ReportFills(t.reports);
      TriggeringShrinks(b, prices[last]);
      TriggerStopsKeepsWf(b, prices[last]);
      var queue := prices[..last] + FillPrices(made);
      CascadeSettles(t.book, queue);
      var c := RunCascade(t.book, queue);
      QueueCovers(c.book, prices, made, c.fills);
    }
  }

  /** The cascade goes depth first: all that the later prices set off, through every stop fired
      on the way, happens before the earlier prices fire anything. */
  lemma {:induction false} CascadeIsDepthFirst(b: Book, earlier: seq<Decimal>, later: seq<Decimal>)
    ensures var first := RunCascade(b, later);
            var second := RunCascade(first.book, earlier);
            RunCascade(b, earlier + later) == Cascaded(second.book, first.fills + second.fills)
    decreases |b.stops|, |later|
  {
    hide TriggerStops, RunCascade;
    if later == [] {
      assert earlier + later == earlier;
      NothingQueued(b);
      assert [] + RunCascade(b, earlier).fills == RunCascade(b, earlier).fills;
    } else {
      var last := |later| - 1;
      var t := TriggerStops(b, later[last]);
      var made := ReportFills(t.reports);
      var queue := later[..last] + FillPrices(made);
      TriggeringShrinks(b, later[last]);
      CascadeIsDepthFirst(t.book, earlier, queue);
      PopsLast(b, later);
      PopsLast(b, earlier + later);
      assert (earlier + later)[..|earlier + later| - 1] + FillPrices(made) == earlier + queue;
      var first := RunCascade(t.book, queue);
      var second := RunCascade(first.book, earlier);
      assert made + (first.fills + second.fills) == (made + first.fills) + second.fills;
    }
  }

  lemma NothingQueued(b: Book)
    ensures RunCascade(b, []) == Cascaded(b, [])
  {
  }

  lemma PopsLast(b: Book, prices: seq<Decimal>)
    requires prices != []
    ensures var t := TriggerStops(b, prices[|prices| - 1]);
            var made := ReportFills(t.reports);
            var rest := RunCascade(t.book, prices[..|prices| - 1] + FillPrices(made));
            RunCascade(b, prices) == Cascaded(rest.book, made + rest.fills)
  {
    hide TriggerStops;
  }

  /** After an engine call no pending stop is left that a price traded in the call fires. */
  lemma SubmitAndCascadeSettles(b: Book, o: Order)
    requires Wf(b) && Unfilled(o)
    ensures var e := SubmitAndCascade(b, o);
            && Wf(e.book)
            && (forall f :: f in e.fills ==> !Armed(e.book, f.price))
            && e.book.LiveIds() <= b.LiveIds() + {o.orderId}
            && e.book.status.Keys <= b.status.Keys + {o.orderId}
  {
    SubmitKeepsWf(b, o);
    SubmitIntroducesOnly(b, o);
    var fills := Submit(b, o).report.fills;
    var prices := FillPrices(fills);
    CascadeSettles(Submit(b, o).book, prices);
    forall f | f in fills ensures f.price in prices {
      var i :| 0 <= i < |fills| && fills[i] == f;
      assert prices[i] == f.price;
    }
  }
}
