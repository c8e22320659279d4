/** Which stops fire, in prices alone: a buy stop once a trade is at its price or above, a sell
    stop once a trade is at its price or below, and nothing else. */
module StopPrices {
  import opened Domain
  import opened FlatBook
  import opened BookInvariant
  import opened CancelAndStops
  import opened Cascade
  import opened History

  /** A trade at p does not get to the stop's price: below it for a buy, above it for a sell. */
  ghost predicate OutOfReach(stop: Order, p: Decimal) {
    stop.stopPrice.Some? && if stop.side.Buy? then p < stop.stopPrice.value else p > stop.stopPrice.value
  }

  lemma TriggersByPrice(stop: Order, p: Decimal)
    requires stop.stopPrice.Some?
    ensures OutOfReach(stop, p) <==> !Triggers(stop, p)
  {
  }

  lemma StopsHavePrices(b: Book)
    requires Wf(b)
    ensures forall stop :: stop in b.stops ==> stop.stopPrice.Some?
  {
    assert forall stop :: stop in b.stops ==> StopOk(stop);
  }

  // ---------------------------------------------------------------- one price

  /** One id's stop arrived before the other's. */
  ghost predicate Before(x: Id, y: Id, stops: seq<Order>) {
    exists k, l :: 0 <= k < l < |stops| && stops[k].orderId == x && stops[l].orderId == y
  }

  lemma BeforeBehind(first: Order, rest: seq<Order>, x: Id, y: Id)
    requires Before(x, y, rest)
    ensures Before(x, y, [first] + rest)
  {
    var all := [first] + rest;
    var k, l :| 0 <= k < l < |rest| && rest[k].orderId == x && rest[l].orderId == y;
    assert all[k + 1] == rest[k] && all[l + 1] == rest[l];
  }

  lemma {:induction false} SelectedInOrder(stops: seq<Order>, p: Decimal, ready: bool, i: nat, j: nat)
    requires i < j < |Select(stops, p, ready)|
    ensures Before(Select(stops, p, ready)[i].orderId, Select(stops, p, ready)[j].orderId, stops)
    decreases stops
  {
    hide Before, Triggers, Select;
    var first, rest := SelectSplitsFirst(stops, p, ready);
    var selected := Select(rest, p, ready);
    if Triggers(first, p) != ready {
      SelectedInOrder(rest, p, ready, i, j);
      BeforeBehind(first, rest, selected[i].orderId, selected[j].orderId);
    } else if i > 0 {
      SelectedInOrder(rest, p, ready, i - 1, j - 1);
      BeforeBehind(first, rest, selected[i - 1].orderId, selected[j - 1].orderId);
    } else {
      SelectMembers(rest, p, ready);
      FirstIsBefore(first, rest, selected[j - 1]);
    }
  }

  lemma SelectSplitsFirst(stops: seq<Order>, p: Decimal, ready: bool) returns (first: Order, rest: seq<Order>)
    requires Select(stops, p, ready) != []
    ensures stops == [first] + rest && first == stops[0] && rest == stops[1..]
    ensures Select(stops, p, ready) == (if Triggers(first, p) == ready then [first] else []) + Select(rest, p, ready)
  {
    first, rest := stops[0], stops[1..];
  }

  lemma FirstIsBefore(first: Order, rest: seq<Order>, o: Order)
    requires o in rest
    ensures Before(first.orderId, o.orderId, [first] + rest)
  {
    var l :| 0 <= l < |rest| && rest[l] == o;
    var all := [first] + rest;
    assert all[0] == first && all[l + 1] == o;
  }

  /** A price fires a pending buy stop if and only if it is not below the stop's price, a sell
      stop if and only if it is not above. What fires is executed and answered, in order of
      arrival; what does not stays pending. */
  lemma FiresByPrice(b: Book, p: Decimal)
    requires Wf(b)
    ensures var t := TriggerStops(b, p);
            && (forall stop :: stop in b.stops ==> (stop in t.book.stops <==> OutOfReach(stop, p)))
            && (forall stop :: stop in t.book.stops ==> stop in b.stops)
    ensures forall stop :: stop in b.stops ==>
              (stop !in TriggerStops(b, p).book.stops <==> Answers(TriggerStops(b, p).reports, stop))
    ensures var reports := TriggerStops(b, p).reports;
            forall i, j :: 0 <= i < j < |reports| ==> Before(reports[i].orderId, reports[j].orderId, b.stops)
  {
    var fired := Select(b.stops, p, true);
    StopsHavePrices(b);
    TriggerStopsKeepsWf(b, p);
    SelectMembers(b.stops, p, true);
    SelectMembers(b.stops, p, false);
    hide TriggerStops, Wf;
    var t := TriggerStops(b, p);
    forall stop | stop in b.stops
      ensures stop in t.book.stops <==> OutOfReach(stop, p)
      ensures stop !in t.book.stops <==> Answers(t.reports, stop)
    {
      TriggersByPrice(stop, p);
      AnsweredIfFired(b, p, t.reports, stop);
    }
    forall i, j | 0 <= i < j < |t.reports| ensures Before(t.reports[i].orderId, t.reports[j].orderId, b.stops) {
      assert Executed(t.reports[i], fired[i]) && Executed(t.reports[j], fired[j]);
      SelectedInOrder(b.stops, p, true, i, j);
    }
  }

  /** A report of the stop's order that is not a refusal. */
  ghost predicate Answers(reports: seq<ExecutionReport>, stop: Order) {
    exists i :: 0 <= i < |reports| && Executed(reports[i], stop)
  }

  lemma AnsweredIfFired(b: Book, p: Decimal, reports: seq<ExecutionReport>, stop: Order)
    requires Wf(b) && stop in b.stops && |reports| == |Select(b.stops, p, true)|
    requires forall i :: 0 <= i < |reports| ==> Executed(reports[i], Select(b.stops, p, true)[i])
    ensures Triggers(stop, p) <==> Answers(reports, stop)
  {
    var fired := Select(b.stops, p, true);
    SelectMembers(b.stops, p, true);
    if Triggers(stop, p) {
      var i :| 0 <= i < |fired| && fired[i] == stop;
      assert Executed(reports[i], stop);
    }
    if Answers(reports, stop) {
      var i :| 0 <= i < |reports| && Executed(reports[i], stop);
      assert fired[i] in fired;
      SameIdSameOrder(b.stops, fired[i], stop);
    }
  }

  // ---------------------------------------------------------------- a whole call

  /** A stop that no price of a cascade reaches is still pending after it. */
  lemma {:induction false} UnreachedStays(b: Book, prices: seq<Decimal>, stop: Order)
    requires Wf(b) && stop in b.stops
    requires forall p :: p in prices ==> !Triggers(stop, p)
    requires forall f :: f in RunCascade(b, prices).fills ==> !Triggers(stop, f.price)
    ensures stop in RunCascade(b, prices).book.stops
    decreases |b.stops|, |prices|
  {
    hide Wf, TriggerStops, Triggers;
    if prices != [] {
      var last := |prices| - 1;
      var t := TriggerStops(b, prices[last]);
      var made := ReportFills(t.reports);
      var queue := prices[..last] + FillPrices(made);
      TriggeringShrinks(b, prices[last]);
      TriggerStopsKeepsWf(b, prices[last]);
      SelectMembers(b.stops, prices[last], false);
      var rest := RunCascade(t.book, queue);
      assert RunCascade(b, prices) == Cascaded(rest.book, made + rest.fills);
      forall p | p in queue ensures !Triggers(stop, p) {
        var i :| 0 <= i < |queue| && queue[i] == p;
        if i >= last {
          assert made[i - last] in made + rest.fills;
        }
      }
      UnreachedStays(t.book, queue, stop);
    }
  }

  ghost predicate Untouched(stop: Order, fills: seq<Fill>) {
    forall f :: f in fills ==> OutOfReach(stop, f.price)
  }

  lemma SubmitKeepsPending(b: Book, o: Order)
    requires Wf(b) && Unfilled(o)
    ensures forall stop :: stop in b.stops ==> stop in Submit(b, o).book.stops
  {
    if !IsStop(o.kind) {
      SubmitKeepsStops(b, o);
    }
  }

  /** A pending stop outlives an engine call if and only if every trade of the call, those of
      fired stops included, is below its price (a buy stop) or above it (a sell stop). Every
      stop pending after the call was pending before or is the order itself, and lies beyond
      every price traded. */
  lemma PendingExactly(b: Book, o: Order)
    requires Wf(b) && Unfilled(o)
    ensures var e := SubmitAndCascade(b, o);
            && (forall stop :: stop in b.stops ==> (stop in e.book.stops <==> Untouched(stop, e.fills)))
            && (forall stop :: stop in e.book.stops ==> Untouched(stop, e.fills) && (stop in b.stops || stop.orderId == o.orderId))
  {
    var e, s := SubmitAndCascade(b, o), Submit(b, o);
    var prices := FillPrices(s.report.fills);
    StopsHavePrices(b);
    SubmitKeepsWf(b, o);
    SubmitKeepsPending(b, o);
    StopsComeFrom(b, o);
    CascadeSettles(s.book, prices);
    SubmitAndCascadeSettles(b, o);
    StopsHavePrices(e.book);
    hide Submit, RunCascade, Wf;
    forall stop | stop in e.book.stops ensures Untouched(stop, e.fills) {
      forall f | f in e.fills ensures OutOfReach(stop, f.price) {
        TriggersByPrice(stop, f.price);
      }
    }
    forall stop | stop in b.stops && Untouched(stop, e.fills) ensures stop in e.book.stops {
      StillPending(s.book, s.report.fills, stop);
    }
  }

  lemma StillPending(b: Book, fills: seq<Fill>, stop: Order)
    requires Wf(b) && stop in b.stops
    requires Untouched(stop, fills + RunCascade(b, FillPrices(fills)).fills)
    ensures stop in RunCascade(b, FillPrices(fills)).book.stops
  {
    hide Wf, RunCascade, Triggers, OutOfReach;
    StopsHavePrices(b);
    var prices := FillPrices(fills);
    var all := fills + RunCascade(b, prices).fills;
    forall p | p in prices ensures !Triggers(stop, p) {
      var i :| 0 <= i < |prices| && prices[i] == p;
      assert all[i] in all;
      TriggersByPrice(stop, p);
    }
    forall f | f in RunCascade(b, prices).fills ensures !Triggers(stop, f.price) {
      assert f in all;
      TriggersByPrice(stop, f.price);
    }
    UnreachedStays(b, prices, stop);
  }
}
