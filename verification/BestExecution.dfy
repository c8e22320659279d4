/** Best execution: what a match fills cannot be had cheaper (for a buyer) or sold dearer
    (for a seller) from the orders that were resting. */
module BestExecution {
  import opened Domain
  import opened FlatBook
  import opened BookInvariant
  import opened GreedyMatching

  /** What a quantity at a price costs the taker; what a seller receives counts as negative. */
  function Outlay(side: Side, price: Decimal, quantity: Decimal): Decimal {
    if side.Buy? then price * quantity else -(price * quantity)
  }

  function OutlayOfFills(side: Side, fills: seq<Fill>): Decimal {
    if fills == [] then 0.0 else Outlay(side, fills[0].price, fills[0].quantity) + OutlayOfFills(side, fills[1..])
  }

  /** Any way to take quantities from the makers, one entry a maker, none beyond what rests. */
  ghost predicate Allocation(amounts: seq<Decimal>, makers: seq<Order>) {
    |amounts| == |makers| && forall i :: 0 <= i < |makers| ==> 0.0 <= amounts[i] <= makers[i].remainingQuantity
  }

  function Total(amounts: seq<Decimal>): Decimal {
    if amounts == [] then 0.0 else amounts[0] + Total(amounts[1..])
  }

  function OutlayOf(side: Side, amounts: seq<Decimal>, makers: seq<Order>): Decimal
    requires |amounts| == |makers|
  {
    if makers == [] then 0.0
    else Outlay(side, makers[0].LimitPrice(), amounts[0]) + OutlayOf(side, amounts[1..], makers[1..])
  }

  /** A price no better for the taker than p. */
  predicate AtLeast(side: Side, price: Decimal, p: Decimal) {
    if side.Buy? then price >= p else price <= p
  }

  lemma OutlayScales(side: Side, price: Decimal, x: Decimal, y: Decimal)
    ensures Outlay(side, price, x) - Outlay(side, price, y) == Outlay(side, price, x - y)
    ensures Outlay(side, price, x) + Outlay(side, price, y) == Outlay(side, price, x + y)
  {
    assert price * (x - y) == price * x - price * y;
    assert price * (x + y) == price * x + price * y;
  }

  lemma OutlayMonotone(side: Side, price: Decimal, p: Decimal, quantity: Decimal)
    requires AtLeast(side, price, p) && quantity >= 0.0
    ensures Outlay(side, price, quantity) >= Outlay(side, p, quantity)
  {
    if side.Buy? {
      assert (price - p) * quantity >= 0.0;
    } else {
      assert (p - price) * quantity >= 0.0;
    }
  }

  /** Where every price is at least p, any allocation costs at least its total at p. */
  lemma {:induction false} AllocationCostsAtLeast(side: Side, amounts: seq<Decimal>, makers: seq<Order>, p: Decimal)
    requires Allocation(amounts, makers)
    requires forall o :: o in makers ==> AtLeast(side, o.LimitPrice(), p)
    ensures OutlayOf(side, amounts, makers) >= Outlay(side, p, Total(amounts))
  {
    if makers != [] {
      assert makers[0] in makers && forall o :: o in makers[1..] ==> o in makers;
      AllocationCostsAtLeast(side, amounts[1..], makers[1..], p);
      OutlayMonotone(side, makers[0].LimitPrice(), p, amounts[0]);
      OutlayScales(side, p, amounts[0], Total(amounts[1..]));
    }
  }

  ghost predicate Ascending(side: Side, makers: seq<Order>) {
    forall i, j :: 0 <= i < j < |makers| ==> AtLeast(side, makers[j].LimitPrice(), makers[i].LimitPrice())
  }

  /** p separates what a match took from what it left: the price of the last fill, or, with
      no fill, any price at or before the best maker's. */
  ghost predicate Marginal(taker: Order, makers: seq<Order>, p: Decimal) {
    var fills := Greedy(taker, makers).fills;
    if fills == [] then forall o :: o in makers ==> AtLeast(taker.side, o.LimitPrice(), p)
    else fills[|fills| - 1].price == p
  }

  lemma TailAscending(side: Side, makers: seq<Order>)
    requires Ascending(side, makers) && makers != []
    ensures Ascending(side, makers[1..])
    ensures forall o :: o in makers[1..] ==> AtLeast(side, o.LimitPrice(), makers[0].LimitPrice())
  {
    forall o | o in makers[1..] ensures AtLeast(side, o.LimitPrice(), makers[0].LimitPrice()) {
      var i :| 0 <= i < |makers[1..]| && makers[1..][i] == o;
      assert makers[i + 1] == o;
    }
  }

  /** The marginal price of a match that consumes its best maker is no better than that maker's. */
  lemma MarginalIsLater(taker: Order, makers: seq<Order>, p: Decimal)
    requires AllPositive(makers) && taker.remainingQuantity >= 0.0 && Ascending(taker.side, makers)
    requires Marginal(taker, makers, p) && Greedy(taker, makers).fills != []
    ensures AtLeast(taker.side, p, makers[0].LimitPrice())
  {
    GreedyConsumesPrefix(taker, makers);
    var fills := Greedy(taker, makers).fills;
    var n := |fills|;
    assert FillMatches(taker, makers[n - 1], fills[n - 1]);
  }

  lemma MarginalOfRest(taker: Order, makers: seq<Order>, p: Decimal)
    requires AllPositive(makers) && Ascending(taker.side, makers)
    requires CanTrade(taker, makers) && makers[0].userId != taker.userId
    requires taker.remainingQuantity >= makers[0].remainingQuantity
    requires Marginal(taker, makers, p)
    ensures Marginal(Reduced(taker, makers[0].remainingQuantity), makers[1..], p)
  {
    TailAscending(taker.side, makers);
    TailPositive(makers);
    var rest := Greedy(Reduced(taker, makers[0].remainingQuantity), makers[1..]).fills;
    var fills := [FillOf(makers[0], taker)] + rest;
    assert Greedy(taker, makers).fills == fills;
    if rest != [] {
      assert fills[|fills| - 1] == rest[|rest| - 1];
    }
  }

  /** The exchange step: moving quantity towards the match never pays. */
  lemma {:induction false} Exchange(taker: Order, makers: seq<Order>, amounts: seq<Decimal>, p: Decimal)
    requires AllPositive(makers) && taker.remainingQuantity >= 0.0 && Ascending(taker.side, makers)
    requires Marginal(taker, makers, p) && Allocation(amounts, makers)
    ensures var fills := Greedy(taker, makers).fills;
            OutlayOf(taker.side, amounts, makers) - OutlayOfFills(taker.side, fills)
            >= Outlay(taker.side, p, Total(amounts) - TotalQuantity(fills))
    decreases |makers|
  {
    hide Outlay, AllPositive, Ascending, Marginal;
    if Greedy(taker, makers).fills == [] {
      NoFillsCostNothing(taker, makers, amounts, p);
    } else if taker.remainingQuantity < makers[0].remainingQuantity {
      PartOfFirst(taker, makers, amounts, p);
    } else {
      var fill := FillOf(makers[0], taker);
      var rest := Greedy(Reduced(taker, fill.quantity), makers[1..]).fills;
      TailPositive(makers);
      TailAscending(taker.side, makers);
      MarginalIsLater(taker, makers, p);
      MarginalOfRest(taker, makers, p);
      Exchange(Reduced(taker, fill.quantity), makers[1..], amounts[1..], p);
      FirstMakerPays(taker.side, makers[0].LimitPrice(), p, amounts[0], fill.quantity);
      OutlayScales(taker.side, p, amounts[0] - fill.quantity, Total(amounts[1..]) - TotalQuantity(rest));
      assert ([fill] + rest)[1..] == rest;
    }
  }

  lemma NoFillsCostNothing(taker: Order, makers: seq<Order>, amounts: seq<Decimal>, p: Decimal)
    requires Marginal(taker, makers, p) && Allocation(amounts, makers) && Greedy(taker, makers).fills == []
    ensures OutlayOf(taker.side, amounts, makers) >= Outlay(taker.side, p, Total(amounts))
  {
    hide Outlay;
    AllocationCostsAtLeast(taker.side, amounts, makers, p);
  }

  /** The match takes part of the first maker: whatever else an allocation takes is no cheaper. */
  lemma PartOfFirst(taker: Order, makers: seq<Order>, amounts: seq<Decimal>, p: Decimal)
    requires AllPositive(makers) && taker.remainingQuantity >= 0.0 && Ascending(taker.side, makers)
    requires Marginal(taker, makers, p) && Allocation(amounts, makers)
    requires Greedy(taker, makers).fills != [] && taker.remainingQuantity < makers[0].remainingQuantity
    ensures var fills := Greedy(taker, makers).fills;
            OutlayOf(taker.side, amounts, makers) - OutlayOfFills(taker.side, fills)
            >= Outlay(taker.side, p, Total(amounts) - TotalQuantity(fills))
  {
    hide Outlay, AllPositive, Ascending, OutlayOfFills, TotalQuantity;
    var fill := FillOf(makers[0], taker);
    TailAscending(taker.side, makers);
    assert Greedy(taker, makers).fills == [fill];
    assert fill.price == p;
    AllocationCostsAtLeast(taker.side, amounts[1..], makers[1..], p);
    OneFill(taker.side, fill);
    OutlayScales(taker.side, p, amounts[0], Total(amounts[1..]));
    OutlayScales(taker.side, p, Total(amounts), fill.quantity);
  }

  lemma OneFill(side: Side, fill: Fill)
    ensures OutlayOfFills(side, [fill]) == Outlay(side, fill.price, fill.quantity)
    ensures TotalQuantity([fill]) == fill.quantity
  {
    assert OutlayOfFills(side, []) == 0.0 && TotalQuantity([]) == 0.0;
  }

  /** Taking less than all of a maker priced before p saves less than p a unit. */
  lemma FirstMakerPays(side: Side, price: Decimal, p: Decimal, amount: Decimal, quantity: Decimal)
    requires AtLeast(side, p, price) && amount <= quantity
    ensures Outlay(side, price, amount) - Outlay(side, price, quantity) >= Outlay(side, p, amount - quantity)
  {
    OutlayScales(side, price, amount, quantity);
    if side.Buy? {
      assert (p - price) * (quantity - amount) >= 0.0;
    } else {
      assert (price - p) * (quantity - amount) >= 0.0;
    }
  }

  /** Whoever wanted the same quantity from the same resting orders could not do better. */
  lemma NoBetterAllocation(taker: Order, makers: seq<Order>, amounts: seq<Decimal>)
    requires SideOk(makers, Opposite(taker.side)) && taker.remainingQuantity >= 0.0
    requires Allocation(amounts, makers)
    requires Total(amounts) == TotalQuantity(Greedy(taker, makers).fills)
    ensures OutlayOfFills(taker.side, Greedy(taker, makers).fills) <= OutlayOf(taker.side, amounts, makers)
  {
    SideAscends(taker, makers);
    hide Outlay, SideOk, Allocation;
    var p := MarginalPrice(taker, makers);
    Exchange(taker, makers, amounts, p);
    NothingCostsNothing(taker.side, p);
  }

  lemma NothingCostsNothing(side: Side, p: Decimal)
    ensures Outlay(side, p, 0.0) == 0.0
  {
  }

  lemma SideAscends(taker: Order, makers: seq<Order>)
    requires SideOk(makers, Opposite(taker.side))
    ensures AllPositive(makers) && Ascending(taker.side, makers)
  {
    forall i, j | 0 <= i < j < |makers| ensures AtLeast(taker.side, makers[j].LimitPrice(), makers[i].LimitPrice()) {
      assert makers[i] in makers && Precedes(makers[i], makers[j]);
    }
  }

  /** Every match has a marginal price. */
  lemma MarginalPrice(taker: Order, makers: seq<Order>) returns (p: Decimal)
    requires Ascending(taker.side, makers)
    ensures Marginal(taker, makers, p)
  {
    var fills := Greedy(taker, makers).fills;
    p := if fills != [] then fills[|fills| - 1].price else if makers != [] then makers[0].LimitPrice() else 0.0;
    if makers != [] {
      TailAscending(taker.side, makers);
      assert forall o :: o in makers ==> o == makers[0] || o in makers[1..];
    }
  }

  // ---------------------------------------------------------------- who stands in the way

  /** None of the taker's own orders lies at a price it would trade at. */
  ghost predicate NoOwnCrossing(taker: Order, makers: seq<Order>) {
    forall o :: o in makers && Crosses(taker, o.LimitPrice()) ==> o.userId != taker.userId
  }

  lemma {:induction false} NothingInTheWay(taker: Order, makers: seq<Order>)
    requires NoOwnCrossing(taker, makers)
    ensures ReachableQuantity(taker, makers) == CrossingQuantity(taker, makers)
  {
    if makers != [] {
      assert makers[0] in makers && forall o :: o in makers[1..] ==> o in makers;
      NothingInTheWay(taker, makers[1..]);
    }
  }

  lemma {:induction false} NeverBlocked(taker: Order, makers: seq<Order>)
    requires NoOwnCrossing(taker, makers)
    ensures !Greedy(taker, makers).blocked
    decreases |makers|
  {
    if makers != [] {
      assert makers[0] in makers && forall o :: o in makers[1..] ==> o in makers;
      NeverBlocked(Reduced(taker, FillOf(makers[0], taker).quantity), makers[1..]);
    }
  }
}
