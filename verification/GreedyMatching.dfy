/** The match loop against its simplest description, a greedy matcher over one price-time
    list, and what that matcher guarantees: prefix consumption, prices, quantities, the
    exact amount it fills, and that no other allocation is cheaper. */
module GreedyMatching {
  import opened Domain
  import opened FlatBook
  import opened BookInvariant

  datatype GreedyResult = GreedyResult(fills: seq<Fill>, left: seq<Order>, remaining: Decimal, blocked: bool)

  /** Takes from the front of the list until the taker is done, priced out, or meets itself. */
  function Greedy(taker: Order, makers: seq<Order>): GreedyResult
    decreases |makers|
  {
    if !CanTrade(taker, makers) then GreedyResult([], makers, taker.remainingQuantity, false)
    else if makers[0].userId == taker.userId then GreedyResult([], makers, taker.remainingQuantity, true)
    else
      var fill := FillOf(makers[0], taker);
      if taker.remainingQuantity < makers[0].remainingQuantity then
        GreedyResult([fill], makers[0 := Reduced(makers[0], fill.quantity)], 0.0, false)
      else
        var rest := Greedy(Reduced(taker, fill.quantity), makers[1..]);
        GreedyResult([fill] + rest.fills, rest.left, rest.remaining, rest.blocked)
  }

  /** A run of the loop that made exactly a greedy match's fills: nothing else in the book
      moves but the status log, and the audit log gains the fills. */
  ghost predicate Refines(m: Matching, b: Book, taker: Order, fills: seq<Fill>, g: GreedyResult) {
    && m.fills == fills + g.fills
    && m.taker == taker.(remainingQuantity := g.remaining)
    && m.blocked == g.blocked
    && m.book.Resting(Opposite(taker.side)) == g.left
    && m.book.Resting(taker.side) == b.Resting(taker.side)
    && m.book.stops == b.stops
    && m.book.auditLog == b.auditLog + g.fills
    && m.book.nextSequence == b.nextSequence
  }

  /** The loop over the whole book computes the greedy match on the opposite side. */
  lemma {:induction false} MatchRefinesGreedy(b: Book, taker: Order, fills: seq<Fill>)
    ensures Refines(MatchLoop(b, taker, fills), b, taker, fills, Greedy(taker, b.Resting(Opposite(taker.side))))
    decreases |b.Resting(Opposite(taker.side))|, if taker.remainingQuantity > 0.0 then 1 else 0
  {
    var makers := b.Resting(Opposite(taker.side));
    if CanTrade(taker, makers) && makers[0].userId != taker.userId {
      var fill := FillOf(makers[0], taker);
      FillBestShape(b, taker);
      var next := FillBest(b, taker);
      var makers' := next.Resting(Opposite(taker.side));
      GreedyStep(taker, makers, makers');
      MatchRefinesGreedy(next, Reduced(taker, fill.quantity), fills + [fill]);
      RefinesStep(MatchLoop(b, taker, fills), b, taker, fills, fill, next, Greedy(Reduced(taker, fill.quantity), makers'));
    }
  }

  lemma GreedyStep(taker: Order, makers: seq<Order>, makers': seq<Order>)
    requires CanTrade(taker, makers) && makers[0].userId != taker.userId
    requires makers' == if taker.remainingQuantity < makers[0].remainingQuantity
                        then makers[0 := Reduced(makers[0], FillOf(makers[0], taker).quantity)] else makers[1..]
    ensures var fill := FillOf(makers[0], taker);
            var rest := Greedy(Reduced(taker, fill.quantity), makers');
            Greedy(taker, makers) == rest.(fills := [fill] + rest.fills)
  {
  }

  lemma RefinesStep(m: Matching, b: Book, taker: Order, fills: seq<Fill>, fill: Fill, next: Book, rest: GreedyResult)
    requires Refines(m, next, Reduced(taker, fill.quantity), fills + [fill], rest)
    requires next.Resting(taker.side) == b.Resting(taker.side)
    requires next.stops == b.stops && next.nextSequence == b.nextSequence
    requires next.auditLog == b.auditLog + [fill]
    ensures Refines(m, b, taker, fills, rest.(fills := [fill] + rest.fills))
  {
    assert (fills + [fill]) + rest.fills == fills + ([fill] + rest.fills);
    assert (b.auditLog + [fill]) + rest.fills == b.auditLog + ([fill] + rest.fills);
  }

  lemma FillBestShape(b: Book, taker: Order)
    requires b.Resting(Opposite(taker.side)) != []
    ensures var makers := b.Resting(Opposite(taker.side));
            var fill := FillOf(makers[0], taker);
            var next := FillBest(b, taker);
            && next.Resting(Opposite(taker.side)) == (
                 if taker.remainingQuantity < makers[0].remainingQuantity
                 then makers[0 := Reduced(makers[0], fill.quantity)] else makers[1..])
            && next.Resting(taker.side) == b.Resting(taker.side)
            && next.stops == b.stops && next.nextSequence == b.nextSequence
            && next.auditLog == b.auditLog + [fill]
  {
  }

  // ---------------------------------------------------------------- the shape of a match

  /** How much the taker can get before it is priced out or meets its own order. */
  function ReachableQuantity(taker: Order, makers: seq<Order>): Decimal {
    if makers == [] || !Crosses(taker, makers[0].LimitPrice()) || makers[0].userId == taker.userId then 0.0
    else makers[0].remainingQuantity + ReachableQuantity(taker, makers[1..])
  }

  ghost predicate AllPositive(makers: seq<Order>) {
    forall o :: o in makers ==> o.remainingQuantity > 0.0
  }

  lemma TailPositive(makers: seq<Order>)
    requires AllPositive(makers) && makers != []
    ensures AllPositive(makers[1..]) && makers[0].remainingQuantity > 0.0
  {
    assert makers[0] in makers;
    assert forall o :: o in makers[1..] ==> o in makers;
  }

  lemma {:induction false} ReachableDependsOnTerms(taker: Order, q: Decimal, makers: seq<Order>)
    ensures ReachableQuantity(Reduced(taker, q), makers) == ReachableQuantity(taker, makers)
    ensures CrossingQuantity(Reduced(taker, q), makers) == CrossingQuantity(taker, makers)
  {
    if makers != [] {
      ReachableDependsOnTerms(taker, q, makers[1..]);
    }
  }

  lemma {:induction false} ReachableBounds(taker: Order, makers: seq<Order>)
    requires AllPositive(makers)
    ensures 0.0 <= ReachableQuantity(taker, makers) <= CrossingQuantity(taker, makers)
  {
    if makers != [] {
      TailPositive(makers);
      ReachableBounds(taker, makers[1..]);
    }
  }

  /** A match fills exactly what it can reach or what it wants, whichever is less; what it
      fills leaves both the taker and the list; it stops short blocked, or priced out. */
  lemma {:induction false} GreedyFills(taker: Order, makers: seq<Order>)
    requires AllPositive(makers) && taker.remainingQuantity >= 0.0
    ensures var g := Greedy(taker, makers);
            && TotalQuantity(g.fills) == Min(taker.remainingQuantity, ReachableQuantity(taker, makers))
            && g.remaining == taker.remainingQuantity - TotalQuantity(g.fills)
            && TotalRemaining(g.left) == TotalRemaining(makers) - TotalQuantity(g.fills)
            && (g.blocked ==> g.left != [] && g.left[0].userId == taker.userId && g.remaining > 0.0)
            && (!g.blocked ==> g.remaining == 0.0 || g.left == [] || !Crosses(taker, g.left[0].LimitPrice()))
    decreases |makers|
  {
    if makers != [] {
      TailPositive(makers);
      ReachableBounds(taker, makers[1..]);
      var fill := FillOf(makers[0], taker);
      ReachableDependsOnTerms(taker, fill.quantity, makers[1..]);
      if CanTrade(taker, makers) && makers[0].userId != taker.userId {
        if taker.remainingQuantity < makers[0].remainingQuantity {
          assert makers[0 := Reduced(makers[0], fill.quantity)][1..] == makers[1..];
          assert TotalQuantity([fill]) == fill.quantity;
        } else {
          GreedyFills(Reduced(taker, fill.quantity), makers[1..]);
          var rest := Greedy(Reduced(taker, fill.quantity), makers[1..]);
          assert ([fill] + rest.fills)[1..] == rest.fills;
        }
      } else {
        ReachableBounds(taker, makers);
      }
    }
  }

  /** A fill takes from the maker it names, at that maker's price, within the taker's limit. */
  ghost predicate FillMatches(taker: Order, maker: Order, fill: Fill) {
    fill == Fill(maker.orderId, taker.orderId, maker.userId, taker.userId, maker.LimitPrice(), fill.quantity) &&
    0.0 < fill.quantity <= maker.remainingQuantity &&
    maker.userId != taker.userId && Crosses(taker, maker.LimitPrice())
  }

  /** A prefix of the makers is consumed whole, then at most one in part. */
  ghost predicate ConsumesPrefix(taker: Order, makers: seq<Order>, g: GreedyResult) {
    var n := |g.fills|;
    n <= |makers| &&
    (forall i :: 0 <= i < n ==> FillMatches(taker, makers[i], g.fills[i])) &&
    (forall i :: 0 <= i < n - 1 ==> g.fills[i].quantity == makers[i].remainingQuantity) &&
    if n > 0 && g.fills[n - 1].quantity < makers[n - 1].remainingQuantity then
      g.left == makers[n - 1..][0 := Reduced(makers[n - 1], g.fills[n - 1].quantity)] && g.remaining == 0.0
    else g.left == makers[n..]
  }

  lemma {:induction false} GreedyConsumesPrefix(taker: Order, makers: seq<Order>)
    requires AllPositive(makers) && taker.remainingQuantity >= 0.0
    ensures ConsumesPrefix(taker, makers, Greedy(taker, makers))
    decreases |makers|
  {
    if CanTrade(taker, makers) && makers[0].userId != taker.userId {
      TailPositive(makers);
      var fill := FillOf(makers[0], taker);
      if taker.remainingQuantity >= makers[0].remainingQuantity {
        var tail := makers[1..];
        GreedyConsumesPrefix(Reduced(taker, fill.quantity), tail);
        PrefixExtends(taker, makers, Greedy(Reduced(taker, fill.quantity), tail));
      }
    }
  }

  lemma PrefixExtends(taker: Order, makers: seq<Order>, rest: GreedyResult)
    requires makers != [] && makers[0].userId != taker.userId && Crosses(taker, makers[0].LimitPrice())
    requires 0.0 < makers[0].remainingQuantity <= taker.remainingQuantity
    requires ConsumesPrefix(Reduced(taker, makers[0].remainingQuantity), makers[1..], rest)
    ensures ConsumesPrefix(taker, makers, rest.(fills := [FillOf(makers[0], taker)] + rest.fills))
  {
    var tail := makers[1..];
    var n := |rest.fills|;
    var fills := [FillOf(makers[0], taker)] + rest.fills;
    forall i | 0 <= i <= n ensures FillMatches(taker, makers[i], fills[i]) {
      if i > 0 {
        assert FillMatches(Reduced(taker, makers[0].remainingQuantity), tail[i - 1], rest.fills[i - 1]);
      }
    }
    forall i | 0 <= i < n ensures fills[i].quantity == makers[i].remainingQuantity || i == n {
      assert i > 0 ==> fills[i] == rest.fills[i - 1] && makers[i] == tail[i - 1];
    }
    assert tail[n..] == makers[n + 1..];
    assert n > 0 ==> tail[n - 1..] == makers[n..];
  }

  /** Prices only get worse for the taker as a match proceeds. */
  lemma FillPricesMonotone(taker: Order, makers: seq<Order>, i: nat, j: nat)
    requires SideOk(makers, Opposite(taker.side)) && taker.remainingQuantity >= 0.0
    requires i < j < |Greedy(taker, makers).fills|
    ensures var fills := Greedy(taker, makers).fills;
            !Better(Opposite(taker.side), fills[j].price, fills[i].price)
  {
    assert AllPositive(makers);
    GreedyConsumesPrefix(taker, makers);
    var fills := Greedy(taker, makers).fills;
    assert FillMatches(taker, makers[i], fills[i]) && FillMatches(taker, makers[j], fills[j]);
    assert makers[i] in makers && Precedes(makers[i], makers[j]);
  }
}
