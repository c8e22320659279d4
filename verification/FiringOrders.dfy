/** Which orders fire stops, read off the book before the call: the condition under which
    recovery is exact, in terms a caller can check. */
module FiringOrders {
  import opened Domain
  import opened FlatBook
  import opened BookInvariant
  import opened GreedyMatching
  import opened SubmitLaws
  import opened Cascade
  import opened Recovery

  /** The match gets as far as the i-th maker: all before it together are less than the order
      wants, and up to it every maker is someone else's at a price it takes. */
  ghost predicate Reaches(o: Order, makers: seq<Order>, i: nat) {
    i < |makers| && TotalRemaining(makers[..i]) < o.remainingQuantity &&
    forall j :: 0 <= j <= i ==> makers[j].userId != o.userId && Crosses(o, makers[j].LimitPrice())
  }

  lemma {:induction false} GreedyReaches(o: Order, makers: seq<Order>, i: nat)
    requires AllPositive(makers) && o.remainingQuantity >= 0.0
    ensures i < |Greedy(o, makers).fills| <==> Reaches(o, makers, i)
    ensures i < |Greedy(o, makers).fills| ==> Greedy(o, makers).fills[i].price == makers[i].LimitPrice()
    decreases |makers|
  {
    if makers != [] {
      TailPositive(makers);
      FirstReached(o, makers, i);
      if CanTrade(o, makers) && makers[0].userId != o.userId && o.remainingQuantity >= makers[0].remainingQuantity && i > 0 {
        var q := FillOf(makers[0], o).quantity;
        GreedyReaches(Reduced(o, q), makers[1..], i - 1);
        ReachesBehind(o, makers, i);
      }
    }
  }

  lemma FirstReached(o: Order, makers: seq<Order>, i: nat)
    requires AllPositive(makers) && makers != []
    ensures Reaches(o, makers, 0) <==> CanTrade(o, makers) && makers[0].userId != o.userId
    ensures Reaches(o, makers, i) ==> Reaches(o, makers, 0)
    ensures Reaches(o, makers, i) && i > 0 ==> makers[0].remainingQuantity < o.remainingQuantity
  {
    if i < |makers| && i > 0 {
      assert makers[..i] == [makers[0]] + makers[1..i];
      assert makers[..i][1..] == makers[1..i];
      assert forall o :: o in makers[1..i] ==> o in makers;
      TotalPositive(makers[1..i]);
    }
  }

  lemma {:induction false} TotalPositive(makers: seq<Order>)
    requires AllPositive(makers)
    ensures TotalRemaining(makers) >= 0.0
  {
    if makers != [] {
      TailPositive(makers);
      TotalPositive(makers[1..]);
    }
  }

  /** Behind a maker taken whole. */
  lemma ReachesBehind(o: Order, makers: seq<Order>, i: nat)
    requires makers != [] && i > 0 && makers[0].userId != o.userId && Crosses(o, makers[0].LimitPrice())
    ensures Reaches(o, makers, i) <==> Reaches(Reduced(o, makers[0].remainingQuantity), makers[1..], i - 1)
  {
    var rest := makers[1..];
    if i < |makers| {
      assert makers[..i][1..] == rest[..i - 1];
      assert forall j :: 0 <= j < i ==> rest[j] == makers[j + 1];
      assert forall j :: 0 < j <= i ==> makers[j] == rest[j - 1];
    }
  }

  /** The order reaches a maker at whose price a pending stop fires. */
  ghost predicate ReachesStop(b: Book, o: Order, i: nat) {
    Reaches(o, Makers(b, o), i) && Armed(b, Makers(b, o)[i].LimitPrice())
  }

  lemma FillsFire(b: Book, o: Order, makers: seq<Order>, fills: seq<Fill>)
    requires makers == Makers(b, o) && fills == Greedy(o, makers).fills
    requires AllPositive(makers) && o.remainingQuantity >= 0.0
    ensures (exists f :: f in fills && Armed(b, f.price)) <==> exists i: nat :: ReachesStop(b, o, i)
  {
    if f :| f in fills && Armed(b, f.price) {
      var i :| 0 <= i < |fills| && fills[i] == f;
      GreedyReaches(o, makers, i);
      assert ReachesStop(b, o, i);
    }
    if i: nat :| ReachesStop(b, o, i) {
      GreedyReaches(o, makers, i);
      assert fills[i] in fills && Armed(b, fills[i].price);
    }
  }

  /** An order fires a stop if and only if it is executed and reaches such a maker. */
  lemma FiresExactly(b: Book, o: Order)
    requires Wf(b) && Unfilled(o)
    ensures Fires(b, o) <==> Executes(b, o) && exists i: nat :: ReachesStop(b, o, i)
  {
    var s := Submit(b, o);
    if Executes(b, o) {
      assert AllPositive(Makers(b, o));
      SubmitIsGreedy(b, o);
      FillsFire(b, o, Makers(b, o), s.report.fills);
      assert forall p :: Armed(s.book, p) <==> Armed(b, p);
    } else {
      assert s.report.fills == [];
    }
  }
}
