/** Where the engine promises less than it seems to, on concrete books: a fill-or-kill order
    that fills in part, and a fired stop that recovery brings back. The exact conditions are
    SubmitLaws.FillOrKillExactly and LostStops.RecoveryExactlyWhereNothingLost. */
module EngineLimits {
  import opened Domain
  import opened FlatBook
  import opened BookInvariant
  import opened GreedyMatching
  import opened SubmitLaws
  import opened Cascade
  import opened Symbols
  import opened Recovery

  // ---------------------------------------------------------------- fill or kill in part

  function Ask(id: Id, userId: Id, quantity: Decimal, sequence: nat): Order {
    Order(id, userId, Sell, Limit, Some(100.0), None, quantity, quantity, sequence)
  }

  /** Two strangers' asks with the user's own between them. */
  function MaskedBook(user: Id, other: Id): Book {
    Book([], [Ask("a", other, 1.0, 1), Ask("b", user, 1.0, 2), Ask("c", other, 1.0, 3)], [],
         map["a" := StatusEntry(New, 0.0), "b" := StatusEntry(New, 0.0), "c" := StatusEntry(New, 0.0)], [], 3)
  }

  function FokForTwo(user: Id): Order {
    Order("d", user, Buy, Fok, Some(100.0), None, 2.0, 2.0, 0)
  }

  lemma MaskedBookSound(user: Id, other: Id)
    ensures Wf(MaskedBook(user, other))
  {
    hide SideOk, StatusAgrees;
    MaskedAsksSound(user, other);
    MaskedStatusAgrees(user, other);
  }

  lemma MaskedAsksSound(user: Id, other: Id)
    ensures SideOk(MaskedBook(user, other).asks, Sell) && SideOk([], Buy)
  {
  }

  lemma MaskedStatusAgrees(user: Id, other: Id)
    ensures StatusAgrees(MaskedBook(user, other))
  {
    var b := MaskedBook(user, other);
    assert b.RestingIds() == {"a", "b", "c"};
  }

  lemma MaskedQuantities(user: Id, other: Id)
    requires user != other
    ensures CrossingQuantity(FokForTwo(user), MaskedBook(user, other).asks) == 2.0
    ensures ReachableQuantity(FokForTwo(user), MaskedBook(user, other).asks) == 1.0
  {
    var o, asks := FokForTwo(user), MaskedBook(user, other).asks;
    var two, one := [Ask("b", user, 1.0, 2), Ask("c", other, 1.0, 3)], [Ask("c", other, 1.0, 3)];
    assert asks[1..] == two && two[1..] == one && one[1..] == [];
    assert CrossingQuantity(o, one) == 1.0;
    assert CrossingQuantity(o, two) == 1.0;
    assert ReachableQuantity(o, two) == 0.0;
  }

  /** The pre-check finds two on offer from others; the loop fills one and meets the user's
      own order. The order neither fills nor leaves the book alone. */
  lemma FillOrKillFillsInPart(user: Id, other: Id)
    requires user != other
    ensures var b, o := MaskedBook(user, other), FokForTwo(user);
            && Wf(b) && Refusal(b, o).None? && !Killed(b, o)
            && !AllOrNothing(b, o) && Submit(b, o).report.reason == Some(SelfTrade)
            && TotalQuantity(Submit(b, o).report.fills) == 1.0
  {
    var b, o := MaskedBook(user, other), FokForTwo(user);
    MaskedBookSound(user, other);
    MaskedQuantities(user, other);
    assert b.RestingIds() == {"a", "b", "c"};
    FillOrKillExactly(b, o);
    SubmitFillsReachable(b, o);
  }

  // ---------------------------------------------------------------- a stop that fires twice

  function PendingStop(user: Id): Order {
    Order("s", user, Buy, StopMarket, None, Some(100.0), 1.0, 1.0, 2)
  }

  function ArmedBook(maker: Id, user: Id): Book {
    Book([], [Ask("a", maker, 1.0, 1)], [PendingStop(user)],
         map["a" := StatusEntry(New, 0.0), "s" := StatusEntry(OrderStatus.PendingStop, 0.0)], [], 2)
  }

  function BuyOne(buyer: Id): Order {
    Order("b", buyer, Buy, Limit, Some(100.0), None, 1.0, 1.0, 0)
  }

  lemma ArmedBookSound(maker: Id, user: Id)
    ensures Wf(ArmedBook(maker, user))
  {
    assert ArmedBook(maker, user).RestingIds() == {"a"};
  }

  lemma BuyOneFires(maker: Id, user: Id, buyer: Id)
    requires maker != buyer
    ensures Fires(ArmedBook(maker, user), BuyOne(buyer))
    ensures Submit(ArmedBook(maker, user), BuyOne(buyer)).book.stops == [PendingStop(user)]
  {
    var b, o := ArmedBook(maker, user), BuyOne(buyer);
    ArmedBookSound(maker, user);
    assert b.RestingIds() == {"a"};
    SubmitIsGreedy(b, o);
    assert Greedy(o, b.asks).fills == [FillOf(b.asks[0], o)];
    var f := FillOf(b.asks[0], o);
    assert f in Submit(b, o).report.fills && PendingStop(user) in Submit(b, o).book.stops;
  }

  lemma EmptyOrMember(orders: seq<Order>)
    ensures orders == [] || exists o :: o in orders
  {
    if orders != [] {
      assert orders[0] in orders;
    }
  }

  lemma BuyOneLeavesNoStop(maker: Id, user: Id, buyer: Id)
    requires maker != buyer
    ensures SubmitAndCascade(ArmedBook(maker, user), BuyOne(buyer)).book.stops == []
  {
    hide Wf, Submit, RunCascade;
    var b, o := ArmedBook(maker, user), BuyOne(buyer);
    ArmedBookSound(maker, user);
    BuyOneFires(maker, user, buyer);
    var s := Submit(b, o);
    SubmitKeepsWf(b, o);
    CascadeSettles(s.book, FillPrices(s.report.fills));
    var f :| f in s.report.fills && Armed(s.book, f.price);
    SubmitAndCascadeSettles(b, o);
    var after := SubmitAndCascade(b, o).book;
    assert forall stop :: stop in after.stops ==> stop == PendingStop(user);
    EmptyOrMember(after.stops);
  }

  /** An engine restarted from a snapshot of that book, before its next one: after the trade
      the live book has fired the stop, and a recovery would have it pending again. */
  lemma FiredStopComesBack(maker: Id, user: Id, buyer: Id, symbol: Symbol, interval: nat)
    requires maker != buyer && Normalize(symbol) == symbol
    requires interval > |SubmitAndCascade(ArmedBook(maker, user), BuyOne(buyer)).fills|
    ensures var books := map[symbol := ArmedBook(maker, user)];
            var e := Engine(books, Disk(Some(books), []), 0, interval);
            var after := Take(e, SubmitStep(symbol, BuyOne(buyer)));
            && EngineSound(e) && InSync(e) && !InSync(after)
            && after.books[symbol].stops == []
            && symbol in Recover(after.disk) && Recover(after.disk)[symbol].stops == [PendingStop(user)]
  {
    var b, o := ArmedBook(maker, user), BuyOne(buyer);
    var books := map[symbol := b];
    var e := Engine(books, Disk(Some(books), []), 0, interval);
    var step := SubmitStep(symbol, o);
    ArmedBookSound(maker, user);
    BuyOneFires(maker, user, buyer);
    StepInSync(e, step);
    LoggedRecovers(e, SubmitRecordOf(symbol, o));
    BuyOneLeavesNoStop(maker, user, buyer);
  }
}
