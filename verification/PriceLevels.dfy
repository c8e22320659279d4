/** Price-sorted maps of FIFO levels, as the engine keeps them, and their flat view: the
    one list of orders met when walking the levels from the best price on. */
module PriceLevels {
  import opened Domain
  import opened FlatBook
  import opened BookInvariant
  import opened CancelAndStops

  /** The queue at one price, with its cached total. */
  datatype PriceLevel = PriceLevel(price: Decimal, orders: seq<Order>, totalQuantity: Decimal)

  type Levels = map<Decimal, PriceLevel>

  ghost predicate LevelOk(price: Decimal, level: PriceLevel) {
    level.price == price && level.orders != [] &&
    (forall o :: o in level.orders ==> o.price == Some(price)) &&
    level.totalQuantity == TotalRemaining(level.orders)
  }

  ghost predicate LevelsOk(levels: Levels) {
    forall p :: p in levels ==> LevelOk(p, levels[p])
  }

  lemma {:induction false} BestExists(prices: set<Decimal>, side: Side)
    requires prices != {}
    ensures exists p: Decimal :: p in prices && forall q: Decimal :: q in prices ==> !Better(side, q, p)
  {
    assert (forall p :: p !in prices) ==> prices == {};
    var p :| p in prices;
    if prices != {p} {
      var others := prices - {p};
      assert others == {} ==> prices == {p};
      BestExists(others, side);
      var r :| r in others && forall q :: q in others ==> !Better(side, q, r);
      var best := if Better(side, p, r) then p else r;
      forall q | q in prices ensures !Better(side, q, best) {
        assert q == p || q in others;
      }
      assert best in prices && forall q :: q in prices ==> !Better(side, q, best);
    } else {
      assert p in prices && forall q :: q in prices ==> !Better(side, q, p);
    }
  }

  /** The first key of the side's map in matching order: highest bid, lowest ask. */
  function Best(prices: set<Decimal>, side: Side): (p: Decimal)
    requires prices != {}
    ensures p in prices && forall q :: q in prices && q != p ==> Better(side, p, q)
  {
    BestExists(prices, side);
    var p: Decimal :| p in prices && forall q: Decimal :: q in prices ==> !Better(side, q, p);
    p
  }

  function Flatten(levels: Levels, side: Side): seq<Order>
    decreases |levels|
  {
    if levels == map[] then []
    else
      var best := Best(levels.Keys, side);
      levels[best].orders + Flatten(levels - {best}, side)
  }

  /** The best level first, then all the others. */
  lemma LevelsSplit(levels: Levels, side: Side)
    requires levels != map[]
    ensures var best := Best(levels.Keys, side);
            var others := levels - {best};
            && best in levels && |others| < |levels| && others.Keys == levels.Keys - {best}
            && Flatten(levels, side) == levels[best].orders + Flatten(others, side)
            && (forall q :: q in others ==> others[q] == levels[q])
            && (LevelsOk(levels) ==> LevelsOk(others) && LevelOk(best, levels[best]))
  {
  }

  lemma {:induction false} FlattenMembers(levels: Levels, side: Side)
    ensures forall p, o :: p in levels && o in levels[p].orders ==> o in Flatten(levels, side)
    ensures forall o :: o in Flatten(levels, side) ==> exists p :: p in levels && o in levels[p].orders
    decreases |levels|
  {
    if levels != map[] {
      var best := Best(levels.Keys, side);
      var others := levels - {best};
      FlattenMembers(others, side);
      var front, back := levels[best].orders, Flatten(others, side);
      assert Flatten(levels, side) == front + back;
      forall p, o | p in levels && o in levels[p].orders ensures o in front + back {
        if p != best {
          assert p in others && others[p] == levels[p];
          assert o in back;
        }
      }
      forall o | o in front + back ensures exists p :: p in levels && o in levels[p].orders {
        if o in front {
          assert best in levels && o in levels[best].orders;
        } else {
          assert o in back;
          var p :| p in others && o in others[p].orders;
          assert p in levels && o in levels[p].orders;
        }
      }
    }
  }

  /** Resting orders beyond the best level are strictly worse than its price. */
  lemma WorseBeyondBest(levels: Levels, side: Side)
    requires LevelsOk(levels) && levels != map[]
    ensures var best := Best(levels.Keys, side);
            forall o :: o in Flatten(levels - {best}, side) ==> o.price.Some? && Better(side, best, o.LimitPrice())
  {
    var best := Best(levels.Keys, side);
    var others := levels - {best};
    FlattenMembers(others, side);
    forall o | o in Flatten(others, side) ensures o.price.Some? && Better(side, best, o.LimitPrice()) {
      var p :| p in others && o in others[p].orders;
      assert LevelOk(p, levels[p]);
    }
  }

  /** Changing the best level changes the front of the flat view. */
  lemma ReplaceBest(levels: Levels, side: Side, level: PriceLevel)
    requires levels != map[]
    ensures var best := Best(levels.Keys, side);
            Flatten(levels[best := level], side) == level.orders + Flatten(levels - {best}, side)
  {
    var best := Best(levels.Keys, side);
    assert levels[best := level].Keys == levels.Keys;
    assert levels[best := level] - {best} == levels - {best};
  }

  /** The level at a price with one more order at its end; a new level when there is none. */
  function Pushed(levels: Levels, o: Order): Levels {
    var p := o.LimitPrice();
    if p in levels then
      levels[p := PriceLevel(p, levels[p].orders + [o], levels[p].totalQuantity + o.remainingQuantity)]
    else levels[p := PriceLevel(p, [o], o.remainingQuantity)]
  }

  lemma {:induction false} InsertSkips(front: seq<Order>, orders: seq<Order>, o: Order)
    requires forall x :: x in front ==> !Better(o.side, o.LimitPrice(), x.LimitPrice())
    ensures Insert(front + orders, o) == front + Insert(orders, o)
  {
    if front == [] {
      assert front + orders == orders;
    } else {
      assert front[0] in front && forall x :: x in front[1..] ==> x in front;
      assert (front + orders)[1..] == front[1..] + orders;
      InsertSkips(front[1..], orders, o);
    }
  }

  lemma InsertFirst(orders: seq<Order>, o: Order)
    requires forall x :: x in orders ==> Better(o.side, o.LimitPrice(), x.LimitPrice())
    ensures Insert(orders, o) == [o] + orders
  {
    if orders != [] {
      assert orders[0] in orders;
    }
  }

  lemma AllAt(level: PriceLevel, price: Decimal)
    requires LevelOk(price, level)
    ensures forall x :: x in level.orders ==> x.LimitPrice() == price
  {
  }

  /** Queueing an order at its level is inserting it into the flat list by price and time. */
  lemma {:induction false} PushRefinesInsert(levels: Levels, o: Order)
    requires LevelsOk(levels) && o.price.Some?
    ensures Flatten(Pushed(levels, o), o.side) == Insert(Flatten(levels, o.side), o)
    decreases |levels|
  {
    var p := o.LimitPrice();
    if levels == map[] {
      PushIntoEmpty(o);
    } else {
      var best := Best(levels.Keys, o.side);
      var others := levels - {best};
      WorseBeyondBest(levels, o.side);
      AllAt(levels[best], best);
      if p == best {
        PushAtBest(levels, o);
      } else if Better(o.side, p, best) {
        PushBeforeBest(levels, o);
      } else {
        assert LevelsOk(others) && |others| < |levels|;
        PushRefinesInsert(others, o);
        PushBeyondBest(levels, o);
        InsertSkips(levels[best].orders, Flatten(others, o.side), o);
      }
    }
  }

  lemma PushIntoEmpty(o: Order)
    ensures Flatten(Pushed(map[], o), o.side) == [o]
  {
    var p := o.LimitPrice();
    var m := Pushed(map[], o);
    assert m.Keys == {p};
    assert m - {p} == map[];
    assert Flatten(m - {p}, o.side) == [];
  }

  lemma PushAtBest(levels: Levels, o: Order)
    requires LevelsOk(levels) && levels != map[] && o.LimitPrice() == Best(levels.Keys, o.side)
    ensures Flatten(Pushed(levels, o), o.side) == Insert(Flatten(levels, o.side), o)
  {
    var best := o.LimitPrice();
    var back := Flatten(levels - {best}, o.side);
    ReplaceBest(levels, o.side, Pushed(levels, o)[best]);
    WorseBeyondBest(levels, o.side);
    AllAt(levels[best], best);
    InsertBetween(levels[best].orders, back, o);
  }

  lemma InsertBetween(front: seq<Order>, back: seq<Order>, o: Order)
    requires forall x :: x in front ==> x.LimitPrice() == o.LimitPrice()
    requires forall x :: x in back ==> Better(o.side, o.LimitPrice(), x.LimitPrice())
    ensures Insert(front + back, o) == (front + [o]) + back
  {
    InsertSkips(front, back, o);
    InsertFirst(back, o);
    assert front + ([o] + back) == (front + [o]) + back;
  }

  lemma PushBeforeBest(levels: Levels, o: Order)
    requires LevelsOk(levels) && levels != map[] && o.price.Some?
    requires Better(o.side, o.LimitPrice(), Best(levels.Keys, o.side))
    ensures Flatten(Pushed(levels, o), o.side) == Insert(Flatten(levels, o.side), o)
  {
    var p := o.LimitPrice();
    var best := Best(levels.Keys, o.side);
    assert p !in levels;
    var m := Pushed(levels, o);
    assert m.Keys == levels.Keys + {p};
    assert Best(m.Keys, o.side) == p;
    assert m - {p} == levels;
    WorseBeyondBest(levels, o.side);
    AllAt(levels[best], best);
    InsertFirst(Flatten(levels, o.side), o);
  }

  lemma PushBeyondBest(levels: Levels, o: Order)
    requires levels != map[] && Better(o.side, Best(levels.Keys, o.side), o.LimitPrice())
    ensures var best := Best(levels.Keys, o.side);
            Flatten(Pushed(levels, o), o.side) == levels[best].orders + Flatten(Pushed(levels - {best}, o), o.side)
  {
    var p := o.LimitPrice();
    var best := Best(levels.Keys, o.side);
    var m := Pushed(levels, o);
    assert m.Keys == levels.Keys + {p};
    assert Best(m.Keys, o.side) == best;
    assert m - {best} == Pushed(levels - {best}, o);
  }

  lemma PushKeepsLevels(levels: Levels, o: Order)
    requires LevelsOk(levels) && o.price.Some?
    ensures LevelsOk(Pushed(levels, o))
  {
    var p := o.LimitPrice();
    if p in levels {
      TotalRemainingAppend(levels[p].orders, [o]);
      assert LevelOk(p, levels[p]);
    }
    assert TotalRemaining([o]) == o.remainingQuantity;
  }

  // ---------------------------------------------------------------- taking an order out

  /** The level without its k-th order; no level when that was the last one. */
  function Removed(levels: Levels, p: Decimal, k: nat): Levels
    requires p in levels && k < |levels[p].orders|
  {
    var level := levels[p];
    var rest := PriceLevel(p, Without(level.orders, k), level.totalQuantity - level.orders[k].remainingQuantity);
    if rest.orders == [] then levels - {p} else levels[p := rest]
  }

  lemma {:induction false} TotalWithout(orders: seq<Order>, k: nat)
    requires k < |orders|
    ensures TotalRemaining(Without(orders, k)) == TotalRemaining(orders) - orders[k].remainingQuantity
  {
    TotalRemainingAppend(orders[..k], orders[k + 1..]);
    TotalRemainingAppend(orders[..k], orders[k..]);
    assert orders == orders[..k] + orders[k..];
    assert orders[k..][1..] == orders[k + 1..];
  }

  lemma RemoveKeepsLevels(levels: Levels, p: Decimal, k: nat)
    requires LevelsOk(levels) && p in levels && k < |levels[p].orders|
    ensures LevelsOk(Removed(levels, p, k))
  {
    assert LevelOk(p, levels[p]);
    TotalWithout(levels[p].orders, k);
    assert forall o :: o in Without(levels[p].orders, k) ==> o in levels[p].orders;
  }

  lemma {:induction false} PositionInFront(front: seq<Order>, back: seq<Order>, orderId: Id, userId: Id)
    requires Owns(front, orderId, userId)
    ensures Position(front + back, orderId, userId) == Position(front, orderId, userId)
  {
    if !(front[0].orderId == orderId && front[0].userId == userId) {
      assert (front + back)[1..] == front[1..] + back;
      PositionInFront(front[1..], back, orderId, userId);
    }
  }

  lemma {:induction false} PositionInBack(front: seq<Order>, back: seq<Order>, orderId: Id, userId: Id)
    requires !Owns(front, orderId, userId)
    ensures Position(front + back, orderId, userId) == |front| + Position(back, orderId, userId)
  {
    if front == [] {
      assert front + back == back;
    } else {
      assert (front + back)[1..] == front[1..] + back;
      PositionInBack(front[1..], back, orderId, userId);
    }
  }

  /** Removing from a level is removing from the flat list. */
  lemma {:induction false} RemoveRefinesWithout(levels: Levels, side: Side, p: Decimal, orderId: Id, userId: Id)
    requires LevelsOk(levels) && p in levels && Owns(levels[p].orders, orderId, userId)
    requires forall q :: q in levels && q != p ==> !Owns(levels[q].orders, orderId, userId)
    ensures var flat := Flatten(levels, side);
            var k := Position(levels[p].orders, orderId, userId);
            && Owns(flat, orderId, userId)
            && flat[Position(flat, orderId, userId)] == levels[p].orders[k]
            && Flatten(Removed(levels, p, k), side) == Without(flat, Position(flat, orderId, userId))
    decreases |levels|
  {
    hide Best, Flatten, Removed, LevelsOk, Position, Without;
    var best := Best(levels.Keys, side);
    if p == best {
      RemoveFromBest(levels, side, orderId, userId);
    } else {
      var front, others := levels[best].orders, levels - {best};
      LevelsSplit(levels, side);
      RemoveBeyondBest(levels, side, p, Position(levels[p].orders, orderId, userId));
      RemoveRefinesWithout(others, side, p, orderId, userId);
      WithoutBehind(front, Flatten(others, side), orderId, userId);
    }
  }

  lemma WithoutBehind(front: seq<Order>, back: seq<Order>, orderId: Id, userId: Id)
    requires !Owns(front, orderId, userId) && Owns(back, orderId, userId)
    ensures var j := Position(back, orderId, userId);
            && Position(front + back, orderId, userId) == |front| + j < |front + back|
            && (front + back)[|front| + j] == back[j]
            && Without(front + back, |front| + j) == front + Without(back, j)
  {
    PositionInBack(front, back, orderId, userId);
    WithoutBack(front, back, Position(back, orderId, userId));
  }

  lemma WithoutBack(front: seq<Order>, back: seq<Order>, j: nat)
    requires j < |back|
    ensures Without(front + back, |front| + j) == front + Without(back, j)
    ensures (front + back)[|front| + j] == back[j]
  {
  }

  lemma WithoutFront(front: seq<Order>, back: seq<Order>, k: nat)
    requires k < |front|
    ensures Without(front + back, k) == Without(front, k) + back
  {
  }

  lemma RemoveFromBest(levels: Levels, side: Side, orderId: Id, userId: Id)
    requires levels != map[] && Owns(levels[Best(levels.Keys, side)].orders, orderId, userId)
    ensures var best := Best(levels.Keys, side);
            var flat := Flatten(levels, side);
            var k := Position(levels[best].orders, orderId, userId);
            && Position(flat, orderId, userId) == k < |flat|
            && flat[k] == levels[best].orders[k]
            && Flatten(Removed(levels, best, k), side) == Without(flat, k)
  {
    var best := Best(levels.Keys, side);
    var front, back := levels[best].orders, Flatten(levels - {best}, side);
    var k := Position(front, orderId, userId);
    PositionInFront(front, back, orderId, userId);
    WithoutFront(front, back, k);
    if Without(front, k) != [] {
      ReplaceBest(levels, side, Removed(levels, best, k)[best]);
    } else {
      assert Without(front, k) + back == back;
    }
  }

  lemma RemoveBeyondBest(levels: Levels, side: Side, p: Decimal, k: nat)
    requires p in levels && k < |levels[p].orders| && p != Best(levels.Keys, side)
    ensures var best := Best(levels.Keys, side);
            Flatten(Removed(levels, p, k), side) == levels[best].orders + Flatten(Removed(levels - {best}, p, k), side)
  {
    var best := Best(levels.Keys, side);
    var m := Removed(levels, p, k);
    assert best in m && m.Keys <= levels.Keys;
    assert Best(m.Keys, side) == best;
    assert m - {best} == Removed(levels - {best}, p, k);
  }

  lemma LevelHolds(levels: Levels, side: Side, o: Order)
    requires LevelsOk(levels) && o in Flatten(levels, side)
    ensures o.LimitPrice() in levels && o in levels[o.LimitPrice()].orders
  {
    FlattenMembers(levels, side);
    var p :| p in levels && o in levels[p].orders;
    assert LevelOk(p, levels[p]);
  }

  /** With distinct ids, an order's id is at one level only. */
  lemma HeldOnce(levels: Levels, side: Side, o: Order, userId: Id)
    requires LevelsOk(levels) && DistinctIds(Flatten(levels, side)) && o in Flatten(levels, side)
    ensures forall q :: q in levels && q != o.LimitPrice() ==> !Owns(levels[q].orders, o.orderId, userId)
  {
    forall q | q in levels && q != o.LimitPrice() ensures !Owns(levels[q].orders, o.orderId, userId) {
      forall x | x in levels[q].orders ensures x.orderId != o.orderId {
        FlattenMembers(levels, side);
        assert LevelOk(q, levels[q]);
        if x.orderId == o.orderId {
          SameIdSameOrder(Flatten(levels, side), x, o);
        }
      }
      NotOwned(levels[q].orders, o.orderId, userId);
    }
  }

  // ---------------------------------------------------------------- filling the best order

  /** The level at a price without its front order. */
  function Popped(levels: Levels, p: Decimal): Levels
    requires p in levels && levels[p].orders != []
  {
    var level := levels[p];
    var rest := PriceLevel(p, level.orders[1..], level.totalQuantity - level.orders[0].remainingQuantity);
    if rest.orders == [] then levels - {p} else levels[p := rest]
  }

  /** The level at a price with its front order reduced. */
  function FrontReduced(levels: Levels, p: Decimal, quantity: Decimal): Levels
    requires p in levels && levels[p].orders != []
  {
    var level := levels[p];
    levels[p := PriceLevel(p, level.orders[0 := Reduced(level.orders[0], quantity)], level.totalQuantity - quantity)]
  }

  lemma SliceFront(front: seq<Order>, back: seq<Order>, o: Order)
    requires front != []
    ensures (front + back)[1..] == front[1..] + back
    ensures front[1..] == [] ==> (front + back)[1..] == back
    ensures (front + back)[0 := o] == front[0 := o] + back
  {
  }

  lemma PoppedOk(levels: Levels, side: Side)
    requires LevelsOk(levels) && levels != map[]
    ensures var best := Best(levels.Keys, side);
            && levels[best].orders != []
            && LevelsOk(Popped(levels, best))
            && Flatten(Popped(levels, best), side) == Flatten(levels, side)[1..]
  {
    var best := Best(levels.Keys, side);
    var level := levels[best];
    assert LevelOk(best, level);
    PoppedLevelsOk(levels, best);
    SliceFront(level.orders, Flatten(levels - {best}, side), level.orders[0]);
    if level.orders[1..] != [] {
      ReplaceBest(levels, side, Popped(levels, best)[best]);
    }
  }

  lemma PoppedLevelsOk(levels: Levels, p: Decimal)
    requires LevelsOk(levels) && p in levels && levels[p].orders != []
    ensures LevelsOk(Popped(levels, p))
  {
    assert LevelOk(p, levels[p]);
    assert forall o :: o in levels[p].orders[1..] ==> o in levels[p].orders;
  }

  lemma FrontReducedOk(levels: Levels, side: Side, quantity: Decimal)
    requires LevelsOk(levels) && levels != map[]
    ensures var best := Best(levels.Keys, side);
            var flat := Flatten(levels, side);
            && levels[best].orders != []
            && LevelsOk(FrontReduced(levels, best, quantity))
            && flat != []
            && Flatten(FrontReduced(levels, best, quantity), side) == flat[0 := Reduced(flat[0], quantity)]
  {
    var best := Best(levels.Keys, side);
    var level := levels[best];
    assert LevelOk(best, level);
    FrontReducedLevelOk(best, level, quantity);
    ReplaceBest(levels, side, FrontReduced(levels, best, quantity)[best]);
    SliceFront(level.orders, Flatten(levels - {best}, side), Reduced(level.orders[0], quantity));
  }

  lemma FrontReducedLevelOk(price: Decimal, level: PriceLevel, quantity: Decimal)
    requires LevelOk(price, level)
    ensures LevelOk(price, PriceLevel(price, level.orders[0 := Reduced(level.orders[0], quantity)], level.totalQuantity - quantity))
  {
    var changed := level.orders[0 := Reduced(level.orders[0], quantity)];
    assert changed[1..] == level.orders[1..];
    forall o | o in changed ensures o.price == Some(price) {
      var i :| 0 <= i < |changed| && changed[i] == o;
      assert level.orders[i] in level.orders;
    }
  }

  // ---------------------------------------------------------------- the flat view loses nothing

  function AtPrice(orders: seq<Order>, p: Decimal): seq<Order> {
    if orders == [] then []
    else (if orders[0].price == Some(p) then [orders[0]] else []) + AtPrice(orders[1..], p)
  }

  lemma {:induction false} AtPriceAppend(a: seq<Order>, b: seq<Order>, p: Decimal)
    ensures AtPrice(a + b, p) == AtPrice(a, p) + AtPrice(b, p)
  {
    if a == [] {
      assert a + b == b;
    } else {
      assert (a + b)[1..] == a[1..] + b;
      AtPriceAppend(a[1..], b, p);
    }
  }

  lemma {:induction false} AtPriceAll(orders: seq<Order>, q: Decimal, p: Decimal)
    requires forall o :: o in orders ==> o.price == Some(q)
    ensures AtPrice(orders, p) == if p == q then orders else []
  {
    if orders != [] {
      assert orders[0] in orders && forall o :: o in orders[1..] ==> o in orders;
      AtPriceAll(orders[1..], q, p);
    }
  }

  /** Each level's queue can be read off the flat list. */
  lemma {:induction false} FlattenAtPrice(levels: Levels, side: Side, p: Decimal)
    requires LevelsOk(levels)
    ensures AtPrice(Flatten(levels, side), p) == if p in levels then levels[p].orders else []
    decreases |levels|
  {
    if levels != map[] {
      LevelsSplit(levels, side);
      hide Best, Flatten, LevelsOk, AtPrice;
      var best := Best(levels.Keys, side);
      var others := levels - {best};
      FlattenAtPrice(others, side, p);
      AtPriceAppend(levels[best].orders, Flatten(others, side), p);
      AtPriceAll(levels[best].orders, best, p);
      assert levels[best].orders + [] == levels[best].orders;
      assert p in levels && p != best <==> p in others;
    }
  }

  /** Two sets of levels with the same flat view are the same, cached totals included. */
  lemma FlattenInjective(a: Levels, b: Levels, side: Side)
    requires LevelsOk(a) && LevelsOk(b) && Flatten(a, side) == Flatten(b, side)
    ensures a == b
  {
    forall p | p in a || p in b ensures p in a && p in b && a[p] == b[p] {
      FlattenAtPrice(a, side, p);
      FlattenAtPrice(b, side, p);
      assert p in a ==> LevelOk(p, a[p]);
      assert p in b ==> LevelOk(p, b[p]);
    }
  }
}
