/** Reservation: over every run of placing and cancelling, the wallet's locked buckets are
    exactly the open orders' locks, every lock covers what its order can still cost, and so
    no settlement and no unlock ever fails. */
module Reservation {
  import opened Domain
  import opened FlatBook
  import opened BookInvariant
  import opened GreedyMatching
  import opened Wallet
  import opened WalletLaws
  import opened WalletMoves
  import opened Trading
  import opened LockArithmetic

  // ---------------------------------------------------------------- sums of locks

  function Share(o: StoredOrder, key: WalletKey): Decimal {
    if o.LockKey() == key then o.lockedAmount else 0.0
  }

  function LockedSum(orders: seq<StoredOrder>, key: WalletKey): Decimal {
    if orders == [] then 0.0 else Share(orders[0], key) + LockedSum(orders[1..], key)
  }

  lemma {:induction false} LockedSumAppend(a: seq<StoredOrder>, b: seq<StoredOrder>, key: WalletKey)
    ensures LockedSum(a + b, key) == LockedSum(a, key) + LockedSum(b, key)
  {
    if a == [] {
      assert a + b == b;
    } else {
      assert (a + b)[1..] == a[1..] + b;
      LockedSumAppend(a[1..], b, key);
    }
  }

  lemma LockedSumSplit(orders: seq<StoredOrder>, k: nat, key: WalletKey)
    requires k < |orders|
    ensures LockedSum(orders, key) == LockedSum(Dropped(orders, k), key) + Share(orders[k], key)
  {
    LockedSumAppend(orders[..k], orders[k..], key);
    LockedSumAppend(orders[..k], orders[k + 1..], key);
    assert orders == orders[..k] + orders[k..];
    assert orders[k..][1..] == orders[k + 1..];
  }

  lemma LockedSumUpdate(orders: seq<StoredOrder>, k: nat, o: StoredOrder, key: WalletKey)
    requires k < |orders|
    ensures LockedSum(orders[k := o], key) == LockedSum(orders, key) - Share(orders[k], key) + Share(o, key)
  {
    LockedSumSplit(orders, k, key);
    LockedSumSplit(orders[k := o], k, key);
    assert Dropped(orders[k := o], k) == Dropped(orders, k);
  }

  lemma {:induction false} LockedSumBounds(orders: seq<StoredOrder>, k: nat, key: WalletKey)
    requires k < |orders| && forall o :: o in orders ==> o.lockedAmount >= 0.0
    ensures 0.0 <= Share(orders[k], key) <= LockedSum(orders, key)
    ensures LockedSum(orders[1..], key) >= 0.0
  {
    assert orders[0] in orders && orders[k] in orders;
    if |orders| > 1 {
      assert forall o :: o in orders[1..] ==> o in orders;
      LockedSumBounds(orders[1..], if k > 0 then k - 1 else 0, key);
    }
  }

  // ---------------------------------------------------------------- the invariant

  function LocalIds(orders: seq<StoredOrder>): set<Id> {
    set o | o in orders :: o.id
  }

  ghost predicate Unique(orders: seq<StoredOrder>) {
    forall i, j :: 0 <= i < j < |orders| ==> orders[i].id != orders[j].id
  }

  /** An open order: partly unfilled, priced, of an active user, its lock enough for the rest. */
  ghost predicate OrderOk(users: Users, fees: Fees, o: StoredOrder) {
    Refused(users, o.userId).None? && o.price.Some? && o.LimitPrice() > 0.0 &&
    0.0 <= o.filledQuantity < o.quantity &&
    o.lockedAmount >= ConsumedLock(o.side, o.LimitPrice(), o.Remaining(), fees.takerBps)
  }

  ghost predicate OrdersOk(users: Users, fees: Fees, orders: seq<StoredOrder>) {
    Unique(orders) && forall o :: o in orders ==> OrderOk(users, fees, o)
  }

  /** The wallet's locked buckets are the open orders' locks, plus what one order in flight
      still holds under its key. */
  ghost predicate Balanced(w: Wallets, orders: seq<StoredOrder>, key: WalletKey, inflight: Decimal) {
    forall k :: BalanceOf(w, k).locked == LockedSum(orders, k) + if k == key then inflight else 0.0
  }

  /** The local order behind an order resting in the engine, with the same remaining quantity. */
  ghost predicate Behind(o: StoredOrder, symbol: Pair, m: Order) {
    o.id == m.orderId && o.symbol == symbol && o.userId == m.userId && o.side == m.side && o.price == m.price &&
    o.Remaining() == m.remainingQuantity
  }

  ghost predicate HasBehind(orders: seq<StoredOrder>, symbol: Pair, m: Order) {
    exists o :: o in orders && Behind(o, symbol, m)
  }

  ghost predicate Backed(orders: seq<StoredOrder>, symbol: Pair, resting: seq<Order>) {
    forall m :: m in resting ==> HasBehind(orders, symbol, m)
  }

  lemma LocksNonNegative(users: Users, fees: Fees, orders: seq<StoredOrder>)
    requires TakerFeeOk(fees) && OrdersOk(users, fees, orders)
    ensures forall o :: o in orders ==> o.lockedAmount >= 0.0
  {
    forall o | o in orders ensures o.lockedAmount >= 0.0 {
      assert OrderOk(users, fees, o);
      ConsumedNonNegative(o.side, o.LimitPrice(), o.Remaining(), fees.takerBps);
    }
  }

  lemma {:induction false} FindsUnique(orders: seq<StoredOrder>, k: nat)
    requires Unique(orders) && k < |orders|
    ensures Find(orders, orders[k].id) == k
  {
    if k > 0 {
      assert orders[0].id != orders[k].id;
      assert forall i, j :: 0 <= i < j < |orders[1..]| ==> orders[1..][i].id == orders[i + 1].id && orders[1..][j].id == orders[j + 1].id;
      FindsUnique(orders[1..], k - 1);
    }
  }

  // ---------------------------------------------------------------- the wallet's part of one fill

  lemma LegMoves(w: Wallets, leg: Leg, referenceId: Id)
    requires NonNegative(w) && LegFits(w, leg)
    ensures var o := ApplyLeg(w, leg, referenceId);
            && o.Done? && NonNegative(o.wallets)
            && forall key :: BalanceOf(o.wallets, key) == Moved(BalanceOf(w, key), leg, key)
  {
  }

  /** Both users pay out of their locked buckets and are paid into their available ones. */
  lemma SettlementMoves(w: Wallets, a: Leg, b: Leg, c: Leg, d: Leg, referenceId: Id)
    requires NonNegative(w)
    requires a.bucket.Locked? && b.bucket.Available? && c.bucket.Locked? && d.bucket.Available?
    requires a.key != c.key && LegFits(w, a) && LegFits(w, c) && b.amount >= 0.0 && d.amount >= 0.0
    ensures var o := ApplyLegs(w, [a, b, c, d], referenceId);
            && o.Done? && NonNegative(o.wallets)
            && forall key :: BalanceOf(o.wallets, key).locked
                          == BalanceOf(w, key).locked + (if key == a.key then a.amount else 0.0) + (if key == c.key then c.amount else 0.0)
  {
    hide ApplyLeg, NonNegative, ApplyLegs;
    LegMoves(w, a, referenceId);
    var w1 := ApplyLeg(w, a, referenceId).wallets;
    LegMoves(w1, b, referenceId);
    var w2 := ApplyLeg(w1, b, referenceId).wallets;
    LegMoves(w2, c, referenceId);
    var w3 := ApplyLeg(w2, c, referenceId).wallets;
    LegMoves(w3, d, referenceId);
    LegsUnfold(w, a, [b, c, d], referenceId);
    LegsUnfold(w1, b, [c, d], referenceId);
    LegsUnfold(w2, c, [d], referenceId);
    LegsUnfold(w3, d, [], referenceId);
    NoLegs(ApplyLeg(w3, d, referenceId).wallets, referenceId);
    assert [a] + [b, c, d] == [a, b, c, d] && [b] + [c, d] == [b, c, d] && [c] + [d] == [c, d] && [d] + [] == [d];
  }

  lemma NoLegs(w: Wallets, referenceId: Id)
    ensures ApplyLegs(w, [], referenceId) == Done(w)
  {
  }

  lemma LegsUnfold(w: Wallets, leg: Leg, rest: seq<Leg>, referenceId: Id)
    requires ApplyLeg(w, leg, referenceId).Done?
    ensures ApplyLegs(w, [leg] + rest, referenceId) == ApplyLegs(ApplyLeg(w, leg, referenceId).wallets, rest, referenceId)
  {
    assert ([leg] + rest)[1..] == rest;
  }

  /** What each side of a settlement pays, and into which lock that cuts. */
  function MakerKey(s: Settlement): WalletKey {
    WalletKey(s.makerUserId, if s.makerSide.Sell? then s.baseAsset else s.quoteAsset)
  }

  function TakerKey(s: Settlement): WalletKey {
    WalletKey(s.takerUserId, if s.makerSide.Sell? then s.quoteAsset else s.baseAsset)
  }

  function MakerPays(s: Settlement): Decimal {
    if s.makerSide.Sell? then s.quantity else s.price * s.quantity + s.makerFee
  }

  function TakerPays(s: Settlement): Decimal {
    if s.makerSide.Sell? then s.price * s.quantity + s.takerFee else s.quantity
  }

  lemma SettleMoves(w: Wallets, users: Users, s: Settlement)
    requires NonNegative(w) && Refused(users, s.makerUserId).None? && Refused(users, s.takerUserId).None?
    requires s.makerUserId != s.takerUserId && s.quantity >= 0.0
    requires SellerFee(s) <= s.price * s.quantity
    requires MakerPays(s) <= BalanceOf(w, MakerKey(s)).locked && TakerPays(s) <= BalanceOf(w, TakerKey(s)).locked
    ensures var o := SettleTrade(w, users, s);
            && o.Done? && NonNegative(o.wallets)
            && forall key :: BalanceOf(o.wallets, key).locked
                          == BalanceOf(w, key).locked - (if key == MakerKey(s) then MakerPays(s) else 0.0)
                             - (if key == TakerKey(s) then TakerPays(s) else 0.0)
  {
    LegsPay(s);
    hide Legs, MakerPays, TakerPays, MakerKey, TakerKey, NonNegative, ApplyLegs;
    var legs := Legs(s);
    assert legs == [legs[0], legs[1], legs[2], legs[3]];
    SettlementMoves(w, legs[0], legs[1], legs[2], legs[3], s.referenceId);
  }

  /** The legs in turn: the maker pays, is paid, the taker pays, is paid. */
  lemma LegsPay(s: Settlement)
    requires s.makerUserId != s.takerUserId && s.quantity >= 0.0 && SellerFee(s) <= s.price * s.quantity
    ensures var legs := Legs(s);
            && |legs| == 4 && MakerKey(s) != TakerKey(s)
            && legs[0] == Leg(MakerKey(s), -MakerPays(s), Locked) && legs[1].bucket.Available? && legs[1].amount >= 0.0
            && legs[2] == Leg(TakerKey(s), -TakerPays(s), Locked) && legs[3].bucket.Available? && legs[3].amount >= 0.0
  {
  }

  /** Returning an amount the bucket holds succeeds and takes exactly that out of it. */
  lemma UnlockMoves(w: Wallets, users: Users, o: StoredOrder, amount: Decimal)
    requires NonNegative(w) && Refused(users, o.userId).None?
    requires 0.0 <= amount <= BalanceOf(w, o.LockKey()).locked
    ensures var u := UnlockBalance(w, users, o, amount);
            && u.Done? && NonNegative(u.wallets)
            && forall key :: BalanceOf(u.wallets, key).locked
                          == BalanceOf(w, key).locked - if key == o.LockKey() then amount else 0.0
  {
  }

  lemma LockMoves(w: Wallets, users: Users, m: Mutation)
    requires NonNegative(w) && m.amount >= 0.0
    ensures var l := Lock(w, users, m);
            l.Done? ==>
              && NonNegative(l.wallets)
              && forall key :: BalanceOf(l.wallets, key).locked
                            == BalanceOf(w, key).locked + if key == m.key then m.amount else 0.0
  {
  }

  // ---------------------------------------------------------------- one fill on the desk

  ghost predicate DeskOk(desk: Desk, users: Users, fees: Fees, key: WalletKey, inflight: Decimal) {
    NonNegative(desk.wallets) && OrdersOk(users, fees, desk.orders) && Balanced(desk.wallets, desk.orders, key, inflight)
  }

  lemma LocksOfDesk(desk: Desk, users: Users, fees: Fees, key: WalletKey, inflight: Decimal)
    requires TakerFeeOk(fees) && DeskOk(desk, users, fees, key, inflight)
    ensures Unique(desk.orders) && forall o :: o in desk.orders ==> o.lockedAmount >= 0.0
  {
    LocksNonNegative(users, fees, desk.orders);
  }

  /** Every open order but one is as it was. */
  ghost predicate KeptBut(before: seq<StoredOrder>, after: seq<StoredOrder>, id: Id) {
    (forall o :: o in before && o.id != id ==> o in after) && (forall o :: o in after && o.id != id ==> o in before)
  }

  /** A fill at the maker's own price fits its lock, and what is left covers the rest. */
  lemma FillingFits(users: Users, fees: Fees, maker: StoredOrder, fill: Fill)
    requires FeesOk(fees) && OrderOk(users, fees, maker)
    requires fill.price == maker.LimitPrice() && 0.0 < fill.quantity <= maker.Remaining()
    ensures var after := Filling(fees, maker, fill);
            && after.lockedAmount >= 0.0
            && ConsumedLock(maker.side, fill.price, fill.quantity, fees.makerBps) <= maker.lockedAmount
            && after.Remaining() == maker.Remaining() - fill.quantity
            && (after.status.Filled? <==> fill.quantity == maker.Remaining())
            && (!after.status.Filled? ==> OrderOk(users, fees, after))
  {
    var price := maker.LimitPrice();
    var rest := maker.Remaining() - fill.quantity;
    ConsumedAdds(maker.side, price, rest, fill.quantity, fees.takerBps);
    assert rest + fill.quantity == maker.Remaining();
    LowerFeeConsumesLess(maker.side, price, fill.quantity, fees.makerBps, fees.takerBps);
    ConsumedNonNegative(maker.side, price, rest, fees.takerBps);
  }

  lemma UniqueAfterUpdate(orders: seq<StoredOrder>, k: nat, o: StoredOrder)
    requires Unique(orders) && k < |orders| && o.id == orders[k].id
    ensures Unique(orders[k := o]) && KeptBut(orders, orders[k := o], o.id) && o in orders[k := o]
    ensures forall x :: x in orders[k := o] ==> x == o || x in orders
  {
    var after := orders[k := o];
    forall x | x in orders && x.id != o.id ensures x in after {
      var i :| 0 <= i < |orders| && orders[i] == x;
      assert after[i] == x;
    }
    forall x | x in after ensures x == o || x in orders {
      var i :| 0 <= i < |after| && after[i] == x;
      assert i != k ==> orders[i] == x;
    }
    assert after[k] == o;
  }

  lemma UniqueAfterDrop(orders: seq<StoredOrder>, k: nat)
    requires Unique(orders) && k < |orders|
    ensures Unique(Dropped(orders, k)) && KeptBut(orders, Dropped(orders, k), orders[k].id)
    ensures forall x :: x in Dropped(orders, k) ==> x in orders && x.id != orders[k].id
  {
    DroppedMembers(orders, k);
    var after := Dropped(orders, k);
    forall i, j | 0 <= i < j < |after| ensures after[i].id != after[j].id {
      assert after[i] == orders[if i < k then i else i + 1] && after[j] == orders[if j < k then j else j + 1];
    }
  }

  lemma DroppedMembers(orders: seq<StoredOrder>, k: nat)
    requires Unique(orders) && k < |orders|
    ensures forall x :: x in Dropped(orders, k) <==> x in orders && x.id != orders[k].id
  {
    var after := Dropped(orders, k);
    forall x | x in after ensures x in orders && x.id != orders[k].id {
      var i :| 0 <= i < |after| && after[i] == x;
      assert x == orders[if i < k then i else i + 1];
    }
    forall x | x in orders && x.id != orders[k].id ensures x in after {
      var i :| 0 <= i < |orders| && orders[i] == x;
      assert after[if i < k then i else i - 1] == x;
    }
  }

  /** The maker's entry in the list of open orders after its fill. */
  function OrdersAfter(orders: seq<StoredOrder>, k: nat, maker: StoredOrder): seq<StoredOrder>
    requires k < |orders|
  {
    if maker.status.Filled? then Dropped(orders, k) else orders[k := maker]
  }

  lemma OrdersAfterOk(users: Users, fees: Fees, orders: seq<StoredOrder>, k: nat, fill: Fill)
    requires FeesOk(fees) && OrdersOk(users, fees, orders) && k < |orders|
    requires fill.price == orders[k].LimitPrice() && 0.0 < fill.quantity <= orders[k].Remaining()
    ensures OrdersOk(users, fees, OrdersAfter(orders, k, Filling(fees, orders[k], fill)))
    ensures KeptBut(orders, OrdersAfter(orders, k, Filling(fees, orders[k], fill)), orders[k].id)
  {
    assert orders[k] in orders;
    FillingFits(users, fees, orders[k], fill);
    UniqueAfterUpdate(orders, k, Filling(fees, orders[k], fill));
    UniqueAfterDrop(orders, k);
  }

  lemma UpdateBalances(w: Wallets, w': Wallets, orders: seq<StoredOrder>, k: nat, o: StoredOrder, key: WalletKey, inflight: Decimal, left: Decimal)
    requires k < |orders| && o.LockKey() == orders[k].LockKey() && Balanced(w, orders, key, inflight)
    requires forall x :: BalanceOf(w', x).locked == BalanceOf(w, x).locked
               - (if x == o.LockKey() then orders[k].lockedAmount - o.lockedAmount else 0.0)
               - (if x == key then inflight - left else 0.0)
    ensures Balanced(w', orders[k := o], key, left)
  {
    forall x ensures BalanceOf(w', x).locked == LockedSum(orders[k := o], x) + if x == key then left else 0.0 {
      LockedSumUpdate(orders, k, o, x);
    }
  }

  lemma DropBalances(w: Wallets, w': Wallets, orders: seq<StoredOrder>, k: nat, key: WalletKey, inflight: Decimal)
    requires k < |orders| && Balanced(w, orders, key, inflight)
    requires forall x :: BalanceOf(w', x).locked == BalanceOf(w, x).locked - if x == orders[k].LockKey() then orders[k].lockedAmount else 0.0
    ensures Balanced(w', Dropped(orders, k), key, inflight)
  {
    forall x ensures BalanceOf(w', x).locked == LockedSum(Dropped(orders, k), x) + if x == key then inflight else 0.0 {
      LockedSumSplit(orders, k, x);
    }
  }

  /** Booking a settled fill on the maker: the lists stay balanced, and returning the rest of
      a filled maker's lock cannot fail. */
  lemma ApplyFillOk(desk: Desk, settled: Wallets, users: Users, fees: Fees, fill: Fill, k: nat, key: WalletKey, inflight: Decimal, left: Decimal)
    requires FeesOk(fees) && DeskOk(desk, users, fees, key, inflight) && NonNegative(settled) && left >= 0.0
    requires k < |desk.orders| && desk.orders[k].id == fill.makerOrderId
    requires fill.price == desk.orders[k].LimitPrice() && 0.0 < fill.quantity <= desk.orders[k].Remaining()
    requires var maker := desk.orders[k];
             forall x :: BalanceOf(settled, x).locked == BalanceOf(desk.wallets, x).locked
               - (if x == maker.LockKey() then ConsumedLock(maker.side, fill.price, fill.quantity, fees.makerBps) else 0.0)
               - (if x == key then inflight - left else 0.0)
    ensures forall accounts :: var p := ApplyFill(desk.(wallets := settled, accounts := accounts), users, fees, fill);
            && p.Going? && p.desk.orders == OrdersAfter(desk.orders, k, Filling(fees, desk.orders[k], fill))
            && NonNegative(p.desk.wallets) && Balanced(p.desk.wallets, p.desk.orders, key, left)
  {
    var maker := Filling(fees, desk.orders[k], fill);
    assert desk.orders[k] in desk.orders;
    FindsUnique(desk.orders, k);
    FillingFits(users, fees, desk.orders[k], fill);
    UpdateBalances(desk.wallets, settled, desk.orders, k, maker, key, inflight, left);
    if maker.status.Filled? {
      var updated := desk.orders[k := maker];
      LocksNonNegative(users, fees, desk.orders);
      UniqueAfterUpdate(desk.orders, k, maker);
      LockedSumBounds(updated, k, maker.LockKey());
      UnlockMoves(settled, users, maker, maker.lockedAmount);
      DropBalances(settled, UnlockBalance(settled, users, maker, maker.lockedAmount).wallets, updated, k, key, left);
      assert Dropped(updated, k) == Dropped(desk.orders, k);
    }
  }

  /** The fill's maker is the k-th open order, opposite the taker on the same symbol. */
  ghost predicate FillFits(orders: seq<StoredOrder>, taker: StoredOrder, fill: Fill, k: nat) {
    k < |orders| && orders[k].id == fill.makerOrderId && orders[k].userId == fill.makerUserId &&
    orders[k].symbol == taker.symbol && orders[k].side == Opposite(taker.side) &&
    fill.price == orders[k].LimitPrice() && 0.0 < fill.quantity <= orders[k].Remaining() &&
    fill.takerUserId == taker.userId && fill.makerUserId != taker.userId
  }

  /** The settlement names both locks and takes out of each exactly what is booked for it. */
  lemma SettlementNames(fees: Fees, orders: seq<StoredOrder>, taker: StoredOrder, fill: Fill, k: nat)
    requires Unique(orders) && FillFits(orders, taker, fill, k)
    ensures var s := SettlementOf(fees, orders, taker, fill);
            && s.makerUserId == fill.makerUserId && s.takerUserId == taker.userId
            && MakerKey(s) == orders[k].LockKey() && TakerKey(s) == taker.LockKey()
            && MakerPays(s) == ConsumedLock(orders[k].side, fill.price, fill.quantity, fees.makerBps)
            && TakerPays(s) == ConsumedLock(taker.side, fill.price, fill.quantity, fees.takerBps)
            && s.price == fill.price && s.quantity == fill.quantity
            && s.makerFee == CalculateFee(fill.price * fill.quantity, fees.makerBps)
            && s.takerFee == CalculateFee(fill.price * fill.quantity, fees.takerBps)
  {
    FindsUnique(orders, k);
  }

  /** A bucket holds every lock it is the sum of, and what is in flight on top. */
  lemma BucketsHold(desk: Desk, users: Users, fees: Fees, key: WalletKey, inflight: Decimal, k: nat)
    requires TakerFeeOk(fees) && DeskOk(desk, users, fees, key, inflight) && inflight >= 0.0
    requires k < |desk.orders|
    ensures desk.orders[k].lockedAmount <= BalanceOf(desk.wallets, desk.orders[k].LockKey()).locked
    ensures inflight <= BalanceOf(desk.wallets, key).locked
  {
    LocksNonNegative(users, fees, desk.orders);
    LockedSumBounds(desk.orders, k, desk.orders[k].LockKey());
    LockedSumBounds(desk.orders, k, key);
  }

  /** What leaves the locked buckets when the maker's and the taker's lock are cut. */
  ghost predicate Cuts(before: Wallets, after: Wallets, makerKey: WalletKey, made: Decimal, takerKey: WalletKey, taken: Decimal) {
    forall x :: BalanceOf(after, x).locked == BalanceOf(before, x).locked - (if x == makerKey then made else 0.0)
                                              - (if x == takerKey then taken else 0.0)
  }

  /** A settlement the wallet can make: the two users differ and the seller's fee does not
      exceed the notional. */
  ghost predicate Payable(users: Users, s: Settlement, makerKey: WalletKey, made: Decimal, takerKey: WalletKey, taken: Decimal) {
    Refused(users, s.makerUserId).None? && Refused(users, s.takerUserId).None? &&
    s.makerUserId != s.takerUserId && s.quantity >= 0.0 &&
    SellerFee(s) <= s.price * s.quantity &&
    MakerKey(s) == makerKey && MakerPays(s) == made && TakerKey(s) == takerKey && TakerPays(s) == taken
  }

  lemma SettlementPayable(users: Users, fees: Fees, orders: seq<StoredOrder>, taker: StoredOrder, fill: Fill, k: nat)
    requires TakerFeeOk(fees) && OrdersOk(users, fees, orders)
    requires FillFits(orders, taker, fill, k) && Refused(users, taker.userId).None?
    requires orders[k].side.Sell? ==> fees.makerBps <= 10000.0
    ensures Payable(users, SettlementOf(fees, orders, taker, fill),
                    orders[k].LockKey(), ConsumedLock(orders[k].side, fill.price, fill.quantity, fees.makerBps),
                    taker.LockKey(), ConsumedLock(taker.side, fill.price, fill.quantity, fees.takerBps))
  {
    assert orders[k] in orders && OrderOk(users, fees, orders[k]);
    SettlementNames(fees, orders, taker, fill, k);
    if orders[k].side.Sell? {
      FeeWithinNotional(fill.price, fill.quantity, fees.makerBps);
    } else {
      FeeWithinNotional(fill.price, fill.quantity, fees.takerBps);
    }
  }

  lemma SettleCuts(w: Wallets, users: Users, s: Settlement, makerKey: WalletKey, made: Decimal, takerKey: WalletKey, taken: Decimal)
    requires NonNegative(w) && Payable(users, s, makerKey, made, takerKey, taken)
    requires made <= BalanceOf(w, makerKey).locked && taken <= BalanceOf(w, takerKey).locked
    ensures var o := SettleTrade(w, users, s);
            o.Done? && NonNegative(o.wallets) && Cuts(w, o.wallets, makerKey, made, takerKey, taken)
  {
    SettleMoves(w, users, s);
  }

  /** The locks cover the settlement, or the buckets do, so it goes through. */
  lemma SettlementCovered(desk: Desk, users: Users, fees: Fees, taker: StoredOrder, s: Settlement, k: nat, inflight: Decimal, made: Decimal, taken: Decimal)
    requires TakerFeeOk(fees) && DeskOk(desk, users, fees, taker.LockKey(), inflight)
    requires k < |desk.orders| && Payable(users, s, desk.orders[k].LockKey(), made, taker.LockKey(), taken)
    requires made <= BalanceOf(desk.wallets, desk.orders[k].LockKey()).locked && 0.0 <= taken <= inflight
    ensures var o := SettleTrade(desk.wallets, users, s);
            o.Done? && NonNegative(o.wallets) && Cuts(desk.wallets, o.wallets, desk.orders[k].LockKey(), made, taker.LockKey(), taken)
  {
    BucketsHold(desk, users, fees, taker.LockKey(), inflight, k);
    SettleCuts(desk.wallets, users, s, desk.orders[k].LockKey(), made, taker.LockKey(), taken);
  }

  /** One fill, settled and booked: it cannot fail, and the desk is balanced again with the
      taker's lock in flight reduced by what the fill cost. */
  lemma SettleFillOk(desk: Desk, users: Users, fees: Fees, taker: StoredOrder, fill: Fill, k: nat, inflight: Decimal)
    requires FeesOk(fees) && DeskOk(desk, users, fees, taker.LockKey(), inflight)
    requires FillFits(desk.orders, taker, fill, k) && Refused(users, taker.userId).None?
    requires ConsumedLock(taker.side, fill.price, fill.quantity, fees.takerBps) <= inflight
    ensures var p := SettleFill(desk, users, fees, taker, fill);
            && p.Going?
            && DeskOk(p.desk, users, fees, taker.LockKey(), inflight - ConsumedLock(taker.side, fill.price, fill.quantity, fees.takerBps))
            && p.desk.orders == OrdersAfter(desk.orders, k, Filling(fees, desk.orders[k], fill))
            && KeptBut(desk.orders, p.desk.orders, fill.makerOrderId)
  {
    var cost := ConsumedLock(taker.side, fill.price, fill.quantity, fees.takerBps);
    var made := ConsumedLock(desk.orders[k].side, fill.price, fill.quantity, fees.makerBps);
    var s := SettlementOf(fees, desk.orders, taker, fill);
    assert desk.orders[k] in desk.orders && OrderOk(users, fees, desk.orders[k]);
    SettlementPayable(users, fees, desk.orders, taker, fill, k);
    FillingFits(users, fees, desk.orders[k], fill);
    ConsumedNonNegative(taker.side, fill.price, fill.quantity, fees.takerBps);
    BucketsHold(desk, users, fees, taker.LockKey(), inflight, k);
    SettlementCovered(desk, users, fees, taker, s, k, inflight, made, cost);
    OrdersAfterOk(users, fees, desk.orders, k, fill);
    ApplyFillOk(desk, SettleTrade(desk.wallets, users, s).wallets, users, fees, fill, k, taker.LockKey(), inflight, inflight - cost);
    var accounts := Spend(desk.accounts, taker.id, cost, fill.quantity);
    assert SettleFill(desk, users, fees, taker, fill)
        == ApplyFill(desk.(wallets := SettleTrade(desk.wallets, users, s).wallets, accounts := accounts), users, fees, fill);
  }

  // ---------------------------------------------------------------- all fills of one match

  /** The local order and what the engine is matching for it. */
  ghost predicate Matches(o: StoredOrder, taker: Order) {
    taker.orderId == o.id && taker.userId == o.userId && taker.side == o.side && taker.price == o.price &&
    o.price.Some? && o.LimitPrice() > 0.0 && !taker.kind.Market? && taker.remainingQuantity >= 0.0
  }

  ghost predicate MakersOk(makers: seq<Order>, takerSide: Side) {
    AllPositive(makers) && DistinctIds(makers) && forall m :: m in makers ==> m.side == Opposite(takerSide)
  }

  /** The lock in flight is enough for a quantity still to be matched. */
  ghost predicate Covers(fees: Fees, o: StoredOrder, quantity: Decimal, inflight: Decimal) {
    inflight >= ConsumedLock(o.side, o.LimitPrice(), quantity, fees.takerBps)
  }

  /** Only orders with one of the ids have changed or gone, and none has come. */
  ghost predicate KeptOutside(before: seq<StoredOrder>, after: seq<StoredOrder>, ids: set<Id>) {
    (forall o :: o in before && o.id !in ids ==> o in after) && (forall o :: o in after && o.id !in ids ==> o in before) &&
    LocalIds(after) <= LocalIds(before)
  }

  lemma MakersTail(makers: seq<Order>, takerSide: Side)
    requires MakersOk(makers, takerSide) && makers != []
    ensures MakersOk(makers[1..], takerSide)
    ensures forall m :: m in makers[1..] ==> m in makers && m.orderId != makers[0].orderId
    ensures Ids(makers) == Ids(makers[1..]) + {makers[0].orderId}
  {
    TailPositive(makers);
    assert makers == [makers[0]] + makers[1..];
    forall m | m in makers[1..] ensures m.orderId != makers[0].orderId {
      var i :| 0 <= i < |makers[1..]| && makers[1..][i] == m;
      assert makers[i + 1] == m;
    }
  }

  /** The first maker's fill fits the open order behind it. */
  lemma FirstFillFits(orders: seq<StoredOrder>, o: StoredOrder, taker: Order, makers: seq<Order>) returns (k: nat)
    requires Matches(o, taker) && MakersOk(makers, o.side) && Backed(orders, o.symbol, makers)
    requires CanTrade(taker, makers) && makers[0].userId != taker.userId
    ensures k < |orders| && Behind(orders[k], o.symbol, makers[0]) && FillFits(orders, o, FillOf(makers[0], taker), k)
  {
    assert makers[0] in makers;
    var x :| x in orders && Behind(x, o.symbol, makers[0]);
    k :| 0 <= k < |orders| && orders[k] == x;
  }

  /** A fill never costs the taker more than its limit says. */
  lemma FillCovered(fees: Fees, o: StoredOrder, taker: Order, price: Decimal, quantity: Decimal, inflight: Decimal)
    requires FeesOk(fees) && Matches(o, taker) && Crosses(taker, price)
    requires 0.0 <= quantity <= taker.remainingQuantity && Covers(fees, o, taker.remainingQuantity, inflight)
    ensures var left := inflight - ConsumedLock(o.side, price, quantity, fees.takerBps);
            Covers(fees, o, taker.remainingQuantity - quantity, left) && left >= 0.0
  {
    var rest := taker.remainingQuantity - quantity;
    ConsumedAdds(o.side, o.LimitPrice(), rest, quantity, fees.takerBps);
    assert rest + quantity == taker.remainingQuantity;
    ConsumedNonNegative(o.side, o.LimitPrice(), rest, fees.takerBps);
    if o.side.Buy? {
      BetterPriceConsumesLess(price, o.LimitPrice(), quantity, fees.takerBps);
    }
  }

  lemma BackedAfterFill(users: Users, fees: Fees, orders: seq<StoredOrder>, symbol: Pair, makers: seq<Order>, takerSide: Side, fill: Fill, k: nat)
    requires FeesOk(fees) && OrdersOk(users, fees, orders) && MakersOk(makers, takerSide) && makers != []
    requires Backed(orders, symbol, makers) && k < |orders| && Behind(orders[k], symbol, makers[0])
    requires fill.price == orders[k].LimitPrice() && 0.0 < fill.quantity <= makers[0].remainingQuantity
    ensures var after := OrdersAfter(orders, k, Filling(fees, orders[k], fill));
            if fill.quantity == makers[0].remainingQuantity then Backed(after, symbol, makers[1..])
            else Backed(after, symbol, makers[0 := Reduced(makers[0], fill.quantity)])
    ensures var after := OrdersAfter(orders, k, Filling(fees, orders[k], fill));
            KeptOutside(orders, after, {makers[0].orderId})
  {
    var maker := Filling(fees, orders[k], fill);
    var after := OrdersAfter(orders, k, maker);
    assert orders[k] in orders;
    FillingFits(users, fees, orders[k], fill);
    UniqueAfterUpdate(orders, k, maker);
    UniqueAfterDrop(orders, k);
    MakersTail(makers, takerSide);
    forall m | m in makers[1..] ensures HasBehind(after, symbol, m) {
      var x :| x in orders && Behind(x, symbol, m);
      assert x in after;
    }
    if fill.quantity < makers[0].remainingQuantity {
      var reduced := Reduced(makers[0], fill.quantity);
      assert maker in after && Behind(maker, symbol, reduced);
      assert makers[0 := reduced] == [reduced] + makers[1..];
    }
  }

  ghost predicate Settled(p: Progress, users: Users, fees: Fees, o: StoredOrder, before: seq<StoredOrder>, makers: seq<Order>, g: GreedyResult, left: Decimal) {
    && p.Going?
    && DeskOk(p.desk, users, fees, o.LockKey(), left) && Covers(fees, o, g.remaining, left)
    && Backed(p.desk.orders, o.symbol, g.left) && KeptOutside(before, p.desk.orders, Ids(makers))
  }

  /** What settling a match's first fill leaves for the rest of it. */
  ghost predicate FirstSettled(p: Progress, users: Users, fees: Fees, o: StoredOrder, before: seq<StoredOrder>, taker: Order, makers: seq<Order>, left: Decimal)
    requires makers != []
  {
    var fill := FillOf(makers[0], taker);
    && p.Going?
    && DeskOk(p.desk, users, fees, o.LockKey(), left) && Covers(fees, o, taker.remainingQuantity - fill.quantity, left)
    && KeptOutside(before, p.desk.orders, {makers[0].orderId})
    && (if taker.remainingQuantity < makers[0].remainingQuantity
        then Backed(p.desk.orders, o.symbol, makers[0 := Reduced(makers[0], fill.quantity)])
        else Backed(p.desk.orders, o.symbol, makers[1..]))
  }

  lemma FirstFillOk(desk: Desk, users: Users, fees: Fees, o: StoredOrder, taker: Order, makers: seq<Order>, inflight: Decimal)
    requires FeesOk(fees) && DeskOk(desk, users, fees, o.LockKey(), inflight) && Refused(users, o.userId).None?
    requires Matches(o, taker) && MakersOk(makers, o.side) && Backed(desk.orders, o.symbol, makers)
    requires Covers(fees, o, taker.remainingQuantity, inflight)
    requires CanTrade(taker, makers) && makers[0].userId != taker.userId
    ensures var fill := FillOf(makers[0], taker);
            FirstSettled(SettleFill(desk, users, fees, o, fill), users, fees, o, desk.orders, taker, makers,
                         inflight - ConsumedLock(o.side, fill.price, fill.quantity, fees.takerBps))
  {
    hide OrdersOk, Balanced, NonNegative, ConsumedLock, SettleFill, Backed, Covers, KeptOutside;
    assert makers[0] in makers;
    var fill := FillOf(makers[0], taker);
    var k := FirstFillFits(desk.orders, o, taker, makers);
    FillCovered(fees, o, taker, fill.price, fill.quantity, inflight);
    SettleFillOk(desk, users, fees, o, fill, k, inflight);
    BackedAfterFill(users, fees, desk.orders, o.symbol, makers, o.side, fill, k);
  }

  lemma KeptChains(before: seq<StoredOrder>, next: seq<StoredOrder>, after: seq<StoredOrder>, first: Id, rest: set<Id>)
    requires KeptOutside(before, next, {first}) && KeptOutside(next, after, rest)
    ensures KeptOutside(before, after, rest + {first})
  {
  }

  lemma KeptMore(before: seq<StoredOrder>, after: seq<StoredOrder>, ids: set<Id>, more: set<Id>)
    requires KeptOutside(before, after, ids) && ids <= more
    ensures KeptOutside(before, after, more)
  {
  }

  /** Every fill of a match is settled: the locks always cover it. What the order still holds
      covers what is left of it, and the makers' open orders follow the engine's. */
  lemma {:induction false} SettleFillsOk(desk: Desk, users: Users, fees: Fees, o: StoredOrder, taker: Order, makers: seq<Order>, inflight: Decimal)
    requires FeesOk(fees) && DeskOk(desk, users, fees, o.LockKey(), inflight) && Refused(users, o.userId).None?
    requires Matches(o, taker) && MakersOk(makers, o.side) && Backed(desk.orders, o.symbol, makers)
    requires Covers(fees, o, taker.remainingQuantity, inflight)
    ensures var g := Greedy(taker, makers);
            Settled(SettleFills(desk, users, fees, o, g.fills), users, fees, o, desk.orders, makers, g,
                    inflight - ConsumedByFills(fees, o.side, g.fills))
    decreases |makers|
  {
    hide DeskOk, Backed, Covers, KeptOutside, SettleFill, ConsumedLock, SettleFills, ConsumedByFills;
    if CanTrade(taker, makers) && makers[0].userId != taker.userId {
      var fill := FillOf(makers[0], taker);
      FirstFillOk(desk, users, fees, o, taker, makers, inflight);
      var next := SettleFill(desk, users, fees, o, fill).desk;
      MakersTail(makers, o.side);
      if taker.remainingQuantity < makers[0].remainingQuantity {
        FillsUnfold(desk, users, fees, o, fill, []);
        NoFills(next, users, fees, o);
        assert [fill] + [] == [fill];
        KeptMore(desk.orders, next.orders, {makers[0].orderId}, Ids(makers));
      } else {
        var rest := Greedy(Reduced(taker, fill.quantity), makers[1..]);
        var left := inflight - ConsumedLock(o.side, fill.price, fill.quantity, fees.takerBps);
        SettleFillsOk(next, users, fees, o, Reduced(taker, fill.quantity), makers[1..], left);
        FillsUnfold(desk, users, fees, o, fill, rest.fills);
        KeptChains(desk.orders, next.orders, SettleFills(next, users, fees, o, rest.fills).desk.orders, makers[0].orderId, Ids(makers[1..]));
      }
    } else {
      NoFills(desk, users, fees, o);
      NothingKept(desk.orders, Ids(makers));
    }
  }

  lemma NothingKept(orders: seq<StoredOrder>, ids: set<Id>)
    ensures KeptOutside(orders, orders, ids)
  {
  }

  lemma NoFills(desk: Desk, users: Users, fees: Fees, o: StoredOrder)
    ensures SettleFills(desk, users, fees, o, []) == Going(desk)
    ensures ConsumedByFills(fees, o.side, []) == 0.0 && TotalQuantity([]) == 0.0
  {
  }

  lemma FillsUnfold(desk: Desk, users: Users, fees: Fees, o: StoredOrder, fill: Fill, rest: seq<Fill>)
    requires SettleFill(desk, users, fees, o, fill).Going?
    ensures SettleFills(desk, users, fees, o, [fill] + rest) == SettleFills(SettleFill(desk, users, fees, o, fill).desk, users, fees, o, rest)
    ensures ConsumedByFills(fees, o.side, [fill] + rest)
         == ConsumedLock(o.side, fill.price, fill.quantity, fees.takerBps) + ConsumedByFills(fees, o.side, rest)
  {
    assert ([fill] + rest)[1..] == rest;
  }
}
