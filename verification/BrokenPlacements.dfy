/** What a placement leaves behind when the wallet fails after the funds were locked: every fill up
    to the refused one is settled, nothing of it is undone, and the engine's answer stands. */
module BrokenPlacements {
  import opened Domain
  import opened Cascade
  import opened Wallet
  import opened Trading
  import opened ExchangeConservation
  import opened Holdings
  import opened PlacementTerms

  /** The wallet refuses what comes next: the n-th fill's settlement, or returning what is left of
      the lock of the maker filled just before, which is still in the list, shown as filled. */
  ghost predicate Refuses(desk: Desk, users: Users, fees: Fees, taker: StoredOrder, fills: seq<Fill>, n: nat) {
    (n < |fills| && SettleTrade(desk.wallets, users, SettlementOf(fees, desk.orders, taker, fills[n])).Failed?) ||
    (0 < n <= |fills| && exists o :: o in desk.orders && StillHolds(desk, users, o, fills[n - 1]))
  }

  ghost predicate StillHolds(desk: Desk, users: Users, o: StoredOrder, f: Fill) {
    o.id == f.makerOrderId && o.status.Filled? && UnlockBalance(desk.wallets, users, o, o.lockedAmount).Failed?
  }

  // ---------------------------------------------------------------- the refused fill

  /** A fill that gets stuck is either not settled at all or settled with its maker still listed. */
  lemma StuckFill(desk: Desk, users: Users, fees: Fees, taker: StoredOrder, fill: Fill)
    requires SettleFill(desk, users, fees, taker, fill).Stuck?
    ensures var after := SettleFill(desk, users, fees, taker, fill).desk;
            var settled := SettleTrade(desk.wallets, users, SettlementOf(fees, desk.orders, taker, fill));
            if settled.Failed? then after == desk
            else after.wallets == settled.wallets && exists o :: o in after.orders && StillHolds(after, users, o, fill)
  {
    hide SettleTrade, UnlockBalance, SettlementOf, ConsumedLock;
    var settled := SettleTrade(desk.wallets, users, SettlementOf(fees, desk.orders, taker, fill));
    if settled.Done? {
      var k := Find(desk.orders, fill.makerOrderId);
      var after := SettleFill(desk, users, fees, taker, fill).desk;
      var maker := Filling(fees, desk.orders[k], fill);
      assert after.orders[k] == maker && StillHolds(after, users, maker, fill);
    }
  }

  /** Where the settling of a match's fills stops: n of them are settled and what comes next is
      refused. */
  lemma {:induction false} SettlingStops(desk: Desk, users: Users, fees: Fees, taker: StoredOrder, fills: seq<Fill>) returns (n: nat)
    requires SettleFills(desk, users, fees, taker, fills).Stuck?
    requires SidesFit(desk.orders, fills, taker.side) && WithStrangers(fills)
    ensures var after := SettleFills(desk, users, fees, taker, fills).desk;
            && n <= |fills| && Refuses(after, users, fees, taker, fills, n)
            && forall key :: Worth(after.wallets, key) == Worth(desk.wallets, key) + ByFills(fees, taker.symbol, taker.side, fills[..n], key)
    decreases |fills|
  {
    hide Worth, ByFill, SettleFill, SettleTrade, SettlementOf, UnlockBalance, SidesFit;
    var first := SettleFill(desk, users, fees, taker, fills[0]);
    FillsFit(desk.orders, fills, taker.side);
    if first.Going? {
      SettleFillKeepsSides(desk, users, fees, taker, fills[0], fills[1..]);
      var m := SettlingStops(first.desk, users, fees, taker, fills[1..]);
      n := m + 1;
      assert fills[..n][1..] == fills[1..][..m];
      forall key ensures Worth(first.desk.wallets, key) == Worth(desk.wallets, key) + ByFill(fees, taker.symbol, taker.side, fills[0], key) {
        SettleFillHolds(desk, users, fees, taker, fills[0], key);
      }
    } else {
      StuckFill(desk, users, fees, taker, fills[0]);
      n := if SettleTrade(desk.wallets, users, SettlementOf(fees, desk.orders, taker, fills[0])).Failed? then 0 else 1;
      if n == 1 {
        assert fills[..1][1..] == [];
        forall key ensures Worth(first.desk.wallets, key) == Worth(desk.wallets, key) + ByFill(fees, taker.symbol, taker.side, fills[0], key) {
          SettledWorth(desk, users, fees, taker, fills[0], key);
        }
      }
    }
  }

  lemma FillsFit(orders: seq<StoredOrder>, fills: seq<Fill>, side: Side)
    requires fills != [] && SidesFit(orders, fills, side) && WithStrangers(fills)
    ensures SidesFit(orders, [fills[0]], side) && SidesFit(orders, fills[1..], side)
    ensures WithStrangers(fills[1..]) && fills[0].makerUserId != fills[0].takerUserId
  {
    assert fills[0] in fills && forall f :: f in fills[1..] ==> f in fills;
  }

  // ---------------------------------------------------------------- the whole placement

  /** A placement the wallet breaks off, of any kind: the engine's book stays as its answer left
      it, and either the wallet refuses the next step of settling, with exactly the fills before
      it settled, or all fills are settled and only returning unused funds is refused. */
  lemma BrokenPlacementStops(x: Exchange, users: Users, fees: Fees, r: Request) returns (n: nat)
    requires PlaceOrder(x, users, fees, r).Broken?
    requires var fills := SubmitAndCascade(MarketOf(x.markets, r.symbol), Asked(r)).report.fills;
             SidesFit(x.desk.orders, fills, r.side) && WithStrangers(fills)
    ensures var p, e := PlaceOrder(x, users, fees, r), SubmitAndCascade(MarketOf(x.markets, r.symbol), Asked(r));
            && p.exchange.markets == x.markets[r.symbol := e.book] && n <= |e.report.fills|
            && (forall key :: Worth(p.exchange.desk.wallets, key)
                           == Worth(x.desk.wallets, key) + ByFills(fees, r.symbol, r.side, e.report.fills[..n], key))
            && (n == |e.report.fills| || Refuses(p.exchange.desk, users, fees, NewOrder(r), e.report.fills, n))
  {
    hide PlaceOrder, Worth, ByFills, SidesFit, WithStrangers, AfterMatching, Refuses, SubmitAndCascade;
    var o, y, e := PlacementUnfolds(x, users, fees, r);
    assert EngineOrder(o) == Asked(r);
    forall key ensures Worth(y.desk.wallets, key) == Worth(x.desk.wallets, key) {
      LockHolds(x.desk.wallets, users, Mutation(o.LockKey(), o.lockedAmount, o.id), key);
    }
    n := CompletionStops(y, users, fees, o, e.report);
    SameRefusal(PlaceOrder(x, users, fees, r).exchange.desk, users, fees, o, NewOrder(r), e.report.fills, n);
  }

  lemma SameRefusal(desk: Desk, users: Users, fees: Fees, o: StoredOrder, q: StoredOrder, fills: seq<Fill>, n: nat)
    requires o == q.(lockedAmount := o.lockedAmount)
    ensures Refuses(desk, users, fees, o, fills, n) <==> Refuses(desk, users, fees, q, fills, n)
  {
    if n < |fills| {
      assert SettlementOf(fees, desk.orders, o, fills[n]) == SettlementOf(fees, desk.orders, q, fills[n]);
    }
    hide SettleTrade, SettlementOf, StillHolds;
  }

  lemma CompletionStops(x: Exchange, users: Users, fees: Fees, o: StoredOrder, report: ExecutionReport) returns (n: nat)
    requires AfterMatching(x, users, fees, o, report).Broken? && (!report.accepted ==> report.fills == [])
    requires SidesFit(x.desk.orders, report.fills, o.side) && WithStrangers(report.fills)
    ensures var y := AfterMatching(x, users, fees, o, report).exchange;
            && y.markets == x.markets && n <= |report.fills|
            && (forall key :: Worth(y.desk.wallets, key) == Worth(x.desk.wallets, key) + ByFills(fees, o.symbol, o.side, report.fills[..n], key))
            && (n == |report.fills| || Refuses(y.desk, users, fees, o, report.fills, n))
  {
    hide Worth, ByFill, SidesFit, WithStrangers, Refuses, SettleFills, UnlockBalance, RestLock, ConsumedByFills;
    n := |report.fills|;
    if report.accepted {
      assert report.fills[..n] == report.fills;
      if SettleFills(x.desk, users, fees, o, report.fills).Stuck? {
        n := SettlingStops(x.desk, users, fees, o, report.fills);
      } else {
        forall key ensures Worth(SettleFills(x.desk, users, fees, o, report.fills).desk.wallets, key)
                        == Worth(x.desk.wallets, key) + ByFills(fees, o.symbol, o.side, report.fills, key)
        {
          SettleFillsHold(x.desk, users, fees, o, report.fills, key);
        }
      }
    }
  }
}
