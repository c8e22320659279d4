/** What the wallet keeps over every run: no negative bucket, each asset's total up to what
    enters, leaves or is charged as a fee, and a ledger whose latest entry is the balance. */
module WalletLaws {
  import opened Domain
  import opened Wallet

  // ---------------------------------------------------------------- non-negative buckets

  ghost predicate NonNegative(w: Wallets) {
    forall key :: key in w.balances ==> w.balances[key].available >= 0.0 && w.balances[key].locked >= 0.0
  }

  // ---------------------------------------------------------------- the ledger

  /** The balance the latest entry of a key shows; nothing recorded is a zero balance. */
  function LatestBalance(ledger: seq<LedgerEntry>, key: WalletKey): Decimal {
    if ledger == [] then 0.0
    else if ledger[|ledger| - 1].key == key then ledger[|ledger| - 1].balanceAfter
    else LatestBalance(ledger[..|ledger| - 1], key)
  }

  ghost predicate LedgerAgreesBut(w: Wallets, stale: set<WalletKey>) {
    forall key :: key !in stale ==> LatestBalance(w.ledger, key) == BalanceOf(w, key).available
  }

  ghost predicate LedgerAgrees(w: Wallets) {
    LedgerAgreesBut(w, {})
  }

  lemma Appended(ledger: seq<LedgerEntry>, entry: LedgerEntry)
    ensures forall key :: LatestBalance(ledger + [entry], key)
                       == if key == entry.key then entry.balanceAfter else LatestBalance(ledger, key)
  {
    assert (ledger + [entry])[..|ledger|] == ledger;
  }

  /** Setting a balance makes its ledger stale; recording it makes the ledger current. */
  lemma SetMakesStale(w: Wallets, key: WalletKey, b: Balance, stale: set<WalletKey>)
    requires LedgerAgreesBut(w, stale)
    ensures LedgerAgreesBut(SetBalance(w, key, b), stale + {key})
    ensures b.available == BalanceOf(w, key).available ==> LedgerAgreesBut(SetBalance(w, key, b), stale)
  {
  }

  lemma RecordRefreshes(w: Wallets, m: Mutation, kind: TransactionType, stale: set<WalletKey>)
    requires LedgerAgreesBut(w, stale)
    ensures LedgerAgreesBut(Record(w, m, kind), stale - {m.key})
  {
    Appended(w.ledger, LedgerEntry(m.key, kind, m.amount, BalanceOf(w, m.key).available, m.referenceId));
  }

  // ---------------------------------------------------------------- totals

  /** A key's share of an asset's total. */
  function Holding(w: map<WalletKey, Balance>, key: WalletKey, asset: Asset): Decimal {
    if key in w && key.asset == asset then w[key].available + w[key].locked else 0.0
  }

  ghost function TotalOver(keys: set<WalletKey>, w: map<WalletKey, Balance>, asset: Asset): Decimal {
    if keys == {} then 0.0
    else
      var key :| key in keys;
      Holding(w, key, asset) + TotalOver(keys - {key}, w, asset)
  }

  ghost function TotalOf(w: Wallets, asset: Asset): Decimal {
    TotalOver(w.balances.Keys, w.balances, asset)
  }

  lemma {:induction false} TotalRemove(keys: set<WalletKey>, w: map<WalletKey, Balance>, asset: Asset, key: WalletKey)
    requires key in keys
    ensures TotalOver(keys, w, asset) == Holding(w, key, asset) + TotalOver(keys - {key}, w, asset)
  {
    var first :| first in keys && TotalOver(keys, w, asset) == Holding(w, first, asset) + TotalOver(keys - {first}, w, asset);
    if first != key {
      TotalRemove(keys - {first}, w, asset, key);
      TotalRemove(keys - {key}, w, asset, first);
      assert keys - {first} - {key} == keys - {key} - {first};
    }
  }

  lemma {:induction false} TotalDepends(keys: set<WalletKey>, v: map<WalletKey, Balance>, w: map<WalletKey, Balance>, asset: Asset)
    requires forall key :: key in keys ==> Holding(v, key, asset) == Holding(w, key, asset)
    ensures TotalOver(keys, v, asset) == TotalOver(keys, w, asset)
  {
    if keys != {} {
      var key :| key in keys;
      TotalRemove(keys, v, asset, key);
      TotalRemove(keys, w, asset, key);
      TotalDepends(keys - {key}, v, w, asset);
    }
  }

  /** Changing one balance changes its asset's total by the difference. */
  lemma SetChangesTotal(w: Wallets, key: WalletKey, b: Balance, asset: Asset)
    ensures TotalOf(SetBalance(w, key, b), asset)
         == TotalOf(w, asset) + (if key.asset == asset then b.available + b.locked - BalanceOf(w, key).available - BalanceOf(w, key).locked else 0.0)
  {
    var after := SetBalance(w, key, b).balances;
    var others := w.balances.Keys - {key};
    assert after.Keys == w.balances.Keys + {key};
    assert after.Keys - {key} == others;
    TotalRemove(after.Keys, after, asset, key);
    TotalDepends(others, after, w.balances, asset);
    if key in w.balances {
      TotalRemove(w.balances.Keys, w.balances, asset, key);
    } else {
      assert others == w.balances.Keys;
    }
  }

  // ---------------------------------------------------------------- one step

  /** The three promises of a wallet. */
  ghost predicate Sound(w: Wallets) {
    NonNegative(w) && LedgerAgrees(w)
  }

  /** A leg that succeeds moves its bucket by its amount and its asset's total with it. */
  lemma LegLaws(w: Wallets, leg: Leg, referenceId: Id, asset: Asset)
    requires Sound(w)
    ensures var after := ApplyLeg(w, leg, referenceId);
            after.Done? ==>
              && Sound(after.wallets)
              && TotalOf(after.wallets, asset) == TotalOf(w, asset) + (if leg.key.asset == asset then leg.amount else 0.0)
  {
    var after := ApplyLeg(w, leg, referenceId);
    if after.Done? {
      var b := BalanceOf(w, leg.key);
      var next := if leg.bucket.Available? then b.(available := b.available + leg.amount) else b.(locked := b.locked + leg.amount);
      SetMakesStale(w, leg.key, next, {});
      RecordRefreshes(SetBalance(w, leg.key, next), Mutation(leg.key, leg.amount, referenceId), TradeSettlement, {leg.key});
      SetChangesTotal(w, leg.key, next, asset);
    }
  }

  function LegTotal(legs: seq<Leg>, asset: Asset): Decimal {
    if legs == [] then 0.0 else (if legs[0].key.asset == asset then legs[0].amount else 0.0) + LegTotal(legs[1..], asset)
  }

  lemma {:induction false} LegsLaws(w: Wallets, legs: seq<Leg>, referenceId: Id, asset: Asset)
    requires Sound(w)
    ensures var after := ApplyLegs(w, legs, referenceId);
            after.Done? ==> Sound(after.wallets) && TotalOf(after.wallets, asset) == TotalOf(w, asset) + LegTotal(legs, asset)
    decreases |legs|
  {
    if legs != [] {
      var first := ApplyLeg(w, legs[0], referenceId);
      LegLaws(w, legs[0], referenceId, asset);
      if first.Done? {
        LegsLaws(first.wallets, legs[1..], referenceId, asset);
      }
    }
  }

  lemma SettlementTotal(s: Settlement, asset: Asset)
    ensures LegTotal(Legs(s), asset) == if asset == s.quoteAsset then -(s.makerFee + s.takerFee) else 0.0
  {
    var legs := Legs(s);
    assert |legs| == 4 && legs == [legs[0], legs[1], legs[2], legs[3]];
    FourLegs(legs[0], legs[1], legs[2], legs[3], asset);
    assert LegTotal(legs, asset) == LegTotal([legs[0], legs[1], legs[2], legs[3]], asset);
  }

  lemma FourLegs(a: Leg, b: Leg, c: Leg, d: Leg, asset: Asset)
    ensures LegTotal([a, b, c, d], asset)
         == (if a.key.asset == asset then a.amount else 0.0) + (if b.key.asset == asset then b.amount else 0.0)
          + (if c.key.asset == asset then c.amount else 0.0) + (if d.key.asset == asset then d.amount else 0.0)
  {
    assert [a, b, c, d][1..] == [b, c, d];
    assert [b, c, d][1..] == [c, d];
    assert [c, d][1..] == [d];
    assert [d][1..] == [];
    assert LegTotal([d], asset) == if d.key.asset == asset then d.amount else 0.0;
    assert LegTotal([c, d], asset) == (if c.key.asset == asset then c.amount else 0.0) + LegTotal([d], asset);
    assert LegTotal([b, c, d], asset) == (if b.key.asset == asset then b.amount else 0.0) + LegTotal([c, d], asset);
  }

  /** A settlement, of any amounts, keeps the wallet sound and every total but the quote
      asset's, which falls by exactly the two fees, whichever side made the trade. */
  lemma SettleTradeLaws(w: Wallets, users: Users, s: Settlement, asset: Asset)
    requires Sound(w)
    ensures var after := SettleTrade(w, users, s);
            after.Done? ==>
              && Sound(after.wallets)
              && TotalOf(after.wallets, asset) == TotalOf(w, asset) - (if asset == s.quoteAsset then s.makerFee + s.takerFee else 0.0)
  {
    LegsLaws(w, Legs(s), s.referenceId, asset);
    SettlementTotal(s, asset);
  }

  lemma CreditLaws(w: Wallets, users: Users, m: Mutation, kind: TransactionType, asset: Asset)
    requires Sound(w)
    ensures var after := Credit(w, users, m, kind);
            after.Done? ==>
              && Sound(after.wallets)
              && TotalOf(after.wallets, asset) == TotalOf(w, asset) + (if m.key.asset == asset then m.amount else 0.0)
  {
    var b := BalanceOf(w, m.key);
    var next := b.(available := b.available + m.amount);
    SetMakesStale(w, m.key, next, {});
    RecordRefreshes(SetBalance(w, m.key, next), m, kind, {m.key});
    SetChangesTotal(w, m.key, next, asset);
  }

  /** Lock and unlock are one balance change in two steps. */
  lemma MoveLaws(w: Wallets, m: Mutation, first: Balance, second: Balance, asset: Asset)
    requires Sound(w)
    requires second.available + second.locked == BalanceOf(w, m.key).available + BalanceOf(w, m.key).locked
    ensures var after := Record(SetBalance(SetBalance(w, m.key, first), m.key, second), m, TradeSettlement);
            && LedgerAgrees(after)
            && TotalOf(after, asset) == TotalOf(w, asset)
            && (NonNegative(after) <==> second.available >= 0.0 && second.locked >= 0.0)
  {
    var set1 := SetBalance(w, m.key, first);
    var set2 := SetBalance(set1, m.key, second);
    SetMakesStale(w, m.key, first, {});
    SetMakesStale(set1, m.key, second, {m.key});
    assert {m.key} + {m.key} == {m.key};
    RecordRefreshes(set2, m, TradeSettlement, {m.key});
    SetChangesTotal(w, m.key, first, asset);
    SetChangesTotal(set1, m.key, second, asset);
    assert set2.balances[m.key] == second;
  }

  /** Locking keeps totals and ledger; it keeps the buckets non-negative exactly when the
      locked bucket can take the amount, which only a negative amount can prevent. */
  lemma LockLaws(w: Wallets, users: Users, m: Mutation, asset: Asset)
    requires Sound(w)
    ensures var after := Lock(w, users, m);
            after.Done? ==>
              && LedgerAgrees(after.wallets) && TotalOf(after.wallets, asset) == TotalOf(w, asset)
              && (NonNegative(after.wallets) <==> BalanceOf(w, m.key).locked + m.amount >= 0.0)
  {
    var b := BalanceOf(w, m.key);
    var first := b.(available := b.available - m.amount);
    var second := first.(locked := b.locked + m.amount);
    MoveLaws(w, m, first, second, asset);
    if Lock(w, users, m).Done? {
      assert Lock(w, users, m).wallets == Record(SetBalance(SetBalance(w, m.key, first), m.key, second), m, TradeSettlement);
    }
  }

  lemma UnlockLaws(w: Wallets, users: Users, m: Mutation, asset: Asset)
    requires Sound(w)
    ensures var after := Unlock(w, users, m);
            after.Done? ==>
              && LedgerAgrees(after.wallets) && TotalOf(after.wallets, asset) == TotalOf(w, asset)
              && (NonNegative(after.wallets) <==> BalanceOf(w, m.key).available + m.amount >= 0.0)
  {
    var b := BalanceOf(w, m.key);
    var first := b.(locked := b.locked - m.amount);
    var second := first.(available := b.available + m.amount);
    MoveLaws(w, m, first, second, asset);
    if Unlock(w, users, m).Done? {
      assert Unlock(w, users, m).wallets == Record(SetBalance(SetBalance(w, m.key, first), m.key, second), m, TradeSettlement);
    }
  }

  /** What a transfer sets: the debited balance, and then the credited one. */
  function Debited(w: Wallets, m: Mutation): Wallets {
    SetBalance(w, m.key, BalanceOf(w, m.key).(available := BalanceOf(w, m.key).available - m.amount))
  }

  function Credited(w: Wallets, m: Mutation): Wallets {
    SetBalance(w, m.key, BalanceOf(w, m.key).(available := BalanceOf(w, m.key).available + m.amount))
  }

  /** Both balances moved and both entries written. */
  function Transferred(w: Wallets, m: Mutation, to: Mutation): Wallets {
    var entry := LedgerEntry(m.key, InternalTransfer, m.amount, BalanceOf(Debited(w, m), m.key).available, m.referenceId);
    var moved := Credited(Debited(w, m), to);
    Record(moved.(ledger := moved.ledger + [entry]), to, InternalTransfer)
  }

  lemma MovedTotals(w: Wallets, m: Mutation, to: Mutation, asset: Asset)
    requires to == m.(key := to.key) && to.key.asset == m.key.asset
    ensures TotalOf(Credited(Debited(w, m), to), asset) == TotalOf(w, asset)
  {
    var b, c := BalanceOf(w, m.key), BalanceOf(Debited(w, m), to.key);
    SetChangesTotal(w, m.key, b.(available := b.available - m.amount), asset);
    SetChangesTotal(Debited(w, m), to.key, c.(available := c.available + m.amount), asset);
  }

  /** The ledger after both entries of a transfer shows both balances. */
  lemma MovedLedger(w: Wallets, m: Mutation, to: Mutation)
    requires LedgerAgrees(w)
    ensures LedgerAgrees(Transferred(w, m, to))
  {
    var b, c := BalanceOf(w, m.key), BalanceOf(Debited(w, m), to.key);
    SetMakesStale(w, m.key, b.(available := b.available - m.amount), {});
    SetMakesStale(Debited(w, m), to.key, c.(available := c.available + m.amount), {m.key});
    var entry := LedgerEntry(m.key, InternalTransfer, m.amount, BalanceOf(Debited(w, m), m.key).available, m.referenceId);
    var moved := Credited(Debited(w, m), to);
    Appended(moved.ledger, entry);
    var logged := moved.(ledger := moved.ledger + [entry]);
    assert LedgerAgreesBut(logged, {to.key});
    RecordRefreshes(logged, to, InternalTransfer, {to.key});
    assert {to.key} - {to.key} == {};
  }

  /** A transfer keeps every total, also when both users are the same. */
  lemma TransferLaws(w: Wallets, users: Users, m: Mutation, toUserId: Id, asset: Asset)
    requires Sound(w)
    ensures var after := Transfer(w, users, m, toUserId);
            after.Done? ==> Sound(after.wallets) && TotalOf(after.wallets, asset) == TotalOf(w, asset)
  {
    var to := m.(key := m.key.(userId := toUserId));
    TransferMoves(w, users, m, toUserId);
    hide Transfer, TotalOf, LedgerAgrees, NonNegative, Debited, Credited, Record;
    if Transfer(w, users, m, toUserId).Done? {
      MovedTotals(w, m, to, asset);
      MovedLedger(w, m, to);
      RecordKeepsTotals(w, Credited(Debited(w, m), to), m, to, asset);
    }
  }

  lemma TransferMoves(w: Wallets, users: Users, m: Mutation, toUserId: Id)
    requires NonNegative(w)
    ensures var after := Transfer(w, users, m, toUserId);
            var to := m.(key := m.key.(userId := toUserId));
            after.Done? ==> NonNegative(after.wallets) && after.wallets == Transferred(w, m, to)
  {
  }

  lemma RecordKeepsTotals(w: Wallets, moved: Wallets, m: Mutation, to: Mutation, asset: Asset)
    requires moved == Credited(Debited(w, m), to)
    ensures TotalOf(Transferred(w, m, to), asset) == TotalOf(moved, asset)
  {
  }

  // ---------------------------------------------------------------- runs

  datatype WalletOp =
    | CreditOp(m: Mutation, kind: TransactionType)
    | DebitOp(m: Mutation, kind: TransactionType)
    | LockOp(m: Mutation)
    | UnlockOp(m: Mutation)
    | TransferOp(m: Mutation, toUserId: Id)
    | SettleOp(s: Settlement)

  function Attempt(w: Wallets, users: Users, op: WalletOp): Outcome {
    match op
    case CreditOp(m, kind) => Credit(w, users, m, kind)
    case DebitOp(m, kind) => Debit(w, users, m, kind)
    case LockOp(m) => Lock(w, users, m)
    case UnlockOp(m) => Unlock(w, users, m)
    case TransferOp(m, toUserId) => Transfer(w, users, m, toUserId)
    case SettleOp(s) => SettleTrade(w, users, s)
  }

  /** A failed operation rolls back. */
  function After(w: Wallets, users: Users, op: WalletOp): Wallets {
    var outcome := Attempt(w, users, op);
    if outcome.Done? then outcome.wallets else w
  }

  /** What an operation that succeeds adds to an asset's total. */
  function Flow(w: Wallets, users: Users, op: WalletOp, asset: Asset): Decimal {
    if Attempt(w, users, op).Failed? then 0.0
    else match op
      case CreditOp(m, _) => if m.key.asset == asset then m.amount else 0.0
      case DebitOp(m, _) => if m.key.asset == asset then -m.amount else 0.0
      case SettleOp(s) => if s.quoteAsset == asset then -(s.makerFee + s.takerFee) else 0.0
      case _ => 0.0
  }

  ghost predicate AmountsOk(op: WalletOp) {
    (op.LockOp? ==> op.m.amount >= 0.0) && (op.UnlockOp? ==> op.m.amount >= 0.0)
  }

  lemma StepLaws(w: Wallets, users: Users, op: WalletOp, asset: Asset)
    requires Sound(w) && AmountsOk(op)
    ensures Sound(After(w, users, op))
    ensures TotalOf(After(w, users, op), asset) == TotalOf(w, asset) + Flow(w, users, op, asset)
  {
    match op
    case CreditOp(m, kind) => CreditLaws(w, users, m, kind, asset);
    case DebitOp(m, kind) => CreditLaws(w, users, m.(amount := -m.amount), kind, asset);
    case LockOp(m) => LockLaws(w, users, m, asset);
    case UnlockOp(m) => UnlockLaws(w, users, m, asset);
    case TransferOp(m, toUserId) => TransferLaws(w, users, m, toUserId, asset);
    case SettleOp(s) => SettleTradeLaws(w, users, s, asset);
  }

  function RunWallet(w: Wallets, users: Users, ops: seq<WalletOp>): Wallets
    decreases |ops|
  {
    if ops == [] then w else RunWallet(After(w, users, ops[0]), users, ops[1..])
  }

  function NetFlow(w: Wallets, users: Users, ops: seq<WalletOp>, asset: Asset): Decimal
    decreases |ops|
  {
    if ops == [] then 0.0 else Flow(w, users, ops[0], asset) + NetFlow(After(w, users, ops[0]), users, ops[1..], asset)
  }

  /** Over every run: buckets non-negative, ledger and balances in agreement, and each
      asset's total moved only by credits, debits and the fees of settlements. */
  lemma {:induction false} RunConserves(w: Wallets, users: Users, ops: seq<WalletOp>, asset: Asset)
    requires Sound(w) && forall op :: op in ops ==> AmountsOk(op)
    ensures Sound(RunWallet(w, users, ops))
    ensures TotalOf(RunWallet(w, users, ops), asset) == TotalOf(w, asset) + NetFlow(w, users, ops, asset)
    decreases |ops|
  {
    if ops != [] {
      assert ops[0] in ops && forall op :: op in ops[1..] ==> op in ops;
      StepLaws(w, users, ops[0], asset);
      RunConserves(After(w, users, ops[0]), users, ops[1..], asset);
    }
  }
}
