/** The wallet service as it is stored: balances and a ledger changed in place, inside
    transactions that restore both when a step fails. */
module WalletServices {
  import opened Domain
  import opened Wallet

  /** What a caller sees of an outcome. */
  function ErrorOf(outcome: Outcome): Option<WalletError> {
    if outcome.Failed? then Some(outcome.error) else None
  }

  /** The stored state after a transaction that started from w. */
  function Committed(w: Wallets, outcome: Outcome): Wallets {
    if outcome.Done? then outcome.wallets else w
  }

  class WalletService {
    var balances: map<WalletKey, Balance>
    var ledger: seq<LedgerEntry>
    const users: Users

    constructor (users: Users)
      ensures View() == Wallets(map[], []) && this.users == users
    {
      balances, ledger := map[], [];
      this.users := users;
    }

    function View(): Wallets
      reads this
    {
      Wallets(balances, ledger)
    }

    method SetTo(key: WalletKey, balance: Balance)
      modifies this`balances
      ensures View() == SetBalance(old(View()), key, balance)
    {
      balances := balances[key := balance];
    }

    method TryAvailable(key: WalletKey, amount: Decimal) returns (ok: bool)
      modifies this`balances
      ensures var o := AdjustAvailable(old(View()), key, amount);
              ok == o.Done? && View() == Committed(old(View()), o)
    {
      var current := BalanceOf(View(), key);
      var next := current.available + amount;
      ok := next >= 0.0;
      if ok {
        SetTo(key, current.(available := next));
      }
    }

    method TryLocked(key: WalletKey, amount: Decimal) returns (ok: bool)
      modifies this`balances
      ensures var o := AdjustLocked(old(View()), key, amount);
              ok == o.Done? && View() == Committed(old(View()), o)
    {
      var current := BalanceOf(View(), key);
      var next := current.locked + amount;
      ok := next >= 0.0;
      if ok {
        SetTo(key, current.(locked := next));
      }
    }

    method AddRecord(m: Mutation, kind: TransactionType)
      modifies this`ledger
      ensures View() == Record(old(View()), m, kind)
    {
      ledger := ledger + [LedgerEntry(m.key, kind, m.amount, BalanceOf(View(), m.key).available, m.referenceId)];
    }

    method Credit(m: Mutation, kind: TransactionType) returns (error: Option<WalletError>)
      modifies this
      ensures var o := Wallet.Credit(old(View()), users, m, kind);
              error == ErrorOf(o) && View() == Committed(old(View()), o)
    {
      error := Refused(users, m.key.userId);
      if error.Some? {
        return;
      }
      var ok := TryAvailable(m.key, m.amount);
      if !ok {
        return Some(NegativeBalance);
      }
      AddRecord(m, kind);
    }

    method Debit(m: Mutation, kind: TransactionType) returns (error: Option<WalletError>)
      modifies this
      ensures var o := Wallet.Debit(old(View()), users, m, kind);
              error == ErrorOf(o) && View() == Committed(old(View()), o)
    {
      error := Credit(m.(amount := -m.amount), kind);
    }

    method Lock(m: Mutation) returns (error: Option<WalletError>)
      modifies this
      ensures var o := Wallet.Lock(old(View()), users, m);
              error == ErrorOf(o) && View() == Committed(old(View()), o)
    {
      error := Refused(users, m.key.userId);
      if error.Some? {
        return;
      }
      var ok := TryAvailable(m.key, -m.amount);
      if !ok {
        return Some(NegativeBalance);
      }
      var b := BalanceOf(View(), m.key);
      SetTo(m.key, b.(locked := b.locked + m.amount));
      AddRecord(m, TradeSettlement);
    }

    method Unlock(m: Mutation) returns (error: Option<WalletError>)
      modifies this
      ensures var o := Wallet.Unlock(old(View()), users, m);
              error == ErrorOf(o) && View() == Committed(old(View()), o)
    {
      error := Refused(users, m.key.userId);
      if error.Some? {
        return;
      }
      var ok := TryLocked(m.key, -m.amount);
      if !ok {
        return Some(NegativeBalance);
      }
      var b := BalanceOf(View(), m.key);
      SetTo(m.key, b.(available := b.available + m.amount));
      AddRecord(m, TradeSettlement);
    }

    /** Debits one user and credits the other; a failed credit also takes back the debit. */
    method InternalTransfer(m: Mutation, toUserId: Id) returns (error: Option<WalletError>)
      modifies this
      ensures var o := Transfer(old(View()), users, m, toUserId);
              error == ErrorOf(o) && View() == Committed(old(View()), o)
    {
      error := if Refused(users, m.key.userId).Some? then Refused(users, m.key.userId) else Refused(users, toUserId);
      if error.Some? {
        return;
      }
      var saved := balances;
      var to := m.(key := m.key.(userId := toUserId));
      var ok := TryAvailable(m.key, -m.amount);
      if !ok {
        return Some(NegativeBalance);
      }
      var debited := BalanceOf(View(), m.key).available;
      ok := TryAvailable(to.key, m.amount);
      if !ok {
        balances := saved;
        return Some(NegativeBalance);
      }
      ledger := ledger + [LedgerEntry(m.key, TransactionType.InternalTransfer, m.amount, debited, m.referenceId)];
      AddRecord(to, TransactionType.InternalTransfer);
    }

    method TryLeg(leg: Leg, referenceId: Id) returns (ok: bool)
      modifies this
      ensures var o := ApplyLeg(old(View()), leg, referenceId);
              ok == o.Done? && (ok ==> View() == o.wallets)
    {
      if leg.bucket.Available? {
        ok := TryAvailable(leg.key, leg.amount);
      } else {
        ok := TryLocked(leg.key, leg.amount);
      }
      if ok {
        AddRecord(Mutation(leg.key, leg.amount, referenceId), TradeSettlement);
      }
    }

    /** Applies the four legs one after the other; the first that fails undoes them all. */
    method SettleTrade(s: Settlement) returns (error: Option<WalletError>)
      modifies this
      ensures var o := Wallet.SettleTrade(old(View()), users, s);
              error == ErrorOf(o) && View() == Committed(old(View()), o)
    {
      error := if Refused(users, s.makerUserId).Some? then Refused(users, s.makerUserId) else Refused(users, s.takerUserId);
      if error.Some? {
        return;
      }
      var savedBalances, savedLedger := balances, ledger;
      var legs := Legs(s);
      var i := 0;
      while i < |legs|
        invariant i <= |legs|
        invariant ApplyLegs(View(), legs[i..], s.referenceId) == ApplyLegs(old(View()), legs, s.referenceId)
      {
        assert legs[i..][0] == legs[i] && legs[i..][1..] == legs[i + 1..];
        LegFailsSo(View(), legs[i], s.referenceId);
        var ok := TryLeg(legs[i], s.referenceId);
        if !ok {
          balances, ledger := savedBalances, savedLedger;
          return Some(NegativeBalance);
        }
        i := i + 1;
      }
    }
  }

  lemma LegFailsSo(w: Wallets, leg: Leg, referenceId: Id)
    ensures ApplyLeg(w, leg, referenceId).Failed? ==> ApplyLeg(w, leg, referenceId) == Failed(NegativeBalance)
  {
  }
}
