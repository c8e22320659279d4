/** The wallet: an available and a locked bucket a user and asset, a ledger, and operations
    that run as transactions, so a failed one leaves no trace. */
module Wallet {
  import opened Domain

  type Asset = string

  datatype UserStatus = PendingEmail | Active | Frozen | Closed

  type Users = map<Id, UserStatus>

  datatype Balance = Balance(available: Decimal, locked: Decimal)

  datatype WalletKey = WalletKey(userId: Id, asset: Asset)

  datatype TransactionType = Deposit | Withdrawal | TradeSettlement | InternalTransfer

  datatype LedgerEntry = LedgerEntry(key: WalletKey, kind: TransactionType, amount: Decimal, balanceAfter: Decimal, referenceId: Id)

  datatype Wallets = Wallets(balances: map<WalletKey, Balance>, ledger: seq<LedgerEntry>)

  datatype WalletError = UserNotFound | AccountNotActive | NegativeBalance

  /** What a transaction returns; Failed means everything was rolled back. */
  datatype Outcome = Done(wallets: Wallets) | Failed(error: WalletError)

  /** Credit, debit, lock and unlock all take one of these. */
  datatype Mutation = Mutation(key: WalletKey, amount: Decimal, referenceId: Id)

  datatype Settlement = Settlement(
    makerUserId: Id,
    takerUserId: Id,
    makerSide: Side,
    baseAsset: Asset,
    quoteAsset: Asset,
    price: Decimal,
    quantity: Decimal,
    makerFee: Decimal,
    takerFee: Decimal,
    referenceId: Id)

  datatype Bucket = Available | Locked

  datatype Leg = Leg(key: WalletKey, amount: Decimal, bucket: Bucket)

  // ---------------------------------------------------------------- the steps of a transaction

  function BalanceOf(w: Wallets, key: WalletKey): Balance {
    if key in w.balances then w.balances[key] else Balance(0.0, 0.0)
  }

  function Refused(users: Users, userId: Id): Option<WalletError> {
    if userId !in users then Some(UserNotFound)
    else if users[userId].Frozen? || users[userId].Closed? then Some(AccountNotActive)
    else None
  }

  function SetBalance(w: Wallets, key: WalletKey, balance: Balance): Wallets {
    w.(balances := w.balances[key := balance])
  }

  function AdjustAvailable(w: Wallets, key: WalletKey, amount: Decimal): Outcome {
    var b := BalanceOf(w, key);
    if b.available + amount < 0.0 then Failed(NegativeBalance)
    else Done(SetBalance(w, key, b.(available := b.available + amount)))
  }

  function AdjustLocked(w: Wallets, key: WalletKey, amount: Decimal): Outcome {
    var b := BalanceOf(w, key);
    if b.locked + amount < 0.0 then Failed(NegativeBalance)
    else Done(SetBalance(w, key, b.(locked := b.locked + amount)))
  }

  /** The ledger entry shows the available balance as it stands. */
  function Record(w: Wallets, m: Mutation, kind: TransactionType): Wallets {
    w.(ledger := w.ledger + [LedgerEntry(m.key, kind, m.amount, BalanceOf(w, m.key).available, m.referenceId)])
  }

  function ApplyLeg(w: Wallets, leg: Leg, referenceId: Id): Outcome {
    var adjusted := if leg.bucket.Available? then AdjustAvailable(w, leg.key, leg.amount)
                    else AdjustLocked(w, leg.key, leg.amount);
    if adjusted.Failed? then adjusted
    else Done(Record(adjusted.wallets, Mutation(leg.key, leg.amount, referenceId), TradeSettlement))
  }

  function ApplyLegs(w: Wallets, legs: seq<Leg>, referenceId: Id): Outcome
    decreases |legs|
  {
    if legs == [] then Done(w)
    else
      var first := ApplyLeg(w, legs[0], referenceId);
      if first.Failed? then first else ApplyLegs(first.wallets, legs[1..], referenceId)
  }

  // ---------------------------------------------------------------- the operations

  function Credit(w: Wallets, users: Users, m: Mutation, kind: TransactionType): Outcome {
    var refused := Refused(users, m.key.userId);
    if refused.Some? then Failed(refused.value)
    else
      var adjusted := AdjustAvailable(w, m.key, m.amount);
      if adjusted.Failed? then adjusted else Done(Record(adjusted.wallets, m, kind))
  }

  function Debit(w: Wallets, users: Users, m: Mutation, kind: TransactionType): Outcome {
    Credit(w, users, m.(amount := -m.amount), kind)
  }

  /** Moves from available to locked; only the available bucket is checked. */
  function Lock(w: Wallets, users: Users, m: Mutation): Outcome {
    var refused := Refused(users, m.key.userId);
    if refused.Some? then Failed(refused.value)
    else
      var adjusted := AdjustAvailable(w, m.key, -m.amount);
      if adjusted.Failed? then adjusted
      else
        var b := BalanceOf(adjusted.wallets, m.key);
        Done(Record(SetBalance(adjusted.wallets, m.key, b.(locked := b.locked + m.amount)), m, TradeSettlement))
  }

  /** Moves from locked to available; only the locked bucket is checked. */
  function Unlock(w: Wallets, users: Users, m: Mutation): Outcome {
    var refused := Refused(users, m.key.userId);
    if refused.Some? then Failed(refused.value)
    else
      var adjusted := AdjustLocked(w, m.key, -m.amount);
      if adjusted.Failed? then adjusted
      else
        var b := BalanceOf(adjusted.wallets, m.key);
        Done(Record(SetBalance(adjusted.wallets, m.key, b.(available := b.available + m.amount)), m, TradeSettlement))
  }

  function Transfer(w: Wallets, users: Users, m: Mutation, toUserId: Id): Outcome {
    var refused := if Refused(users, m.key.userId).Some? then Refused(users, m.key.userId) else Refused(users, toUserId);
    if refused.Some? then Failed(refused.value)
    else
      var to := m.(key := m.key.(userId := toUserId));
      var debited := AdjustAvailable(w, m.key, -m.amount);
      if debited.Failed? then debited
      else
        var credited := AdjustAvailable(debited.wallets, to.key, m.amount);
        if credited.Failed? then credited
        else
          var entry := LedgerEntry(m.key, InternalTransfer, m.amount, BalanceOf(debited.wallets, m.key).available, m.referenceId);
          Done(Record(credited.wallets.(ledger := credited.wallets.ledger + [entry]), to, InternalTransfer))
  }

  /** Four legs, seller's base and buyer's quote out of the locked buckets. */
  function Legs(s: Settlement): seq<Leg> {
    var quoteAmount := s.price * s.quantity;
    var makerBase, makerQuote := WalletKey(s.makerUserId, s.baseAsset), WalletKey(s.makerUserId, s.quoteAsset);
    var takerBase, takerQuote := WalletKey(s.takerUserId, s.baseAsset), WalletKey(s.takerUserId, s.quoteAsset);
    if s.makerSide.Sell? then
      [Leg(makerBase, -s.quantity, Locked),
       Leg(makerQuote, quoteAmount - s.makerFee, Available),
       Leg(takerQuote, -(quoteAmount + s.takerFee), Locked),
       Leg(takerBase, s.quantity, Available)]
    else
      [Leg(makerQuote, -(quoteAmount + s.makerFee), Locked),
       Leg(makerBase, s.quantity, Available),
       Leg(takerBase, -s.quantity, Locked),
       Leg(takerQuote, quoteAmount - s.takerFee, Available)]
  }

  function SettleTrade(w: Wallets, users: Users, s: Settlement): Outcome {
    var refused := if Refused(users, s.makerUserId).Some? then Refused(users, s.makerUserId) else Refused(users, s.takerUserId);
    if refused.Some? then Failed(refused.value) else ApplyLegs(w, Legs(s), s.referenceId)
  }
}
