/** What every wallet operation moves, bucket by bucket: when it goes through, whose balance it
    changes and by how much, and what it writes in the ledger. */
module WalletMoves {
  import opened Domain
  import opened Wallet

  // ---------------------------------------------------------------- who may use a wallet

  predicate MayUse(users: Users, userId: Id) {
    userId in users && (users[userId].PendingEmail? || users[userId].Active?)
  }

  lemma RefusedExactly(users: Users, userId: Id)
    ensures Refused(users, userId).None? <==> MayUse(users, userId)
    ensures Refused(users, userId) == Some(UserNotFound) <==> userId !in users
    ensures Refused(users, userId) == Some(AccountNotActive) <==> userId in users && (users[userId].Frozen? || users[userId].Closed?)
  {
  }

  // ---------------------------------------------------------------- one balance

  /** One balance is this afterwards, and every other is what it was. */
  ghost predicate OnlyAt(before: Wallets, after: Wallets, key: WalletKey, balance: Balance) {
    BalanceOf(after, key) == balance && forall k :: k != key ==> BalanceOf(after, k) == BalanceOf(before, k)
  }

  /** A credit, or with a negative amount a debit: refused to those who may not use a wallet,
      and when it would leave less than nothing available. */
  lemma CreditExactly(w: Wallets, users: Users, m: Mutation, kind: TransactionType)
    ensures var after, b := Credit(w, users, m, kind), BalanceOf(w, m.key);
            && (after.Done? <==> MayUse(users, m.key.userId) && b.available + m.amount >= 0.0)
            && (after.Failed? && MayUse(users, m.key.userId) ==> after.error == NegativeBalance)
            && (after.Done? ==>
                  && OnlyAt(w, after.wallets, m.key, Balance(b.available + m.amount, b.locked))
                  && after.wallets.ledger == w.ledger + [LedgerEntry(m.key, kind, m.amount, b.available + m.amount, m.referenceId)])
  {
  }

  lemma DebitExactly(w: Wallets, users: Users, m: Mutation, kind: TransactionType)
    ensures var after, b := Debit(w, users, m, kind), BalanceOf(w, m.key);
            && (after.Done? <==> MayUse(users, m.key.userId) && m.amount <= b.available)
            && (after.Failed? && MayUse(users, m.key.userId) ==> after.error == NegativeBalance)
            && (after.Done? ==>
                  && OnlyAt(w, after.wallets, m.key, Balance(b.available - m.amount, b.locked))
                  && after.wallets.ledger == w.ledger + [LedgerEntry(m.key, kind, -m.amount, b.available - m.amount, m.referenceId)])
  {
  }

  lemma LockExactly(w: Wallets, users: Users, m: Mutation)
    ensures var after, b := Lock(w, users, m), BalanceOf(w, m.key);
            && (after.Done? <==> MayUse(users, m.key.userId) && m.amount <= b.available)
            && (after.Failed? && MayUse(users, m.key.userId) ==> after.error == NegativeBalance)
            && (after.Done? ==>
                  && OnlyAt(w, after.wallets, m.key, Balance(b.available - m.amount, b.locked + m.amount))
                  && after.wallets.ledger
                     == w.ledger + [LedgerEntry(m.key, TradeSettlement, m.amount, b.available - m.amount, m.referenceId)])
  {
  }

  lemma UnlockExactly(w: Wallets, users: Users, m: Mutation)
    ensures var after, b := Unlock(w, users, m), BalanceOf(w, m.key);
            && (after.Done? <==> MayUse(users, m.key.userId) && m.amount <= b.locked)
            && (after.Failed? && MayUse(users, m.key.userId) ==> after.error == NegativeBalance)
            && (after.Done? ==>
                  && OnlyAt(w, after.wallets, m.key, Balance(b.available + m.amount, b.locked - m.amount))
                  && after.wallets.ledger
                     == w.ledger + [LedgerEntry(m.key, TradeSettlement, m.amount, b.available + m.amount, m.referenceId)])
  {
  }

  // ---------------------------------------------------------------- two balances

  /** A transfer takes from one available balance and gives to the other; to oneself it needs
      the amount and changes nothing. */
  lemma TransferExactly(w: Wallets, users: Users, m: Mutation, toUserId: Id)
    ensures var to := m.key.(userId := toUserId);
            var after := Transfer(w, users, m, toUserId);
            var from, other := BalanceOf(w, m.key).available, BalanceOf(w, to).available;
            && (after.Done? <==>
                  && MayUse(users, m.key.userId) && MayUse(users, toUserId) && m.amount <= from
                  && (if to == m.key then from >= 0.0 else other + m.amount >= 0.0))
            && (after.Failed? && MayUse(users, m.key.userId) && MayUse(users, toUserId) ==> after.error == NegativeBalance)
            && (after.Done? ==>
                  && (forall key :: BalanceOf(after.wallets, key).locked == BalanceOf(w, key).locked)
                  && (forall key :: BalanceOf(after.wallets, key).available
                                 == BalanceOf(w, key).available - (if key == m.key then m.amount else 0.0)
                                                                + (if key == to then m.amount else 0.0))
                  && after.wallets.ledger
                     == w.ledger + [LedgerEntry(m.key, InternalTransfer, m.amount, from - m.amount, m.referenceId),
                                    LedgerEntry(to, InternalTransfer, m.amount, BalanceOf(after.wallets, to).available, m.referenceId)])
  {
    var to := m.key.(userId := toUserId);
    var after := Transfer(w, users, m, toUserId);
    if after.Done? {
      var first := LedgerEntry(m.key, InternalTransfer, m.amount, BalanceOf(w, m.key).available - m.amount, m.referenceId);
      var second := LedgerEntry(to, InternalTransfer, m.amount, BalanceOf(after.wallets, to).available, m.referenceId);
      assert (w.ledger + [first]) + [second] == w.ledger + [first, second];
    }
  }

  // ---------------------------------------------------------------- legs of a settlement

  ghost predicate LegFits(w: Wallets, leg: Leg) {
    if leg.bucket.Available? then BalanceOf(w, leg.key).available + leg.amount >= 0.0
    else BalanceOf(w, leg.key).locked + leg.amount >= 0.0
  }

  /** A balance after a leg. */
  function Moved(b: Balance, leg: Leg, key: WalletKey): Balance {
    if leg.key != key then b
    else if leg.bucket.Available? then b.(available := b.available + leg.amount)
    else b.(locked := b.locked + leg.amount)
  }

  function MovedAll(b: Balance, legs: seq<Leg>, key: WalletKey): Balance
    decreases legs
  {
    if legs == [] then b else MovedAll(Moved(b, legs[0], key), legs[1..], key)
  }

  lemma LegExactly(w: Wallets, leg: Leg, referenceId: Id)
    ensures var after := ApplyLeg(w, leg, referenceId);
            && (after.Done? <==> LegFits(w, leg)) && (after.Failed? ==> after.error == NegativeBalance)
            && (after.Done? ==>
                  && (forall key :: BalanceOf(after.wallets, key) == Moved(BalanceOf(w, key), leg, key))
                  && after.wallets.ledger == w.ledger + [LedgerEntry(leg.key, TradeSettlement, leg.amount,
                                                                     Moved(BalanceOf(w, leg.key), leg, leg.key).available, referenceId)])
  {
  }

  /** No two legs of a list touch the same bucket. */
  ghost predicate Apart(legs: seq<Leg>) {
    forall i, j :: 0 <= i < j < |legs| ==> legs[i].key != legs[j].key || legs[i].bucket != legs[j].bucket
  }

  ghost predicate AllFit(w: Wallets, legs: seq<Leg>) {
    forall leg :: leg in legs ==> LegFits(w, leg)
  }

  ghost predicate IsEntry(e: LedgerEntry, key: WalletKey, amount: Decimal, referenceId: Id) {
    e.key == key && e.kind == TradeSettlement && e.amount == amount && e.referenceId == referenceId
  }

  /** The ledger after, entry by entry of what was added. */
  ghost predicate Written(before: seq<LedgerEntry>, after: seq<LedgerEntry>, legs: seq<Leg>, referenceId: Id) {
    && |after| == |before| + |legs| && after[..|before|] == before
    && forall i :: 0 <= i < |legs| ==> IsEntry(after[|before| + i], legs[i].key, legs[i].amount, referenceId)
  }

  lemma OthersStillFit(w: Wallets, after: Wallets, legs: seq<Leg>)
    requires legs != [] && Apart(legs)
    requires forall key :: BalanceOf(after, key) == Moved(BalanceOf(w, key), legs[0], key)
    ensures AllFit(after, legs[1..]) <==> AllFit(w, legs[1..])
    ensures Apart(legs[1..])
  {
    forall leg | leg in legs[1..] ensures LegFits(after, leg) <==> LegFits(w, leg) {
      var i :| 0 <= i < |legs[1..]| && legs[1..][i] == leg;
      assert legs[i + 1] == leg;
    }
  }

  lemma WrittenFirst(before: seq<LedgerEntry>, next: seq<LedgerEntry>, after: seq<LedgerEntry>, legs: seq<Leg>, referenceId: Id)
    requires legs != [] && |next| == |before| + 1 && next[..|before|] == before && Written(next, after, legs[1..], referenceId)
    requires IsEntry(next[|before|], legs[0].key, legs[0].amount, referenceId)
    ensures Written(before, after, legs, referenceId)
  {
    assert after[..|before|] == after[..|next|][..|before|];
    assert after[|before|] == after[..|next|][|before|];
    forall i | 0 <= i < |legs| ensures IsEntry(after[|before| + i], legs[i].key, legs[i].amount, referenceId) {
      if i > 0 {
        assert IsEntry(after[|next| + (i - 1)], legs[1..][i - 1].key, legs[1..][i - 1].amount, referenceId);
      }
    }
  }

  lemma {:induction false} LegsExactly(w: Wallets, legs: seq<Leg>, referenceId: Id)
    requires Apart(legs)
    ensures var after := ApplyLegs(w, legs, referenceId);
            && (after.Done? <==> AllFit(w, legs)) && (after.Failed? ==> after.error == NegativeBalance)
            && (after.Done? ==>
                  && (forall key :: BalanceOf(after.wallets, key) == MovedAll(BalanceOf(w, key), legs, key))
                  && Written(w.ledger, after.wallets.ledger, legs, referenceId))
    decreases |legs|
  {
    hide ApplyLeg, LegFits, Moved;
    if legs != [] {
      LegExactly(w, legs[0], referenceId);
      assert AllFit(w, legs) <==> LegFits(w, legs[0]) && AllFit(w, legs[1..]) by {
        assert legs == [legs[0]] + legs[1..];
      }
      var first := ApplyLeg(w, legs[0], referenceId);
      if first.Done? {
        OthersStillFit(w, first.wallets, legs);
        LegsExactly(first.wallets, legs[1..], referenceId);
        if ApplyLegs(w, legs, referenceId).Done? {
          WrittenFirst(w.ledger, first.wallets.ledger, ApplyLegs(w, legs, referenceId).wallets.ledger, legs, referenceId);
        }
      }
    }
  }

  // ---------------------------------------------------------------- a settlement

  function Buyer(s: Settlement): Id {
    if s.makerSide.Buy? then s.makerUserId else s.takerUserId
  }

  function Seller(s: Settlement): Id {
    if s.makerSide.Buy? then s.takerUserId else s.makerUserId
  }

  function BuyerFee(s: Settlement): Decimal {
    if s.makerSide.Buy? then s.makerFee else s.takerFee
  }

  /** The fee taken out of what the seller receives; the buyer's is added to what it pays. */
  function SellerFee(s: Settlement): Decimal {
    if s.makerSide.Sell? then s.makerFee else s.takerFee
  }

  function Cost(s: Settlement): Decimal {
    s.price * s.quantity + BuyerFee(s)
  }

  function Proceeds(s: Settlement): Decimal {
    s.price * s.quantity - SellerFee(s)
  }

  /** What a settlement needs: both locks, and that nobody is charged into the negative. */
  ghost predicate CanSettle(w: Wallets, s: Settlement) {
    && Cost(s) <= BalanceOf(w, WalletKey(Buyer(s), s.quoteAsset)).locked
    && s.quantity <= BalanceOf(w, WalletKey(Seller(s), s.baseAsset)).locked
    && 0.0 <= BalanceOf(w, WalletKey(Buyer(s), s.baseAsset)).available + s.quantity
    && 0.0 <= BalanceOf(w, WalletKey(Seller(s), s.quoteAsset)).available + Proceeds(s)
  }

  /** The buyer pays the cost out of its locked quote and receives the quantity; the seller gives
      the quantity out of its locked base and receives the proceeds. Nothing else moves. */
  ghost predicate Exchanged(before: Wallets, after: Wallets, buyer: Id, seller: Id, base: Asset, quote: Asset,
                            quantity: Decimal, cost: Decimal, proceeds: Decimal)
  {
    && (forall key :: BalanceOf(after, key).available
                   == BalanceOf(before, key).available + (if key == WalletKey(buyer, base) then quantity else 0.0)
                                                       + (if key == WalletKey(seller, quote) then proceeds else 0.0))
    && (forall key :: BalanceOf(after, key).locked
                   == BalanceOf(before, key).locked - (if key == WalletKey(buyer, quote) then cost else 0.0)
                                                    - (if key == WalletKey(seller, base) then quantity else 0.0))
  }

  /** The buyer's fee comes on top of the price, the seller's out of it. */
  ghost predicate ChangesHands(before: Wallets, after: Wallets, s: Settlement) {
    Exchanged(before, after, Buyer(s), Seller(s), s.baseAsset, s.quoteAsset, s.quantity, Cost(s), Proceeds(s))
  }

  /** The entries of a settlement: what each side pays and then receives, the maker first. */
  ghost predicate SettlementLogged(before: seq<LedgerEntry>, after: seq<LedgerEntry>, s: Settlement) {
    var n := |before|;
    var first, last := if s.makerSide.Buy? then n else n + 2, if s.makerSide.Buy? then n + 2 else n;
    && |after| == n + 4 && after[..n] == before
    && IsEntry(after[first], WalletKey(Buyer(s), s.quoteAsset), -Cost(s), s.referenceId)
    && IsEntry(after[first + 1], WalletKey(Buyer(s), s.baseAsset), s.quantity, s.referenceId)
    && IsEntry(after[last], WalletKey(Seller(s), s.baseAsset), -s.quantity, s.referenceId)
    && IsEntry(after[last + 1], WalletKey(Seller(s), s.quoteAsset), Proceeds(s), s.referenceId)
  }

  /** What a leg adds to a bucket. */
  function Adds(leg: Leg, key: WalletKey, bucket: Bucket): Decimal {
    if leg.key == key && leg.bucket == bucket then leg.amount else 0.0
  }

  lemma MovedAdds(b: Balance, leg: Leg, key: WalletKey)
    ensures Moved(b, leg, key) == Balance(b.available + Adds(leg, key, Available), b.locked + Adds(leg, key, Locked))
  {
  }

  lemma FourMoved(b: Balance, legs: seq<Leg>, key: WalletKey)
    requires |legs| == 4
    ensures var after := MovedAll(b, legs, key);
            && after.available == b.available + Adds(legs[0], key, Available) + Adds(legs[1], key, Available)
                                             + Adds(legs[2], key, Available) + Adds(legs[3], key, Available)
            && after.locked == b.locked + Adds(legs[0], key, Locked) + Adds(legs[1], key, Locked)
                                       + Adds(legs[2], key, Locked) + Adds(legs[3], key, Locked)
  {
    hide Moved, Adds;
    var b1 := Moved(b, legs[0], key);
    var b2 := Moved(b1, legs[1], key);
    var b3 := Moved(b2, legs[2], key);
    MovedAdds(b, legs[0], key);
    MovedAdds(b1, legs[1], key);
    MovedAdds(b2, legs[2], key);
    MovedAdds(b3, legs[3], key);
    assert legs[1..][0] == legs[1] && legs[1..][1..] == legs[2..];
    assert legs[2..][0] == legs[2] && legs[2..][1..] == legs[3..];
    assert legs[3..][0] == legs[3] && legs[3..][1..] == [];
    assert MovedAll(b3, legs[3..], key) == Moved(b3, legs[3], key);
    assert MovedAll(b2, legs[2..], key) == MovedAll(b3, legs[3..], key);
    assert MovedAll(b1, legs[1..], key) == MovedAll(b2, legs[2..], key);
  }

  function BuyerPays(s: Settlement): Leg {
    Leg(WalletKey(Buyer(s), s.quoteAsset), -Cost(s), Locked)
  }

  function BuyerGets(s: Settlement): Leg {
    Leg(WalletKey(Buyer(s), s.baseAsset), s.quantity, Available)
  }

  function SellerPays(s: Settlement): Leg {
    Leg(WalletKey(Seller(s), s.baseAsset), -s.quantity, Locked)
  }

  function SellerGets(s: Settlement): Leg {
    Leg(WalletKey(Seller(s), s.quoteAsset), Proceeds(s), Available)
  }

  lemma SettlementLegs(s: Settlement)
    requires s.makerUserId != s.takerUserId || s.baseAsset != s.quoteAsset
    ensures Legs(s) == if s.makerSide.Buy? then [BuyerPays(s), BuyerGets(s), SellerPays(s), SellerGets(s)]
                       else [SellerPays(s), SellerGets(s), BuyerPays(s), BuyerGets(s)]
    ensures Apart(Legs(s))
  {
  }

  lemma FourFit(w: Wallets, legs: seq<Leg>)
    requires |legs| == 4
    ensures AllFit(w, legs) <==> LegFits(w, legs[0]) && LegFits(w, legs[1]) && LegFits(w, legs[2]) && LegFits(w, legs[3])
  {
    hide LegFits;
    assert legs == [legs[0], legs[1], legs[2], legs[3]];
  }

  lemma SettlementMovesAll(before: Wallets, after: Wallets, s: Settlement)
    requires s.makerUserId != s.takerUserId || s.baseAsset != s.quoteAsset
    requires forall key :: BalanceOf(after, key) == MovedAll(BalanceOf(before, key), Legs(s), key)
    ensures ChangesHands(before, after, s)
  {
    SettlementLegs(s);
    var legs := Legs(s);
    hide Legs, MovedAll;
    forall key
      ensures BalanceOf(after, key).available == BalanceOf(before, key).available + Adds(BuyerGets(s), key, Available) + Adds(SellerGets(s), key, Available)
      ensures BalanceOf(after, key).locked == BalanceOf(before, key).locked + Adds(BuyerPays(s), key, Locked) + Adds(SellerPays(s), key, Locked)
    {
      FourMoved(BalanceOf(before, key), legs, key);
    }
  }

  lemma SettlementWritten(before: seq<LedgerEntry>, after: seq<LedgerEntry>, s: Settlement)
    requires s.makerUserId != s.takerUserId || s.baseAsset != s.quoteAsset
    requires Written(before, after, Legs(s), s.referenceId)
    ensures SettlementLogged(before, after, s)
  {
    SettlementLegs(s);
    var n, legs := |before|, Legs(s);
    assert IsEntry(after[n + 0], legs[0].key, legs[0].amount, s.referenceId) && IsEntry(after[n + 1], legs[1].key, legs[1].amount, s.referenceId);
    assert IsEntry(after[n + 2], legs[2].key, legs[2].amount, s.referenceId) && IsEntry(after[n + 3], legs[3].key, legs[3].amount, s.referenceId);
  }

  lemma SettlementFits(w: Wallets, s: Settlement)
    requires s.makerUserId != s.takerUserId || s.baseAsset != s.quoteAsset
    ensures AllFit(w, Legs(s)) <==> CanSettle(w, s)
  {
    SettlementLegs(s);
    FourFit(w, Legs(s));
  }

  /** A settlement goes through exactly when both users may use their wallets and the buckets
      hold what it takes out; then it makes exactly the four changes and writes four entries.
      A user may even settle with itself, as long as the assets differ. */
  lemma SettleExactly(w: Wallets, users: Users, s: Settlement)
    requires s.makerUserId != s.takerUserId || s.baseAsset != s.quoteAsset
    ensures var after := SettleTrade(w, users, s);
            && (after.Done? <==> MayUse(users, s.makerUserId) && MayUse(users, s.takerUserId) && CanSettle(w, s))
            && (after.Failed? && MayUse(users, s.makerUserId) && MayUse(users, s.takerUserId) ==> after.error == NegativeBalance)
            && (after.Done? ==> ChangesHands(w, after.wallets, s) && SettlementLogged(w.ledger, after.wallets.ledger, s))
  {
    hide Legs, ApplyLegs, ChangesHands, SettlementLogged, MovedAll, Written, AllFit, CanSettle, Apart, Refused, MayUse;
    SettlementLegs(s);
    SettlementFits(w, s);
    LegsExactly(w, Legs(s), s.referenceId);
    RefusedExactly(users, s.makerUserId);
    RefusedExactly(users, s.takerUserId);
    var after := SettleTrade(w, users, s);
    if after.Done? {
      SettlementMovesAll(w, after.wallets, s);
      SettlementWritten(w.ledger, after.wallets.ledger, s);
    }
  }
}
