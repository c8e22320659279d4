/** The arithmetic of locks: the only products in the project, kept to their own lemmas. */
module LockArithmetic {
  import opened Domain
  import opened Trading

  /** A taker is neither charged nor paid more than the trade is worth. */
  ghost predicate TakerFeeOk(fees: Fees) {
    -10000.0 <= fees.takerBps <= 10000.0
  }

  /** Besides, makers pay no more than takers. */
  ghost predicate FeesOk(fees: Fees) {
    fees.makerBps <= fees.takerBps && TakerFeeOk(fees)
  }

  lemma ConsumedAdds(side: Side, price: Decimal, x: Decimal, y: Decimal, bps: Decimal)
    ensures ConsumedLock(side, price, x + y, bps) == ConsumedLock(side, price, x, bps) + ConsumedLock(side, price, y, bps)
  {
    var p, q := price * x, price * y;
    assert price * (x + y) == p + q;
    assert (p + q) * bps == p * bps + q * bps;
  }

  lemma ConsumedNonNegative(side: Side, price: Decimal, quantity: Decimal, bps: Decimal)
    requires price >= 0.0 && quantity >= 0.0 && bps >= -10000.0
    ensures ConsumedLock(side, price, quantity, bps) >= 0.0
  {
    var n := price * quantity;
    assert n >= 0.0;
    assert n * (bps + 10000.0) >= 0.0;
    assert n * (bps + 10000.0) == n * bps + n * 10000.0;
  }

  /** A better price needs no more lock. */
  lemma BetterPriceConsumesLess(price: Decimal, limit: Decimal, quantity: Decimal, bps: Decimal)
    requires price <= limit && quantity >= 0.0 && bps >= -10000.0
    ensures ConsumedLock(Buy, price, quantity, bps) <= ConsumedLock(Buy, limit, quantity, bps)
  {
    var n, m := price * quantity, limit * quantity;
    assert (limit - price) * quantity >= 0.0;
    assert m - n == (limit - price) * quantity;
    assert (m - n) * (bps + 10000.0) >= 0.0;
    assert (m - n) * (bps + 10000.0) == m * bps - n * bps + m * 10000.0 - n * 10000.0;
  }

  /** The maker's fee needs no more lock than the taker's, for which the lock was made. */
  lemma LowerFeeConsumesLess(side: Side, price: Decimal, quantity: Decimal, low: Decimal, high: Decimal)
    requires low <= high && price >= 0.0 && quantity >= 0.0
    ensures ConsumedLock(side, price, quantity, low) <= ConsumedLock(side, price, quantity, high)
  {
    var n := price * quantity;
    assert n >= 0.0;
    assert n * (high - low) >= 0.0;
    assert n * (high - low) == n * high - n * low;
  }

  /** A fee never exceeds the notional it is charged on. */
  lemma FeeWithinNotional(price: Decimal, quantity: Decimal, bps: Decimal)
    requires price >= 0.0 && quantity >= 0.0 && bps <= 10000.0
    ensures CalculateFee(price * quantity, bps) <= price * quantity
  {
    var n := price * quantity;
    assert n >= 0.0;
    assert n * (10000.0 - bps) >= 0.0;
    assert n * (10000.0 - bps) == n * 10000.0 - n * bps;
  }
}
