/** Whole runs of the exchange: orders placed and cancelled in any order, with funds coming
    and going in between. The wallet never fails to pay, every lock is accounted for, and the
    places where the service and the engine disagree are pinned down exactly. */
module TradingRuns {
  import opened Domain
  import opened Wallet
  import opened WalletLaws
  import opened Trading
  import opened LockArithmetic
  import opened Reservation
  import opened PlaceAndCancel
  import opened LockHistory

  datatype ExchangeOp =
    | Place(request: Request)
    | CancelPlaced(id: Id, symbol: Pair, userId: Id)
    | Funds(op: WalletOp)

  /** One call; None is a wallet failure in the middle of it. Refused calls change nothing. */
  function Step(x: Exchange, users: Users, fees: Fees, op: ExchangeOp): Option<Exchange> {
    match op
    case Place(r) =>
      var p := PlaceOrder(x, users, fees, r);
      if p.Placed? then Some(p.exchange) else if p.NotPlaced? then Some(x) else None
    case CancelPlaced(id, symbol, userId) =>
      var c := CancelOrder(x, users, id, symbol, userId);
      if c.CancelDone? then Some(c.exchange) else None
    case Funds(w) => Some(x.(desk := x.desk.(wallets := After(x.desk.wallets, users, w))))
  }

  function RunExchange(x: Exchange, users: Users, fees: Fees, ops: seq<ExchangeOp>): Option<Exchange>
    decreases |ops|
  {
    if ops == [] then Some(x)
    else
      var next := Step(x, users, fees, ops[0]);
      if next.None? then None else RunExchange(next.value, users, fees, ops[1..])
  }

  /** Priced requests under ids never used before; otherwise deposits, withdrawals and
      transfers, of any amounts. */
  ghost predicate OpOk(op: ExchangeOp, used: set<Id>) {
    match op
    case Place(r) => RequestOk(r) && r.id !in used
    case CancelPlaced(_, _, _) => true
    case Funds(w) => w.CreditOp? || w.DebitOp? || w.TransferOp?
  }

  function Uses(op: ExchangeOp): set<Id> {
    if op.Place? then {op.request.id} else {}
  }

  ghost predicate Admissible(ops: seq<ExchangeOp>, used: set<Id>)
    decreases |ops|
  {
    ops == [] || (OpOk(ops[0], used) && Admissible(ops[1..], used + Uses(ops[0])))
  }

  /** Reserved, and every lock accounted for. */
  ghost predicate InOrder(x: Exchange, users: Users, fees: Fees) {
    Reserved(x, users, fees) && Accounted(x.desk, fees, "", 0.0)
  }

  lemma FundsMoveAvailable(w: Wallets, users: Users, op: WalletOp)
    requires NonNegative(w) && (op.CreditOp? || op.DebitOp? || op.TransferOp?)
    ensures NonNegative(After(w, users, op))
    ensures forall key :: BalanceOf(After(w, users, op), key).locked == BalanceOf(w, key).locked
  {
  }

  /** Moving available funds touches no lock. */
  lemma FundsKeepReserved(x: Exchange, users: Users, fees: Fees, w: WalletOp)
    requires InOrder(x, users, fees) && (w.CreditOp? || w.DebitOp? || w.TransferOp?)
    ensures InOrder(x.(desk := x.desk.(wallets := After(x.desk.wallets, users, w))), users, fees)
  {
    FundsMoveAvailable(x.desk.wallets, users, w);
  }

  lemma StepKeepsOrder(x: Exchange, users: Users, fees: Fees, op: ExchangeOp, used: set<Id>)
    requires FeesOk(fees) && InOrder(x, users, fees) && LocalIds(x.desk.orders) <= used && OpOk(op, used)
    ensures var next := Step(x, users, fees, op);
            && next.Some? && InOrder(next.value, users, fees)
            && LocalIds(next.value.desk.orders) <= used + Uses(op)
  {
    match op
    case Place(r) =>
      PlaceKeepsReserved(x, users, fees, r);
      AnyId(x.desk, fees, "", r.id);
      PlaceKeepsAccounted(x, users, fees, r);
      var p := PlaceOrder(x, users, fees, r);
      if p.Placed? {
        AnyId(p.exchange.desk, fees, r.id, "");
      }
    case CancelPlaced(id, symbol, userId) =>
      CancelKeepsReserved(x, users, fees, id, symbol, userId);
      AnyId(x.desk, fees, "", id);
      CancelKeepsAccounted(x, users, fees, id, symbol, userId);
      AnyId(CancelOrder(x, users, id, symbol, userId).exchange.desk, fees, id, "");
    case Funds(w) => FundsKeepReserved(x, users, fees, w);
  }

  /** Over every run: no settlement and no unlock fails, the wallet's locked buckets are the
      open orders' locks, each lock covers what its order can still cost, the book rests only
      open orders with the same remainder, and every lock is accounted for. */
  lemma {:induction false} RunNeverBreaks(x: Exchange, users: Users, fees: Fees, ops: seq<ExchangeOp>, used: set<Id>)
    requires FeesOk(fees) && InOrder(x, users, fees) && LocalIds(x.desk.orders) <= used && Admissible(ops, used)
    ensures var end := RunExchange(x, users, fees, ops);
            end.Some? && InOrder(end.value, users, fees)
    decreases |ops|
  {
    if ops != [] {
      var op := ops[0];
      StepKeepsOrder(x, users, fees, op, used);
      RunNeverBreaks(Step(x, users, fees, op).value, users, fees, ops[1..], used + Uses(op));
    }
  }

  const EmptyExchange := Exchange(map[], Desk(Wallets(map[], []), [], map[]))

  /** In particular from the beginning. */
  lemma EmptyRunNeverBreaks(users: Users, fees: Fees, ops: seq<ExchangeOp>)
    requires FeesOk(fees) && Admissible(ops, {})
    ensures var end := RunExchange(EmptyExchange, users, fees, ops);
            end.Some? && InOrder(end.value, users, fees)
  {
    RunNeverBreaks(EmptyExchange, users, fees, ops, {});
  }
}
