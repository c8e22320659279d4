/** What a book's two logs say after a submit: every maker that left was filled whole and is
    recorded so, and neither log keeps more than it must. */
module BookLogs {
  import opened Domain
  import opened FlatBook
  import opened BookInvariant
  import opened CancelAndStops
  import opened GreedyMatching
  import opened SubmitLaws
  import opened History
  import opened LostStops

  // ---------------------------------------------------------------- makers that left

  /** Each of the orders still rests, or was recorded as filled whole, unless pruning forgot it. */
  ghost predicate LeftFilled(orders: seq<Order>, resting: seq<Order>, status: map<Id, StatusEntry>) {
    forall m :: m in orders && m.orderId in status && m.orderId !in Ids(resting) ==>
      status[m.orderId] == StatusEntry(Filled, m.originalQuantity)
  }

  lemma FrontLeaves(b: Book, taker: Order)
    requires Wf(b) && CanTrade(taker, b.Resting(Opposite(taker.side)))
    ensures var makers := b.Resting(Opposite(taker.side));
            LeftFilled([makers[0]], FillBest(b, taker).Resting(Opposite(taker.side)), FillBest(b, taker).status)
  {
    var makers := b.Resting(Opposite(taker.side));
    var after := FillBest(b, taker);
    FillBestShape(b, taker);
    if taker.remainingQuantity < makers[0].remainingQuantity {
      assert after.Resting(Opposite(taker.side))[0].orderId == makers[0].orderId;
      assert after.Resting(Opposite(taker.side))[0] in after.Resting(Opposite(taker.side));
    }
  }

  lemma {:induction false} MatchRecordsFilled(b: Book, taker: Order, fills: seq<Fill>)
    requires Midway(b, taker)
    ensures var m := MatchLoop(b, taker, fills);
            LeftFilled(b.Resting(Opposite(taker.side)), m.book.Resting(Opposite(taker.side)), m.book.status)
    decreases |b.Resting(Opposite(taker.side))|, if taker.remainingQuantity > 0.0 then 1 else 0
  {
    hide Wf, Midway, FillBest, LeftFilled, Evolves;
    var side := Opposite(taker.side);
    var makers := b.Resting(side);
    if CanTrade(taker, makers) && makers[0].userId != taker.userId {
      var next, rest := FillBest(b, taker), Reduced(taker, FillOf(makers[0], taker).quantity);
      var further := fills + [FillOf(makers[0], taker)];
      FillBestKeepsMidway(b, taker);
      FillBestShape(b, taker);
      MatchRecordsFilled(next, rest, further);
      FrontRecorded(b, taker, further);
    } else {
      AllRest(makers, b.status);
    }
  }

  lemma AllRest(orders: seq<Order>, status: map<Id, StatusEntry>)
    ensures LeftFilled(orders, orders, status)
  {
  }

  /** The front maker's record, made in this turn, survives the rest of the loop. */
  lemma FrontRecorded(b: Book, taker: Order, fills: seq<Fill>)
    requires Midway(b, taker) && CanTrade(taker, b.Resting(Opposite(taker.side)))
    requires b.Resting(Opposite(taker.side))[0].userId != taker.userId
    requires var side := Opposite(taker.side);
             var next := FillBest(b, taker);
             var m := MatchLoop(next, Reduced(taker, FillOf(b.Resting(side)[0], taker).quantity), fills);
             LeftFilled(next.Resting(side), m.book.Resting(side), m.book.status)
    ensures var side := Opposite(taker.side);
            var m := MatchLoop(FillBest(b, taker), Reduced(taker, FillOf(b.Resting(side)[0], taker).quantity), fills);
            LeftFilled(b.Resting(side), m.book.Resting(side), m.book.status)
  {
    hide FillBest, MatchLoop, LeftFilled, Evolves;
    var side := Opposite(taker.side);
    var makers := b.Resting(side);
    var next, rest := FillBest(b, taker), Reduced(taker, FillOf(makers[0], taker).quantity);
    var m := MatchLoop(next, rest, fills);
    FillBestKeepsMidway(b, taker);
    FillBestShape(b, taker);
    FrontLeaves(b, taker);
    MatchEvolves(next, rest, fills);
    FrontThenRest(makers, next.Resting(side), m.book.Resting(side), next.status, m.book.status);
  }

  lemma FrontThenRest(makers: seq<Order>, next: seq<Order>, last: seq<Order>, s: map<Id, StatusEntry>, t: map<Id, StatusEntry>)
    requires makers != [] && DistinctIds(makers)
    requires next == makers[1..] || exists q :: next == makers[0 := Reduced(makers[0], q)]
    requires LeftFilled([makers[0]], next, s) && LeftFilled(next, last, t) && Evolves(s, t, {})
    ensures LeftFilled(makers, last, t)
  {
    var first := makers[0];
    FirstIdAlone(makers);
    assert makers == [first] + makers[1..];
    if next == makers[1..] {
      assert first.orderId !in Ids(next) && first in [first];
    } else {
      var q :| next == makers[0 := Reduced(first, q)];
      assert next == [Reduced(first, q)] + makers[1..];
      assert Reduced(first, q) in next;
    }
  }

  /** A maker that no longer rests after a submit was filled whole, and its status, as long as
      the log keeps it, is Filled with all its quantity. */
  lemma SubmitRecordsFilled(b: Book, o: Order)
    requires Wf(b) && Unfilled(o) && Executes(b, o)
    ensures LeftFilled(Makers(b, o), Submit(b, o).book.Resting(Opposite(o.side)), Submit(b, o).book.status)
  {
    hide Wf, Submit, Midway, Matched, MatchLoop, LeftFilled, Evolves, Finished, Blocked;
    var taker := o.(sequence := b.nextSequence + 1);
    AcceptedIsFresh(b, o);
    SubmitStartsMidway(b, o);
    MatchRecordsFilled(Started(b), taker, []);
    ExecutedEnd(b, o);
    MatchedGreedily(b, o);
    EndEvolves(Matched(b, o), o.orderId);
    EndIsGreedy(Matched(b, o), b, o, Greedy(o, Makers(b, o)));
    MatchedIs(b, o);
    KnownIds(b, o);
    EndKeepsFilled(Makers(b, o), Matched(b, o).book.Resting(Opposite(o.side)), Matched(b, o).book.status, Submit(b, o).book.status, o.orderId);
  }

  lemma MatchedIs(b: Book, o: Order)
    ensures Matched(b, o) == MatchLoop(Started(b), o.(sequence := b.nextSequence + 1), [])
    ensures Started(b).Resting(Opposite(o.side)) == Makers(b, o)
  {
  }

  lemma KnownIds(b: Book, o: Order)
    requires Fresh(b, o.orderId)
    ensures forall m :: m in Makers(b, o) ==> m.orderId != o.orderId
  {
  }

  lemma EndKeepsFilled(makers: seq<Order>, resting: seq<Order>, s: map<Id, StatusEntry>, t: map<Id, StatusEntry>, id: Id)
    requires LeftFilled(makers, resting, s) && Evolves(s, t, {id}) && forall m :: m in makers ==> m.orderId != id
    ensures LeftFilled(makers, resting, t)
  {
  }

  // ---------------------------------------------------------------- what pruning leaves

  /** At most 100,000 entries, or none but those of orders still open: of resting orders, of
      pending stops, and of those last seen new or partly filled. */
  ghost predicate OnlyOpen(b: Book) {
    |b.status| <= 100_000 ||
    forall id :: id in b.status ==>
      id in b.RestingIds() || b.status[id].status.New? || b.status[id].status.PartiallyFilled? || b.status[id].status.PendingStop?
  }

  lemma RecordingLeavesOpen(b: Book, id: Id, entry: StatusEntry)
    ensures OnlyOpen(Recorded(b, id, entry))
  {
  }

  lemma FinishedLeavesOpen(m: Matching)
    ensures OnlyOpen(Finished(m).book)
  {
    var rested := if Rests(m.taker) then Rest(m.book, m.taker) else m.book;
    var entry := StatusEntry(FinalStatus(m.taker, m.fills), m.taker.originalQuantity - m.taker.remainingQuantity);
    hide Recorded, Rest, OnlyOpen;
    RecordingLeavesOpen(rested, m.taker.orderId, entry);
    OpenWhateverLog(Recorded(rested, m.taker.orderId, entry));
  }

  lemma OpenWhateverLog(b: Book)
    ensures OnlyOpen(PruneAudit(b)) <==> OnlyOpen(b)
  {
  }

  lemma StopLeavesOpen(b: Book, o: Order)
    ensures OnlyOpen(AcceptStop(b, o).book)
  {
    RecordingLeavesOpen(Started(b), o.orderId, StatusEntry(PendingStop, 0.0));
  }

  /** A submit whose matching ran to its end, a stop taken up and a cancel all leave a status
      log within its limit, or one of open orders alone. */
  lemma StatusLogBounded(b: Book, o: Order, orderId: Id, userId: Id)
    ensures Executes(b, o) && Submit(b, o).report.reason.None? ==> OnlyOpen(Submit(b, o).book)
    ensures Refusal(b, o).None? && IsStop(o.kind) ==> OnlyOpen(Submit(b, o).book)
    ensures Cancel(b, orderId, userId).cancelled ==> OnlyOpen(Cancel(b, orderId, userId).book)
  {
    SubmitEnds(b, o);
    hide Finished, AcceptStop, Submit, OnlyOpen, Refusal, Recorded;
    FinishedLeavesOpen(Matched(b, o));
    StopLeavesOpen(b, o);
    CancelLeavesOpen(b, orderId, userId);
  }

  lemma SubmitEnds(b: Book, o: Order)
    ensures Executes(b, o) && Submit(b, o).report.reason.None? ==> Submit(b, o) == Finished(Matched(b, o))
    ensures Refusal(b, o).None? && IsStop(o.kind) ==> Submit(b, o) == AcceptStop(b, o)
  {
    hide Matched, Refusal;
  }

  lemma CancelLeavesOpen(b: Book, orderId: Id, userId: Id)
    ensures Cancel(b, orderId, userId).cancelled ==> OnlyOpen(Cancel(b, orderId, userId).book)
  {
    hide Recorded, OnlyOpen;
    forall any: Book, o: Order ensures OnlyOpen(MarkCancelled(any, o)) {
      RecordingLeavesOpen(any, o.orderId, StatusEntry(Cancelled, o.originalQuantity - o.remainingQuantity));
    }
  }

  // ---------------------------------------------------------------- what pruning keeps

  predicate Open(status: OrderStatus) {
    status.New? || status.PartiallyFilled? || status.PendingStop?
  }

  /** Open entries stay, and stay open, but for some ids. */
  ghost predicate KeepsOpen(s: map<Id, StatusEntry>, t: map<Id, StatusEntry>, but: set<Id>) {
    forall id :: id in s && Open(s[id].status) && id !in but ==> id in t && Open(t[id].status)
  }

  lemma FillBestKeepsOpen(b: Book, taker: Order)
    requires b.Resting(Opposite(taker.side)) != []
    ensures KeepsOpen(b.status, FillBest(b, taker).status, {b.Resting(Opposite(taker.side))[0].orderId})
  {
  }

  lemma {:induction false} MatchKeepsOpen(b: Book, taker: Order, fills: seq<Fill>)
    ensures KeepsOpen(b.status, MatchLoop(b, taker, fills).book.status, Ids(b.Resting(Opposite(taker.side))))
    decreases |b.Resting(Opposite(taker.side))|, if taker.remainingQuantity > 0.0 then 1 else 0
  {
    var makers := b.Resting(Opposite(taker.side));
    if CanTrade(taker, makers) && makers[0].userId != taker.userId {
      var fill := FillOf(makers[0], taker);
      hide FillBest;
      FillBestShape(b, taker);
      FillBestKeepsOpen(b, taker);
      MatchKeepsOpen(FillBest(b, taker), Reduced(taker, fill.quantity), fills + [fill]);
      SameMakers(makers, FillBest(b, taker).Resting(Opposite(taker.side)), fill.quantity);
    }
  }

  lemma SameMakers(makers: seq<Order>, next: seq<Order>, quantity: Decimal)
    requires makers != [] && (next == makers[1..] || next == makers[0 := Reduced(makers[0], quantity)])
    ensures Ids(next) <= Ids(makers) && makers[0].orderId in Ids(makers)
  {
    assert makers[0] in makers && forall m :: m in makers[1..] ==> m in makers;
    assert makers[0 := Reduced(makers[0], quantity)] == [Reduced(makers[0], quantity)] + makers[1..];
  }

  lemma EndKeepsOpen(m: Matching)
    ensures KeepsOpen(m.book.status, (if m.blocked then Blocked(m) else Finished(m)).book.status, {m.taker.orderId})
  {
  }

  /** A submit forgets no open entry, nor does it close any but those of the orders it trades
      with; resting orders are in the log anyway. */
  lemma SubmitKeepsOpen(b: Book, o: Order)
    requires Wf(b) && Unfilled(o)
    ensures KeepsOpen(b.status, Submit(b, o).book.status, Ids(Makers(b, o)))
  {
    if Executes(b, o) {
      ExecutedEnd(b, o);
      MatchedIs(b, o);
      AcceptedIsFresh(b, o);
      MatchKeepsOpen(Started(b), o.(sequence := b.nextSequence + 1), []);
      MatchedGreedily(b, o);
      EndKeepsOpen(Matched(b, o));
    } else if Refusal(b, o).None? && IsStop(o.kind) {
      AcceptedIsFresh(b, o);
    }
  }

  /** A cancel forgets and closes none but its own. */
  lemma CancelKeepsOpen(b: Book, orderId: Id, userId: Id)
    ensures KeepsOpen(b.status, Cancel(b, orderId, userId).book.status, {orderId})
  {
    PositionFinds(b.bids, orderId, userId);
    PositionFinds(b.asks, orderId, userId);
    PositionFinds(b.stops, orderId, userId);
  }

  /** A log within its limit forgets nothing at all. */
  lemma NothingForgotten(b: Book, o: Order, orderId: Id, userId: Id)
    requires Wf(b) && Unfilled(o)
    ensures |b.status| < 100_000 ==> b.status.Keys <= Submit(b, o).book.status.Keys
    ensures |b.status| <= 100_000 ==> Cancel(b, orderId, userId).book.status.Keys == b.status.Keys
  {
    if Roomy(b) {
      SubmitBalances(b, o);
    }
    if |b.status| <= MAX_ORDER_STATUS_ENTRIES {
      CancelBalances(b, orderId, userId);
    }
  }
}
