/** L2 theorem: without the lock the bid ledger still agrees with the row, as long as every committed bid is recorded
    before the next one commits on its target. */
module LedgerInFlight {
  import opened Rows
  import opened BidsSpec
  import opened AuctionView
  import opened Auctions
  import opened Interleaved
  import opened PriceIntegrity
  import Machine
  import OrdersSpec

  /** Call c has committed its price on t and not yet recorded it. */
  predicate Due(calls: map<CallId, Call>, t: Target, c: CallId) {
    c in calls && Bidding(calls[c]) && TargetOf(calls[c]) == t && calls[c].phase == ToRecord
  }

  ghost predicate NoneDue(calls: map<CallId, Call>, t: Target) {
    forall c :: !Due(calls, t, c)
  }

  /** The ledger agrees with the row, counting the one bid that may still be due. */
  ghost predicate LedgerOrDue(cfg: Config, sys: Sys, t: Target) {
    && AuctionOf(sys.db, t).Some?
    && (forall c, d :: Due(sys.calls, t, c) && Due(sys.calls, t, d) ==> c == d)
    && (forall c :: Due(sys.calls, t, c) ==>
          LedgerAgrees(AuctionOf(sys.db, t).value,
                       BidsOn(Record(sys.db.bids, t, sys.calls[c].user, sys.calls[c].amount), t), Increment(cfg, t)))
    && (NoneDue(sys.calls, t) ==> LedgerAgrees(AuctionOf(sys.db, t).value, BidsOn(sys.db.bids, t), Increment(cfg, t)))
  }

  /** A price committed by this move finds nothing due on its target. */
  ghost predicate InTurn(cfg: Config, sys: Sys, m: Move, now: Time, t: Target) {
    CommitsOn(cfg, sys, m, now, t) ==> NoneDue(sys.calls, t)
  }

  lemma LedgerSamePrice(a: AuctionState, b: AuctionState, rows: seq<Bid>, increment: int)
    requires LedgerAgrees(a, rows, increment) && SamePrice(a, b)
    ensures LedgerAgrees(b, rows, increment)
  {
  }

  /** A raised price agrees with the ledger that has its bid on top. */
  lemma LedgerAfterRaise(a: AuctionState, b: AuctionState, bids: seq<Bid>, t: Target, user: UserId, amount: int,
                         increment: int)
    requires LedgerAgrees(a, BidsOn(bids, t), increment) && increment > 0 && Raised(a, b, user, amount, increment)
    ensures LedgerAgrees(b, BidsOn(Record(bids, t, user, amount), t), increment)
  {
    hide LedgerAgrees, BidsOn, Record;
    BidsOnRecord(bids, t, user, amount, t);
    BidsOnTargets(bids, t);
    LedgerExtends(a, BidsOn(bids, t), increment, t, user, amount, b);
  }

  // ---- what a move does to the calls and to the rows of t ------------------------------------------------

  lemma DueBefore(cfg: Config, sys: Sys, m: Move, now: Time, t: Target, c: CallId)
    requires Due(Advance(cfg, sys, m, now).sys.calls, t, c)
    ensures var next := Advance(cfg, sys, m, now).sys;
            if m == SwapBid(c) && !Due(sys.calls, t, c) then
              && CommitsOn(cfg, sys, m, now, t) && c in sys.calls && Bidding(sys.calls[c])
              && next.calls[c].user == sys.calls[c].user && next.calls[c].amount == sys.calls[c].amount
            else Due(sys.calls, t, c) && next.calls[c] == sys.calls[c] && m != RecordBid(c)
  {
    hide Machine.Apply, OrdersSpec.FinishPayment, OrdersSpec.ReadForPayment, VehicleBidRefusal, LotBidRefusal, Record;
  }

  lemma DueAfter(cfg: Config, sys: Sys, m: Move, now: Time, t: Target, c: CallId)
    requires Due(sys.calls, t, c) && m != RecordBid(c)
    ensures Due(Advance(cfg, sys, m, now).sys.calls, t, c)
  {
    hide Machine.Apply, OrdersSpec.FinishPayment, OrdersSpec.ReadForPayment, VehicleBidRefusal, LotBidRefusal, Record;
  }

  lemma AtomicRows(cfg: Config, sys: Sys, a: Machine.Action, now: Time, t: Target)
    requires AuctionOf(sys.db, t).Some?
    ensures var next := WholeCall(cfg, sys, a, now).sys;
            BidsOn(next.db.bids, t)
            == if Accepts(cfg, sys.db, Machine.Event(a, now), t)
                then BidsOn(Record(sys.db.bids, t, a.user.id, a.amount), t)
               else BidsOn(sys.db.bids, t)
  {
    hide Machine.Apply, Record, BidsOn;
    var e := Machine.Event(a, now);
    if u :| Accepts(cfg, sys.db, e, u) {
      AcceptedBid(cfg, sys.db, e, u);
      BidsOnRecord(sys.db.bids, u, a.user.id, a.amount, t);
    } else {
      BidRowsUntouched(cfg, sys.db, e);
    }
  }

  lemma RecordedRows(cfg: Config, sys: Sys, c: CallId, now: Time, t: Target)
    requires c in sys.calls
    ensures BidsOn(RecordRow(sys, c).sys.db.bids, t)
         == if Due(sys.calls, t, c) then BidsOn(Record(sys.db.bids, t, sys.calls[c].user, sys.calls[c].amount), t)
            else BidsOn(sys.db.bids, t)
  {
    hide BidsOn, Record;
    if Bidding(sys.calls[c]) {
      BidsOnRecord(sys.db.bids, TargetOf(sys.calls[c]), sys.calls[c].user, sys.calls[c].amount, t);
    }
  }

  lemma OtherMovesKeepBids(cfg: Config, sys: Sys, m: Move, now: Time)
    requires !m.Atomic? && !m.RecordBid?
    ensures Advance(cfg, sys, m, now).sys.db.bids == sys.db.bids
  {
    hide Machine.Apply, OrdersSpec.FinishPayment, OrdersSpec.ReadForPayment, VehicleBidRefusal, LotBidRefusal;
    hide SwapVehicle, SwapLot;
  }

  lemma RowsAfter(cfg: Config, sys: Sys, m: Move, now: Time, t: Target)
    requires AuctionOf(sys.db, t).Some?
    ensures var rows := BidsOn(Advance(cfg, sys, m, now).sys.db.bids, t);
            rows == if m.Atomic? && CommitsOn(cfg, sys, m, now, t) then
                      BidsOn(Record(sys.db.bids, t, m.action.user.id, m.action.amount), t)
                    else if m.RecordBid? && Due(sys.calls, t, m.call) then
                      BidsOn(Record(sys.db.bids, t, sys.calls[m.call].user, sys.calls[m.call].amount), t)
                    else BidsOn(sys.db.bids, t)
  {
    hide BidsOn, Record, WholeCall, RecordRow, Accepts;
    if m.Atomic? {
      AtomicRows(cfg, sys, m.action, now, t);
    } else if m.RecordBid? {
      if m.call in sys.calls {
        RecordedRows(cfg, sys, m.call, now, t);
      }
    } else {
      OtherMovesKeepBids(cfg, sys, m, now);
    }
  }

  // ---- the invariant -----------------------------------------------------------------------------------------

  /** Recording depends only on the rows of the target. */
  lemma RecordOnRows(bids: seq<Bid>, later: seq<Bid>, t: Target, user: UserId, amount: int)
    requires BidsOn(bids, t) == BidsOn(later, t)
    ensures BidsOn(Record(bids, t, user, amount), t) == BidsOn(Record(later, t, user, amount), t)
  {
    hide BidsOn, Record;
    BidsOnRecord(bids, t, user, amount, t);
    BidsOnRecord(later, t, user, amount, t);
  }

  lemma CommitShape(cfg: Config, sys: Sys, m: Move, now: Time, t: Target)
    requires CommitsOn(cfg, sys, m, now, t)
    ensures (m.Atomic? && (m.action.BidOnVehicle? || m.action.BidOnLot?))
         || (m.SwapBid? && m.call in sys.calls && Bidding(sys.calls[m.call]))
  {
    hide Advance, Machine.Apply;
  }

  lemma SwapLeavesItsBidDue(cfg: Config, sys: Sys, c: CallId, now: Time, t: Target)
    requires CommitsOn(cfg, sys, SwapBid(c), now, t)
    ensures Due(Advance(cfg, sys, SwapBid(c), now).sys.calls, t, c)
  {
    hide Machine.Apply;
  }

  /** After a commit: a whole call has recorded its bid, a swap leaves exactly its own bid due. */
  lemma LedgerAfterCommit(cfg: Config, sys: Sys, m: Move, now: Time, t: Target)
    requires PositiveIncrements(cfg) && BidsInv(cfg, sys) && LedgerOrDue(cfg, sys, t)
    requires CommitsOn(cfg, sys, m, now, t) && NoneDue(sys.calls, t)
    ensures LedgerOrDue(cfg, Advance(cfg, sys, m, now).sys, t)
  {
    hide Advance, BidsInv, AuctionOf, LedgerAgrees, BidsOn, Record, CommitsOn, Raised;
    var next := Advance(cfg, sys, m, now).sys;
    CommitShape(cfg, sys, m, now, t);
    PriceStep(cfg, sys, m, now, t);
    RowsAfter(cfg, sys, m, now, t);
    var a, b := AuctionOf(sys.db, t).value, AuctionOf(next.db, t).value;
    LedgerAfterRaise(a, b, sys.db.bids, t, CommitUser(sys, m), CommitAmount(sys, m), Increment(cfg, t));
    forall c | Due(next.calls, t, c) ensures m == SwapBid(c) && c in sys.calls && Bidding(sys.calls[c])
      && next.calls[c].user == sys.calls[c].user && next.calls[c].amount == sys.calls[c].amount
    {
      assert !Due(sys.calls, t, c);
      DueBefore(cfg, sys, m, now, t, c);
    }
    if m.SwapBid? {
      SwapLeavesItsBidDue(cfg, sys, m.call, now, t);
      RecordOnRows(sys.db.bids, next.db.bids, t, CommitUser(sys, m), CommitAmount(sys, m));
    }
  }

  /** Any other move: the ledger, with what is due, stays as it was. */
  lemma LedgerAfterOther(cfg: Config, sys: Sys, m: Move, now: Time, t: Target)
    requires PositiveIncrements(cfg) && BidsInv(cfg, sys) && LedgerOrDue(cfg, sys, t) && !CommitsOn(cfg, sys, m, now, t)
    ensures LedgerOrDue(cfg, Advance(cfg, sys, m, now).sys, t)
  {
    hide Advance, BidsInv, AuctionOf, LedgerAgrees, BidsOn, Record, CommitsOn;
    var next := Advance(cfg, sys, m, now).sys;
    PriceStep(cfg, sys, m, now, t);
    RowsAfter(cfg, sys, m, now, t);
    var a, b := AuctionOf(sys.db, t).value, AuctionOf(next.db, t).value;
    forall c | Due(next.calls, t, c)
      ensures Due(sys.calls, t, c) && next.calls[c] == sys.calls[c]
      ensures LedgerAgrees(b, BidsOn(Record(next.db.bids, t, next.calls[c].user, next.calls[c].amount), t),
          Increment(cfg, t))
    {
      DueBefore(cfg, sys, m, now, t, c);
      RecordOnRows(sys.db.bids, next.db.bids, t, sys.calls[c].user, sys.calls[c].amount);
      LedgerSamePrice(a, b, BidsOn(Record(sys.db.bids, t, sys.calls[c].user, sys.calls[c].amount), t),
          Increment(cfg, t));
    }
    if NoneDue(next.calls, t) {
      if c :| Due(sys.calls, t, c) {
        if m != RecordBid(c) {
          DueAfter(cfg, sys, m, now, t, c);
        }
        LedgerSamePrice(a, b, BidsOn(Record(sys.db.bids, t, sys.calls[c].user, sys.calls[c].amount), t),
            Increment(cfg, t));
      } else {
        LedgerSamePrice(a, b, BidsOn(sys.db.bids, t), Increment(cfg, t));
      }
    }
  }

  // ---- runs ---------------------------------------------------------------------------------------------------

  ghost predicate RecordedInTurn(cfg: Config, start: Sys, ts: seq<Tick>, t: Target) {
    forall k: nat :: k < |ts| ==> InTurn(cfg, SysAt(cfg, start, ts, k), ts[k].move, ts[k].now, t)
  }

  lemma {:induction false} LedgerOrDueAlways(cfg: Config, start: Sys, ts: seq<Tick>, n: nat, t: Target)
    requires PositiveIncrements(cfg) && BidsInv(cfg, start) && LedgerOrDue(cfg, start, t)
    requires RecordedInTurn(cfg, start, ts, t) && n <= |ts|
    ensures LedgerOrDue(cfg, SysAt(cfg, start, ts, n), t)
  {
    hide Advance, BidsInv, LedgerOrDue, CommitsOn, NoneDue;
    if n > 0 {
      var sys, m, now := SysAt(cfg, start, ts, n - 1), ts[n - 1].move, ts[n - 1].now;
      LedgerOrDueAlways(cfg, start, ts, n - 1, t);
      BidsInvAlways(cfg, start, ts, n - 1);
      assert InTurn(cfg, sys, m, now, t);
      if CommitsOn(cfg, sys, m, now, t) {
        LedgerAfterCommit(cfg, sys, m, now, t);
      } else {
        LedgerAfterOther(cfg, sys, m, now, t);
      }
    }
  }

  /** Whenever nothing is due on the target, its ledger agrees with its row. */
  lemma LedgerAgreesWhenRecordedInTurn(cfg: Config, start: Sys, ts: seq<Tick>, n: nat, t: Target)
    requires PositiveIncrements(cfg) && BidsInv(cfg, start) && LedgerOrDue(cfg, start, t)
    requires RecordedInTurn(cfg, start, ts, t) && n <= |ts| && NoneDue(SysAt(cfg, start, ts, n).calls, t)
    ensures var db := SysAt(cfg, start, ts, n).db;
            AuctionOf(db, t).Some? && LedgerAgrees(AuctionOf(db, t).value, BidsOn(db.bids, t), Increment(cfg, t))
  {
    hide Advance, BidsInv, RecordedInTurn;
    LedgerOrDueAlways(cfg, start, ts, n, t);
  }
}
