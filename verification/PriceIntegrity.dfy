/** L2 theorems: without the lock, the compare-and-set alone keeps prices right on every vehicle and lot, but not the
    order of the bid ledger. */
module PriceIntegrity {
  import opened Rows
  import opened BidsSpec
  import opened AuctionView
  import opened Interleaved
  import Machine
  import OrdersSpec
  import PickupSpec
  import LotsSpec
  import VehiclesSpec

  predicate Bidding(call: Call) {
    call.BiddingOnVehicle? || call.BiddingOnLot?
  }

  function TargetOf(call: Call): Target
    requires Bidding(call)
  {
    if call.BiddingOnVehicle? then OnVehicle(call.vehicle) else OnLot(call.lot)
  }

  /** The auction columns as the call read them. */
  function Seen(call: Call): AuctionState
    requires Bidding(call)
  {
    if call.BiddingOnVehicle? then call.seenVehicle.auction else call.seenLot.auction
  }

  /** A snapshot against the row today: never ahead of it, and the same bid if the same price. */
  predicate SnapshotOf(seen: AuctionState, a: AuctionState) {
    && seen.currentBid <= a.currentBid && seen.bidCount <= a.bidCount
    && (seen.currentBid == a.currentBid ==> seen.bidCount == a.bidCount && seen.currentBidder == a.currentBidder)
  }

  /** What a call about to swap has checked against its snapshot. */
  predicate CallOk(cfg: Config, db: Db, call: Call) {
    Bidding(call) && call.phase == ToSwap ==>
      && AuctionOf(db, TargetOf(call)).Some?
      && SnapshotOf(Seen(call), AuctionOf(db, TargetOf(call)).value)
      && call.amount > 0
      && (Seen(call).currentBid > 0 ==> call.amount >= Seen(call).currentBid + Increment(cfg, TargetOf(call)))
  }

  ghost predicate PricesNonNegative(db: Db) {
    forall t :: AuctionOf(db, t).Some? ==> AuctionOf(db, t).value.currentBid >= 0
  }

  ghost predicate BidsInv(cfg: Config, sys: Sys) {
    PricesNonNegative(sys.db) && forall c :: c in sys.calls ==> CallOk(cfg, sys.db, sys.calls[c])
  }

  // ---- one move on one auction --------------------------------------------------------------------------

  /** The move writes a new price on t: a swap that matches, or a whole accepted bid. */
  ghost predicate CommitsOn(cfg: Config, sys: Sys, m: Move, now: Time, t: Target) {
    || (m.Atomic? && Accepts(cfg, sys.db, Machine.Event(m.action, now), t))
    || (m.SwapBid? && m.call in sys.calls && Bidding(sys.calls[m.call]) && sys.calls[m.call].phase == ToSwap
        && TargetOf(sys.calls[m.call]) == t && Advance(cfg, sys, m, now).out.None?)
  }

  ghost function CommitUser(sys: Sys, m: Move): UserId
    requires (m.Atomic? && (m.action.BidOnVehicle? || m.action.BidOnLot?))
        || (m.SwapBid? && m.call in sys.calls && Bidding(sys.calls[m.call]))
  {
    if m.Atomic? then m.action.user.id else sys.calls[m.call].user
  }

  ghost function CommitAmount(sys: Sys, m: Move): int
    requires (m.Atomic? && (m.action.BidOnVehicle? || m.action.BidOnLot?))
        || (m.SwapBid? && m.call in sys.calls && Bidding(sys.calls[m.call]))
  {
    if m.Atomic? then m.action.amount else sys.calls[m.call].amount
  }

  predicate SamePrice(a: AuctionState, b: AuctionState) {
    a.currentBid == b.currentBid && a.currentBidder == b.currentBidder && a.bidCount == b.bidCount
  }

  /** A committed price: positive, an increment above any earlier one, and attributed. */
  predicate Raised(a: AuctionState, b: AuctionState, user: UserId, amount: int, increment: int) {
    && b.currentBid == amount && b.currentBidder == Some(user) && b.bidCount == a.bidCount + 1
    && amount > 0 && (a.currentBid > 0 ==> amount >= a.currentBid + increment)
  }

  lemma SwapOnTarget(cfg: Config, sys: Sys, c: CallId, now: Time, t: Target)
    requires BidsInv(cfg, sys) && c in sys.calls && AuctionOf(sys.db, t).Some?
    ensures var next := Swap(sys, c).sys;
            && AuctionOf(next.db, t).Some?
            && var a, b := AuctionOf(sys.db, t).value, AuctionOf(next.db, t).value;
               if CommitsOn(cfg, sys, SwapBid(c), now, t)
               then Raised(a, b, sys.calls[c].user, sys.calls[c].amount, Increment(cfg, t))
                   && SamePrice(Seen(sys.calls[c]), a)
               else b == a
  {
    hide Machine.Apply;
    assert CallOk(cfg, sys.db, sys.calls[c]);
  }

  lemma ExtendOnTarget(cfg: Config, sys: Sys, c: CallId, now: Time, t: Target)
    requires c in sys.calls && AuctionOf(sys.db, t).Some?
    ensures AuctionOf(Extend(cfg, sys, c, now).sys.db, t).Some?
    ensures SamePrice(AuctionOf(sys.db, t).value, AuctionOf(Extend(cfg, sys, c, now).sys.db, t).value)
  {
  }

  lemma PaymentOnTarget(sys: Sys, c: CallId, rzPayment: string, signatureOk: bool, year: int, now: Time, t: Target)
    requires c in sys.calls && AuctionOf(sys.db, t).Some?
    ensures AuctionOf(Commit(sys, c, rzPayment, signatureOk, year, now).sys.db, t) == AuctionOf(sys.db, t)
  {
    hide OrdersSpec.SettledSales, OrdersSpec.InvoiceFree, OrdersSpec.RzPaymentFree;
  }

  lemma WholeCallOnTarget(cfg: Config, sys: Sys, a: Machine.Action, now: Time, t: Target)
    requires BidsInv(cfg, sys) && AuctionOf(sys.db, t).Some?
    ensures var next := WholeCall(cfg, sys, a, now).sys;
            && AuctionOf(next.db, t).Some?
            && var before, after := AuctionOf(sys.db, t).value, AuctionOf(next.db, t).value;
               if Accepts(cfg, sys.db, Machine.Event(a, now), t)
               then Raised(before, after, a.user.id, a.amount, Increment(cfg, t))
               else SamePrice(before, after)
  {
    hide Machine.Apply, BidsInv;
    var e := Machine.Event(a, now);
    if Accepts(cfg, sys.db, e, t) {
      AcceptedBid(cfg, sys.db, e, t);
    } else {
      AuctionUntouched(cfg, sys.db, e, t);
    }
  }

  /** A read changes no auction. */
  lemma ReadOnTarget(cfg: Config, sys: Sys, m: Move, now: Time, t: Target)
    requires Begins(m) && AuctionOf(sys.db, t).Some?
    ensures AuctionOf(Advance(cfg, sys, m, now).sys.db, t) == AuctionOf(sys.db, t)
  {
    hide VehicleBidRefusal, LotBidRefusal, OrdersSpec.ReadForPayment, Machine.Apply;
  }

  predicate AuctionKept(sys: Sys, next: Sys, t: Target)
    requires AuctionOf(sys.db, t).Some?
  {
    AuctionOf(next.db, t).Some? && SamePrice(AuctionOf(sys.db, t).value, AuctionOf(next.db, t).value)
  }

  /** No other write changes one. */
  lemma OtherWritesKeep(sys: Sys, c: CallId, otp: int, now: Time, t: Target)
    requires c in sys.calls && AuctionOf(sys.db, t).Some?
    ensures AuctionKept(sys, FinishSweep(sys, c).sys, t) && AuctionKept(sys, RecordRow(sys, c).sys, t)
    ensures AuctionKept(sys, FinishScan(sys, c, otp, now).sys, t)
    ensures AuctionKept(sys, FinishComplete(sys, c, now).sys, t)
    ensures AuctionKept(sys, FinishUpdate(sys, c).sys, t) && AuctionKept(sys, FinishLot(sys, c).sys, t)
  {
    hide Record, PickupSpec.ScannedRow, PickupSpec.CollectedRow, VehiclesSpec.Edits;
  }

  lemma WriteOnTarget(cfg: Config, sys: Sys, m: Move, now: Time, t: Target)
    requires BidsInv(cfg, sys) && AuctionOf(sys.db, t).Some? && Continues(m) && m.call in sys.calls
    ensures var next := Advance(cfg, sys, m, now).sys;
            && AuctionOf(next.db, t).Some?
            && var a, b := AuctionOf(sys.db, t).value, AuctionOf(next.db, t).value;
               if CommitsOn(cfg, sys, m, now, t)
               then Raised(a, b, CommitUser(sys, m), CommitAmount(sys, m), Increment(cfg, t))
                   && SamePrice(Seen(sys.calls[m.call]), a)
               else SamePrice(a, b)
  {
    hide BidsInv, WholeCall, Swap, Extend, Commit, FinishSweep, RecordRow, FinishScan, FinishComplete, FinishUpdate;
    hide FinishLot, AuctionOf, BeginPayment, BeginScan, BeginVehicleBid, BeginLotBid, BeginComplete, BeginUpdate;
    hide BeginLot;
    if m.SwapBid? {
      SwapOnTarget(cfg, sys, m.call, now, t);
    } else if m.ExtendBid? {
      ExtendOnTarget(cfg, sys, m.call, now, t);
    } else if m.CommitPayment? {
      PaymentOnTarget(sys, m.call, m.rzPayment, m.signatureOk, m.year, now, t);
    } else {
      OtherWritesKeep(sys, m.call, if m.WriteScan? then m.otp else 0, now, t);
    }
  }

  lemma PriceStep(cfg: Config, sys: Sys, m: Move, now: Time, t: Target)
    requires BidsInv(cfg, sys) && AuctionOf(sys.db, t).Some?
    ensures var next := Advance(cfg, sys, m, now).sys;
            && AuctionOf(next.db, t).Some?
            && var a, b := AuctionOf(sys.db, t).value, AuctionOf(next.db, t).value;
               if CommitsOn(cfg, sys, m, now, t)
                   then Raised(a, b, CommitUser(sys, m), CommitAmount(sys, m), Increment(cfg, t))
               else SamePrice(a, b)
    ensures CommitsOn(cfg, sys, m, now, t) && m.SwapBid? ==>
        SamePrice(Seen(sys.calls[m.call]), AuctionOf(sys.db, t).value)
  {
    hide BidsInv, WholeCall, AuctionOf, Accepts;
    if m.Atomic? {
      WholeCallOnTarget(cfg, sys, m.action, now, t);
    } else if Begins(m) {
      ReadOnTarget(cfg, sys, m, now, t);
    } else if m.call in sys.calls {
      WriteOnTarget(cfg, sys, m, now, t);
    }
  }

  // ---- the invariant --------------------------------------------------------------------------------------

  lemma SnapshotSurvives(seen: AuctionState, a: AuctionState, b: AuctionState, user: UserId, amount: int,
                         increment: int, committed: bool)
    requires SnapshotOf(seen, a) && a.currentBid >= 0 && increment > 0
    requires if committed then Raised(a, b, user, amount, increment) else SamePrice(a, b)
    ensures SnapshotOf(seen, b) && b.currentBid >= 0
  {
  }

  lemma OldCallStaysOk(cfg: Config, sys: Sys, m: Move, now: Time, call: Call)
    requires PositiveIncrements(cfg) && BidsInv(cfg, sys) && CallOk(cfg, sys.db, call)
    ensures CallOk(cfg, Advance(cfg, sys, m, now).sys.db, call)
  {
    if Bidding(call) && call.phase == ToSwap {
      var t := TargetOf(call);
      var a := AuctionOf(sys.db, t).value;
      assert a.currentBid >= 0;
      hide Advance, BidsInv, AuctionOf, CommitsOn;
      PriceStep(cfg, sys, m, now, t);
      var b := AuctionOf(Advance(cfg, sys, m, now).sys.db, t).value;
      if CommitsOn(cfg, sys, m, now, t) {
        SnapshotSurvives(Seen(call), a, b, CommitUser(sys, m), CommitAmount(sys, m), Increment(cfg, t), true);
      } else {
        SnapshotSurvives(Seen(call), a, b, 0, 0, Increment(cfg, t), false);
      }
    }
  }

  /** A bid that has just been read satisfies what its swap relies on. */
  lemma NewCallOk(cfg: Config, sys: Sys, m: Move, now: Time, c: CallId)
    requires c in Advance(cfg, sys, m, now).sys.calls
    requires c in sys.calls ==> sys.calls[c] != Advance(cfg, sys, m, now).sys.calls[c]
    ensures CallOk(cfg, Advance(cfg, sys, m, now).sys.db, Advance(cfg, sys, m, now).sys.calls[c])
  {
    hide Machine.Apply, OrdersSpec.FinishPayment, OrdersSpec.ReadForPayment, SwapVehicle, SwapLot, Record;
    hide PickupSpec.ReadForScan, PickupSpec.CompleteRefusal, PickupSpec.ScannedRow, PickupSpec.CollectedRow;
    hide LotsSpec.LotRefusal, LotsSpec.InsertLot, VehiclesSpec.LapsedHolds, VehiclesSpec.Release;
  }

  /** Only a whole call creates an auction, or the write of a lot, which starts it without bids. */
  lemma NoAuctionWithoutCreate(cfg: Config, sys: Sys, m: Move, now: Time, t: Target)
    requires AuctionOf(sys.db, t).None? && AuctionOf(Advance(cfg, sys, m, now).sys.db, t).Some?
    ensures m.Atomic? || AuctionOf(Advance(cfg, sys, m, now).sys.db, t).value.currentBid == 0
  {
    hide Machine.Apply, OrdersSpec.ReadForPayment, SwapVehicle, SwapLot, VehicleBidRefusal, LotBidRefusal;
    hide OrdersSpec.SettledSales, OrdersSpec.InvoiceFree, OrdersSpec.RzPaymentFree;
  }

  lemma PricesStayNonNegative(cfg: Config, sys: Sys, m: Move, now: Time, t: Target)
    requires PositiveIncrements(cfg) && BidsInv(cfg, sys) && AuctionOf(Advance(cfg, sys, m, now).sys.db, t).Some?
    ensures AuctionOf(Advance(cfg, sys, m, now).sys.db, t).value.currentBid >= 0
  {
    if AuctionOf(sys.db, t).Some? {
      assert AuctionOf(sys.db, t).value.currentBid >= 0;
      hide Advance, BidsInv, AuctionOf, CommitsOn;
      PriceStep(cfg, sys, m, now, t);
    } else {
      NoAuctionWithoutCreate(cfg, sys, m, now, t);
      hide Machine.Apply;
      if m.Atomic? {
        NewAuction(cfg, sys.db, Machine.Event(m.action, now), t);
      }
    }
  }

  lemma BidsInvStep(cfg: Config, sys: Sys, m: Move, now: Time)
    requires PositiveIncrements(cfg) && BidsInv(cfg, sys)
    ensures BidsInv(cfg, Advance(cfg, sys, m, now).sys)
  {
    hide Advance, CallOk, AuctionOf;
    var next := Advance(cfg, sys, m, now).sys;
    forall t | AuctionOf(next.db, t).Some? ensures AuctionOf(next.db, t).value.currentBid >= 0 {
      PricesStayNonNegative(cfg, sys, m, now, t);
    }
    forall c | c in next.calls ensures CallOk(cfg, next.db, next.calls[c]) {
      if c in sys.calls && sys.calls[c] == next.calls[c] {
        OldCallStaysOk(cfg, sys, m, now, sys.calls[c]);
      } else {
        NewCallOk(cfg, sys, m, now, c);
      }
    }
  }

  // ---- runs -----------------------------------------------------------------------------------------------

  ghost predicate CommitsAt(cfg: Config, start: Sys, ts: seq<Tick>, n: nat, t: Target) {
    n < |ts| && CommitsOn(cfg, SysAt(cfg, start, ts, n), ts[n].move, ts[n].now, t)
  }

  lemma {:induction false} BidsInvAlways(cfg: Config, start: Sys, ts: seq<Tick>, n: nat)
    requires PositiveIncrements(cfg) && BidsInv(cfg, start) && n <= |ts|
    ensures BidsInv(cfg, SysAt(cfg, start, ts, n))
  {
    hide Advance, BidsInv;
    if n > 0 {
      BidsInvAlways(cfg, start, ts, n - 1);
      BidsInvStep(cfg, SysAt(cfg, start, ts, n - 1), ts[n - 1].move, ts[n - 1].now);
    }
  }

  lemma {:induction false} TargetPresent(cfg: Config, start: Sys, ts: seq<Tick>, n: nat, t: Target)
    requires PositiveIncrements(cfg) && BidsInv(cfg, start) && AuctionOf(start.db, t).Some? && n <= |ts|
    ensures AuctionOf(SysAt(cfg, start, ts, n).db, t).Some?
  {
    hide Advance, BidsInv, AuctionOf, CommitsOn;
    if n > 0 {
      TargetPresent(cfg, start, ts, n - 1, t);
      BidsInvAlways(cfg, start, ts, n - 1);
      PriceStep(cfg, SysAt(cfg, start, ts, n - 1), ts[n - 1].move, ts[n - 1].now, t);
    }
  }

  ghost function PriceAt(cfg: Config, start: Sys, ts: seq<Tick>, n: nat, t: Target): AuctionState
    requires PositiveIncrements(cfg) && BidsInv(cfg, start) && AuctionOf(start.db, t).Some? && n <= |ts|
  {
    TargetPresent(cfg, start, ts, n, t);
    AuctionOf(SysAt(cfg, start, ts, n).db, t).value
  }

  /** One move of a run, seen from one auction. */
  lemma PriceMoves(cfg: Config, start: Sys, ts: seq<Tick>, n: nat, t: Target)
    requires PositiveIncrements(cfg) && BidsInv(cfg, start) && AuctionOf(start.db, t).Some? && n < |ts|
    ensures var a, b := PriceAt(cfg, start, ts, n, t), PriceAt(cfg, start, ts, n + 1, t);
            a.currentBid >= 0
            && if CommitsAt(cfg, start, ts, n, t)
               then Raised(a, b, CommitUser(SysAt(cfg, start, ts, n), ts[n].move),
                   CommitAmount(SysAt(cfg, start, ts, n), ts[n].move), Increment(cfg, t))
               else SamePrice(a, b)
  {
    BidsInvAlways(cfg, start, ts, n);
    TargetPresent(cfg, start, ts, n, t);
    TargetPresent(cfg, start, ts, n + 1, t);
    assert AuctionOf(SysAt(cfg, start, ts, n).db, t).value.currentBid >= 0;
    hide Advance, BidsInv, AuctionOf, CommitsOn;
    PriceStep(cfg, SysAt(cfg, start, ts, n), ts[n].move, ts[n].now, t);
  }

  ghost function CommitCount(cfg: Config, start: Sys, ts: seq<Tick>, n: nat, t: Target): nat
    requires n <= |ts|
  {
    if n == 0 then 0 else CommitCount(cfg, start, ts, n - 1, t) + if CommitsAt(cfg, start, ts, n - 1, t) then 1 else 0
  }

  /** bidCount counts the commits. */
  lemma {:induction false} BidCountIsCommitCount(cfg: Config, start: Sys, ts: seq<Tick>, n: nat, t: Target)
    requires PositiveIncrements(cfg) && BidsInv(cfg, start) && AuctionOf(start.db, t).Some? && n <= |ts|
    ensures PriceAt(cfg, start, ts, n, t).bidCount
        == AuctionOf(start.db, t).value.bidCount + CommitCount(cfg, start, ts, n, t)
  {
    hide Advance, BidsInv, AuctionOf, CommitsOn;
    if n > 0 {
      BidCountIsCommitCount(cfg, start, ts, n - 1, t);
      PriceMoves(cfg, start, ts, n - 1, t);
    }
  }

  /** From a commit on, the price is its amount, or an increment above it after a later commit; until then the row
      names its bidder. */
  lemma {:induction false} AfterCommit(cfg: Config, start: Sys, ts: seq<Tick>, i: nat, n: nat, t: Target)
    requires PositiveIncrements(cfg) && BidsInv(cfg, start) && AuctionOf(start.db, t).Some?
    requires i < n <= |ts| && CommitsAt(cfg, start, ts, i, t)
    ensures var a, amount := PriceAt(cfg, start, ts, n, t), CommitAmount(SysAt(cfg, start, ts, i), ts[i].move);
            && amount > 0
            && if forall k: nat :: i < k < n ==> !CommitsAt(cfg, start, ts, k, t)
               then a.currentBid == amount && a.currentBidder == Some(CommitUser(SysAt(cfg, start, ts, i), ts[i].move))
               else a.currentBid >= amount + Increment(cfg, t)
    decreases n
  {
    hide Advance, BidsInv, AuctionOf, CommitsOn;
    PriceMoves(cfg, start, ts, n - 1, t);
    if i + 1 < n {
      AfterCommit(cfg, start, ts, i, n - 1, t);
      assert CommitsAt(cfg, start, ts, n - 1, t) || ((forall k: nat :: i < k < n ==> !CommitsAt(cfg, start, ts, k, t))
             <==> (forall k: nat :: i < k < n - 1 ==> !CommitsAt(cfg, start, ts, k, t)));
    }
  }

  /** Committed prices climb by at least the increment, so no price ever recurs. */
  lemma CommitsClimb(cfg: Config, start: Sys, ts: seq<Tick>, i: nat, j: nat, t: Target)
    requires PositiveIncrements(cfg) && BidsInv(cfg, start) && AuctionOf(start.db, t).Some?
    requires i < j < |ts| && CommitsAt(cfg, start, ts, i, t) && CommitsAt(cfg, start, ts, j, t)
    ensures CommitAmount(SysAt(cfg, start, ts, j), ts[j].move)
         >= CommitAmount(SysAt(cfg, start, ts, i), ts[i].move) + Increment(cfg, t)
  {
    hide Advance, BidsInv, AuctionOf, CommitsOn;
    AfterCommit(cfg, start, ts, i, j, t);
    PriceMoves(cfg, start, ts, j, t);
  }

  /** A snapshot that commits still shows the row as it is: same price, same bidder, same count. */
  lemma SnapshotStillCurrent(cfg: Config, start: Sys, ts: seq<Tick>, j: nat, t: Target)
    requires PositiveIncrements(cfg) && BidsInv(cfg, start) && AuctionOf(start.db, t).Some?
    requires CommitsAt(cfg, start, ts, j, t) && ts[j].move.SwapBid?
    ensures ts[j].move.call in SysAt(cfg, start, ts, j).calls
    ensures var call := SysAt(cfg, start, ts, j).calls[ts[j].move.call];
            Bidding(call) && TargetOf(call) == t && SamePrice(Seen(call), PriceAt(cfg, start, ts, j, t))
  {
    BidsInvAlways(cfg, start, ts, j);
    TargetPresent(cfg, start, ts, j, t);
    hide Advance, BidsInv, AuctionOf;
    PriceStep(cfg, SysAt(cfg, start, ts, j), ts[j].move, ts[j].now, t);
  }

  lemma {:induction false} CommitCountGrows(cfg: Config, start: Sys, ts: seq<Tick>, m: nat, n: nat, t: Target)
    requires m <= n <= |ts|
    ensures CommitCount(cfg, start, ts, m, t) <= CommitCount(cfg, start, ts, n, t)
    decreases n
  {
    hide Advance, CommitsAt;
    if m < n {
      CommitCountGrows(cfg, start, ts, m, n - 1, t);
    }
  }

  /** Move i reads the target for call c, which is still the same call at move j. */
  ghost predicate InFlightSince(cfg: Config, start: Sys, ts: seq<Tick>, i: nat, j: nat, c: CallId) {
    && i < j < |ts|
    && (ts[i].move.ReadVehicleBid? || ts[i].move.ReadLotBid?) && ts[i].move.call == c
    && c !in SysAt(cfg, start, ts, i).calls
    && c in SysAt(cfg, start, ts, i + 1).calls && c in SysAt(cfg, start, ts, j).calls
    && SysAt(cfg, start, ts, j).calls[c] == SysAt(cfg, start, ts, i + 1).calls[c]
  }

  lemma ReadTakesTheRow(cfg: Config, sys: Sys, m: Move, now: Time)
    requires (m.ReadVehicleBid? || m.ReadLotBid?) && m.call !in sys.calls
    requires m.call in Advance(cfg, sys, m, now).sys.calls
    ensures var call := Advance(cfg, sys, m, now).sys.calls[m.call];
            Bidding(call) && AuctionOf(sys.db, TargetOf(call)) == Some(Seen(call))
  {
    hide VehicleBidRefusal, LotBidRefusal, Machine.Apply;
  }

  /** No stale snapshot ever commits: between the read of a bid and its commit nothing else was committed. */
  lemma NoStaleCommit(cfg: Config, start: Sys, ts: seq<Tick>, i: nat, j: nat, k: nat, t: Target)
    requires PositiveIncrements(cfg) && BidsInv(cfg, start) && AuctionOf(start.db, t).Some?
    requires j < |ts| && ts[j].move.SwapBid? && CommitsAt(cfg, start, ts, j, t)
    requires InFlightSince(cfg, start, ts, i, j, ts[j].move.call) && i <= k < j
    ensures !CommitsAt(cfg, start, ts, k, t)
  {
    hide Advance, BidsInv, CommitsOn;
    ReadTakesTheRow(cfg, SysAt(cfg, start, ts, i), ts[i].move, ts[i].now);
    TargetPresent(cfg, start, ts, i, t);
    SnapshotStillCurrent(cfg, start, ts, j, t);
    BidCountIsCommitCount(cfg, start, ts, i, t);
    BidCountIsCommitCount(cfg, start, ts, j, t);
    CommitCountGrows(cfg, start, ts, i, k, t);
    CommitCountGrows(cfg, start, ts, k + 1, j, t);
  }
}
