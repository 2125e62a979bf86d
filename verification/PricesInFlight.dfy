/** L2 theorems about the price columns of a vehicle when `update` is cut into its read and its write: exactly when
    the floor under a standing bid is fixed. */
module PricesInFlight {
  import opened Rows
  import opened VehiclesSpec
  import opened Interleaved
  import opened SysView
  import Machine
  import AttemptGate
  import BidsSpec
  import OrdersSpec
  import PickupSpec
  import LotsSpec
  import VehicleView

  // ---- one move ------------------------------------------------------------------------------------------

  /** The write of an update of v. */
  predicate WritesPrices(sys: Sys, m: Move, v: VehicleId) {
    m.WriteUpdate? && m.call in sys.calls && sys.calls[m.call].Updating? && sys.calls[m.call].vehicle == v
  }

  predicate SamePrices(a: Vehicle, b: Vehicle) {
    a.reservePrice == b.reservePrice && a.buyNowPrice == b.buyNowPrice
  }

  /** A bid that stands stays; the starting bid never changes. */
  predicate BidStays(a: Vehicle, b: Vehicle) {
    b.startingBid == a.startingBid && a.auction.bidCount <= b.auction.bidCount
  }

  /** How the price columns move once a bid stands: by the write of an update in flight, or not at all. */
  ghost predicate PriceColumns(sys: Sys, m: Move, v: VehicleId, a: Vehicle, b: Vehicle) {
    && BidStays(a, b)
    && if WritesPrices(sys, m, v) then
         b == PricesWritten(a, sys.calls[m.call].frozen, sys.calls[m.call].reserve, sys.calls[m.call].buyNow)
       else a.auction.bidCount > 0 ==> SamePrices(a, b)
  }

  lemma WholeCallPrices(cfg: Config, sys: Sys, a: Machine.Action, now: Time, v: VehicleId)
    requires v in sys.db.vehicles
    ensures var next := WholeCall(cfg, sys, a, now).sys;
            && v in next.db.vehicles
            && BidStays(sys.db.vehicles[v], next.db.vehicles[v])
            && (sys.db.vehicles[v].auction.bidCount > 0 ==> SamePrices(sys.db.vehicles[v], next.db.vehicles[v]))
  {
    hide Machine.Apply, BidsSpec.EndAfterBid;
    VehicleView.VehicleStep(cfg, sys.db, Machine.Event(a, now), v);
  }

  lemma CommitPrices(sys: Sys, c: CallId, rzPayment: string, signatureOk: bool, year: int, now: Time, v: VehicleId)
    requires c in sys.calls && v in sys.db.vehicles
    ensures var next := Commit(sys, c, rzPayment, signatureOk, year, now).sys;
            && v in next.db.vehicles
            && BidStays(sys.db.vehicles[v], next.db.vehicles[v]) && SamePrices(sys.db.vehicles[v], next.db.vehicles[v])
  {
    hide OrdersSpec.SettledSales, OrdersSpec.CanSettle;
  }

  /** The price columns of v are left alone, and its bid stays. */
  predicate PricesKept(sys: Sys, next: Sys, v: VehicleId)
    requires v in sys.db.vehicles
  {
    && v in next.db.vehicles
    && BidStays(sys.db.vehicles[v], next.db.vehicles[v]) && SamePrices(sys.db.vehicles[v], next.db.vehicles[v])
  }

  lemma BidWritesKeepPrices(cfg: Config, sys: Sys, c: CallId, now: Time, v: VehicleId)
    requires c in sys.calls && v in sys.db.vehicles
    ensures PricesKept(sys, Swap(sys, c).sys, v) && PricesKept(sys, Extend(cfg, sys, c, now).sys, v)
  {
    hide BidsSpec.EndAfterBid, BidsSpec.Sniped, BidsSpec.SwapLot, BidsSpec.ExtendLot;
  }

  lemma OtherWritesKeepPrices(sys: Sys, c: CallId, v: VehicleId)
    requires c in sys.calls && v in sys.db.vehicles
    ensures PricesKept(sys, FinishSweep(sys, c).sys, v) && PricesKept(sys, FinishLot(sys, c).sys, v)
  {
    hide LotsSpec.LotIdFree, LotsSpec.LotRow;
  }

  lemma UpdateWrite(sys: Sys, c: CallId, v: VehicleId)
    requires c in sys.calls && v in sys.db.vehicles
    ensures var next := FinishUpdate(sys, c).sys;
            && v in next.db.vehicles
            && PriceColumns(sys, WriteUpdate(c), v, sys.db.vehicles[v], next.db.vehicles[v])
  {
    hide Edits;
  }

  lemma PriceColumnsStep(cfg: Config, sys: Sys, m: Move, now: Time, v: VehicleId)
    requires v in sys.db.vehicles
    ensures var next := Advance(cfg, sys, m, now).sys;
            && v in next.db.vehicles
            && PriceColumns(sys, m, v, sys.db.vehicles[v], next.db.vehicles[v])
  {
    hide WholeCall, Commit, BeginPayment, FinishSweep, BeginVehicleBid, BeginLotBid, Swap, RecordRow, Extend;
    hide BeginScan, BeginComplete, BeginUpdate, BeginLot, FinishScan, FinishComplete, FinishUpdate, FinishLot;
    hide LapsedHolds, PricesWritten;
    if m.Atomic? {
      WholeCallPrices(cfg, sys, m.action, now, v);
    } else if !WritesVehicle(m) {
      QuietVehicles(cfg, sys, m, now);
    } else if m.call in sys.calls {
      if m.CommitPayment? {
        CommitPrices(sys, m.call, m.rzPayment, m.signatureOk, m.year, now, v);
      } else if m.WriteUpdate? {
        UpdateWrite(sys, m.call, v);
      } else {
        BidWritesKeepPrices(cfg, sys, m.call, now, v);
        OtherWritesKeepPrices(sys, m.call, v);
      }
    }
  }

  /** An update in flight after a move was in flight before, or has read the row. */
  lemma UpdateBefore(cfg: Config, sys: Sys, m: Move, now: Time, c: CallId)
    requires c in Advance(cfg, sys, m, now).sys.calls && Advance(cfg, sys, m, now).sys.calls[c].Updating?
    ensures var call := Advance(cfg, sys, m, now).sys.calls[c];
            || (c in sys.calls && sys.calls[c] == call)
            || (call.vehicle in sys.db.vehicles && call.frozen == (sys.db.vehicles[call.vehicle].auction.bidCount > 0))
  {
    hide Machine.Apply, OrdersSpec.FinishPayment, OrdersSpec.ReadForPayment, BidsSpec.VehicleBidRefusal;
    hide BidsSpec.LotBidRefusal, BidsSpec.SwapVehicle, BidsSpec.SwapLot, BidsSpec.Record, BidsSpec.ExtendVehicle;
    hide BidsSpec.ExtendLot, PickupSpec.ReadForScan, PickupSpec.CompleteRefusal, LotsSpec.LotRefusal;
    hide LotsSpec.InsertLot, PickupSpec.ScannedRow, PickupSpec.CollectedRow, Release, PricesWritten, LapsedHolds;
    hide AttemptGate.Attempt, MayEdit;
  }

  // ---- stale updates --------------------------------------------------------------------------------------

  /** The call read v before its first bid and will write another reserve price. */
  predicate StaleReserve(call: Call, v: VehicleId, row: Vehicle) {
    && call.Updating? && call.vehicle == v && Edits(call.frozen, call.reserve) && call.reserve.value != row.reservePrice
  }

  /** The same for the buy-now price. */
  predicate StaleBuyNow(call: Call, v: VehicleId, row: Vehicle) {
    && call.Updating? && call.vehicle == v && Edits(call.frozen, call.buyNow) && call.buyNow != row.buyNowPrice
  }

  predicate NoStaleReserve(sys: Sys, v: VehicleId)
    requires v in sys.db.vehicles
  {
    forall c | c in sys.calls :: !StaleReserve(sys.calls[c], v, sys.db.vehicles[v])
  }

  predicate NoStaleBuyNow(sys: Sys, v: VehicleId)
    requires v in sys.db.vehicles
  {
    forall c | c in sys.calls :: !StaleBuyNow(sys.calls[c], v, sys.db.vehicles[v])
  }

  lemma NewUpdateIsFrozen(cfg: Config, sys: Sys, m: Move, now: Time, c: CallId, v: VehicleId)
    requires v in sys.db.vehicles && sys.db.vehicles[v].auction.bidCount > 0
    requires c in Advance(cfg, sys, m, now).sys.calls && Advance(cfg, sys, m, now).sys.calls[c].Updating?
    ensures var call := Advance(cfg, sys, m, now).sys.calls[c];
            (c in sys.calls && sys.calls[c] == call) || (call.vehicle == v ==> call.frozen)
  {
    hide Advance;
    UpdateBefore(cfg, sys, m, now, c);
  }

  /** A standing bid with no stale update: the reserve price stays, and no update becomes stale. */
  lemma ReserveStep(cfg: Config, sys: Sys, m: Move, now: Time, v: VehicleId)
    requires v in sys.db.vehicles && sys.db.vehicles[v].auction.bidCount > 0 && NoStaleReserve(sys, v)
    ensures var next := Advance(cfg, sys, m, now).sys;
            && v in next.db.vehicles && BidStays(sys.db.vehicles[v], next.db.vehicles[v])
            && next.db.vehicles[v].reservePrice == sys.db.vehicles[v].reservePrice && NoStaleReserve(next, v)
  {
    hide Advance;
    PriceColumnsStep(cfg, sys, m, now, v);
    var next := Advance(cfg, sys, m, now).sys;
    if WritesPrices(sys, m, v) {
      assert !StaleReserve(sys.calls[m.call], v, sys.db.vehicles[v]);
    }
    forall c | c in next.calls ensures !StaleReserve(next.calls[c], v, next.db.vehicles[v]) {
      if next.calls[c].Updating? {
        NewUpdateIsFrozen(cfg, sys, m, now, c, v);
        assert c in sys.calls ==> !StaleReserve(sys.calls[c], v, sys.db.vehicles[v]);
      }
    }
  }

  lemma BuyNowStep(cfg: Config, sys: Sys, m: Move, now: Time, v: VehicleId)
    requires v in sys.db.vehicles && sys.db.vehicles[v].auction.bidCount > 0 && NoStaleBuyNow(sys, v)
    ensures var next := Advance(cfg, sys, m, now).sys;
            && v in next.db.vehicles && BidStays(sys.db.vehicles[v], next.db.vehicles[v])
            && next.db.vehicles[v].buyNowPrice == sys.db.vehicles[v].buyNowPrice && NoStaleBuyNow(next, v)
  {
    hide Advance;
    PriceColumnsStep(cfg, sys, m, now, v);
    var next := Advance(cfg, sys, m, now).sys;
    if WritesPrices(sys, m, v) {
      assert !StaleBuyNow(sys.calls[m.call], v, sys.db.vehicles[v]);
    }
    forall c | c in next.calls ensures !StaleBuyNow(next.calls[c], v, next.db.vehicles[v]) {
      if next.calls[c].Updating? {
        NewUpdateIsFrozen(cfg, sys, m, now, c, v);
        assert c in sys.calls ==> !StaleBuyNow(sys.calls[c], v, sys.db.vehicles[v]);
      }
    }
  }

  // ---- every continuation -----------------------------------------------------------------------------------

  lemma {:induction false} ReserveStays(cfg: Config, start: Sys, ts: seq<Tick>, n: nat, v: VehicleId)
    requires v in start.db.vehicles && start.db.vehicles[v].auction.bidCount > 0 && NoStaleReserve(start, v)
    requires n <= |ts|
    ensures var sys := SysAt(cfg, start, ts, n);
            && v in sys.db.vehicles && BidStays(start.db.vehicles[v], sys.db.vehicles[v])
            && sys.db.vehicles[v].reservePrice == start.db.vehicles[v].reservePrice && NoStaleReserve(sys, v)
  {
    hide Advance, NoStaleReserve;
    if n > 0 {
      ReserveStays(cfg, start, ts, n - 1, v);
      ReserveStep(cfg, SysAt(cfg, start, ts, n - 1), ts[n - 1].move, ts[n - 1].now, v);
    }
  }

  lemma {:induction false} BuyNowStays(cfg: Config, start: Sys, ts: seq<Tick>, n: nat, v: VehicleId)
    requires v in start.db.vehicles && start.db.vehicles[v].auction.bidCount > 0 && NoStaleBuyNow(start, v)
    requires n <= |ts|
    ensures var sys := SysAt(cfg, start, ts, n);
            && v in sys.db.vehicles && BidStays(start.db.vehicles[v], sys.db.vehicles[v])
            && sys.db.vehicles[v].buyNowPrice == start.db.vehicles[v].buyNowPrice && NoStaleBuyNow(sys, v)
  {
    hide Advance, NoStaleBuyNow;
    if n > 0 {
      BuyNowStays(cfg, start, ts, n - 1, v);
      BuyNowStep(cfg, SysAt(cfg, start, ts, n - 1), ts[n - 1].move, ts[n - 1].now, v);
    }
  }

  lemma {:induction false} StartingBidStays(cfg: Config, start: Sys, ts: seq<Tick>, n: nat, v: VehicleId)
    requires v in start.db.vehicles && n <= |ts|
    ensures v in SysAt(cfg, start, ts, n).db.vehicles
    ensures SysAt(cfg, start, ts, n).db.vehicles[v].startingBid == start.db.vehicles[v].startingBid
  {
    hide Advance;
    if n > 0 {
      StartingBidStays(cfg, start, ts, n - 1, v);
      PriceColumnsStep(cfg, SysAt(cfg, start, ts, n - 1), ts[n - 1].move, ts[n - 1].now, v);
    }
  }

  ghost predicate FloorFixed(cfg: Config, start: Sys, v: VehicleId)
    requires v in start.db.vehicles
  {
    forall ts: seq<Tick> :: var db := SysAt(cfg, start, ts, |ts|).db;
        v in db.vehicles && BidsSpec.Floor(db.vehicles[v]) == BidsSpec.Floor(start.db.vehicles[v])
  }

  ghost predicate PricesFixed(cfg: Config, start: Sys, v: VehicleId)
    requires v in start.db.vehicles
  {
    forall ts: seq<Tick> :: var db := SysAt(cfg, start, ts, |ts|).db;
        v in db.vehicles && SamePrices(start.db.vehicles[v], db.vehicles[v])
  }

  lemma AfterUpdateWrite(cfg: Config, sys: Sys, c: CallId, v: VehicleId, now: Time)
    requires c in sys.calls && sys.calls[c].Updating? && sys.calls[c].vehicle == v && v in sys.db.vehicles
    ensures var ts := [Tick(WriteUpdate(c), now)];
            var db := SysAt(cfg, sys, ts, |ts|).db;
            && v in db.vehicles
            && db.vehicles[v] == PricesWritten(sys.db.vehicles[v], sys.calls[c].frozen, sys.calls[c].reserve,
                                              sys.calls[c].buyNow)
  {
    hide Advance, PricesWritten;
    var ts := [Tick(WriteUpdate(c), now)];
    FirstSys(cfg, sys, ts);
    NextSys(cfg, sys, ts, 0);
    PriceColumnsStep(cfg, sys, WriteUpdate(c), now, v);
  }

  /** Once a bid stands, the floor it was measured against is fixed in every continuation if and only if the listing
      has a starting bid, or no update in flight read it before its first bid and will write another reserve price. */
  lemma FloorFixedIff(cfg: Config, start: Sys, v: VehicleId, now: Time)
    requires v in start.db.vehicles && start.db.vehicles[v].auction.bidCount > 0
    ensures FloorFixed(cfg, start, v) <==> start.db.vehicles[v].startingBid.Some? || NoStaleReserve(start, v)
  {
    hide Advance, SysAt;
    if start.db.vehicles[v].startingBid.Some? || NoStaleReserve(start, v) {
      forall ts: seq<Tick> ensures var db := SysAt(cfg, start, ts, |ts|).db;
        v in db.vehicles && BidsSpec.Floor(db.vehicles[v]) == BidsSpec.Floor(start.db.vehicles[v])
      {
        StartingBidStays(cfg, start, ts, |ts|, v);
        if NoStaleReserve(start, v) {
          ReserveStays(cfg, start, ts, |ts|, v);
        }
      }
    } else {
      var c :| c in start.calls && StaleReserve(start.calls[c], v, start.db.vehicles[v]);
      AfterUpdateWrite(cfg, start, c, v, now);
    }
  }

  /** Both prices are fixed if and only if no update in flight read the listing before its first bid and will write
      another of either. */
  lemma PricesFixedIff(cfg: Config, start: Sys, v: VehicleId, now: Time)
    requires v in start.db.vehicles && start.db.vehicles[v].auction.bidCount > 0
    ensures PricesFixed(cfg, start, v) <==> NoStaleReserve(start, v) && NoStaleBuyNow(start, v)
  {
    hide Advance, SysAt;
    if NoStaleReserve(start, v) && NoStaleBuyNow(start, v) {
      forall ts: seq<Tick> ensures var db := SysAt(cfg, start, ts, |ts|).db;
        v in db.vehicles && SamePrices(start.db.vehicles[v], db.vehicles[v])
      {
        ReserveStays(cfg, start, ts, |ts|, v);
        BuyNowStays(cfg, start, ts, |ts|, v);
      }
    } else if !NoStaleReserve(start, v) {
      var c :| c in start.calls && StaleReserve(start.calls[c], v, start.db.vehicles[v]);
      AfterUpdateWrite(cfg, start, c, v, now);
    } else {
      var c :| c in start.calls && StaleBuyNow(start.calls[c], v, start.db.vehicles[v]);
      AfterUpdateWrite(cfg, start, c, v, now);
    }
  }

  // ---- a first bid below the floor ----------------------------------------------------------------------------

  lemma ReadsUnfrozen(cfg: Config, sys: Sys, c: CallId, staff: User, v: VehicleId, reserve: Option<int>, now: Time)
    requires c !in sys.calls && v in sys.db.vehicles && sys.db.vehicles[v].auction.bidCount == 0
    requires MayEdit(staff, sys.db.vehicles[v].bankId)
    ensures Advance(cfg, sys, ReadUpdate(c, staff, v, reserve, None), now).sys
         == Sys(sys.db, sys.calls[c := Updating(v, false, reserve, None)])
  {
    hide WholeCall, MayEdit;
  }

  lemma UpdateWritten(cfg: Config, sys: Sys, c: CallId, now: Time, v: VehicleId)
    requires c in sys.calls && sys.calls[c].Updating? && sys.calls[c].vehicle == v && v in sys.db.vehicles
    ensures var next := Advance(cfg, sys, WriteUpdate(c), now).sys;
            && v in next.db.vehicles
            && next.db.vehicles[v] == PricesWritten(sys.db.vehicles[v], sys.calls[c].frozen, sys.calls[c].reserve,
                                                    sys.calls[c].buyNow)
  {
    hide Advance, PricesWritten;
    PriceColumnsStep(cfg, sys, WriteUpdate(c), now, v);
  }

  lemma FirstBid(cfg: Config, sys: Sys, user: User, v: VehicleId, amount: int, now: Time)
    requires v in sys.db.vehicles
    requires Machine.Apply(cfg, sys.db, Machine.Event(Machine.BidOnVehicle(user, v, amount), now)).out.Ok?
    ensures var next := Advance(cfg, sys, Atomic(Machine.BidOnVehicle(user, v, amount)), now).sys;
            && next.calls == sys.calls && v in next.db.vehicles
            && next.db.vehicles[v].auction.currentBid == amount
            && next.db.vehicles[v].auction.bidCount == sys.db.vehicles[v].auction.bidCount + 1
  {
    hide Machine.Apply;
    VehicleView.VehicleStep(cfg, sys.db, Machine.Event(Machine.BidOnVehicle(user, v, amount), now), v);
  }

  /** An update that read the listing without bids writes after the first: the standing bid is below the reserve. */
  lemma StaleUpdateRaisesFloorOverBid(cfg: Config, sys: Sys, c: CallId, staff: User, user: User, v: VehicleId,
                                      amount: int,
                                      reserve: int, now: Time)
    requires c !in sys.calls && v in sys.db.vehicles && sys.db.vehicles[v].auction.bidCount == 0
    requires MayEdit(staff, sys.db.vehicles[v].bankId) && amount < reserve && reserve != 0
    requires Machine.Apply(cfg, sys.db, Machine.Event(Machine.BidOnVehicle(user, v, amount), now)).out.Ok?
    ensures var ts := [Tick(ReadUpdate(c, staff, v, Some(reserve), None), now),
                       Tick(Atomic(Machine.BidOnVehicle(user, v, amount)), now), Tick(WriteUpdate(c), now)];
            var db := SysAt(cfg, sys, ts, 3).db;
            && v in db.vehicles
            && db.vehicles[v].auction.currentBid == amount && db.vehicles[v].auction.bidCount == 1
            && db.vehicles[v].reservePrice == reserve
  {
    hide Advance, Machine.Apply, MayEdit;
    var a := Machine.BidOnVehicle(user, v, amount);
    var ts := [Tick(ReadUpdate(c, staff, v, Some(reserve), None), now), Tick(Atomic(a), now),
        Tick(WriteUpdate(c), now)];
    Ticks(cfg, sys, ts);
    var s1, s2 := SysAt(cfg, sys, ts, 1), SysAt(cfg, sys, ts, 2);
    ReadsUnfrozen(cfg, sys, c, staff, v, Some(reserve), now);
    FirstBid(cfg, s1, user, v, amount, now);
    UpdateWritten(cfg, s2, c, now, v);
  }
}
