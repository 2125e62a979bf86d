/** L2 theorem: however payments and sweeps interleave, a buy-now vehicle is sold at most once exactly when no hold
    is granted over an order that can still be paid or has been. */
module SalesInFlight {
  import opened Rows
  import opened OrdersSpec
  import opened SalesTheory
  import opened SalesRuns
  import opened OrderView
  import opened Interleaved
  import opened SysView
  import opened SettlementOnce
  import opened LifecycleInFlight
  import opened NoDoubleSale

  ghost predicate CanBePaidOn(sys: Sys, o: OrderId, v: VehicleId) {
    CanBePaid(sys, o) && sys.db.sales.orders[o].vehicleId == Some(v)
  }

  /** No order on the vehicle can still be paid, by anyone, and none has been. */
  ghost predicate NothingOwed(sys: Sys, v: VehicleId) {
    forall o :: !CanBePaidOn(sys, o, v) && !SettledOn(sys.db.sales, o, v)
  }

  /** A hold granted by this move finds nothing owed. */
  ghost predicate CleanMove(cfg: Config, sys: Sys, m: Move, now: Time, v: VehicleId) {
    HoldsOn(cfg, sys, m, now, v) ==> NothingOwed(sys, v)
  }

  /** The order was checked out under the hold on the row, and is HELD unless that hold has run out. */
  predicate UnderHold(o: Order, v: Vehicle, now: Time) {
    && v.heldBy == Some(o.buyer) && v.heldUntil.Some? && o.heldUntil == v.heldUntil
    && (o.status == Held || v.heldUntil.value < now)
  }

  ghost predicate SaleSysInv(sys: Sys, v: VehicleId, now: Time) {
    && v in sys.db.vehicles && sys.db.vehicles[v].saleType != SaleType.Auction
    && (forall o, q :: CanBePaidOn(sys, o, v) && CanBePaidOn(sys, q, v) ==> o == q)
    && (sys.db.vehicles[v].heldBy.Some? ==> sys.db.vehicles[v].heldUntil.Some?)
    && (sys.db.vehicles[v].heldBy.Some? ==>
          forall o :: CanBePaidOn(sys, o, v) ==> UnderHold(sys.db.sales.orders[o], sys.db.vehicles[v], now))
    && (forall o :: SettledOn(sys.db.sales, o, v) ==>
          && sys.db.vehicles[v].heldBy == None
          && (forall q :: !CanBePaidOn(sys, q, v))
          && (forall q :: SettledOn(sys.db.sales, q, v) ==> q == o))
  }

  // ---- one move --------------------------------------------------------------------------------------

  lemma DealKept(cfg: Config, sys: Sys, m: Move, now: Time, o: OrderId)
    requires SysInv(sys) && o in sys.db.sales.orders
    ensures o in Advance(cfg, sys, m, now).sys.db.sales.orders
    ensures SameDeal(sys.db.sales.orders[o], Advance(cfg, sys, m, now).sys.db.sales.orders[o])
  {
    hide Advance, SalesInv, SoundMove, CallsSound;
    AdvanceSound(cfg, sys, m, now);
    SoundMoveGives(sys.db.sales, Advance(cfg, sys, m, now).sys.db.sales);
  }

  lemma PaidOrderExists(sys: Sys, o: OrderId)
    requires CanBePaid(sys, o)
    ensures o in sys.db.sales.orders && !SettledStatus(sys.db.sales.orders[o].status)
  {
  }

  /** Unless it is created by this move, what can be paid could be paid before. */
  lemma CanBePaidOnBefore(cfg: Config, sys: Sys, m: Move, now: Time, o: OrderId, v: VehicleId)
    requires SysInv(sys) && CanBePaidOn(Advance(cfg, sys, m, now).sys, o, v)
    ensures var w := Advance(cfg, sys, m, now);
            if o in sys.db.sales.orders then CanBePaidOn(sys, o, v)
            else
              && m.Atomic? && w.out.Some? && ChecksOut(m.action, w.out.value, o)
              && CheckedOutRow(cfg, sys.db, m.action, now, w.sys.db)
  {
    hide Advance, SysInv, CanBePaid, CheckedOutRow;
    assert o in Advance(cfg, sys, m, now).sys.db.sales.orders by { PaidOrderExists(Advance(cfg, sys, m, now).sys, o); }
    if o in sys.db.sales.orders {
      CanBePaidBefore(cfg, sys, m, now, o);
      DealKept(cfg, sys, m, now, o);
    } else {
      SysNewOrder(cfg, sys, m, now, o);
    }
  }

  /** A settled order was settled before, or this move settles it and it could be paid. */
  lemma SettledOnBefore(cfg: Config, sys: Sys, m: Move, now: Time, o: OrderId, v: VehicleId)
    requires SysInv(sys) && SettledOn(Advance(cfg, sys, m, now).sys.db.sales, o, v)
    ensures o in sys.db.sales.orders
    ensures SettledOn(sys.db.sales, o, v) || (CanBePaidOn(sys, o, v) && SettlesOn(cfg, sys, m, now, o))
  {
    hide Advance, SysInv, CanBePaid, SettlesOn;
    if o in sys.db.sales.orders {
      DealKept(cfg, sys, m, now, o);
      SysStatusStep(cfg, sys, m, now, o);
      if !SettledOn(sys.db.sales, o, v) {
        SettlesWhatCanBePaid(cfg, sys, m, now, o);
      }
    } else {
      SysNewOrder(cfg, sys, m, now, o);
    }
  }

  /** A checkout by the holder, inside the hold, finds nothing that could be paid; its order is under the hold. */
  lemma CheckoutUnderHold(cfg: Config, sys: Sys, m: Move, before: Time, now: Time, o: OrderId, v: VehicleId)
    requires SysInv(sys) && SaleSysInv(sys, v, before) && before <= now
    requires o !in sys.db.sales.orders && CanBePaidOn(Advance(cfg, sys, m, now).sys, o, v)
    ensures m.Atomic? && m.action.StartCheckout?
    ensures sys.db.vehicles[v].heldBy.Some?
    ensures UnderHold(Advance(cfg, sys, m, now).sys.db.sales.orders[o], sys.db.vehicles[v], now)
    ensures forall q :: !CanBePaidOn(sys, q, v)
  {
    hide Advance, SysInv, CanBePaid;
    CanBePaidOnBefore(cfg, sys, m, now, o, v);
    forall q ensures !CanBePaidOn(sys, q, v) {
      if CanBePaidOn(sys, q, v) {
        PaidOrderExists(sys, q);
      }
    }
  }

  /** The hold columns of v after a move, as far as payments care. */
  lemma HolderAfter(cfg: Config, sys: Sys, m: Move, now: Time, v: VehicleId)
    requires SysInv(sys) && v in sys.db.vehicles
    ensures var next := Advance(cfg, sys, m, now).sys;
            && v in next.db.vehicles
            && (next.db.vehicles[v].saleType == sys.db.vehicles[v].saleType || next.db.vehicles[v].saleType == LotSale)
            && (next.db.vehicles[v].heldBy == None
                || (HoldsOn(cfg, sys, m, now, v) && next.db.vehicles[v].heldUntil.Some?)
                || (next.db.vehicles[v].heldBy == sys.db.vehicles[v].heldBy
                    && next.db.vehicles[v].heldUntil == sys.db.vehicles[v].heldUntil))
            && (SellsOn(cfg, sys, m, now, v) ==> next.db.vehicles[v].heldBy == None)
  {
    hide Advance, SalesInv, CallsSound, SellsOn;
    SysVehicleStep(cfg, sys, m, now, v);
  }

  lemma SellsNotHolds(cfg: Config, sys: Sys, m: Move, now: Time, o: OrderId, v: VehicleId)
    requires SettlesOn(cfg, sys, m, now, o) && OrderOn(sys.db.sales.orders, o, v)
    ensures SellsOn(cfg, sys, m, now, v) && (m.Atomic? ==> m.action.VerifyPayment?)
  {
    hide Advance;
  }

  lemma OneCanBePaid(cfg: Config, sys: Sys, m: Move, before: Time, now: Time, o: OrderId, q: OrderId, v: VehicleId)
    requires SysInv(sys) && SaleSysInv(sys, v, before) && before <= now
    requires CanBePaidOn(Advance(cfg, sys, m, now).sys, o, v) && CanBePaidOn(Advance(cfg, sys, m, now).sys, q, v)
    ensures o == q
  {
    hide Advance, SysInv, CanBePaid, UnderHold, CheckedOutRow;
    CanBePaidOnBefore(cfg, sys, m, now, o, v);
    CanBePaidOnBefore(cfg, sys, m, now, q, v);
    if o !in sys.db.sales.orders {
      CheckoutUnderHold(cfg, sys, m, before, now, o, v);
    }
    if q !in sys.db.sales.orders {
      CheckoutUnderHold(cfg, sys, m, before, now, q, v);
    }
  }

  /** An order stays under the hold while the row keeps it. */
  lemma StaysUnderHold(cfg: Config, sys: Sys, m: Move, before: Time, now: Time, o: OrderId, row: Vehicle)
    requires SysInv(sys) && before <= now && o in sys.db.sales.orders && CanBePaid(sys, o)
    requires UnderHold(sys.db.sales.orders[o], row, before) && CanBePaid(Advance(cfg, sys, m, now).sys, o)
    ensures o in Advance(cfg, sys, m, now).sys.db.sales.orders
    ensures UnderHold(Advance(cfg, sys, m, now).sys.db.sales.orders[o], row, now)
  {
    hide Advance, SysInv, CanBePaid, HasPendingPayment, SettlesOn;
    SysInvGives(sys);
    OrderRowsOfInv(sys.db.sales);
    DealKept(cfg, sys, m, now, o);
    PaidOrderExists(Advance(cfg, sys, m, now).sys, o);
    SysStatusStep(cfg, sys, m, now, o);
    SysOrderStep(cfg, sys, m, now, o);
  }

  lemma CheckoutIsNoHold(cfg: Config, sys: Sys, m: Move, now: Time, v: VehicleId)
    requires m.Atomic? && m.action.StartCheckout?
    ensures !HoldsOn(cfg, sys, m, now, v)
  {
    hide Advance;
  }

  lemma PayableUnderHold(cfg: Config, sys: Sys, m: Move, before: Time, now: Time, o: OrderId, v: VehicleId)
    requires SysInv(sys) && SaleSysInv(sys, v, before) && before <= now && CleanMove(cfg, sys, m, now, v)
    requires CanBePaidOn(Advance(cfg, sys, m, now).sys, o, v)
    requires v in Advance(cfg, sys, m, now).sys.db.vehicles && Advance(cfg, sys, m, now).sys.db.vehicles[v].heldBy.Some?
    ensures UnderHold(Advance(cfg, sys, m, now).sys.db.sales.orders[o], Advance(cfg, sys, m, now).sys.db.vehicles[v],
        now)
  {
    var next := Advance(cfg, sys, m, now).sys;
    hide Advance, SysInv, CanBePaid, HoldsOn, CheckedOutRow;
    HolderAfter(cfg, sys, m, now, v);
    CanBePaidOnBefore(cfg, sys, m, now, o, v);
    if o in sys.db.sales.orders {
      assert HoldsOn(cfg, sys, m, now, v) ==> !CanBePaidOn(sys, o, v);
      StaysUnderHold(cfg, sys, m, before, now, o, sys.db.vehicles[v]);
    } else {
      CheckoutUnderHold(cfg, sys, m, before, now, o, v);
      CheckoutIsNoHold(cfg, sys, m, now, v);
    }
  }

  lemma SettledEndsIt(cfg: Config, sys: Sys, m: Move, before: Time, now: Time, o: OrderId, v: VehicleId)
    requires SysInv(sys) && SaleSysInv(sys, v, before) && before <= now && CleanMove(cfg, sys, m, now, v)
    requires SettledOn(Advance(cfg, sys, m, now).sys.db.sales, o, v)
    ensures v in Advance(cfg, sys, m, now).sys.db.vehicles
    ensures Advance(cfg, sys, m, now).sys.db.vehicles[v].heldBy == None
  {
    hide Advance, SysInv, CanBePaid, HoldsOn, SellsOn, SettlesOn;
    HolderAfter(cfg, sys, m, now, v);
    SettledOnBefore(cfg, sys, m, now, o, v);
    if SettledOn(sys.db.sales, o, v) {
      assert !HoldsOn(cfg, sys, m, now, v);
    } else {
      SellsNotHolds(cfg, sys, m, now, o, v);
    }
  }

  lemma NothingElse(cfg: Config, sys: Sys, m: Move, before: Time, now: Time, o: OrderId, q: OrderId, v: VehicleId)
    requires SysInv(sys) && SaleSysInv(sys, v, before) && before <= now
    requires SettledOn(Advance(cfg, sys, m, now).sys.db.sales, o, v)
    ensures !CanBePaidOn(Advance(cfg, sys, m, now).sys, q, v)
    ensures SettledOn(Advance(cfg, sys, m, now).sys.db.sales, q, v) ==> q == o
  {
    hide Advance, SysInv, CanBePaid, UnderHold, SettlesOn, SellsOn, CheckedOutRow;
    SettledOnBefore(cfg, sys, m, now, o, v);
    if CanBePaidOn(Advance(cfg, sys, m, now).sys, q, v) {
      PaidOrderExists(Advance(cfg, sys, m, now).sys, q);
      CanBePaidOnBefore(cfg, sys, m, now, q, v);
      if q !in sys.db.sales.orders {
        CheckoutUnderHold(cfg, sys, m, before, now, q, v);
        if SettlesOn(cfg, sys, m, now, o) {
          SellsNotHolds(cfg, sys, m, now, o, v);
        }
      }
    }
    if SettledOn(Advance(cfg, sys, m, now).sys.db.sales, q, v) {
      SettledOnBefore(cfg, sys, m, now, q, v);
    }
  }

  lemma PaidOnExists(sys: Sys, o: OrderId, v: VehicleId)
    requires CanBePaidOn(sys, o, v)
    ensures o in sys.db.sales.orders
  {
  }

  lemma SaleSysStep(cfg: Config, sys: Sys, m: Move, before: Time, now: Time, v: VehicleId)
    requires SysInv(sys) && SaleSysInv(sys, v, before) && before <= now && CleanMove(cfg, sys, m, now, v)
    ensures SaleSysInv(Advance(cfg, sys, m, now).sys, v, now)
  {
    hide Advance, SysInv, CanBePaidOn, SettledOn, CleanMove, HoldsOn, SellsOn, UnderHold;
    var next := Advance(cfg, sys, m, now).sys;
    HolderAfter(cfg, sys, m, now, v);
    forall o, q | CanBePaidOn(next, o, v) && CanBePaidOn(next, q, v) ensures o == q {
      OneCanBePaid(cfg, sys, m, before, now, o, q, v);
    }
    if next.db.vehicles[v].heldBy.Some? {
      forall o | CanBePaidOn(next, o, v)
        ensures o in next.db.sales.orders && UnderHold(next.db.sales.orders[o], next.db.vehicles[v], now)
      {
        PaidOnExists(next, o, v);
        PayableUnderHold(cfg, sys, m, before, now, o, v);
      }
    }
    forall o | SettledOn(next.db.sales, o, v)
      ensures next.db.vehicles[v].heldBy == None
      ensures forall q :: !CanBePaidOn(next, q, v)
      ensures forall q :: SettledOn(next.db.sales, q, v) ==> q == o
    {
      SettledEndsIt(cfg, sys, m, before, now, o, v);
      forall q ensures !CanBePaidOn(next, q, v) && (SettledOn(next.db.sales, q, v) ==> q == o) {
        NothingElse(cfg, sys, m, before, now, o, q, v);
      }
    }
  }

  // ---- runs --------------------------------------------------------------------------------------------

  ghost predicate CleanMoves(cfg: Config, start: Sys, ts: seq<Tick>, v: VehicleId) {
    forall k: nat :: k < |ts| ==> CleanMove(cfg, SysAt(cfg, start, ts, k), ts[k].move, ts[k].now, v)
  }

  function ClockAt(ts: seq<Tick>, n: nat, since: Time): Time
    requires n <= |ts|
  {
    if n == 0 then since else ts[n - 1].now
  }

  ghost predicate After(ts: seq<Tick>, since: Time) {
    InTimeOrder(ts) && (ts != [] ==> since <= ts[0].now)
  }

  lemma CleanAt(cfg: Config, start: Sys, ts: seq<Tick>, k: nat, v: VehicleId)
    requires CleanMoves(cfg, start, ts, v) && k < |ts|
    ensures CleanMove(cfg, SysAt(cfg, start, ts, k), ts[k].move, ts[k].now, v)
  {
    hide Advance, CleanMove;
  }

  lemma ClockMovesOn(ts: seq<Tick>, n: nat, since: Time)
    requires After(ts, since) && n < |ts|
    ensures ClockAt(ts, n, since) <= ts[n].now
  {
  }

  lemma {:induction false} SaleSysInvAlways(cfg: Config, start: Sys, ts: seq<Tick>, n: nat, v: VehicleId, since: Time)
    requires SysInv(start) && SaleSysInv(start, v, since) && After(ts, since) && CleanMoves(cfg, start, ts, v)
    requires n <= |ts|
    ensures SaleSysInv(SysAt(cfg, start, ts, n), v, ClockAt(ts, n, since))
  {
    hide Advance, SysInv, SaleSysInv, CleanMove, CleanMoves, SysAt, After;
    if n == 0 {
      FirstSys(cfg, start, ts);
    } else {
      SaleSysInvAlways(cfg, start, ts, n - 1, v, since);
      CleanAt(cfg, start, ts, n - 1, v);
      ClockMovesOn(ts, n - 1, since);
      NextSys(cfg, start, ts, n - 1);
      SysInvAlways(cfg, start, ts, n - 1);
      SaleSysStep(cfg, SysAt(cfg, start, ts, n - 1), ts[n - 1].move, ClockAt(ts, n - 1, since), ts[n - 1].now, v);
    }
  }

  ghost predicate SoldOnceAtMost(s: Sales, v: VehicleId) {
    forall o, q :: SettledOn(s, o, v) && SettledOn(s, q, v) ==> o == q
  }

  /** In every interleaving whose holds find nothing owed, no state shows two settled orders on the vehicle; once
      there is one, the vehicle has no holder and nothing on it can be paid. */
  lemma SoldOnceInFlight(cfg: Config, start: Sys, ts: seq<Tick>, n: nat, v: VehicleId, since: Time)
    requires SysInv(start) && SaleSysInv(start, v, since) && After(ts, since) && CleanMoves(cfg, start, ts, v)
    requires n <= |ts|
    ensures var sys := SysAt(cfg, start, ts, n);
            && SoldOnceAtMost(sys.db.sales, v)
            && v in sys.db.vehicles
            && forall o :: SettledOn(sys.db.sales, o, v) ==>
                 sys.db.vehicles[v].heldBy == None && forall q :: !CanBePaidOn(sys, q, v)
  {
    hide Advance, SysInv, CleanMoves, CanBePaidOn, SettledOn, UnderHold;
    SaleSysInvAlways(cfg, start, ts, n, v, since);
  }

  lemma SettledNow(cfg: Config, sys: Sys, m: Move, now: Time, o: OrderId, v: VehicleId)
    requires SysInv(sys) && SettlesOn(cfg, sys, m, now, o) && OrderOn(sys.db.sales.orders, o, v)
    ensures SettledOn(Advance(cfg, sys, m, now).sys.db.sales, o, v)
  {
    hide Advance, SysInv, SettlesOn;
    DealKept(cfg, sys, m, now, o);
    SysStatusStep(cfg, sys, m, now, o);
  }

  lemma {:induction false} SettledStaysInFlight(cfg: Config, start: Sys, ts: seq<Tick>, m: nat, n: nat, o: OrderId,
                                                v: VehicleId)
    requires SysInv(start) && m <= n <= |ts| && SettledOn(SysAt(cfg, start, ts, m).db.sales, o, v)
    ensures SettledOn(SysAt(cfg, start, ts, n).db.sales, o, v)
    decreases n
  {
    hide Advance, SysInv;
    if m < n {
      SettledStaysInFlight(cfg, start, ts, m, n - 1, o, v);
      SysInvAlways(cfg, start, ts, n - 1);
      SettledStaysSettled(cfg, SysAt(cfg, start, ts, n - 1), ts[n - 1].move, ts[n - 1].now, o);
      DealKept(cfg, SysAt(cfg, start, ts, n - 1), ts[n - 1].move, ts[n - 1].now, o);
    }
  }

  lemma SettledFromThenOn(cfg: Config, start: Sys, ts: seq<Tick>, i: nat, n: nat, o: OrderId, v: VehicleId)
    requires SysInv(start) && i < n <= |ts| && SettlesAt(cfg, start, ts, i, o)
    requires OrderOn(SysAt(cfg, start, ts, i).db.sales.orders, o, v)
    ensures SettledOn(SysAt(cfg, start, ts, n).db.sales, o, v)
  {
    hide Advance, SysInv, SettlesOn, SettledOn;
    SysInvAlways(cfg, start, ts, i);
    SettledNow(cfg, SysAt(cfg, start, ts, i), ts[i].move, ts[i].now, o, v);
    SettledStaysInFlight(cfg, start, ts, i + 1, n, o, v);
  }

  /** And no two moves settle orders on it. */
  lemma SettledOnceInFlight(cfg: Config, start: Sys, ts: seq<Tick>, i: nat, j: nat, o: OrderId, q: OrderId,
                            v: VehicleId, since: Time)
    requires SysInv(start) && SaleSysInv(start, v, since) && After(ts, since) && CleanMoves(cfg, start, ts, v)
    requires SettlesAt(cfg, start, ts, i, o) && SettlesAt(cfg, start, ts, j, q)
    requires OrderOn(SysAt(cfg, start, ts, i).db.sales.orders, o, v)
    requires OrderOn(SysAt(cfg, start, ts, j).db.sales.orders, q, v)
    ensures i == j && o == q
  {
    hide Advance, SysInv, CleanMoves, SettlesAt, SaleSysInv;
    MovesInRange(cfg, start, ts, i, o);
    MovesInRange(cfg, start, ts, j, q);
    var last := if i < j then j + 1 else i + 1;
    SettledFromThenOn(cfg, start, ts, i, last, o, v);
    SettledFromThenOn(cfg, start, ts, j, last, q, v);
    SoldOnceInFlight(cfg, start, ts, last, v, since);
    SettledAtMostOnce(cfg, start, ts, i, j, o);
  }

  // ---- the exact condition at a hold ----------------------------------------------------------------------

  /** No continuation with clean holds ever shows two settled orders on the vehicle. */
  ghost predicate NeverSoldTwiceInFlight(cfg: Config, sys: Sys, v: VehicleId, since: Time) {
    forall ts: seq<Tick> :: After(ts, since) && CleanMoves(cfg, sys, ts, v)
      ==> SoldOnceAtMost(SysAt(cfg, sys, ts, |ts|).db.sales, v)
  }

  lemma CleanHoldIsSafeInFlight(cfg: Config, sys: Sys, m: Move, before: Time, now: Time, v: VehicleId)
    requires SysInv(sys) && SaleSysInv(sys, v, before) && before <= now && CleanMove(cfg, sys, m, now, v)
    ensures NeverSoldTwiceInFlight(cfg, Advance(cfg, sys, m, now).sys, v, now)
  {
    hide Advance, SysInv, SaleSysInv, CleanMove, SoundMove, CleanMoves, SoldOnceAtMost;
    var next := Advance(cfg, sys, m, now).sys;
    AdvanceSound(cfg, sys, m, now);
    SaleSysStep(cfg, sys, m, before, now, v);
    forall ts: seq<Tick> | After(ts, now) && CleanMoves(cfg, next, ts, v)
      ensures SoldOnceAtMost(SysAt(cfg, next, ts, |ts|).db.sales, v)
    {
      SoldOnceInFlight(cfg, next, ts, |ts|, v, now);
    }
  }
}
