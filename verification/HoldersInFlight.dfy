/** L2 theorem: the exact condition under which a hold is safe, for every holder. A HELD order of their own bars the
    holder's checkout unless it expires while the hold runs. */
module HoldersInFlight {
  import opened Rows
  import opened OrdersSpec
  import opened SalesTheory
  import opened SalesRuns
  import opened Interleaved
  import opened SysView
  import opened SettlementOnce
  import opened LifecycleInFlight
  import opened NoDoubleSale
  import opened SalesInFlight
  import opened StaleSales
  import opened CheckoutsInFlight
  import AuctionWinner
  import DoubleSaleRuns
  import HoldsInFlight
  import PickupInFlight
  import PickupSpec
  import Machine

  /** The order keeps its buyer from checking v out until the deadline. */
  predicate Bars(o: Order, v: VehicleId, user: UserId, deadline: Time) {
    && o.vehicleId == Some(v) && o.buyer == user && o.status == Held
    && (o.heldUntil.None? || o.heldUntil.value >= deadline)
  }

  ghost predicate Barred(orders: Orders, v: VehicleId, user: UserId, deadline: Time) {
    exists q :: q in orders && Bars(orders[q], v, user, deadline)
  }

  /** At most one order on v is owed or settled, and its holder, if any, is late or barred. */
  ghost predicate Idle(sys: Sys, v: VehicleId, now: Time) {
    && v in sys.db.vehicles && sys.db.vehicles[v].saleType != SaleType.Auction && OneClaimOn(sys, v)
    && var row := sys.db.vehicles[v];
       row.heldBy.Some? ==>
         && row.heldUntil.Some?
         && (row.heldUntil.value < now || Barred(sys.db.sales.orders, v, row.heldBy.value, row.heldUntil.value))
  }

  // ---- an idle vehicle -----------------------------------------------------------------------------------

  lemma BarredIsOpen(orders: Orders, v: VehicleId, user: UserId, deadline: Time)
    requires Barred(orders, v, user, deadline)
    ensures HasOpenOrder(orders, v, user)
  {
  }

  /** Nobody can check it out. */
  lemma IdleIsNotCheckedOut(cfg: Config, sys: Sys, m: Move, before: Time, now: Time, v: VehicleId)
    requires Idle(sys, v, before) && before <= now
    ensures !ChecksOutOn(cfg, sys, m, now, v)
  {
    hide Machine.Apply, OneClaimOn, HasOpenOrder, Barred;
    if ChecksOutOn(cfg, sys, m, now, v) {
      var a := m.action;
      AuctionWinner.AcceptedCheckout(cfg, sys.db, a.user, v, a.ids, a.feeBp, a.gstBp, now);
      var row := sys.db.vehicles[v];
      if row.heldBy.Some? && row.heldUntil.Some? && row.heldUntil.value >= now {
        BarredIsOpen(sys.db.sales.orders, v, row.heldBy.value, row.heldUntil.value);
      }
    }
  }

  /** An order that bars keeps barring, or is settled, or the deadline has passed. */
  lemma BarsOn(cfg: Config, sys: Sys, m: Move, now: Time, q: OrderId, v: VehicleId, user: UserId, deadline: Time)
    requires SysInv(sys) && q in sys.db.sales.orders && Bars(sys.db.sales.orders[q], v, user, deadline)
    ensures q in Advance(cfg, sys, m, now).sys.db.sales.orders
    ensures Bars(Advance(cfg, sys, m, now).sys.db.sales.orders[q], v, user, deadline)
         || SettlesOn(cfg, sys, m, now, q) || deadline < now
  {
    hide Advance, SysInv, SettlesOn, HasPendingPayment;
    SysStatusStep(cfg, sys, m, now, q);
    DealKept(cfg, sys, m, now, q);
    if Advance(cfg, sys, m, now).sys.db.sales.orders[q].status == Expired {
      SysInvGives(sys);
      OrderRowsOfInv(sys.db.sales);
      SysOrderStep(cfg, sys, m, now, q);
    }
  }

  lemma BarringSale(cfg: Config, sys: Sys, m: Move, now: Time, q: OrderId, v: VehicleId, user: UserId, deadline: Time)
    requires q in sys.db.sales.orders && Bars(sys.db.sales.orders[q], v, user, deadline)
    requires SettlesOn(cfg, sys, m, now, q)
    ensures SellsOn(cfg, sys, m, now, v)
  {
    hide SettlesOn;
  }

  /** Where something is owed, a move that is no hold leaves the vehicle idle. */
  lemma OwedStaysIdle(cfg: Config, sys: Sys, m: Move, before: Time, now: Time, v: VehicleId)
    requires SysInv(sys) && Idle(sys, v, before) && before <= now && !HoldsOn(cfg, sys, m, now, v)
    ensures Idle(Advance(cfg, sys, m, now).sys, v, now)
  {
    hide Advance, SysInv, SettlesOn, HoldsOn, OneClaimOn, ChecksOutOn, Bars;
    var next := Advance(cfg, sys, m, now).sys;
    IdleIsNotCheckedOut(cfg, sys, m, before, now, v);
    OneClaimOnStep(cfg, sys, m, now, v);
    HoldsInFlight.CallsOfInv(sys);
    SysVehicleStep(cfg, sys, m, now, v);
    var a, b := sys.db.vehicles[v], next.db.vehicles[v];
    if b.heldBy.Some? && a.heldUntil.value >= now {
      var q :| q in sys.db.sales.orders && Bars(sys.db.sales.orders[q], v, a.heldBy.value, a.heldUntil.value);
      BarsOn(cfg, sys, m, now, q, v, a.heldBy.value, a.heldUntil.value);
      if SettlesOn(cfg, sys, m, now, q) {
        BarringSale(cfg, sys, m, now, q, v, a.heldBy.value, a.heldUntil.value);
      }
    }
  }

  /** Where nothing is owed, an idle vehicle is as good as one never held over anyone. */
  lemma UnowedIsSafe(sys: Sys, v: VehicleId, now: Time)
    requires Idle(sys, v, now) && NothingOwed(sys, v)
    ensures SaleSysInv(sys, v, now)
  {
    hide CanBePaidOn, SettledOn, OneClaimOn, Barred;
  }

  ghost predicate Quiet(sys: Sys, v: VehicleId, now: Time) {
    SaleSysInv(sys, v, now) || Idle(sys, v, now)
  }

  lemma QuietStep(cfg: Config, sys: Sys, m: Move, before: Time, now: Time, v: VehicleId)
    requires SysInv(sys) && Quiet(sys, v, before) && before <= now && CleanMove(cfg, sys, m, now, v)
    ensures Quiet(Advance(cfg, sys, m, now).sys, v, now)
  {
    hide Advance, SysInv, SaleSysInv, Idle, NothingOwed, HoldsOn;
    if SaleSysInv(sys, v, before) {
      SaleSysStep(cfg, sys, m, before, now, v);
    } else if NothingOwed(sys, v) {
      UnowedIsSafe(sys, v, before);
    } else {
      OwedStaysIdle(cfg, sys, m, before, now, v);
    }
  }

  lemma QuietSellsOnce(sys: Sys, v: VehicleId, now: Time)
    requires Quiet(sys, v, now)
    ensures SoldOnceAtMost(sys.db.sales, v)
  {
    hide CanBePaidOn, SettledOn, Barred, UnderHold;
    if Idle(sys, v, now) {
      OneClaimOnGives(sys, v);
    }
  }

  lemma {:induction false} QuietAlways(cfg: Config, start: Sys, ts: seq<Tick>, n: nat, v: VehicleId, since: Time)
    requires SysInv(start) && Quiet(start, v, since) && After(ts, since) && CleanMoves(cfg, start, ts, v) && n <= |ts|
    ensures Quiet(SysAt(cfg, start, ts, n), v, ClockAt(ts, n, since))
  {
    hide Advance, SysInv, Quiet, CleanMove, CleanMoves;
    if n > 0 {
      QuietAlways(cfg, start, ts, n - 1, v, since);
      SysInvAlways(cfg, start, ts, n - 1);
      CleanAt(cfg, start, ts, n - 1, v);
      QuietStep(cfg, SysAt(cfg, start, ts, n - 1), ts[n - 1].move, ClockAt(ts, n - 1, since), ts[n - 1].now, v);
    }
  }

  lemma QuietIsSafe(cfg: Config, sys: Sys, v: VehicleId, since: Time)
    requires SysInv(sys) && Quiet(sys, v, since)
    ensures NeverSoldTwiceInFlight(cfg, sys, v, since)
  {
    hide Advance, SysInv, Quiet, CleanMoves, SoldOnceAtMost, SysAt;
    forall ts: seq<Tick> | After(ts, since) && CleanMoves(cfg, sys, ts, v)
      ensures SoldOnceAtMost(SysAt(cfg, sys, ts, |ts|).db.sales, v)
    {
      QuietAlways(cfg, sys, ts, |ts|, v, since);
      QuietSellsOnce(SysAt(cfg, sys, ts, |ts|), v, ClockAt(ts, |ts|, since));
    }
  }

  lemma SafeIsOneClaim(sys: Sys, v: VehicleId, now: Time)
    requires SaleSysInv(sys, v, now)
    ensures OneClaimOn(sys, v)
  {
    hide CanBePaid, SettledStatus;
  }

  /** A hold granted to a barred buyer leaves the vehicle idle. */
  lemma BarredHoldIsIdle(cfg: Config, sys: Sys, user: User, v: VehicleId, before: Time, now: Time)
    requires SysInv(sys) && SaleSysInv(sys, v, before)
    requires HoldsOn(cfg, sys, Atomic(Machine.Hold(user, v)), now, v)
    requires Barred(sys.db.sales.orders, v, user.id, now + cfg.holdMs)
    ensures Idle(Advance(cfg, sys, Atomic(Machine.Hold(user, v)), now).sys, v, now)
  {
    hide Advance, SysInv, HoldsOn, OneClaimOn, Barred, CanBePaidOn, SettledOn;
    var m := Atomic(Machine.Hold(user, v));
    SafeIsOneClaim(sys, v, before);
    CheckoutsInFlight.NoCheckoutIsClean(cfg, sys, m, now, v);
    OneClaimOnStep(cfg, sys, m, now, v);
    GrantedState(cfg, sys, user, v, now);
  }

  // ---- an order that does not bar ----------------------------------------------------------------------------

  lemma {:induction false} OneMoveFirst(cfg: Config, sys: Sys, m: Move, t: Time, ys: seq<Tick>, k: nat)
    requires k <= |ys|
    ensures SysAt(cfg, sys, [Tick(m, t)] + ys, k + 1) == SysAt(cfg, Advance(cfg, sys, m, t).sys, ys, k)
  {
    hide Advance;
    var ts := [Tick(m, t)] + ys;
    FirstSys(cfg, sys, ts);
    NextSys(cfg, sys, ts, k);
    if k == 0 {
      FirstSys(cfg, Advance(cfg, sys, m, t).sys, ys);
    } else {
      OneMoveFirst(cfg, sys, m, t, ys, k - 1);
    }
  }

  lemma CleanWithFirst(cfg: Config, sys: Sys, m: Move, t: Time, ys: seq<Tick>, v: VehicleId)
    requires !(m.Atomic? && m.action.Hold?) && CleanMoves(cfg, Advance(cfg, sys, m, t).sys, ys, v)
    ensures CleanMoves(cfg, sys, [Tick(m, t)] + ys, v)
  {
    hide Advance, CleanMove, SysAt;
    var ts := [Tick(m, t)] + ys;
    forall k: nat | k < |ts| ensures CleanMove(cfg, SysAt(cfg, sys, ts, k), ts[k].move, ts[k].now, v) {
      if k == 0 {
        FirstSys(cfg, sys, ts);
        NoHoldIsClean(cfg, sys, m, t, v);
      } else {
        OneMoveFirst(cfg, sys, m, t, ys, k - 1);
        CleanAt(cfg, Advance(cfg, sys, m, t).sys, ys, k - 1, v);
      }
    }
  }

  lemma AfterWithFirst(m: Move, t: Time, ys: seq<Tick>, since: Time)
    requires After(ys, t) && since <= t
    ensures After([Tick(m, t)] + ys, since)
  {
    var ts := [Tick(m, t)] + ys;
    forall i, j | 0 <= i <= j < |ts| ensures ts[i].now <= ts[j].now {
      if i == 0 && j > 0 {
        assert ys[0].now <= ys[j - 1].now;
      }
    }
  }

  /** What is unsafe one move later is unsafe now. */
  lemma UnsafeBefore(cfg: Config, sys: Sys, m: Move, t: Time, since: Time, v: VehicleId)
    requires !(m.Atomic? && m.action.Hold?) && since <= t
    requires !NeverSoldTwiceInFlight(cfg, Advance(cfg, sys, m, t).sys, v, t)
    ensures !NeverSoldTwiceInFlight(cfg, sys, v, since)
  {
    hide Advance, CleanMoves, SoldOnceAtMost, SysAt, After;
    var next := Advance(cfg, sys, m, t).sys;
    var ys: seq<Tick> :| After(ys, t) && CleanMoves(cfg, next, ys, v)
                         && !SoldOnceAtMost(SysAt(cfg, next, ys, |ys|).db.sales, v);
    var ts := [Tick(m, t)] + ys;
    OneMoveFirst(cfg, sys, m, t, ys, |ys|);
    CleanWithFirst(cfg, sys, m, t, ys, v);
    AfterWithFirst(m, t, ys, since);
    assert !SoldOnceAtMost(SysAt(cfg, sys, ts, |ts|).db.sales, v);
  }

  /** Nothing that a draw must not clash with has been added. */
  ghost predicate SameRoom(a: Db, b: Db) {
    && b.vehicles == a.vehicles && b.sales.payments == a.sales.payments && b.sales.invoices == a.sales.invoices
    && b.sales.banks == a.sales.banks && b.sales.orders.Keys == a.sales.orders.Keys
    && (forall o :: o in a.sales.orders ==> SameDeal(a.sales.orders[o], b.sales.orders[o]))
  }

  lemma DrawsStayFree(a: Db, b: Db, d: Draws)
    requires DrawsFree(a, d) && SameRoom(a, b)
    ensures DrawsFree(b, d)
  {
    forall o | o in b.sales.orders ensures SameDeal(a.sales.orders[o], b.sales.orders[o]) && o in a.sales.orders {
    }
  }

  /** The vehicle is held for the user at a price, until this deadline. */
  predicate HeldUntil(db: Db, user: UserId, v: VehicleId, deadline: Time) {
    && v in db.vehicles && (db.vehicles[v].saleType == BuyNow || db.vehicles[v].saleType == Hybrid)
    && db.vehicles[v].heldBy == Some(user) && db.vehicles[v].heldUntil == Some(deadline)
    && db.vehicles[v].buyNowPrice.Some? && db.vehicles[v].buyNowPrice.value != 0
  }

  /** With no open order of the holder's left, a claim makes two sales. */
  lemma ClaimMakesTwoSales(cfg: Config, sys: Sys, user: User, v: VehicleId, d: Draws, now: Time, o: OrderId)
    requires SysInv(sys) && HeldUntil(sys.db, user.id, v, now) && DrawsFree(sys.db, d) && ClaimsOn(sys, o, v)
    requires !HasOpenOrder(sys.db.sales.orders, v, user.id)
    ensures !NeverSoldTwiceInFlight(cfg, sys, v, now)
  {
    hide Advance, SysInv, CleanMoves, SoldOnceAtMost, CanBePaid, SysAt, HasOpenOrder, DrawsFree;
    assert ReadyToBuy(sys.db, user.id, v, d, now);
    if SettledOn(sys.db.sales, o, v) {
      var ts := SoldBeforeMakesTwoSales(cfg, sys, user, v, d, now, o);
    } else {
      var ts := PayableMakesTwoSales(cfg, sys, user, v, d, now, o);
    }
  }

  lemma AfterScan(cfg: Config, sys: Sys, staff: User, o: OrderId, otp: int, now: Time)
    requires OrderRowsOk(sys.db.sales.orders) && o in sys.db.sales.orders
    requires sys.db.sales.orders[o].status == ReadyForPickup && staff.bankId == Some(sys.db.sales.orders[o].bankId)
    ensures Advance(cfg, sys, Atomic(Machine.Scan(staff, sys.db.sales.orders[o].pass, otp)), now).sys
         == Sys(WithOrder(sys, o, PickupSpec.ScannedRow(sys.db.sales.orders[o], otp, now)), sys.calls)
  {
    PickupInFlight.FindsOwnPass(sys.db.sales.orders, o);
    hide PickupSpec.FindByPass, PickupSpec.ScannedRow, OrderRowsOk;
  }

  /** No order of the user's on v is HELD. */
  predicate NoneHeld(orders: Orders, v: VehicleId, user: UserId) {
    forall q | q in orders :: orders[q].vehicleId == Some(v) && orders[q].buyer == user ==> orders[q].status != Held
  }

  lemma OpenIsSettled(sys: Sys, v: VehicleId, user: UserId, o: OrderId)
    requires SysInv(sys) && NoneHeld(sys.db.sales.orders, v, user) && OneClaimOn(sys, v) && ClaimsOn(sys, o, v)
    requires HasOpenOrder(sys.db.sales.orders, v, user)
    ensures OrderOn(sys.db.sales.orders, o, v) && sys.db.sales.orders[o].status == ReadyForPickup
    ensures sys.db.sales.orders[o].buyer == user
    ensures forall q :: OrderOn(sys.db.sales.orders, q, v) && sys.db.sales.orders[q].buyer == user && q != o ==>
              !BlocksCheckout(sys.db.sales.orders[q].status)
  {
    hide CanBePaidOn, CallsSound, PaymentRowsOk, NothingPendingOnceSettled, InvoicesMatch;
    forall q | OrderOn(sys.db.sales.orders, q, v) && sys.db.sales.orders[q].buyer == user
        && BlocksCheckout(sys.db.sales.orders[q].status)
      ensures q == o && sys.db.sales.orders[q].status == ReadyForPickup
    {
      assert LifecycleStatus(sys.db.sales.orders[q].status);
      assert ClaimsOn(sys, q, v);
    }
  }

  /** A paid order of the holder's own is scanned, and blocks no longer. */
  lemma ScanClears(cfg: Config, sys: Sys, user: User, v: VehicleId, d: Draws, now: Time, o: OrderId)
    requires SysInv(sys) && HeldUntil(sys.db, user.id, v, now) && DrawsFree(sys.db, d)
    requires OneClaimOn(sys, v) && ClaimsOn(sys, o, v) && NoneHeld(sys.db.sales.orders, v, user.id)
    ensures !NeverSoldTwiceInFlight(cfg, sys, v, now)
  {
    hide Advance, SysInv, OneClaimOn, NeverSoldTwiceInFlight, DrawsFree, CanBePaidOn, SoundMove;
    if HasOpenOrder(sys.db.sales.orders, v, user.id) {
      OpenIsSettled(sys, v, user.id, o);
      SysInvGives(sys);
      OrderRowsOfInv(sys.db.sales);
      var row := sys.db.sales.orders[o];
      var m := Atomic(Machine.Scan(User(0, BankStaff, Some(row.bankId)), row.pass, 0));
      var next := Advance(cfg, sys, m, now).sys;
      AfterScan(cfg, sys, User(0, BankStaff, Some(row.bankId)), o, 0, now);
      AdvanceSound(cfg, sys, m, now);
      assert SameRoom(sys.db, next.db);
      DrawsStayFree(sys.db, next.db, d);
      assert !HasOpenOrder(next.db.sales.orders, v, user.id);
      assert SettledOn(next.db.sales, o, v);
      ClaimMakesTwoSales(cfg, next, user, v, d, now, o);
      UnsafeBefore(cfg, sys, m, now, now, v);
    } else {
      ClaimMakesTwoSales(cfg, sys, user, v, d, now, o);
    }
  }

  lemma ExpiryRoom(db: Db, v: VehicleId, user: UserId, now: Time)
    requires !Barred(db.sales.orders, v, user, now)
    ensures var after := db.(sales := db.sales.(orders := ExpireOverdueOrders(db.sales.orders, now).rows));
            SameRoom(db, after) && NoneHeld(after.sales.orders, v, user)
  {
    forall q | q in db.sales.orders && db.sales.orders[q].status == Held
        && db.sales.orders[q].vehicleId == Some(v) && db.sales.orders[q].buyer == user
      ensures Overdue(db.sales.orders[q], now)
    {
      assert !Bars(db.sales.orders[q], v, user, now);
    }
  }

  lemma ClaimOutlastsExpiry(sys: Sys, next: Sys, o: OrderId, v: VehicleId, now: Time)
    requires ClaimsOn(sys, o, v) && (InFlight(sys.calls, o) || SettledOn(sys.db.sales, o, v))
    requires next.calls == sys.calls
    requires next.db == sys.db.(sales := sys.db.sales.(orders := ExpireOverdueOrders(sys.db.sales.orders, now).rows))
    ensures ClaimsOn(next, o, v)
  {
    hide InFlight, HasPendingPayment;
  }

  /** HELD orders of the holder's own expire, while the claim is in flight or settled. */
  lemma ExpiryClears(cfg: Config, sys: Sys, user: User, v: VehicleId, d: Draws, since: Time, now: Time, o: OrderId)
    requires SysInv(sys) && HeldUntil(sys.db, user.id, v, now) && DrawsFree(sys.db, d) && since <= now
    requires OneClaimOn(sys, v) && ClaimsOn(sys, o, v) && (InFlight(sys.calls, o) || SettledOn(sys.db.sales, o, v))
    requires !Barred(sys.db.sales.orders, v, user.id, now)
    ensures !NeverSoldTwiceInFlight(cfg, sys, v, since)
  {
    hide Advance, SysInv, OneClaimOn, NeverSoldTwiceInFlight, DrawsFree, ClaimsOn, InFlight, Barred, SettledOn;
    hide ExpireOverdueOrders, ChecksOutOn, SoundMove;
    var m := Atomic(Machine.ExpireOverdueOrders);
    var next := Advance(cfg, sys, m, now).sys;
    DoubleSaleRuns.AfterExpiry(cfg, sys, now);
    AdvanceSound(cfg, sys, m, now);
    ExpiryRoom(sys.db, v, user.id, now);
    DrawsStayFree(sys.db, next.db, d);
    ClaimOutlastsExpiry(sys, next, o, v, now);
    CheckoutsInFlight.NoCheckoutIsClean(cfg, sys, m, now, v);
    OneClaimOnStep(cfg, sys, m, now, v);
    ScanClears(cfg, next, user, v, d, now, o);
    UnsafeBefore(cfg, sys, m, now, since, v);
  }

  lemma NowInFlight(sys: Sys, c: CallId, o: OrderId)
    requires IsTicketFor(sys.calls, c, o)
    ensures InFlight(sys.calls, o)
  {
  }

  /** A claim that can be paid is put in flight first. */
  lemma OwedMakesTwoSales(cfg: Config, sys: Sys, c: CallId, user: User, v: VehicleId, d: Draws, since: Time, now: Time,
                          o: OrderId)
    requires SysInv(sys) && HeldUntil(sys.db, user.id, v, now) && DrawsFree(sys.db, d) && since <= now
    requires c !in sys.calls
    requires OneClaimOn(sys, v) && ClaimsOn(sys, o, v) && !Barred(sys.db.sales.orders, v, user.id, now)
    ensures !NeverSoldTwiceInFlight(cfg, sys, v, since)
  {
    hide Advance, SysInv, OneClaimOn, NeverSoldTwiceInFlight, DrawsFree, InFlight, Barred, ChecksOutOn, SoundMove;
    if InFlight(sys.calls, o) || SettledOn(sys.db.sales, o, v) {
      ExpiryClears(cfg, sys, user, v, d, since, now, o);
    } else {
      var buyer := User(sys.db.sales.orders[o].buyer, Buyer, None);
      var m := ReadPayment(c, buyer, o);
      var next := Advance(cfg, sys, m, now).sys;
      DoubleSaleRuns.ReadPutsInFlight(cfg, sys, c, buyer, o, now);
      NowInFlight(next, c, o);
      AdvanceSound(cfg, sys, m, now);
      CheckoutsInFlight.NoCheckoutIsClean(cfg, sys, m, now, v);
      OneClaimOnStep(cfg, sys, m, now, v);
      ExpiryClears(cfg, next, user, v, d, now, now, o);
      UnsafeBefore(cfg, sys, m, now, since, v);
    }
  }

  // ---- the exact condition -----------------------------------------------------------------------------------------

  lemma OwedExists(sys: Sys, v: VehicleId) returns (o: OrderId)
    requires !NothingOwed(sys, v)
    ensures ClaimsOn(sys, o, v)
  {
    hide CanBePaidOn, SettledOn;
    o :| CanBePaidOn(sys, o, v) || SettledOn(sys.db.sales, o, v);
  }

  lemma ClaimUnderHold(sys: Sys, next: Sys, o: OrderId, v: VehicleId)
    requires ClaimsOn(sys, o, v) && next.calls == sys.calls && next.db.sales == sys.db.sales
    ensures ClaimsOn(next, o, v)
  {
    SamePayable(sys, next, o);
  }

  lemma HeldDraws(a: Db, b: Db, d: Draws)
    requires DrawsFree(a, d) && b.sales == a.sales && b.vehicles.Keys == a.vehicles.Keys
    requires forall v :: v in a.vehicles ==> b.vehicles[v].bankId == a.vehicles[v].bankId
    ensures DrawsFree(b, d)
  {
  }

  /** The exact condition at L2 for every holder: a granted hold can never lead to two sales if and only if no order on
      the vehicle can still be paid, by a new payment or one in flight, and none has been, or the holder has a HELD
      order of their own on it that does not expire while the hold runs. */
  lemma HoldIsSafeIff(cfg: Config, sys: Sys, user: User, v: VehicleId, before: Time, now: Time, d: Draws, c: CallId)
    requires SysInv(sys) && SaleSysInv(sys, v, before) && before <= now && cfg.holdMs >= 0
    requires HoldsOn(cfg, sys, Atomic(Machine.Hold(user, v)), now, v)
    requires v in sys.db.vehicles && sys.db.vehicles[v].buyNowPrice.Some? && sys.db.vehicles[v].buyNowPrice.value != 0
    requires DrawsFree(sys.db, d) && c !in sys.calls
    ensures NeverSoldTwiceInFlight(cfg, Advance(cfg, sys, Atomic(Machine.Hold(user, v)), now).sys, v, now)
       <==> NothingOwed(sys, v) || Barred(sys.db.sales.orders, v, user.id, now + cfg.holdMs)
  {
    hide Advance, SysInv, SaleSysInv, HoldsOn, NeverSoldTwiceInFlight, NothingOwed, DrawsFree, Barred, ClaimsOn, Idle;
    hide OneClaimOn, ChecksOutOn, SoundMove;
    var m := Atomic(Machine.Hold(user, v));
    var next := Advance(cfg, sys, m, now).sys;
    AdvanceSound(cfg, sys, m, now);
    if NothingOwed(sys, v) {
      CleanHoldIsSafeInFlight(cfg, sys, m, before, now, v);
    } else if Barred(sys.db.sales.orders, v, user.id, now + cfg.holdMs) {
      BarredHoldIsIdle(cfg, sys, user, v, before, now);
      QuietIsSafe(cfg, next, v, now);
    } else {
      var o := OwedExists(sys, v);
      GrantedState(cfg, sys, user, v, now);
      ClaimUnderHold(sys, next, o, v);
      HeldDraws(sys.db, next.db, d);
      SafeIsOneClaim(sys, v, before);
      CheckoutsInFlight.NoCheckoutIsClean(cfg, sys, m, now, v);
      OneClaimOnStep(cfg, sys, m, now, v);
      OwedMakesTwoSales(cfg, next, c, user, v, d, now, now + cfg.holdMs, o);
    }
  }
}
