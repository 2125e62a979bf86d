/** Runs that sell one vehicle twice: a payment in flight at L2, and whole runs from a fresh database at both levels. */
module DoubleSaleRuns {
  import opened Rows
  import opened AttemptGate
  import opened OrdersSpec
  import opened SalesTheory
  import opened SalesRuns
  import opened Interleaved
  import opened SysView
  import opened SettlementOnce
  import opened Lifecycle
  import opened LifecycleInFlight
  import opened NoDoubleSale
  import opened SalesInFlight
  import opened StaleSales
  import HoldsInFlight
  import VehiclesSpec
  import Machine

  /** An overdue order of the first buyer can still be paid, and the second, who may be the same person, can hold the
      vehicle and check out once overdue orders have expired. */
  ghost predicate OverdueRival(cfg: Config, sys: Sys, first: User, second: User, o: OrderId, v: VehicleId, d: Draws,
                               now: Time) {
    && o in sys.db.sales.orders && sys.db.sales.orders[o].buyer == first.id
       && sys.db.sales.orders[o].vehicleId == Some(v)
    && sys.db.sales.orders[o].status == Held && Overdue(sys.db.sales.orders[o], now)
    && HasPendingPayment(sys.db.sales.payments, o)
    && v in sys.db.vehicles && VehiclesSpec.Holdable(sys.db.vehicles[v], now)
    && sys.db.vehicles[v].buyNowPrice.Some? && sys.db.vehicles[v].buyNowPrice.value != 0
    && PassesGate(cfg, sys.db.counters, HoldGate(second.id), now)
    && !HasOpenOrder(ExpireOverdueOrders(sys.db.sales.orders, now).rows, v, second.id) && DrawsFree(sys.db, d)
    && (forall q :: IsRival(sys.db.sales, q, v, second.id) ==> q == o)
  }

  /** The first buyer's payment is read, the order expires, the second buyer holds, checks out and pays, and only
      then the first payment commits. */
  function StaleRun(c: CallId, first: User, second: User, o: OrderId, v: VehicleId, d: Draws, now: Time): seq<Tick> {
    [Tick(ReadPayment(c, first, o), now),
     Tick(Atomic(Machine.ExpireOverdueOrders), now),
     Tick(Atomic(Machine.Hold(second, v)), now),
     Tick(CheckoutMove(second, v, d), now),
     Tick(Atomic(Machine.VerifyPayment(second, d.ids.order, d.rzSecond, true, d.year)), now),
     Tick(CommitPayment(c, d.rzFirst, true, d.year), now)]
  }

  lemma ReadPutsInFlight(cfg: Config, sys: Sys, c: CallId, user: User, o: OrderId, now: Time)
    requires c !in sys.calls && o in sys.db.sales.orders && sys.db.sales.orders[o].buyer == user.id
    requires sys.db.sales.orders[o].status == Held && HasPendingPayment(sys.db.sales.payments, o)
    ensures var next := Advance(cfg, sys, ReadPayment(c, user, o), now).sys;
            next.db == sys.db && IsTicketFor(next.calls, c, o)
  {
    hide HasPendingPayment, Machine.Apply;
  }

  lemma AfterExpiry(cfg: Config, sys: Sys, now: Time)
    ensures var next := Advance(cfg, sys, Atomic(Machine.ExpireOverdueOrders), now).sys;
            && next.calls == sys.calls
            && next.db == sys.db.(sales := sys.db.sales.(orders := ExpireOverdueOrders(sys.db.sales.orders, now).rows))
  {
    hide ExpireOverdueOrders;
  }

  /** The expiry sweep leaves the second buyer as ready as before, and no rival by the L1 condition. */
  lemma ExpiryClearsRivals(cfg: Config, sys: Sys, first: User, second: User, o: OrderId, v: VehicleId, d: Draws,
                           now: Time)
    requires OverdueRival(cfg, sys, first, second, o, v, d, now)
    ensures var orders := ExpireOverdueOrders(sys.db.sales.orders, now).rows;
            var db := sys.db.(sales := sys.db.sales.(orders := orders));
            && o in orders && orders[o].status == Expired && orders[o].vehicleId == Some(v)
            && NoRival(db.sales, v, second.id) && !HasOpenOrder(orders, v, second.id) && DrawsFree(db, d)
  {
    hide HasPendingPayment;
    var orders := ExpireOverdueOrders(sys.db.sales.orders, now).rows;
    var db := sys.db.(sales := sys.db.sales.(orders := orders));
    forall q ensures !IsRival(db.sales, q, v, second.id) {
      assert IsRival(sys.db.sales, q, v, second.id) ==> q == o;
    }
  }

  lemma WholePaymentSettles(cfg: Config, sys: Sys, user: User, o: OrderId, rzPayment: string, year: int, now: Time)
    requires SysInv(sys) && o in sys.db.sales.orders && sys.db.sales.orders[o].buyer == user.id
    requires sys.db.sales.orders[o].status == Held && HasPendingPayment(sys.db.sales.payments, o)
    requires RoomToSettle(sys.db, o, rzPayment, year)
    ensures SettlesOn(cfg, sys, Atomic(Machine.VerifyPayment(user, o, rzPayment, true, year)), now, o)
  {
    hide Machine.Apply, SalesInv, HasPendingPayment, CallsSound;
    SettlesIffPayable(sys.db, user.id, o, rzPayment, year, now);
    WholePayment(cfg, sys.db, Machine.VerifyPayment(user, o, rzPayment, true, year), now);
  }

  lemma CommitIsSettlement(cfg: Config, sys: Sys, c: CallId, o: OrderId, rzPayment: string, year: int, now: Time)
    requires SysInv(sys) && IsTicketFor(sys.calls, c, o) && CanBePaid(sys, o)
    requires RoomToSettle(sys.db, o, rzPayment, year)
    ensures SettlesOn(cfg, sys, CommitPayment(c, rzPayment, true, year), now, o)
  {
    hide SalesInv, Commit, RoomToSettle, Machine.Apply;
    InvoicedIsSettled(sys.db.sales, o);
    CommitSettles(sys, c, o, rzPayment, year, now);
  }

  /** The last three moves: checkout, the new order's payment, the old payment's commit. */
  lemma BothPaymentsSettle(cfg: Config, sys: Sys, c: CallId, second: User, o: OrderId, v: VehicleId, d: Draws,
                           now: Time)
    requires SysInv(sys) && ReadyToBuy(sys.db, second.id, v, d, now)
    requires CanBePaidOn(sys, o, v) && IsTicketFor(sys.calls, c, o)
    ensures var m3 := CheckoutMove(second, v, d);
            var m4 := Atomic(Machine.VerifyPayment(second, d.ids.order, d.rzSecond, true, d.year));
            var m5 := CommitPayment(c, d.rzFirst, true, d.year);
            var s4 := Advance(cfg, sys, m3, now).sys;
            var s5 := Advance(cfg, s4, m4, now).sys;
            && SettlesOn(cfg, s4, m4, now, d.ids.order) && SettlesOn(cfg, s5, m5, now, o)
            && OrderOn(s4.db.sales.orders, d.ids.order, v) && OrderOn(s5.db.sales.orders, o, v)
  {
    var m3 := CheckoutMove(second, v, d);
    var m4 := Atomic(Machine.VerifyPayment(second, d.ids.order, d.rzSecond, true, d.year));
    hide Advance, SysInv, SettlesOn, ReadyToBuy, RoomToSettle, HasPendingPayment, SoundMove;
    var s4 := Advance(cfg, sys, m3, now).sys;
    var s5 := Advance(cfg, s4, m4, now).sys;
    CheckoutInFlight(cfg, sys, second, v, d, now);
    StillPayable(cfg, sys, second, v, d, now, o);
    DrawsDiffer(sys.db, second.id, v, d, now);
    AdvanceSound(cfg, sys, m3, now);
    WholePaymentSettles(cfg, s4, second, d.ids.order, d.rzSecond, d.year, now);
    OtherStaysPayable(cfg, s4, m4, now, d.ids.order, o, d.rzSecond, d.rzFirst, d.year);
    AdvanceSound(cfg, s4, m4, now);
    TicketStays(cfg, sys, m3, now, c, o);
    TicketStays(cfg, s4, m4, now, c, o);
    CommitIsSettlement(cfg, s5, c, o, d.rzFirst, d.year, now);
  }

  lemma NewOrderIsNew(sys: Sys, user: UserId, v: VehicleId, d: Draws, o: OrderId, now: Time)
    requires ReadyToBuy(sys.db, user, v, d, now) && CanBePaidOn(sys, o, v)
    ensures o != d.ids.order
  {
  }

  /** The first three moves: read, expiry, hold. */
  lemma HoldOverStaleTicket(cfg: Config, sys: Sys, c: CallId, first: User, second: User, o: OrderId, v: VehicleId,
                            d: Draws, now: Time)
    requires c !in sys.calls && cfg.holdMs >= 0 && OverdueRival(cfg, sys, first, second, o, v, d, now)
    ensures var s1 := Advance(cfg, sys, ReadPayment(c, first, o), now).sys;
            var s2 := Advance(cfg, s1, Atomic(Machine.ExpireOverdueOrders), now).sys;
            var s3 := Advance(cfg, s2, Atomic(Machine.Hold(second, v)), now).sys;
            && HoldsOn(cfg, s2, Atomic(Machine.Hold(second, v)), now, v) && NoRival(s2.db.sales, v, second.id)
            && o in s2.db.sales.orders && s2.db.sales.orders[o].status == Expired
            && IsTicketFor(s3.calls, c, o) && CanBePaidOn(s3, o, v) && ReadyToBuy(s3.db, second.id, v, d, now)
  {
    hide Advance, HasPendingPayment, HasOpenOrder, IdsFree, ExpireOverdueOrders, NoRival, PassesGate;
    var s1 := Advance(cfg, sys, ReadPayment(c, first, o), now).sys;
    var s2 := Advance(cfg, s1, Atomic(Machine.ExpireOverdueOrders), now).sys;
    ReadPutsInFlight(cfg, sys, c, first, o, now);
    AfterExpiry(cfg, s1, now);
    ExpiryClearsRivals(cfg, sys, first, second, o, v, d, now);
    HoldsInFlight.HoldGrantedIff(cfg, s2, second, v, now);
  }

  /** The expiry sweep runs right before the hold and the hold finds no rival by the L1 condition; still both buyers'
      orders are settled, the first one although it had expired. */
  lemma StaleCommitSellsTwice(cfg: Config, sys: Sys, c: CallId, first: User, second: User, o: OrderId, v: VehicleId,
                              d: Draws, now: Time)
    requires SysInv(sys) && c !in sys.calls && cfg.holdMs >= 0
    requires OverdueRival(cfg, sys, first, second, o, v, d, now)
    ensures var ts := StaleRun(c, first, second, o, v, d, now);
            && InTimeOrder(ts)
            && HoldsInFlight.HoldsAt(cfg, sys, ts, 2, v) && NoRival(SysAt(cfg, sys, ts, 2).db.sales, v, second.id)
            && o in SysAt(cfg, sys, ts, 2).db.sales.orders && StatusAt(cfg, sys, ts, 2, o) == Expired
            && SettlesAt(cfg, sys, ts, 4, d.ids.order) && SettlesAt(cfg, sys, ts, 5, o)
            && SettledOn(SysAt(cfg, sys, ts, 6).db.sales, d.ids.order, v)
               && SettledOn(SysAt(cfg, sys, ts, 6).db.sales, o, v)
            && o != d.ids.order
  {
    hide Advance, SysInv, SysAt, SettlesOn, HoldsOn, CanBePaid, ReadyToBuy, OverdueRival, NoRival, SettledOn;
    hide CheckoutMove;
    var ts := StaleRun(c, first, second, o, v, d, now);
    FirstSys(cfg, sys, ts);
    NextSys(cfg, sys, ts, 0);
    NextSys(cfg, sys, ts, 1);
    NextSys(cfg, sys, ts, 2);
    NextSys(cfg, sys, ts, 3);
    NextSys(cfg, sys, ts, 4);
    var s3 := SysAt(cfg, sys, ts, 3);
    HoldOverStaleTicket(cfg, sys, c, first, second, o, v, d, now);
    SysInvAlways(cfg, sys, ts, 3);
    NewOrderIsNew(s3, second.id, v, d, o, now);
    BothPaymentsSettle(cfg, s3, c, second, o, v, d, now);
    SettledFromThenOn(cfg, sys, ts, 4, 6, d.ids.order, v);
    SettledFromThenOn(cfg, sys, ts, 5, 6, o, v);
  }
}
