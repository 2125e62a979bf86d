/** L2: a hold granted over an order that can still be paid, or has been, leads to two sales of one vehicle. */
module StaleSales {
  import opened Rows
  import opened AttemptGate
  import opened OrdersSpec
  import opened SalesTheory
  import opened SalesRuns
  import opened OrderView
  import opened Interleaved
  import opened SysView
  import opened SettlementOnce
  import opened LifecycleInFlight
  import opened NoDoubleSale
  import opened SalesInFlight
  import VehiclesSpec
  import Machine

  // ---- the rows a settlement leaves --------------------------------------------------------------------

  /** The move is a correctly signed payment with these values. */
  predicate Pays(m: Move, rzPayment: string, year: int) {
    || (m.Atomic? && m.action.VerifyPayment? && m.action.rzPayment == rzPayment && m.action.year == year)
    || (m.CommitPayment? && m.rzPayment == rzPayment && m.year == year)
  }

  /** Order o is paid, payment p captured, an invoice issued, and no row inserted elsewhere or removed. */
  predicate PaidUp(db: Db, after: Db, o: OrderId, p: PaymentId, rzPayment: string, year: int, now: Time) {
    && o in db.sales.orders && p in db.sales.payments && db.sales.payments[p].orderId == o
    && after.sales.orders == db.sales.orders[o := PaidRow(db.sales.orders[o], now)]
    && after.sales.payments == db.sales.payments[p := CapturedRow(db.sales.payments[p], rzPayment, now)]
    && after.sales.invoices == db.sales.invoices + [Invoice(o, NumberFor(db.sales.orders[o], year))]
    && after.sales.banks.Keys == db.sales.banks.Keys && after.vehicles.Keys == db.vehicles.Keys
  }

  lemma FinishPaysUp(db: Db, ticket: Ticket, user: UserId, rzPayment: string, signatureOk: bool, year: int, now: Time)
    requires TicketOk(db.sales, ticket)
    requires FinishPayment(db.sales, db.vehicles, ticket, user, rzPayment, signatureOk, year, now).out == Ok(Settled)
    ensures ticket.PayDue?
    ensures var w := FinishPayment(db.sales, db.vehicles, ticket, user, rzPayment, signatureOk, year, now);
            PaidUp(db, db.(sales := w.rows.0, vehicles := w.rows.1), ticket.orderId, ticket.paymentId, rzPayment,
                year, now)
  {
    hide RzPaymentFree, InvoiceFree;
  }

  lemma SettlementPaysUp(cfg: Config, sys: Sys, m: Move, now: Time, o: OrderId, rzPayment: string, year: int)
    returns (p: PaymentId)
    requires SysInv(sys) && SettlesOn(cfg, sys, m, now, o) && Pays(m, rzPayment, year)
    ensures PaidUp(sys.db, Advance(cfg, sys, m, now).sys.db, o, p, rzPayment, year, now)
  {
    hide SalesInv, FinishPayment, ReadForPayment, PaidUp, TicketOk;
    var s := sys.db.sales;
    if m.Atomic? {
      var a := m.action;
      var ticket := ReadForPayment(s.orders, s.payments, a.user.id, o).value;
      TicketFresh(s, a.user.id, o);
      FinishPaysUp(sys.db, ticket, a.user.id, rzPayment, a.signatureOk, year, now);
      TicketNamesOrder(s, a.user.id, o);
      p := ticket.paymentId;
    } else {
      var call := sys.calls[m.call];
      FinishPaysUp(sys.db, call.ticket, call.user, rzPayment, m.signatureOk, year, now);
      p := call.ticket.paymentId;
    }
  }

  lemma NotItsCommit(cfg: Config, sys: Sys, m: Move, now: Time, o: OrderId, q: OrderId, c: CallId)
    requires SettlesOn(cfg, sys, m, now, o) && q != o && IsTicketFor(sys.calls, c, q)
    ensures !(m.CommitPayment? && m.call == c)
  {
    hide Advance;
  }

  /** Settling one order leaves another one payable. */
  lemma OtherStaysPayable(cfg: Config, sys: Sys, m: Move, now: Time, o: OrderId, q: OrderId,
                          rzPayment: string, rzNext: string, year: int)
    requires SysInv(sys) && SettlesOn(cfg, sys, m, now, o) && Pays(m, rzPayment, year)
    requires q != o && CanBePaid(sys, q) && RoomToSettle(sys.db, q, rzNext, year) && rzNext != rzPayment
    requires o in sys.db.sales.orders && sys.db.sales.orders[o].pass.last != sys.db.sales.orders[q].pass.last
    ensures var next := Advance(cfg, sys, m, now).sys;
            && CanBePaid(next, q) && next.db.sales.orders[q] == sys.db.sales.orders[q]
            && RoomToSettle(next.db, q, rzNext, year)
  {
    hide Advance, SysInv, HasPendingPayment, SettlesOn;
    var next := Advance(cfg, sys, m, now).sys;
    var p := SettlementPaysUp(cfg, sys, m, now, o, rzPayment, year);
    if InFlight(sys.calls, q) {
      var c :| IsTicketFor(sys.calls, c, q);
      NotItsCommit(cfg, sys, m, now, o, q, c);
      TicketStays(cfg, sys, m, now, c, q);
    } else {
      PendingElsewhere(sys.db.sales.payments, next.db.sales.payments, p, o, q);
    }
  }

  lemma SettlingMovePays(sys: Sys, o: OrderId, rzPayment: string, year: int)
    requires CanBePaid(sys, o)
    ensures Pays(SettlingMove(sys, o, rzPayment, year), rzPayment, year)
    ensures var m := SettlingMove(sys, o, rzPayment, year); m.Atomic? ==> m.action.VerifyPayment?
  {
  }

  // ---- a checkout in front of them ---------------------------------------------------------------------------

  /** What a granted hold leaves. */
  lemma GrantedState(cfg: Config, sys: Sys, user: User, v: VehicleId, now: Time)
    requires HoldsOn(cfg, sys, Atomic(Machine.Hold(user, v)), now, v)
    ensures v in sys.db.vehicles && VehiclesSpec.Holdable(sys.db.vehicles[v], now)
    ensures Advance(cfg, sys, Atomic(Machine.Hold(user, v)), now).sys
         == sys.(db := sys.db.(counters := Attempt(sys.db.counters, HoldGate(user.id), now),
              vehicles := sys.db.vehicles[v := VehiclesSpec.WithHold(sys.db.vehicles[v], user.id, now + cfg.holdMs)]))
  {
  }

  /** The vehicle is held for the user, at a price, and the draws are free. */
  ghost predicate ReadyToBuy(db: Db, user: UserId, v: VehicleId, d: Draws, now: Time) {
    && v in db.vehicles && (db.vehicles[v].saleType == BuyNow || db.vehicles[v].saleType == Hybrid)
    && db.vehicles[v].heldBy == Some(user)
    && db.vehicles[v].heldUntil.Some? && now <= db.vehicles[v].heldUntil.value
    && db.vehicles[v].buyNowPrice.Some? && db.vehicles[v].buyNowPrice.value != 0
    && !HasOpenOrder(db.sales.orders, v, user) && DrawsFree(db, d)
  }

  function CheckoutMove(user: User, v: VehicleId, d: Draws): Move {
    Atomic(Machine.StartCheckout(user, v, d.ids, d.feeBp, d.gstBp))
  }

  /** The checkout inserts one order and one payment, the order payable. */
  lemma CheckoutInFlight(cfg: Config, sys: Sys, user: User, v: VehicleId, d: Draws, now: Time)
    requires ReadyToBuy(sys.db, user.id, v, d, now)
    ensures var next := Advance(cfg, sys, CheckoutMove(user, v, d), now).sys;
            && next.calls == sys.calls
            && next.db == sys.db.(sales :=
               sys.db.sales.(orders := next.db.sales.orders, payments := next.db.sales.payments))
            && d.ids.order !in sys.db.sales.orders && d.ids.order in next.db.sales.orders
            && next.db.sales.orders == sys.db.sales.orders[d.ids.order := next.db.sales.orders[d.ids.order]]
            && d.ids.payment !in sys.db.sales.payments && d.ids.payment in next.db.sales.payments
            && next.db.sales.payments == sys.db.sales.payments[d.ids.payment := next.db.sales.payments[d.ids.payment]]
            && next.db.sales.payments[d.ids.payment].rzPaymentId == None
            && next.db.sales.orders[d.ids.order].pass == d.ids.pass
            && next.db.sales.orders[d.ids.order].bankId == sys.db.vehicles[v].bankId
            && next.db.sales.orders[d.ids.order].buyer == user.id
            && next.db.sales.orders[d.ids.order].status == Held
            && HasPendingPayment(next.db.sales.payments, d.ids.order)
            && CanBePaidOn(next, d.ids.order, v)
  {
    HolderEntitled(sys.db.vehicles[v], user.id, now);
    hide Machine.Apply, HasOpenOrder, Entitlement;
    CheckoutGoesThrough(cfg, sys.db, user, v, d.ids, d.feeBp, d.gstBp, now);
    var next := Advance(cfg, sys, CheckoutMove(user, v, d), now).sys;
    assert IsPendingFor(next.db.sales.payments, d.ids.payment, d.ids.order);
  }

  /** What was payable before the checkout still is, and there is room for either settlement. */
  lemma StillPayable(cfg: Config, sys: Sys, user: User, v: VehicleId, d: Draws, now: Time, o: OrderId)
    requires SysInv(sys) && ReadyToBuy(sys.db, user.id, v, d, now) && CanBePaidOn(sys, o, v)
    ensures var next := Advance(cfg, sys, CheckoutMove(user, v, d), now).sys;
            && CanBePaidOn(next, o, v) && o != d.ids.order
            && RoomToSettle(next.db, o, d.rzFirst, d.year) && RoomToSettle(next.db, d.ids.order, d.rzSecond, d.year)
            && next.db.sales.orders[o].pass.last != d.ids.pass.last
  {
    hide Advance, HasOpenOrder, IdsFree, SalesInv, CallsSound;
    CheckoutInFlight(cfg, sys, user, v, d, now);
    NumberIsFree(sys.db.sales, o, d.year);
    var next := Advance(cfg, sys, CheckoutMove(user, v, d), now).sys;
    if !InFlight(sys.calls, o) {
      var p :| IsPendingFor(sys.db.sales.payments, p, o);
      assert IsPendingFor(next.db.sales.payments, p, o);
    }
  }

  // ---- the two sales -----------------------------------------------------------------------------------------

  lemma NoHoldIsClean(cfg: Config, sys: Sys, m: Move, now: Time, v: VehicleId)
    requires !(m.Atomic? && m.action.Hold?)
    ensures CleanMove(cfg, sys, m, now, v)
  {
    hide Advance;
  }

  lemma DrawsDiffer(db: Db, user: UserId, v: VehicleId, d: Draws, now: Time)
    requires ReadyToBuy(db, user, v, d, now)
    ensures d.rzFirst != d.rzSecond
  {
  }

  /** Three moves settle both the order that was payable and the new holder's. */
  lemma PayableMakesTwoSales(cfg: Config, sys: Sys, user: User, v: VehicleId, d: Draws, now: Time, o: OrderId)
    returns (ts: seq<Tick>)
    requires SysInv(sys) && ReadyToBuy(sys.db, user.id, v, d, now) && CanBePaidOn(sys, o, v)
    ensures After(ts, now) && CleanMoves(cfg, sys, ts, v) && !SoldOnceAtMost(SysAt(cfg, sys, ts, |ts|).db.sales, v)
  {
    hide Advance, SysInv, SysAt, SettlesOn, CleanMove, CanBePaid, ReadyToBuy, RoomToSettle, SoundMove;
    var q := d.ids.order;
    var m0 := CheckoutMove(user, v, d);
    var s1 := Advance(cfg, sys, m0, now).sys;
    CheckoutInFlight(cfg, sys, user, v, d, now);
    StillPayable(cfg, sys, user, v, d, now, o);
    AdvanceSound(cfg, sys, m0, now);
    var m1 := SettlingMove(s1, o, d.rzFirst, d.year);
    var s2 := Advance(cfg, s1, m1, now).sys;
    CanBePaidSettles(cfg, s1, o, d.rzFirst, d.year, now);
    SettlingMovePays(s1, o, d.rzFirst, d.year);
    DrawsDiffer(sys.db, user.id, v, d, now);
    PaidOrderExists(s1, o);
    PaidOrderExists(s1, q);
    OtherStaysPayable(cfg, s1, m1, now, o, q, d.rzFirst, d.rzSecond, d.year);
    PaidOrderExists(s2, q);
    AdvanceSound(cfg, s1, m1, now);
    var m2 := SettlingMove(s2, q, d.rzSecond, d.year);
    CanBePaidSettles(cfg, s2, q, d.rzSecond, d.year, now);
    SettlingMovePays(s2, q, d.rzSecond, d.year);
    ts := [Tick(m0, now), Tick(m1, now), Tick(m2, now)];
    Ticks(cfg, sys, ts);
    forall k: nat | k < |ts| ensures CleanMove(cfg, SysAt(cfg, sys, ts, k), ts[k].move, ts[k].now, v) {
      NoHoldIsClean(cfg, SysAt(cfg, sys, ts, k), ts[k].move, ts[k].now, v);
    }
    SettledFromThenOn(cfg, sys, ts, 1, 3, o, v);
    SettledFromThenOn(cfg, sys, ts, 2, 3, q, v);
  }

  lemma NewOrderHasRoom(cfg: Config, sys: Sys, user: User, v: VehicleId, d: Draws, now: Time)
    requires ReadyToBuy(sys.db, user.id, v, d, now)
    ensures var next := Advance(cfg, sys, CheckoutMove(user, v, d), now).sys;
            d.ids.order in next.db.sales.orders && RoomToSettle(next.db, d.ids.order, d.rzSecond, d.year)
  {
    hide Advance, HasOpenOrder, IdsFree;
    CheckoutInFlight(cfg, sys, user, v, d, now);
  }

  /** If the vehicle has been sold before, two moves sell it again. */
  lemma SoldBeforeMakesTwoSales(cfg: Config, sys: Sys, user: User, v: VehicleId, d: Draws, now: Time, o: OrderId)
    returns (ts: seq<Tick>)
    requires SysInv(sys) && ReadyToBuy(sys.db, user.id, v, d, now) && SettledOn(sys.db.sales, o, v)
    ensures After(ts, now) && CleanMoves(cfg, sys, ts, v) && !SoldOnceAtMost(SysAt(cfg, sys, ts, |ts|).db.sales, v)
  {
    hide Advance, SysInv, SysAt, SettlesOn, CleanMove, CanBePaid, ReadyToBuy, SoundMove;
    var q := d.ids.order;
    var m0 := CheckoutMove(user, v, d);
    var s1 := Advance(cfg, sys, m0, now).sys;
    CheckoutInFlight(cfg, sys, user, v, d, now);
    AdvanceSound(cfg, sys, m0, now);
    NewOrderHasRoom(cfg, sys, user, v, d, now);
    var m1 := SettlingMove(s1, q, d.rzSecond, d.year);
    CanBePaidSettles(cfg, s1, q, d.rzSecond, d.year, now);
    SettlingMovePays(s1, q, d.rzSecond, d.year);
    ts := [Tick(m0, now), Tick(m1, now)];
    Ticks(cfg, sys, ts);
    forall k: nat | k < |ts| ensures CleanMove(cfg, SysAt(cfg, sys, ts, k), ts[k].move, ts[k].now, v) {
      NoHoldIsClean(cfg, SysAt(cfg, sys, ts, k), ts[k].move, ts[k].now, v);
    }
    SettledFromThenOn(cfg, sys, ts, 1, 2, q, v);
    SettledStaysInFlight(cfg, sys, ts, 0, 2, o, v);
  }

  lemma SamePayable(sys: Sys, next: Sys, o: OrderId)
    requires next.calls == sys.calls && next.db.sales == sys.db.sales
    ensures CanBePaid(next, o) <==> CanBePaid(sys, o)
  {
  }

  /** The exact condition at L2: a hold granted to a user without an open order of their own can never lead to two
      sales if and only if, when it is granted, no order on the vehicle can still be paid or has been. */
  lemma HoldIsSafeIffNothingOwed(cfg: Config, sys: Sys, user: User, v: VehicleId, before: Time, now: Time, d: Draws)
    requires SysInv(sys) && SaleSysInv(sys, v, before) && before <= now && cfg.holdMs >= 0
    requires HoldsOn(cfg, sys, Atomic(Machine.Hold(user, v)), now, v)
    requires v in sys.db.vehicles && sys.db.vehicles[v].buyNowPrice.Some? && sys.db.vehicles[v].buyNowPrice.value != 0
    requires !HasOpenOrder(sys.db.sales.orders, v, user.id) && DrawsFree(sys.db, d)
    ensures NeverSoldTwiceInFlight(cfg, Advance(cfg, sys, Atomic(Machine.Hold(user, v)), now).sys, v, now)
       <==> NothingOwed(sys, v)
  {
    var m := Atomic(Machine.Hold(user, v));
    var next := Advance(cfg, sys, m, now).sys;
    if NothingOwed(sys, v) {
      hide Advance, SysInv, SaleSysInv, HoldsOn, NeverSoldTwiceInFlight, NothingOwed;
      CleanHoldIsSafeInFlight(cfg, sys, m, before, now, v);
    } else {
      hide Advance, SysInv, SaleSysInv, HoldsOn, CleanMoves, SoldOnceAtMost, SoundMove, CanBePaid, SysAt;
      hide HasOpenOrder, IdsFree;
      GrantedState(cfg, sys, user, v, now);
      AdvanceSound(cfg, sys, m, now);
      assert ReadyToBuy(next.db, user.id, v, d, now);
      var o :| CanBePaidOn(sys, o, v) || SettledOn(sys.db.sales, o, v);
      if SettledOn(sys.db.sales, o, v) {
        var ts := SoldBeforeMakesTwoSales(cfg, next, user, v, d, now, o);
      } else {
        SamePayable(sys, next, o);
        var ts := PayableMakesTwoSales(cfg, next, user, v, d, now, o);
      }
    }
  }
}
