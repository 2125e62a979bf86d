/** What one L1 step does to one order row. */
module OrderView {
  import opened Rows
  import opened OrdersSpec
  import opened PickupSpec
  import opened SalesTheory
  import opened Machine
  import opened Frames
  import WebhookSpec
  import BidsSpec
  import VehiclesSpec
  import LotsSpec

  function PaidRow(o: Order, now: Time): Order {
    o.(status := ReadyForPickup, paidAt := Some(now))
  }

  predicate Settles(a: Action, out: Outcome, o: OrderId) {
    a.VerifyPayment? && a.order == o && out == Ok(Settled)
  }

  predicate ScansOrder(a: Action, out: Outcome, row: Order) {
    a.Scan? && a.pass == row.pass && out.Ok?
  }

  predicate HandsOver(a: Action, out: Outcome, o: OrderId) {
    a.Complete? && a.order == o && out.Ok?
  }

  /** The row after the step, and the guards the change has passed. */
  ghost predicate OrderChanged(payments: Payments, a: Action, now: Time, out: Outcome, o: OrderId, before: Order,
                               after: Order) {
    if Settles(a, out, o) then
      && after == PaidRow(before, now)
      && before.buyer == a.user.id && a.signatureOk
      && before.status != Expired && before.status != Paid && before.status != ReadyForPickup
      && HasPendingPayment(payments, o)
    else if a.ExpireOverdueOrders? then after == if Overdue(before, now) then ExpiredRow(before, now) else before
    else if ScansOrder(a, out, before) then
      && after == ScannedRow(before, a.otp, now)
      && a.user.bankId == Some(before.bankId)
      && (before.status == ReadyForPickup || before.status == PickupInProgress)
    else if HandsOver(a, out, o) then
      && after == CollectedRow(before, a.user.id, now)
      && a.user.bankId == Some(before.bankId)
      && before.status == PickupInProgress
      && before.otpHash == Some(OtpHash(a.otp))
      && before.otpExpiresAt.Some? && now <= before.otpExpiresAt.value
    else after == before
  }

  lemma ScannedOrder(orders: Orders, user: User, pass: Pass, otp: int, now: Time, o: OrderId)
    requires OrderRowsOk(orders) && o in orders
    ensures var w := PickupSpec.Scan(orders, user, pass, otp, now);
            && o in w.rows
            && if w.out.Ok? && pass == orders[o].pass then
                 && w.rows[o] == ScannedRow(orders[o], otp, now)
                 && user.bankId == Some(orders[o].bankId)
                 && (orders[o].status == ReadyForPickup || orders[o].status == PickupInProgress)
               else w.rows[o] == orders[o]
  {
    if orders[o].pass == pass {
      assert HasPass(orders, o, pass);
    }
  }

  lemma PaidOrder(cfg: Config, db: Db, a: Action, now: Time, o: OrderId)
    requires a.VerifyPayment? && o in db.sales.orders
    ensures var s := Serve(cfg, db, a, now);
            o in s.db.sales.orders
                && OrderChanged(db.sales.payments, a, now, s.out, o, db.sales.orders[o], s.db.sales.orders[o])
  {
    hide CanSettle, Pending;
  }

  lemma ServedOrder(cfg: Config, db: Db, a: Action, now: Time, o: OrderId)
    requires OrderRowsOk(db.sales.orders) && o in db.sales.orders
    ensures var s := Serve(cfg, db, a, now);
            o in s.db.sales.orders
                && OrderChanged(db.sales.payments, a, now, s.out, o, db.sales.orders[o], s.db.sales.orders[o])
  {
    hide OrdersSpec.VerifyPayment, PickupSpec.Scan, Entitlement, HasOpenOrder;
    match a
    case VerifyPayment(_, _, _, _, _) => PaidOrder(cfg, db, a, now, o);
    case Scan(user, pass, otp) => ScannedOrder(db.sales.orders, user, pass, otp, now, o);
    case _ => ServeFrame(cfg, db, a, now);
  }

  lemma OrderStep(cfg: Config, db: Db, e: Event, o: OrderId)
    requires OrderRowsOk(db.sales.orders) && o in db.sales.orders
    ensures var s := Apply(cfg, db, e);
            o in s.db.sales.orders
                && OrderChanged(db.sales.payments, e.action, e.now, s.out, o, db.sales.orders[o], s.db.sales.orders[o])
  {
    hide Apply, Serve, OrderRowsOk, HasPendingPayment;
    ApplyCases(cfg, db, e);
    var counted := db.(counters := Apply(cfg, db, e).db.counters);
    if Apply(cfg, db, e) == Serve(cfg, counted, e.action, e.now) {
      ServedOrder(cfg, counted, e.action, e.now, o);
    }
  }

  predicate ChecksOut(a: Action, out: Outcome, o: OrderId) {
    a.StartCheckout? && a.ids.order == o && out.Ok?
  }

  /** The guards of a checkout that went through, and the order row it wrote. */
  ghost predicate CheckedOutRow(cfg: Config, db: Db, a: Action, now: Time, after: Db)
    requires a.StartCheckout?
  {
    && a.vehicle in db.vehicles
    && Entitlement(db.vehicles[a.vehicle], a.user.id, now).Success?
    && !HasOpenOrder(db.sales.orders, a.vehicle, a.user.id)
    && IdsFree(db.sales.orders, db.sales.payments, a.ids)
    && a.ids.order in after.sales.orders
    && var row := after.sales.orders[a.ids.order];
       && row.buyer == a.user.id && row.vehicleId == Some(a.vehicle) && row.saleType == db.vehicles[a.vehicle].saleType
       && row.bankId == db.vehicles[a.vehicle].bankId
       && row.base == Entitlement(db.vehicles[a.vehicle], a.user.id, now).value
       && row.status == Held && row.pass == a.ids.pass && row.otpHash == None
       && (db.vehicles[a.vehicle].heldUntil.Some? ==> row.heldUntil == db.vehicles[a.vehicle].heldUntil)
  }

  lemma ServedCheckout(cfg: Config, db: Db, a: Action, now: Time)
    requires a.StartCheckout?
    ensures var s := Serve(cfg, db, a, now);
            if s.out.Ok? then
              && CheckedOutRow(cfg, db, a, now, s.db)
              && s.db.sales.orders == db.sales.orders[a.ids.order := s.db.sales.orders[a.ids.order]]
              && s.db.sales.payments == db.sales.payments[a.ids.payment :=
                   NewPayment(a.ids.order, s.db.sales.orders[a.ids.order].total, a.ids.rzOrder)]
            else s.db == db
  {
    hide Entitlement, HasOpenOrder, OrderIdsFree, PaymentIdsFree;
  }

  lemma CheckoutStep(cfg: Config, db: Db, e: Event, o: OrderId)
    requires ChecksOut(e.action, Apply(cfg, db, e).out, o)
    ensures CheckedOutRow(cfg, db, e.action, e.now, Apply(cfg, db, e).db)
  {
    ServedCheckout(cfg, db, e.action, e.now);
  }

  lemma NoOtherInserts(cfg: Config, db: Db, a: Action, now: Time)
    requires !a.StartCheckout?
    ensures Serve(cfg, db, a, now).db.sales.orders.Keys == db.sales.orders.Keys
  {
    hide BidsSpec.BidOnVehicle, BidsSpec.BidOnLot, VehiclesSpec.Hold, VehiclesSpec.ReleaseExpiredHolds;
    hide VehiclesSpec.UpdatePrices;
    hide WebhookSpec.Webhook, LotsSpec.CreateLot, LotsSpec.ApproveBidder, CanSettle;
  }

  /** An order row appears only through a checkout. */
  lemma NewOrderStep(cfg: Config, db: Db, e: Event, o: OrderId)
    requires o !in db.sales.orders && o in Apply(cfg, db, e).db.sales.orders
    ensures ChecksOut(e.action, Apply(cfg, db, e).out, o)
    ensures CheckedOutRow(cfg, db, e.action, e.now, Apply(cfg, db, e).db)
  {
    hide Apply, Serve;
    ApplyCases(cfg, db, e);
    var counted := db.(counters := Apply(cfg, db, e).db.counters);
    ServeFrame(cfg, counted, e.action, e.now);
    if e.action.StartCheckout? {
      ServedCheckout(cfg, counted, e.action, e.now);
    } else if Apply(cfg, db, e) == Serve(cfg, counted, e.action, e.now) {
      NoOtherInserts(cfg, counted, e.action, e.now);
    }
  }

  // ---- a checkout that meets its guards goes through ------------------------------------------

  lemma CheckoutGoesThrough(cfg: Config, db: Db, user: User, v: VehicleId, ids: FreshIds, feeBp: int, gstBp: int,
                            now: Time)
    requires v in db.vehicles && Entitlement(db.vehicles[v], user.id, now).Success?
    requires !HasOpenOrder(db.sales.orders, v, user.id) && IdsFree(db.sales.orders, db.sales.payments, ids)
    requires ids.rzOrder.Some?
    ensures var s := Apply(cfg, db, Event(StartCheckout(user, v, ids, feeBp, gstBp), now));
            && s.out.Ok?
            && s.db == db.(sales := s.db.sales)
            && ids.order in s.db.sales.orders && ids.payment in s.db.sales.payments
            && s.db.sales.orders == db.sales.orders[ids.order := s.db.sales.orders[ids.order]]
            && s.db.sales.payments == db.sales.payments[ids.payment := s.db.sales.payments[ids.payment]]
            && s.db.sales.invoices == db.sales.invoices && s.db.sales.banks == db.sales.banks
            && s.db.sales.payments[ids.payment]
               == NewPayment(ids.order, s.db.sales.orders[ids.order].total, ids.rzOrder)
            && var row := s.db.sales.orders[ids.order];
               && row.buyer == user.id && row.pass == ids.pass && row.vehicleId == Some(v) && row.status == Held
               && row.bankId == db.vehicles[v].bankId && row.base == Entitlement(db.vehicles[v], user.id, now).value
  {
    hide Entitlement, HasOpenOrder, OrderIdsFree, PaymentIdsFree;
  }

  /** Another buyer's new order blocks nobody and takes no one else's identifiers. */
  lemma NotBlockedByOthers(orders: Orders, later: Orders, ids: FreshIds, ids': FreshIds, payments: Payments,
                           later': Payments,
                           v: VehicleId, user: UserId)
    requires ids.order in later && later == orders[ids.order := later[ids.order]] && later[ids.order].buyer != user
    requires ids.payment in later' && later' == payments[ids.payment := later'[ids.payment]]
    requires later[ids.order].pass == ids.pass && later'[ids.payment].rzOrderId == ids.rzOrder
    requires !HasOpenOrder(orders, v, user) && IdsFree(orders, payments, ids')
    requires ids.order != ids'.order && ids.payment != ids'.payment && ids.pass != ids'.pass
    requires ids.rzOrder != ids'.rzOrder
    ensures !HasOpenOrder(later, v, user) && IdsFree(later, later', ids')
  {
  }
}
