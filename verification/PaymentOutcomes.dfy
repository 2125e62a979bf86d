/** L1: when a payment settles its order, what rows it writes and how it is refused, in row columns; and that a
    settled order's payment is CAPTURED in every run without webhooks. */
module PaymentOutcomes {
  import opened Rows
  import opened Machine
  import opened SalesTheory
  import opened SalesRuns
  import OrdersSpec
  import OrderView
  import Lifecycle
  import Frames
  import NoDoubleSale
  import CheckoutOutcomes
  import opened WebhookSpec
  import opened WebhookOutcomes
  import UniqueColumns

  function PaymentEvent(user: User, o: OrderId, rzPayment: string, signatureOk: bool, year: int, now: Time): Event {
    Event(Action.VerifyPayment(user, o, rzPayment, signatureOk, year), now)
  }

  /** A payment of o that the gateway knows and has not decided. */
  predicate Undecided(payments: Payments, p: PaymentId, o: OrderId) {
    && p in payments && payments[p].orderId == o
    && payments[p].rzOrderId.Some? && payments[p].rzOrderId.value != ""
    && (payments[p].status == Initiated || payments[p].status == Authorized)
  }

  /** The user's own HELD order, with this payment undecided. */
  predicate Due(s: Sales, user: UserId, o: OrderId, p: PaymentId) {
    o in s.orders && s.orders[o].buyer == user && s.orders[o].status == Held && Undecided(s.payments, p, o)
  }

  /** The vehicle and bank rows a settlement of o updates exist. */
  predicate RowsThere(db: Db, o: OrderId)
    requires o in db.sales.orders
  {
    var row := db.sales.orders[o];
    row.vehicleId.Some? ==> row.vehicleId.value in db.vehicles && row.bankId in db.sales.banks
  }

  predicate RzPaymentUnused(payments: Payments, p: PaymentId, rzPayment: string) {
    forall q | q in payments && q != p :: payments[q].rzPaymentId != Some(rzPayment)
  }

  predicate NumberUnused(invoices: seq<Invoice>, number: InvoiceNumber) {
    forall i | 0 <= i < |invoices| :: invoices[i].number != number
  }

  /** Every row is there and every unique value free. */
  predicate RowsReady(db: Db, o: OrderId, p: PaymentId, rzPayment: string, year: int)
    requires o in db.sales.orders
  {
    && RowsThere(db, o) && RzPaymentUnused(db.sales.payments, p, rzPayment)
    && NumberUnused(db.sales.invoices, InvoiceNumber(year, db.sales.orders[o].pass.last))
  }

  /** The database with order o settled by payment p. */
  function SettledDb(db: Db, user: User, o: OrderId, p: PaymentId, rzPayment: string, year: int, now: Time): Db
    requires o in db.sales.orders && p in db.sales.payments
    requires RowsThere(db, o)
  {
    var s, row, payment := db.sales, db.sales.orders[o], db.sales.payments[p];
    db.(sales := Sales(
          s.orders[o := row.(status := ReadyForPickup, paidAt := Some(now))],
          s.payments[p := payment.(status := Captured, rzPaymentId := Some(rzPayment), capturedAt := Some(now))],
          s.invoices + [Invoice(o, InvoiceNumber(year, row.pass.last))],
          if row.vehicleId.None? then s.banks
          else
            var bank := s.banks[row.bankId];
            s.banks[row.bankId := Bank(bank.vehiclesSold + 1, bank.totalRecovered + row.base)]),
        vehicles :=
          if row.vehicleId.None? then db.vehicles
          else
            var v := row.vehicleId.value;
            db.vehicles[v := db.vehicles[v].(status := Sold, soldTo := Some(user.id), soldAt := Some(now),
                                             soldPrice := Some(row.base), heldBy := None, heldUntil := None)])
  }

  lemma OneDue(s: Sales, user: UserId, o: OrderId, p: PaymentId)
    requires SalesInv(s) && Due(s, user, o, p)
    ensures OrdersSpec.ReadForPayment(s.orders, s.payments, user, o)
         == Success(OrdersSpec.PayDue(o, s.orders[o], p))
    ensures !HasInvoice(s.invoices, o)
  {
    assert OrdersSpec.IsPendingFor(s.payments, p, o);
  }

  /** A payment that is due settles its order exactly with a good signature and its rows ready. */
  lemma DuePayment(cfg: Config, db: Db, user: User, o: OrderId, p: PaymentId, rzPayment: string, signatureOk: bool,
                   year: int, now: Time)
    requires SalesInv(db.sales) && Due(db.sales, user.id, o, p)
    ensures var w := Apply(cfg, db, PaymentEvent(user, o, rzPayment, signatureOk, year, now));
            if !signatureOk then
              && w.out == Err(BadRequest)
              && w.db == db.(sales := db.sales.(payments :=
                   db.sales.payments[p := db.sales.payments[p].(status := Failed)]))
            else if RowsReady(db, o, p, rzPayment, year) then
              w.out == Ok(Settled) && w.db == SettledDb(db, user, o, p, rzPayment, year, now)
            else
              && w.db == db
              && w.out == Err(if RzPaymentUnused(db.sales.payments, p, rzPayment) && !RowsThere(db, o)
                 then RecordMissing
                              else UniqueViolation)
  {
    hide SalesInv, OrdersSpec.ReadForPayment;
    OneDue(db.sales, user.id, o, p);
  }

  lemma NothingPendingUnlessExpired(s: Sales, user: UserId, o: OrderId)
    requires SalesInv(s) && o in s.orders && forall p :: !Due(s, user, o, p)
    ensures LifecycleStatus(s.orders[o].status)
    ensures s.orders[o].buyer == user && s.orders[o].status != Expired ==>
              !OrdersSpec.HasPendingPayment(s.payments, o)
  {
    if s.orders[o].buyer == user && OrdersSpec.HasPendingPayment(s.payments, o) {
      Lifecycle.NoPendingOnSettled(s, o);
      var p :| OrdersSpec.IsPendingFor(s.payments, p, o);
      assert !Due(s, user, o, p);
    }
  }

  /** Without such a payment nothing is written. */
  lemma NothingDue(cfg: Config, db: Db, user: User, o: OrderId, rzPayment: string, signatureOk: bool, year: int,
                   now: Time)
    requires SalesInv(db.sales) && forall p :: !Due(db.sales, user.id, o, p)
    ensures var w := Apply(cfg, db, PaymentEvent(user, o, rzPayment, signatureOk, year, now));
            && w.db == db && w.out != Ok(Settled)
            && (w.out == Err(NotFound) <==> o !in db.sales.orders)
            && (o in db.sales.orders ==>
                  var row := db.sales.orders[o];
                  && (w.out == Err(Forbidden) <==> row.buyer != user.id)
                  && (w.out == Err(Gone) <==> row.buyer == user.id && row.status == Expired)
                  && (w.out == Ok(AlreadyPaid) <==> row.buyer == user.id && row.status == ReadyForPickup)
                  && (w.out == Err(BadRequest) <==>
                        row.buyer == user.id && row.status in {Held, PickupInProgress, Collected}))
  {
    hide SalesInv, OrdersSpec.Settle, OrdersSpec.FailPayment, OrdersSpec.HasPendingPayment, Due;
    if o in db.sales.orders {
      NothingPendingUnlessExpired(db.sales, user.id, o);
    }
    assert db == db.(sales := db.sales, vehicles := db.vehicles);
  }

  lemma SameDue(s: Sales, user: UserId, o: OrderId, p: PaymentId, q: PaymentId)
    requires SalesInv(s) && Due(s, user, o, p) && Due(s, user, o, q)
    ensures p == q
  {
  }

  /** A payment settles an order if and only if it is correctly signed, the order is the caller's, HELD and has an
      undecided payment, and all rows are ready. */
  lemma PaymentSettlesIff(cfg: Config, db: Db, user: User, o: OrderId, rzPayment: string, signatureOk: bool, year: int,
                          now: Time)
    requires SalesInv(db.sales)
    ensures Apply(cfg, db, PaymentEvent(user, o, rzPayment, signatureOk, year, now)).out == Ok(Settled) <==>
              signatureOk && exists p :: Due(db.sales, user.id, o, p) && RowsReady(db, o, p, rzPayment, year)
  {
    hide Apply, SalesInv, Due, RowsReady;
    if p :| Due(db.sales, user.id, o, p) {
      DuePayment(cfg, db, user, o, p, rzPayment, signatureOk, year, now);
      forall q | Due(db.sales, user.id, o, q) ensures q == p {
        SameDue(db.sales, user.id, o, p, q);
      }
    } else {
      NothingDue(cfg, db, user, o, rzPayment, signatureOk, year, now);
    }
  }

  /** Whatever call answers Settled: the order's one payment is CAPTURED under the gateway payment id that was given,
      now, and no other payment has changed. */
  lemma SettledAnswer(cfg: Config, db: Db, user: User, o: OrderId, rzPayment: string, signatureOk: bool, year: int,
                      now: Time) returns (p: PaymentId)
    requires SalesInv(db.sales)
    requires Apply(cfg, db, PaymentEvent(user, o, rzPayment, signatureOk, year, now)).out == Ok(Settled)
    ensures signatureOk && Due(db.sales, user.id, o, p) && RowsReady(db, o, p, rzPayment, year)
    ensures forall q :: q in db.sales.payments && db.sales.payments[q].orderId == o ==> q == p
    ensures var payments := Apply(cfg, db, PaymentEvent(user, o, rzPayment, signatureOk, year, now)).db.sales.payments;
            && payments.Keys == db.sales.payments.Keys
            && payments[p] == db.sales.payments[p].(status := Captured, rzPaymentId := Some(rzPayment),
                                                    capturedAt := Some(now))
            && forall q :: q in payments && q != p ==> payments[q] == db.sales.payments[q]
  {
    hide Apply, RowsReady;
    PaymentSettlesIff(cfg, db, user, o, rzPayment, signatureOk, year, now);
    p :| Due(db.sales, user.id, o, p) && RowsReady(db, o, p, rzPayment, year);
    DuePayment(cfg, db, user, o, p, rzPayment, signatureOk, year, now);
    OnePayment(db.sales, p);
  }

  // ---- runs -------------------------------------------------------------------------------------------------

  /** The money of a settled order is captured, under a gateway payment id. */
  predicate CapturedOnceSettled(s: Sales) {
    forall p | p in s.payments && s.payments[p].orderId in s.orders
        && s.orders[s.payments[p].orderId].status in {ReadyForPickup, PickupInProgress, Collected} ::
      s.payments[p].status == Captured && s.payments[p].rzPaymentId.Some? && s.payments[p].capturedAt.Some?
  }

  lemma PaymentKeepsCaptured(cfg: Config, db: Db, a: Action, now: Time)
    requires SalesInv(db.sales) && CapturedOnceSettled(db.sales) && a.VerifyPayment?
    ensures CapturedOnceSettled(Apply(cfg, db, Event(a, now)).db.sales)
  {
    hide Apply;
    if p :| Due(db.sales, a.user.id, a.order, p) {
      DuePayment(cfg, db, a.user, a.order, p, a.rzPayment, a.signatureOk, a.year, now);
    } else {
      NothingDue(cfg, db, a.user, a.order, a.rzPayment, a.signatureOk, a.year, now);
    }
  }

  lemma NewPaymentIsOfNewOrder(cfg: Config, db: Db, e: Event, p: PaymentId)
    requires !e.action.VerifyPayment? && !e.action.Webhook? && p in Apply(cfg, db, e).db.sales.payments
    requires Apply(cfg, db, e).db.sales.payments[p].orderId in db.sales.orders
    ensures p in db.sales.payments && Apply(cfg, db, e).db.sales.payments[p] == db.sales.payments[p]
  {
    hide Apply, CheckoutOutcomes.Billed, CheckoutOutcomes.InProgress;
    Frames.StepFrame(cfg, db, e);
    if e.action.StartCheckout? {
      var a := e.action;
      CheckoutOutcomes.CheckoutAcceptedIff(cfg, db, a.user, a.vehicle, a.ids, a.feeBp, a.gstBp, e.now);
      if Apply(cfg, db, e).out.Ok? {
        CheckoutOutcomes.AcceptedCheckoutWrites(cfg, db, a.user, a.vehicle, a.ids, a.feeBp, a.gstBp, e.now);
      } else {
        CheckoutOutcomes.RefusedCheckout(cfg, db, a.user, a.vehicle, a.ids, a.feeBp, a.gstBp, e.now);
      }
    }
  }

  lemma SettledPaymentIsOld(cfg: Config, db: Db, e: Event, p: PaymentId)
    requires SalesInv(db.sales) && !e.action.VerifyPayment? && !e.action.Webhook?
    requires var t := Apply(cfg, db, e).db.sales;
             && p in t.payments && t.payments[p].orderId in t.orders
             && t.orders[t.payments[p].orderId].status in {ReadyForPickup, PickupInProgress, Collected}
    ensures var t := Apply(cfg, db, e).db.sales;
            && p in db.sales.payments && t.payments[p] == db.sales.payments[p]
               && t.payments[p].orderId in db.sales.orders
            && db.sales.orders[t.payments[p].orderId].status in {ReadyForPickup, PickupInProgress, Collected}
  {
    hide Apply, SalesInv, OrdersSpec.HasPendingPayment, OrderView.CheckedOutRow;
    var t := Apply(cfg, db, e).db.sales;
    var o := t.payments[p].orderId;
    Frames.StepFrame(cfg, db, e);
    if o !in db.sales.orders {
      OrderView.NewOrderStep(cfg, db, e, o);
      NoDoubleSale.NewRowIsHeld(cfg, db, e.action, e.now, Apply(cfg, db, e).db);
    } else {
      Lifecycle.StatusStep(cfg, db, e, o);
      NewPaymentIsOfNewOrder(cfg, db, e, p);
    }
  }

  /** Any other call but a webhook writes only new payments, of orders that are not settled. */
  lemma OthersKeepCaptured(cfg: Config, db: Db, e: Event)
    requires SalesInv(db.sales) && CapturedOnceSettled(db.sales) && !e.action.VerifyPayment? && !e.action.Webhook?
    ensures CapturedOnceSettled(Apply(cfg, db, e).db.sales)
  {
    hide Apply;
    var s, t := db.sales, Apply(cfg, db, e).db.sales;
    Frames.StepFrame(cfg, db, e);
    forall p | p in t.payments && t.payments[p].orderId in t.orders
        && t.orders[t.payments[p].orderId].status in {ReadyForPickup, PickupInProgress, Collected}
      ensures p in s.payments && t.payments[p] == s.payments[p] && t.payments[p].orderId in s.orders
      ensures s.orders[t.payments[p].orderId].status in {ReadyForPickup, PickupInProgress, Collected}
    {
      SettledPaymentIsOld(cfg, db, e, p);
    }
  }

  /** The first correctly signed delivery of a failure, or of a refund with its amount, of a settled order's payment. */
  ghost predicate TakesBack(db: Db, d: Delivery) {
    && d.signatureOk && FirstTime(db.events, d)
    && (d.kind == PaymentFailed || (d.kind == RefundProcessed && d.refundAmount.Some?))
    && exists p :: IsAbout(db.sales.payments, d, p) && db.sales.payments[p].orderId in db.sales.orders
         && SettledStatus(db.sales.orders[db.sales.payments[p].orderId].status)
  }

  lemma OneSubject(payments: Payments, d: Delivery, p: PaymentId)
    requires UniqueColumns.PaymentColumnsUnique(payments) && IsAbout(payments, d, p)
    ensures forall q :: IsAbout(payments, d, q) ==> q == p
  {
  }

  /** The row a delivery writes is CAPTURED still, unless it notes a failure or a refund. */
  lemma NotedCaptured(payments: Payments, d: Delivery, p: PaymentId, now: Time)
    requires IsAbout(payments, d, p) && payments[p].status == Captured
    ensures var row := Noted(payments, d, p, now);
            if d.kind == PaymentFailed || (d.kind == RefundProcessed && d.refundAmount.Some?)
            then row.Some? && row.value.status != Captured
            else row.Some? ==> row.value == payments[p]
  {
  }

  lemma NotedOrder(payments: Payments, d: Delivery, p: PaymentId, now: Time)
    requires IsAbout(payments, d, p)
    ensures p in payments && (Noted(payments, d, p, now).Some? ==>
              Noted(payments, d, p, now).value.orderId == payments[p].orderId)
  {
  }

  lemma DeliveryKeepsCapturedIff(cfg: Config, db: Db, d: Delivery, now: Time)
    requires UniqueColumns.PaymentColumnsUnique(db.sales.payments) && CapturedOnceSettled(db.sales)
    ensures CapturedOnceSettled(Apply(cfg, db, Event(Action.Webhook(d), now)).db.sales) <==> !TakesBack(db, d)
  {
    hide Apply, UniqueColumns.PaymentColumnsUnique, FirstTime, IsAbout, Noted;
    DeliveryOnPayments(cfg, db, d, now);
    var payments, t := db.sales.payments, Apply(cfg, db, Event(Action.Webhook(d), now)).db.sales;
    if p :| IsAbout(payments, d, p) {
      NotedOrder(payments, d, p, now);
      OneSubject(payments, d, p);
      if payments[p].orderId in db.sales.orders && SettledStatus(db.sales.orders[payments[p].orderId].status) {
        NotedCaptured(payments, d, p, now);
        assert p in t.payments && t.payments[p].orderId == payments[p].orderId;
      }
    }
  }

  lemma CapturedStepIff(cfg: Config, db: Db, e: Event)
    requires SalesInv(db.sales) && UniqueColumns.PaymentColumnsUnique(db.sales.payments)
    requires CapturedOnceSettled(db.sales)
    ensures CapturedOnceSettled(Apply(cfg, db, e).db.sales)
        <==> !(e.action.Webhook? && TakesBack(db, e.action.delivery))
  {
    hide Apply, SalesInv, CapturedOnceSettled, TakesBack, UniqueColumns.PaymentColumnsUnique;
    if e.action.Webhook? {
      DeliveryKeepsCapturedIff(cfg, db, e.action.delivery, e.now);
    } else if e.action.VerifyPayment? {
      PaymentKeepsCaptured(cfg, db, e.action, e.now);
    } else {
      OthersKeepCaptured(cfg, db, e);
    }
  }

  ghost predicate CapturedUpTo(cfg: Config, start: Db, es: seq<Event>, n: nat)
    requires n <= |es|
  {
    forall k: nat :: k <= n ==> CapturedOnceSettled(StateAt(cfg, start, es, k).sales)
  }

  ghost predicate TakesBackAt(cfg: Config, start: Db, es: seq<Event>, k: nat) {
    k < |es| && es[k].action.Webhook? && TakesBack(StateAt(cfg, start, es, k), es[k].action.delivery)
  }

  lemma ValidAlways(cfg: Config, start: Db, es: seq<Event>, n: nat)
    requires UniqueColumns.RowsValid(start.sales) && n <= |es|
    ensures SalesInv(StateAt(cfg, start, es, n).sales)
    ensures UniqueColumns.PaymentColumnsUnique(StateAt(cfg, start, es, n).sales.payments)
  {
    hide Apply, SalesInv, UniqueColumns.PaymentColumnsUnique;
    SalesInvAlways(cfg, start, es, n);
    UniqueColumns.ColumnsStayUnique(cfg, start, es, n);
  }

  /** Throughout a run the one payment of every settled order is CAPTURED if and only if no delivery takes one back;
      so it is in every run without webhooks. */
  lemma {:induction false} SettledMeansCapturedIff(cfg: Config, start: Db, es: seq<Event>, n: nat)
    requires UniqueColumns.RowsValid(start.sales) && CapturedOnceSettled(start.sales) && n <= |es|
    ensures CapturedUpTo(cfg, start, es, n) <==> forall k: nat :: k < n ==> !TakesBackAt(cfg, start, es, k)
    ensures (forall k :: 0 <= k < n ==> !es[k].action.Webhook?) ==> CapturedUpTo(cfg, start, es, n)
  {
    hide Apply, UniqueColumns.RowsValid, CapturedOnceSettled, TakesBack;
    if n == 0 {
      StartState(cfg, start, es);
    } else {
      var db := StateAt(cfg, start, es, n - 1);
      SettledMeansCapturedIff(cfg, start, es, n - 1);
      if CapturedOnceSettled(db.sales) {
        ValidAlways(cfg, start, es, n - 1);
        CapturedStepIff(cfg, db, es[n - 1]);
      }
      assert TakesBackAt(cfg, start, es, n - 1)
        <==> es[n - 1].action.Webhook? && TakesBack(db, es[n - 1].action.delivery);
      assert CapturedUpTo(cfg, start, es, n)
        <==> CapturedUpTo(cfg, start, es, n - 1) && CapturedOnceSettled(StateAt(cfg, start, es, n).sales);
    }
  }

  /** A late failure event: the order is settled, and its payment FAILED. */
  lemma FailureEventAfterSettlement(cfg: Config, db: Db, user: User, o: OrderId, p: PaymentId, rzPayment: string,
                                    year: int,
                                    d: Delivery, key: string, now: Time)
    requires UniqueColumns.RowsValid(db.sales) && Due(db.sales, user.id, o, p) && RowsReady(db, o, p, rzPayment, year)
    requires d.signatureOk && d.kind == PaymentFailed && d.paymentOrderId == db.sales.payments[p].rzOrderId
    requires IsKeyOf(key, d) && !(key in db.events && db.events[key])
    ensures var es := [PaymentEvent(user, o, rzPayment, true, year, now), Event(Action.Webhook(d), now)];
            var s := StateAt(cfg, db, es, 2).sales;
            && OutcomeAt(cfg, db, es, 0) == Ok(Settled) && OutcomeAt(cfg, db, es, 1) == Ok(EventProcessed)
            && o in s.orders && s.orders[o].status == ReadyForPickup
            && p in s.payments && s.payments[p].orderId == o && s.payments[p].status == Failed
  {
    hide Apply, SalesInv, UniqueColumns.PaymentColumnsUnique, RowsReady, IsKeyOf;
    var es := [PaymentEvent(user, o, rzPayment, true, year, now), Event(Action.Webhook(d), now)];
    assert StateAt(cfg, db, es, 0) == db;
    DuePayment(cfg, db, user, o, p, rzPayment, true, year, now);
    ValidAlways(cfg, db, es, 1);
    FirstDelivery(cfg, StateAt(cfg, db, es, 1), d, key, p, now);
  }
}
