/** L1 theorems about the life of an order: it never goes back, what settles it, how it is handed over. */
module Lifecycle {
  import opened Rows
  import opened OrdersSpec
  import opened SalesTheory
  import opened SalesRuns
  import opened OrderView
  import opened Machine
  import WebhookSpec

  predicate CanBecome(a: OrderStatus, b: OrderStatus) {
    || a == b
    || (a == Held && (b == Expired || SettledStatus(b)))
    || (a == ReadyForPickup && (b == PickupInProgress || b == Collected))
    || (a == PickupInProgress && b == Collected)
  }

  /** The moves one step can make. */
  predicate NextStatus(a: OrderStatus, b: OrderStatus) {
    || a == b
    || (a == Held && (b == Expired || b == ReadyForPickup))
    || (a == ReadyForPickup && b == PickupInProgress)
    || (a == PickupInProgress && b == Collected)
  }

  lemma NoPendingOnSettled(s: Sales, o: OrderId)
    requires SalesInv(s) && o in s.orders && HasPendingPayment(s.payments, o)
    ensures !SettledStatus(s.orders[o].status)
  {
    var p :| IsPendingFor(s.payments, p, o);
  }

  lemma StatusStep(cfg: Config, db: Db, e: Event, o: OrderId)
    requires SalesInv(db.sales) && o in db.sales.orders
    ensures o in Apply(cfg, db, e).db.sales.orders
    ensures NextStatus(db.sales.orders[o].status, Apply(cfg, db, e).db.sales.orders[o].status)
    ensures Settles(e.action, Apply(cfg, db, e).out, o) ==>
              db.sales.orders[o].status == Held && HasPendingPayment(db.sales.payments, o)
    ensures db.sales.orders[o].status == Held && Apply(cfg, db, e).db.sales.orders[o].status == ReadyForPickup ==>
              Settles(e.action, Apply(cfg, db, e).out, o)
  {
    hide Apply, HasPendingPayment;
    OrderStep(cfg, db, e, o);
    if Settles(e.action, Apply(cfg, db, e).out, o) {
      NoPendingOnSettled(db.sales, o);
    }
  }

  /** Statuses only move HELD to EXPIRED, or HELD to READY to IN_PROGRESS to COLLECTED, over any stretch of any run. */
  lemma {:induction false} NeverGoesBack(cfg: Config, start: Db, es: seq<Event>, o: OrderId, m: nat, n: nat)
    requires SalesInv(start.sales) && m <= n <= |es| && o in StateAt(cfg, start, es, m).sales.orders
    ensures o in StateAt(cfg, start, es, n).sales.orders
    ensures CanBecome(StateAt(cfg, start, es, m).sales.orders[o].status,
        StateAt(cfg, start, es, n).sales.orders[o].status)
    decreases n
  {
    hide Apply, SalesInv;
    if m < n {
      NeverGoesBack(cfg, start, es, o, m, n - 1);
      SalesInvAlways(cfg, start, es, n - 1);
      StatusStep(cfg, StateAt(cfg, start, es, n - 1), es[n - 1], o);
    }
  }

  // ---- when a payment settles its order -----------------------------------------------------------

  /** The exact condition under which verifyPayment settles an order, all else being in place. */
  lemma SettlesIffPayable(db: Db, user: UserId, o: OrderId, rzPayment: string, year: int, now: Time)
    requires SalesInv(db.sales) && o in db.sales.orders && db.sales.orders[o].buyer == user
    requires db.sales.orders[o].vehicleId.Some? ==>
               db.sales.orders[o].vehicleId.value in db.vehicles && db.sales.orders[o].bankId in db.sales.banks
    requires forall p | p in db.sales.payments :: db.sales.payments[p].rzPaymentId != Some(rzPayment)
    requires forall i | 0 <= i < |db.sales.invoices| ::
        db.sales.invoices[i].number != NumberFor(db.sales.orders[o], year)
    ensures OrdersSpec.VerifyPayment(db.sales, db.vehicles, user, o, rzPayment, true, year, now).out == Ok(Settled)
       <==> db.sales.orders[o].status == Held && HasPendingPayment(db.sales.payments, o)
  {
    var s := db.sales;
    if HasPendingPayment(s.payments, o) {
      NoPendingOnSettled(s, o);
      if s.orders[o].status == Held {
        assert !HasInvoice(s.invoices, o);
        var p := ReadForPayment(s.orders, s.payments, user, o).value.paymentId;
        assert CanSettle(s, db.vehicles, PayDue(o, s.orders[o], p), rzPayment, year);
      }
    }
  }

  lemma NoPendingPaymentPersists(s: Sales, t: Sales, o: OrderId)
    requires SalesInv(s) && SalesInv(t) && Evolves(s, t) && o in s.orders && !HasPendingPayment(s.payments, o)
    ensures !HasPendingPayment(t.payments, o)
  {
    if HasPendingPayment(t.payments, o) {
      var p :| IsPendingFor(t.payments, p, o);
      var q :| PaysFor(s.payments, q, o);
      assert t.payments[q].orderId == o;
      assert IsPendingFor(s.payments, q, o);
    }
  }

  /** An unpaid order whose payment is no longer pending can never be settled. */
  lemma {:induction false} StrandedForever(cfg: Config, start: Db, es: seq<Event>, o: OrderId, n: nat)
    requires SalesInv(start.sales) && n <= |es| && o in start.sales.orders
    requires start.sales.orders[o].status == Held && !HasPendingPayment(start.sales.payments, o)
    ensures o in StateAt(cfg, start, es, n).sales.orders
    ensures var status := StateAt(cfg, start, es, n).sales.orders[o].status; status == Held || status == Expired
    ensures !HasPendingPayment(StateAt(cfg, start, es, n).sales.payments, o)
  {
    hide Apply, SalesInv, HasPendingPayment;
    if n > 0 {
      var db := StateAt(cfg, start, es, n - 1);
      StrandedForever(cfg, start, es, o, n - 1);
      SalesInvAlways(cfg, start, es, n - 1);
      StatusStep(cfg, db, es[n - 1], o);
      SalesStep(cfg, db, es[n - 1]);
      SoundMoveGives(db.sales, StateAt(cfg, start, es, n).sales);
      NoPendingPaymentPersists(db.sales, StateAt(cfg, start, es, n).sales, o);
    }
  }

  lemma CapturedRowAfter(db: Db, d: WebhookSpec.Delivery, now: Time, p: PaymentId)
    requires p in db.sales.payments && d.signatureOk && d.kind == WebhookSpec.PaymentCaptured
    requires !WebhookSpec.Processed(db.events, WebhookSpec.EventKey(d))
    requires Truthy(d.paymentOrderId) && db.sales.payments[p].rzOrderId == d.paymentOrderId
    requires forall q | q in db.sales.payments && q != p ::
               db.sales.payments[q].rzOrderId != d.paymentOrderId
               && (d.paymentEntityId.Some? ==> db.sales.payments[q].rzPaymentId != d.paymentEntityId)
    ensures var payments := WebhookSpec.Webhook(db.sales.payments, db.events, d, now).rows.0;
            p in payments && payments[p].status == Captured && payments[p].orderId == db.sales.payments[p].orderId
  {
    assert WebhookSpec.HasRzOrder(db.sales.payments, p, d.paymentOrderId);
  }

  lemma OnlyPaymentCaptured(s: Sales, p: PaymentId, o: OrderId)
    requires SalesInv(s) && p in s.payments && s.payments[p].orderId == o && s.payments[p].status == Captured
    ensures !HasPendingPayment(s.payments, o)
  {
  }

  /** A `payment.captured` event that reaches the row before verifyPayment does takes the order's only
      pending payment away: nothing that happens later settles the order. */
  lemma CapturedWebhookStrandsOrder(cfg: Config, start: Db, d: WebhookSpec.Delivery, now: Time, p: PaymentId,
                                    es: seq<Event>, n: nat)
    requires SalesInv(start.sales) && n <= |es| && p in start.sales.payments
    requires start.sales.orders[start.sales.payments[p].orderId].status == Held
    requires d.signatureOk && d.kind == WebhookSpec.PaymentCaptured
    requires !WebhookSpec.Processed(start.events, WebhookSpec.EventKey(d))
    requires Truthy(d.paymentOrderId) && start.sales.payments[p].rzOrderId == d.paymentOrderId
    requires forall q | q in start.sales.payments && q != p ::
               start.sales.payments[q].rzOrderId != d.paymentOrderId
               && (d.paymentEntityId.Some? ==> start.sales.payments[q].rzPaymentId != d.paymentEntityId)
    ensures var after := Apply(cfg, start, Event(Webhook(d), now)).db;
            var o := start.sales.payments[p].orderId;
            && p in after.sales.payments && after.sales.payments[p].status == Captured
            && o in StateAt(cfg, after, es, n).sales.orders
            && !SettledStatus(StateAt(cfg, after, es, n).sales.orders[o].status)
  {
    var e := Event(Webhook(d), now);
    var after := Apply(cfg, start, e).db;
    var o := start.sales.payments[p].orderId;
    CapturedRowAfter(start, d, now, p);
    assert after.sales
        == start.sales.(payments := WebhookSpec.Webhook(start.sales.payments, start.events, d, now).rows.0);
    hide Apply, WebhookSpec.Webhook;
    SalesStep(cfg, start, e);
    OnlyPaymentCaptured(after.sales, p, o);
    StrandedForever(cfg, after, es, o, n);
  }
}
