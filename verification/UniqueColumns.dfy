/** The unique columns of the payment table stay unique whatever call writes them (prisma/schema.prisma). */
module UniqueColumns {
  import opened Rows
  import opened Machine
  import opened Frames
  import SalesRuns
  import SalesTheory
  import OrdersSpec
  import WebhookSpec

  /** razorpayOrderId and razorpayPaymentId: no two rows carry the same value. */
  ghost predicate PaymentColumnsUnique(payments: Payments) {
    && (forall p, q :: p in payments && q in payments && p != q && payments[p].rzOrderId.Some? ==>
          payments[p].rzOrderId != payments[q].rzOrderId)
    && (forall p, q :: p in payments && q in payments && p != q && payments[p].rzPaymentId.Some? ==>
          payments[p].rzPaymentId != payments[q].rzPaymentId)
  }

  lemma CheckoutKeepsUnique(cfg: Config, vehicles: Vehicles, orders: Orders, payments: Payments,
                            user: UserId, id: VehicleId, ids: OrdersSpec.FreshIds, feeBp: int, gstBp: int, now: Time)
    requires PaymentColumnsUnique(payments)
    ensures PaymentColumnsUnique(OrdersSpec.StartCheckout(cfg, vehicles, orders, payments, user, id, ids, feeBp,
        gstBp, now).rows.1)
  {
    hide OrdersSpec.Entitlement, OrdersSpec.HasOpenOrder, OrdersSpec.OrderIdsFree;
  }

  lemma PaymentKeepsUnique(sales: Sales, vehicles: Vehicles, user: UserId, id: OrderId,
                           rzPayment: string, signatureOk: bool, year: int, now: Time)
    requires PaymentColumnsUnique(sales.payments)
    ensures PaymentColumnsUnique(OrdersSpec.VerifyPayment(sales, vehicles, user, id, rzPayment, signatureOk, year,
        now).rows.0.payments)
  {
    hide OrdersSpec.ReadForPayment, OrdersSpec.InvoiceFree;
  }

  lemma WebhookKeepsUnique(payments: Payments, events: Events, d: WebhookSpec.Delivery, now: Time)
    requires PaymentColumnsUnique(payments)
    ensures PaymentColumnsUnique(WebhookSpec.Webhook(payments, events, d, now).rows.0)
  {
    hide WebhookSpec.EventKey;
  }

  lemma StepKeepsUnique(cfg: Config, db: Db, e: Event)
    requires PaymentColumnsUnique(db.sales.payments)
    ensures PaymentColumnsUnique(Apply(cfg, db, e).db.sales.payments)
  {
    hide Apply, PaymentColumnsUnique, OrdersSpec.StartCheckout, OrdersSpec.VerifyPayment, WebhookSpec.Webhook;
    StepFrame(cfg, db, e);
    ApplyCases(cfg, db, e);
    match e.action
    case StartCheckout(user, id, ids, feeBp, gstBp) =>
      CheckoutKeepsUnique(cfg, db.vehicles, db.sales.orders, db.sales.payments, user.id, id, ids, feeBp, gstBp, e.now);
    case VerifyPayment(user, id, rzPayment, signatureOk, year) =>
      PaymentKeepsUnique(db.sales, db.vehicles, user.id, id, rzPayment, signatureOk, year, e.now);
    case Webhook(delivery) =>
      WebhookKeepsUnique(db.sales.payments, db.events, delivery, e.now);
    case _ =>
  }

  lemma {:induction false} ColumnsStayUnique(cfg: Config, start: Db, es: seq<Event>, n: nat)
    requires PaymentColumnsUnique(start.sales.payments) && n <= |es|
    ensures PaymentColumnsUnique(StateAt(cfg, start, es, n).sales.payments)
  {
    hide Apply, PaymentColumnsUnique;
    if n > 0 {
      ColumnsStayUnique(cfg, start, es, n - 1);
      StepKeepsUnique(cfg, StateAt(cfg, start, es, n - 1), es[n - 1]);
    }
  }

  /** Everything the rows of a sale promise between two calls. */
  ghost predicate RowsValid(s: Sales) {
    SalesTheory.SalesInv(s) && PaymentColumnsUnique(s.payments)
  }

  lemma SalesOfRows(s: Sales)
    requires RowsValid(s)
    ensures SalesTheory.SalesInv(s)
  {
  }

  lemma StepKeepsRows(cfg: Config, db: Db, e: Event)
    ensures RowsValid(db.sales) ==> RowsValid(Apply(cfg, db, e).db.sales)
  {
    hide Apply, PaymentColumnsUnique, SalesTheory.SalesInv, SalesRuns.SoundMove;
    if RowsValid(db.sales) {
      SalesRuns.SalesStep(cfg, db, e);
      SalesRuns.SoundMoveGives(db.sales, Apply(cfg, db, e).db.sales);
      StepKeepsUnique(cfg, db, e);
    }
  }
}
