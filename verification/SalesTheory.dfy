/** What every writer of the order, payment, invoice and bank rows keeps, one lemma a writer.
    The lemmas speak of the rows alone, so they serve atomic and interleaved calls alike. */
module SalesTheory {
  import opened Rows
  import opened OrdersSpec
  import opened PickupSpec
  import opened WebhookSpec

  predicate SettledStatus(s: OrderStatus) {
    s == ReadyForPickup || s == PickupInProgress || s == Collected
  }

  /** No modelled call writes any other status. */
  predicate LifecycleStatus(s: OrderStatus) {
    s == Held || s == Expired || SettledStatus(s)
  }

  predicate HasInvoice(invoices: seq<Invoice>, o: OrderId) {
    exists i :: 0 <= i < |invoices| && invoices[i].orderId == o
  }

  ghost predicate OrderRowsOk(orders: Orders) {
    && (forall o :: o in orders ==>
          LifecycleStatus(orders[o].status) && orders[o].total == orders[o].base + orders[o].fee + orders[o].gst)
    && (forall o, q :: o in orders && q in orders && orders[o].pass == orders[q].pass ==> o == q)
  }

  predicate PaysFor(payments: Payments, p: PaymentId, o: OrderId) {
    p in payments && payments[p].orderId == o
  }

  /** Each order has exactly one payment row, which bills it in full. */
  ghost predicate PaymentRowsOk(orders: Orders, payments: Payments) {
    && (forall o :: o in orders ==> exists p :: PaysFor(payments, p, o))
    && (forall p :: p in payments ==>
       payments[p].orderId in orders && payments[p].amount == orders[payments[p].orderId].total)
    && (forall p, q :: p in payments && q in payments && payments[p].orderId == payments[q].orderId ==> p == q)
  }

  /** A settled order has nothing left to pay. */
  ghost predicate NothingPendingOnceSettled(orders: Orders, payments: Payments) {
    forall p :: p in payments && payments[p].orderId in orders && SettledStatus(orders[payments[p].orderId].status)
      ==> !Pending(payments[p])
  }

  /** An order has an invoice exactly when it is settled, and never two. */
  ghost predicate InvoicesMatch(orders: Orders, invoices: seq<Invoice>) {
    && (forall i :: 0 <= i < |invoices| ==> invoices[i].orderId in orders)
    && (forall i, j :: 0 <= i < j < |invoices| ==> invoices[i].orderId != invoices[j].orderId)
    && (forall o :: o in orders ==> (HasInvoice(invoices, o) <==> SettledStatus(orders[o].status)))
  }

  ghost predicate SalesInv(s: Sales) {
    && OrderRowsOk(s.orders)
    && PaymentRowsOk(s.orders, s.payments)
    && NothingPendingOnceSettled(s.orders, s.payments)
    && InvoicesMatch(s.orders, s.invoices)
  }

  lemma OrderRowsOfInv(s: Sales)
    requires SalesInv(s)
    ensures OrderRowsOk(s.orders)
  {
  }

  // ---- what never changes about a row -----------------------------------------------------

  predicate SameDeal(a: Order, b: Order) {
    && a.buyer == b.buyer && a.bankId == b.bankId && a.vehicleId == b.vehicleId && a.saleType == b.saleType
    && a.base == b.base && a.fee == b.fee && a.gst == b.gst && a.total == b.total && a.pass == b.pass
       && a.heldUntil == b.heldUntil
  }

  predicate SameBill(a: Payment, b: Payment) {
    a.orderId == b.orderId && a.amount == b.amount && a.rzOrderId == b.rzOrderId && (Pending(b) ==> Pending(a))
  }

  ghost predicate OrdersEvolve(a: Orders, b: Orders) {
    forall o :: o in a ==> o in b && SameDeal(a[o], b[o])
  }

  ghost predicate PaymentsEvolve(a: Payments, b: Payments) {
    forall p :: p in a ==> p in b && SameBill(a[p], b[p])
  }

  /** Rows are never deleted, deals and bills never change, a payment never becomes pending again. */
  ghost predicate Evolves(a: Sales, b: Sales) {
    && OrdersEvolve(a.orders, b.orders)
    && PaymentsEvolve(a.payments, b.payments)
    && a.invoices <= b.invoices
    && a.banks.Keys == b.banks.Keys
  }

  lemma EvolvesTransitive(a: Sales, b: Sales, c: Sales)
    requires Evolves(a, b) && Evolves(b, c)
    ensures Evolves(a, c)
  {
  }

  lemma NoChange(s: Sales)
    ensures Evolves(s, s)
  {
  }

  // ---- the components, one at a time ------------------------------------------------------

  /** Updating rows without touching deals or bills keeps the billing right. */
  lemma BillingPersists(orders: Orders, payments: Payments, orders': Orders, payments': Payments)
    requires PaymentRowsOk(orders, payments)
    requires OrdersEvolve(orders, orders') && orders'.Keys == orders.Keys
    requires PaymentsEvolve(payments, payments') && payments'.Keys == payments.Keys
    ensures PaymentRowsOk(orders', payments')
  {
    forall o | o in orders' ensures exists p :: PaysFor(payments', p, o) {
      var p :| PaysFor(payments, p, o);
      assert PaysFor(payments', p, o);
    }
  }

  lemma PassesPersist(orders: Orders, orders': Orders)
    requires OrderRowsOk(orders) && OrdersEvolve(orders, orders') && orders'.Keys == orders.Keys
    requires forall o :: o in orders' ==> LifecycleStatus(orders'[o].status)
    ensures OrderRowsOk(orders')
  {
  }

  /** A write to order rows that settles and unsettles nothing. */
  lemma OrderWritesKeep(s: Sales, orders: Orders)
    requires SalesInv(s) && OrdersEvolve(s.orders, orders) && orders.Keys == s.orders.Keys
    requires forall o :: o in orders ==> LifecycleStatus(orders[o].status)
    requires forall o :: o in orders ==> (SettledStatus(orders[o].status) <==> SettledStatus(s.orders[o].status))
    ensures SalesInv(s.(orders := orders)) && Evolves(s, s.(orders := orders))
  {
    hide PaymentRowsOk, OrderRowsOk;
    BillingPersists(s.orders, s.payments, orders, s.payments);
    PassesPersist(s.orders, orders);
  }

  /** A write to payment rows that makes none pending. */
  lemma PaymentWritesKeep(s: Sales, payments: Payments)
    requires SalesInv(s) && PaymentsEvolve(s.payments, payments) && payments.Keys == s.payments.Keys
    ensures SalesInv(s.(payments := payments)) && Evolves(s, s.(payments := payments))
  {
    hide PaymentRowsOk, OrderRowsOk, InvoicesMatch;
    BillingPersists(s.orders, s.payments, s.orders, payments);
  }

  // ---- the writers ---------------------------------------------------------------------------

  lemma NewBill(orders: Orders, payments: Payments, o: OrderId, order: Order, p: PaymentId, payment: Payment)
    requires PaymentRowsOk(orders, payments) && o !in orders && p !in payments
    requires payment.orderId == o && payment.amount == order.total
    ensures PaymentRowsOk(orders[o := order], payments[p := payment])
  {
    var payments' := payments[p := payment];
    assert PaysFor(payments', p, o);
    forall q | q in orders ensures exists r :: PaysFor(payments', r, q) {
      var r :| PaysFor(payments, r, q);
      assert PaysFor(payments', r, q);
    }
  }

  lemma BilledOrdersExist(s: Sales)
    requires PaymentRowsOk(s.orders, s.payments)
    ensures forall p :: p in s.payments ==> s.payments[p].orderId in s.orders
  {
  }

  lemma NewRowsKeep(s: Sales, o: OrderId, order: Order, p: PaymentId, payment: Payment)
    requires SalesInv(s) && o !in s.orders && p !in s.payments
    requires order.status == Held && order.total == order.base + order.fee + order.gst
    requires forall q | q in s.orders :: s.orders[q].pass != order.pass
    requires payment.orderId == o && payment.amount == order.total
    ensures var t := s.(orders := s.orders[o := order], payments := s.payments[p := payment]);
            SalesInv(t) && Evolves(s, t)
  {
    var t := s.(orders := s.orders[o := order], payments := s.payments[p := payment]);
    assert PaymentRowsOk(t.orders, t.payments) by { NewBill(s.orders, s.payments, o, order, p, payment); }
    hide PaymentRowsOk;
    assert NothingPendingOnceSettled(t.orders, t.payments) by { BilledOrdersExist(s); }
  }

  lemma CheckoutKeeps(cfg: Config, vehicles: Vehicles, s: Sales, user: UserId, id: VehicleId, ids: FreshIds,
                      feeBp: int, gstBp: int, now: Time)
    requires SalesInv(s)
    ensures var w := StartCheckout(cfg, vehicles, s.orders, s.payments, user, id, ids, feeBp, gstBp, now);
            var t := s.(orders := w.rows.0, payments := w.rows.1);
            SalesInv(t) && Evolves(s, t)
  {
    hide SalesInv, HasOpenOrder, Entitlement, Evolves;
    var w := StartCheckout(cfg, vehicles, s.orders, s.payments, user, id, ids, feeBp, gstBp, now);
    if w.out.Ok? {
      var order, payment := w.rows.0[ids.order], w.rows.1[ids.payment];
      NewRowsKeep(s, ids.order, order, ids.payment, payment);
    } else {
      NoChange(s);
      assert s == s.(orders := s.orders, payments := s.payments);
    }
  }

  lemma ExpiryKeeps(s: Sales, now: Time)
    requires SalesInv(s)
    ensures var t := s.(orders := ExpireOverdueOrders(s.orders, now).rows);
            SalesInv(t) && Evolves(s, t)
  {
    OrderWritesKeep(s, ExpireOverdueOrders(s.orders, now).rows);
  }

  lemma ScanKeeps(s: Sales, user: User, pass: Pass, otp: int, now: Time)
    requires SalesInv(s)
    ensures var t := s.(orders := Scan(s.orders, user, pass, otp, now).rows);
            SalesInv(t) && Evolves(s, t)
  {
    OrderWritesKeep(s, Scan(s.orders, user, pass, otp, now).rows);
  }

  lemma CompleteKeeps(s: Sales, user: User, id: OrderId, otp: int, now: Time)
    requires SalesInv(s)
    ensures var t := s.(orders := Complete(s.orders, user, id, otp, now).rows);
            SalesInv(t) && Evolves(s, t)
  {
    OrderWritesKeep(s, Complete(s.orders, user, id, otp, now).rows);
  }

  /** A webhook only ever moves a payment to CAPTURED, FAILED or REFUNDED. */
  lemma ProcessEvolves(payments: Payments, d: Delivery, now: Time)
    requires Process(payments, d, now).Success?
    ensures Process(payments, d, now).value.Keys == payments.Keys
    ensures PaymentsEvolve(payments, Process(payments, d, now).value)
  {
  }

  lemma WebhookKeeps(s: Sales, events: Events, d: Delivery, now: Time)
    requires SalesInv(s)
    ensures var t := s.(payments := Webhook(s.payments, events, d, now).rows.0);
            SalesInv(t) && Evolves(s, t)
  {
    hide Process;
    if Process(s.payments, d, now).Success? {
      ProcessEvolves(s.payments, d, now);
      PaymentWritesKeep(s, Process(s.payments, d, now).value);
    }
    assert s == s.(payments := s.payments);
  }

  // ---- settlement -----------------------------------------------------------------------------

  /** What stays true of a ticket however long ago it was read. */
  ghost predicate TicketOk(s: Sales, ticket: Ticket) {
    ticket.PayDue? ==>
      && ticket.orderId in s.orders && SameDeal(ticket.order, s.orders[ticket.orderId])
      && ticket.paymentId in s.payments && s.payments[ticket.paymentId].orderId == ticket.orderId
  }

  lemma TicketStaysOk(s: Sales, t: Sales, ticket: Ticket)
    requires TicketOk(s, ticket) && Evolves(s, t)
    ensures TicketOk(t, ticket)
  {
  }

  lemma TicketFresh(s: Sales, user: UserId, id: OrderId)
    requires ReadForPayment(s.orders, s.payments, user, id).Success?
    ensures TicketOk(s, ReadForPayment(s.orders, s.payments, user, id).value)
  {
  }

  lemma InvoiceIssued(orders: Orders, invoices: seq<Invoice>, o: OrderId, row: Order, number: InvoiceNumber)
    requires InvoicesMatch(orders, invoices) && o in orders && SettledStatus(row.status)
    requires !HasInvoice(invoices, o)
    ensures InvoicesMatch(orders[o := row], invoices + [Invoice(o, number)])
  {
    var longer := invoices + [Invoice(o, number)];
    forall q | q in orders[o := row] ensures HasInvoice(longer, q) <==> SettledStatus(orders[o := row][q].status) {
      if q == o {
        assert longer[|invoices|].orderId == o;
      } else if HasInvoice(invoices, q) {
        var i :| 0 <= i < |invoices| && invoices[i].orderId == q;
        assert longer[i].orderId == q;
      }
    }
  }

  lemma OnePayment(s: Sales, p: PaymentId)
    requires PaymentRowsOk(s.orders, s.payments) && p in s.payments
    ensures forall q :: q in s.payments && s.payments[q].orderId == s.payments[p].orderId ==> q == p
  {
  }

  lemma SettledSalesKeep(s: Sales, ticket: Ticket, rzPayment: string, year: int, now: Time)
    requires SalesInv(s) && ticket.PayDue? && TicketOk(s, ticket)
    requires ticket.order.vehicleId.Some? ==> ticket.order.bankId in s.banks
    requires InvoiceFree(s.invoices, ticket.orderId, NumberFor(ticket.order, year))
    ensures SalesInv(SettledSales(s, ticket, rzPayment, year, now))
    ensures Evolves(s, SettledSales(s, ticket, rzPayment, year, now))
  {
    var t := SettledSales(s, ticket, rzPayment, year, now);
    assert PaymentRowsOk(t.orders, t.payments) by {
      hide PaymentRowsOk;
      BillingPersists(s.orders, s.payments, t.orders, t.payments);
    }
    assert NothingPendingOnceSettled(t.orders, t.payments) by { OnePayment(s, ticket.paymentId); }
    hide PaymentRowsOk;
    assert OrderRowsOk(t.orders) by { PassesPersist(s.orders, t.orders); }
    assert InvoicesMatch(t.orders, t.invoices) by {
      InvoiceIssued(s.orders, s.invoices, ticket.orderId, t.orders[ticket.orderId], NumberFor(ticket.order, year));
    }
  }

  lemma FinishKeeps(s: Sales, vehicles: Vehicles, ticket: Ticket, user: UserId, rzPayment: string, signatureOk: bool,
                    year: int, now: Time)
    requires SalesInv(s) && TicketOk(s, ticket)
    ensures var t := FinishPayment(s, vehicles, ticket, user, rzPayment, signatureOk, year, now).rows.0;
            SalesInv(t) && Evolves(s, t)
  {
    hide SettledSales, SalesInv;
    if ticket.PayDue? {
      if !signatureOk {
        PaymentWritesKeep(s, FailPayment(s.payments, ticket.paymentId));
      } else if CanSettle(s, vehicles, ticket, rzPayment, year) {
        SettledSalesKeep(s, ticket, rzPayment, year, now);
      }
    }
  }

  /** A settlement succeeds only on an order without invoice, and leaves it with one. */
  lemma SettleOnce(s: Sales, vehicles: Vehicles, ticket: Ticket, user: UserId, rzPayment: string, signatureOk: bool,
                   year: int, now: Time)
    requires FinishPayment(s, vehicles, ticket, user, rzPayment, signatureOk, year, now).out == Ok(Settled)
    ensures ticket.PayDue? && signatureOk && !HasInvoice(s.invoices, ticket.orderId)
    ensures HasInvoice(FinishPayment(s, vehicles, ticket, user, rzPayment, signatureOk, year, now).rows.0.invoices,
        ticket.orderId)
  {
    var t := FinishPayment(s, vehicles, ticket, user, rzPayment, signatureOk, year, now).rows.0;
    assert t.invoices[|s.invoices|].orderId == ticket.orderId;
  }
}
