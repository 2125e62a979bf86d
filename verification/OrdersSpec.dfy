/** What one call of startCheckout, verifyPayment or expireOverdueOrders does (src/modules/orders.service.ts). */
module OrdersSpec {
  import opened Rows
  import Money

  /** The identifiers a checkout draws; `rzOrder` is None when the gateway call fails. */
  datatype FreshIds = FreshIds(order: OrderId, pass: Pass, payment: PaymentId, rzOrder: Option<string>)

  // ---- startCheckout ------------------------------------------------------------

  /** Who may buy, and at what base price. */
  function Entitlement(v: Vehicle, user: UserId, now: Time): Result<int, Error> {
    match v.saleType
    case BuyNow | Hybrid =>
      if v.heldBy != Some(user) then Failure(Forbidden)
      else if v.heldUntil.Some? && v.heldUntil.value < now then Failure(Gone)
      else if v.buyNowPrice.None? || v.buyNowPrice.value == 0 then Failure(BadRequest)
      else Success(v.buyNowPrice.value)
    case Auction =>
      if v.auction.endAt.None? || v.auction.endAt.value > now then Failure(BadRequest)
      else if v.auction.currentBidder != Some(user) then Failure(Forbidden)
      else Success(v.auction.currentBid)
    case LotSale => Failure(BadRequest)
  }

  predicate BlocksCheckout(s: OrderStatus) {
    s == Held || s == PaymentPending || s == Paid || s == ReadyForPickup
  }

  predicate HasOpenOrder(orders: Orders, id: VehicleId, user: UserId) {
    exists o | o in orders :: orders[o].vehicleId == Some(id) && orders[o].buyer == user
        && BlocksCheckout(orders[o].status)
  }

  /** No unique column of the new order row is already taken. */
  predicate OrderIdsFree(orders: Orders, ids: FreshIds) {
    ids.order !in orders && forall o | o in orders :: orders[o].pass != ids.pass
  }

  /** No unique column of the new payment row is already taken. */
  predicate PaymentIdsFree(payments: Payments, ids: FreshIds) {
    ids.payment !in payments && forall p | p in payments :: payments[p].rzOrderId != ids.rzOrder
  }

  predicate IdsFree(orders: Orders, payments: Payments, ids: FreshIds) {
    OrderIdsFree(orders, ids) && PaymentIdsFree(payments, ids)
  }

  function NewOrder(cfg: Config, v: Vehicle, user: UserId, id: VehicleId, totals: Money.OrderTotals, pass: Pass,
                    now: Time): Order {
    var until := if v.heldUntil.Some? then v.heldUntil.value else now + cfg.holdMs;
    Order(user, v.bankId, Some(id), v.saleType, totals.base, totals.fee, totals.gst, totals.total, pass,
          Held, Some(until), None, None, None, None, None, None)
  }

  function NewPayment(order: OrderId, amount: int, rzOrder: Option<string>): Payment {
    Payment(order, amount, rzOrder, None, Initiated, None, None, None)
  }

  function StartCheckout(cfg: Config, vehicles: Vehicles, orders: Orders, payments: Payments,
                         user: UserId, id: VehicleId, ids: FreshIds, feeBp: int, gstBp: int, now: Time)
    : Write<(Orders, Payments)>
  {
    if id !in vehicles then Write((orders, payments), Err(NotFound))
    else
      var v := vehicles[id];
      match Entitlement(v, user, now)
      case Failure(e) => Write((orders, payments), Err(e))
      case Success(base) =>
        if HasOpenOrder(orders, id, user) then Write((orders, payments), Err(Conflict))
        else if !OrderIdsFree(orders, ids) then Write((orders, payments), Err(UniqueViolation))
        else if ids.rzOrder.None? then Write((orders, payments), Err(GatewayDown))
        else if !PaymentIdsFree(payments, ids) then Write((orders, payments), Err(UniqueViolation))
        else
          var totals := Money.ComputeOrderTotals(base, feeBp, gstBp);
          Write((orders[ids.order := NewOrder(cfg, v, user, id, totals, ids.pass, now)],
                 payments[ids.payment := NewPayment(ids.order, totals.total, ids.rzOrder)]),
                Ok(CheckedOut(ids.order, totals.total)))
  }

  // ---- verifyPayment --------------------------------------------------------------

  /** What verifyPayment remembers from its read, taken outside the transaction. */
  datatype Ticket = NothingDue | PayDue(orderId: OrderId, order: Order, paymentId: PaymentId)

  predicate Pending(p: Payment) {
    Truthy(p.rzOrderId) && (p.status == Initiated || p.status == Authorized)
  }

  predicate IsPendingFor(payments: Payments, p: PaymentId, o: OrderId) {
    p in payments && payments[p].orderId == o && Pending(payments[p])
  }

  ghost predicate HasPendingPayment(payments: Payments, o: OrderId) {
    exists p :: IsPendingFor(payments, p, o)
  }

  ghost function ReadForPayment(orders: Orders, payments: Payments, user: UserId, id: OrderId): Result<Ticket, Error> {
    if id !in orders then Failure(NotFound)
    else
      var order := orders[id];
      if order.buyer != user then Failure(Forbidden)
      else if order.status == Expired then Failure(Gone)
      else if order.status == Paid || order.status == ReadyForPickup then Success(NothingDue)
      else if HasPendingPayment(payments, id) then
        var p :| IsPendingFor(payments, p, id);
        Success(PayDue(id, order, p))
      else Failure(BadRequest)
  }

  function NumberFor(order: Order, year: int): InvoiceNumber {
    InvoiceNumber(year, order.pass.last)
  }

  predicate InvoiceFree(invoices: seq<Invoice>, id: OrderId, number: InvoiceNumber) {
    forall i | 0 <= i < |invoices| :: invoices[i].orderId != id && invoices[i].number != number
  }

  predicate RzPaymentFree(payments: Payments, p: PaymentId, rzPayment: string) {
    forall q | q in payments && q != p :: payments[q].rzPaymentId != Some(rzPayment)
  }

  function SoldTo(v: Vehicle, user: UserId, base: int, now: Time): Vehicle {
    v.(status := Sold, soldTo := Some(user), soldAt := Some(now), soldPrice := Some(base), heldBy := None,
        heldUntil := None)
  }

  function Credited(b: Bank, base: int): Bank {
    Bank(b.vehiclesSold + 1, b.totalRecovered + base)
  }

  function CapturedRow(p: Payment, rzPayment: string, now: Time): Payment {
    p.(status := Captured, rzPaymentId := Some(rzPayment), capturedAt := Some(now))
  }

  /** Every row the transaction updates exists and no unique column clashes. */
  predicate CanSettle(sales: Sales, vehicles: Vehicles, ticket: Ticket, rzPayment: string, year: int)
    requires ticket.PayDue?
  {
    && ticket.paymentId in sales.payments
    && RzPaymentFree(sales.payments, ticket.paymentId, rzPayment)
    && ticket.orderId in sales.orders
    && (ticket.order.vehicleId.Some? ==> ticket.order.vehicleId.value in vehicles && ticket.order.bankId in sales.banks)
    && InvoiceFree(sales.invoices, ticket.orderId, NumberFor(ticket.order, year))
  }

  /** The first write of the transaction that cannot be made. */
  function SettleRefusal(sales: Sales, vehicles: Vehicles, ticket: Ticket, rzPayment: string): Error
    requires ticket.PayDue?
  {
    if ticket.paymentId !in sales.payments then RecordMissing
    else if !RzPaymentFree(sales.payments, ticket.paymentId, rzPayment) then UniqueViolation
    else if ticket.orderId !in sales.orders then RecordMissing
    else if ticket.order.vehicleId.Some?
        && (ticket.order.vehicleId.value !in vehicles || ticket.order.bankId !in sales.banks) then RecordMissing
    else UniqueViolation
  }

  function SettledSales(sales: Sales, ticket: Ticket, rzPayment: string, year: int, now: Time): Sales
    requires ticket.PayDue? && ticket.paymentId in sales.payments && ticket.orderId in sales.orders
    requires ticket.order.vehicleId.Some? ==> ticket.order.bankId in sales.banks
  {
    Sales(
      sales.orders[ticket.orderId := sales.orders[ticket.orderId].(status := ReadyForPickup, paidAt := Some(now))],
      sales.payments[ticket.paymentId := CapturedRow(sales.payments[ticket.paymentId], rzPayment, now)],
      sales.invoices + [Invoice(ticket.orderId, NumberFor(ticket.order, year))],
      if ticket.order.vehicleId.None? then sales.banks
      else sales.banks[ticket.order.bankId := Credited(sales.banks[ticket.order.bankId], ticket.order.base)])
  }

  /** The settlement transaction, all or nothing. */
  function Settle(sales: Sales, vehicles: Vehicles, ticket: Ticket, user: UserId, rzPayment: string, year: int,
                  now: Time)
    : Write<(Sales, Vehicles)>
    requires ticket.PayDue?
  {
    if !CanSettle(sales, vehicles, ticket, rzPayment, year)
        then Write((sales, vehicles), Err(SettleRefusal(sales, vehicles, ticket, rzPayment)))
    else
      Write((SettledSales(sales, ticket, rzPayment, year, now),
             match ticket.order.vehicleId
             case None => vehicles
             case Some(v) => vehicles[v := SoldTo(vehicles[v], user, ticket.order.base, now)]),
            Ok(Settled))
  }

  /** A bad signature fails the payment row it was read for. */
  function FailPayment(payments: Payments, p: PaymentId): Payments {
    if p in payments then payments[p := payments[p].(status := Failed)] else payments
  }

  /** Everything verifyPayment does after its read. */
  function FinishPayment(sales: Sales, vehicles: Vehicles, ticket: Ticket, user: UserId,
                         rzPayment: string, signatureOk: bool, year: int, now: Time)
    : Write<(Sales, Vehicles)>
  {
    match ticket
    case NothingDue => Write((sales, vehicles), Ok(AlreadyPaid))
    case PayDue(_, _, p) =>
      if !signatureOk then Write((sales.(payments := FailPayment(sales.payments, p)), vehicles), Err(BadRequest))
      else Settle(sales, vehicles, ticket, user, rzPayment, year, now)
  }

  ghost function VerifyPayment(sales: Sales, vehicles: Vehicles, user: UserId, id: OrderId,
                               rzPayment: string, signatureOk: bool, year: int, now: Time)
    : Write<(Sales, Vehicles)>
  {
    match ReadForPayment(sales.orders, sales.payments, user, id)
    case Failure(e) => Write((sales, vehicles), Err(e))
    case Success(ticket) => FinishPayment(sales, vehicles, ticket, user, rzPayment, signatureOk, year, now)
  }

  // ---- expireOverdueOrders -----------------------------------------------------------

  predicate Overdue(o: Order, now: Time) {
    (o.status == Held || o.status == PaymentPending) && o.heldUntil.Some? && o.heldUntil.value < now
  }

  function ExpiredRow(o: Order, now: Time): Order {
    o.(status := Expired, expiredAt := Some(now))
  }

  function ExpireOverdueOrders(orders: Orders, now: Time): Write<Orders> {
    var overdue := set id | id in orders && Overdue(orders[id], now);
    Write(map id | id in orders :: if id in overdue then ExpiredRow(orders[id], now)
        else orders[id], Ok(Swept(|overdue|)))
  }
}
