/** src/modules/orders.service.ts, writing the sale rows in place. A transaction works on
    copies of the tables and stores them back only when its last write went through. */
module OrdersModule {
  import opened Rows
  import opened Storage
  import Money
  import OrdersSpec
  import SalesTheory

  class OrdersService {
    const prisma: PrismaService
    const cfg: Config

    constructor (prisma: PrismaService, cfg: Config)
      ensures this.prisma == prisma && this.cfg == cfg
    {
      this.prisma, this.cfg := prisma, cfg;
    }

    method StartCheckout(user: User, id: VehicleId, ids: OrdersSpec.FreshIds, feeBp: int, gstBp: int, now: Time)
      returns (out: Outcome)
      modifies prisma`orders, prisma`payments
      ensures var w := OrdersSpec.StartCheckout(cfg, prisma.vehicles, old(prisma.orders), old(prisma.payments),
                                                user.id, id, ids, feeBp, gstBp, now);
              out == w.out && (prisma.orders, prisma.payments) == w.rows
    {
      if id !in prisma.vehicles {
        return Err(NotFound);
      }
      var vehicle := prisma.vehicles[id];
      var base := vehicle.auction.currentBid;
      if vehicle.saleType == BuyNow || vehicle.saleType == Hybrid {
        if vehicle.heldBy != Some(user.id) {
          return Err(Forbidden);
        }
        if vehicle.heldUntil.Some? && vehicle.heldUntil.value < now {
          return Err(Gone);
        }
        if vehicle.buyNowPrice.None? || vehicle.buyNowPrice.value == 0 {
          return Err(BadRequest);
        }
        base := vehicle.buyNowPrice.value;
      } else if vehicle.saleType == SaleType.Auction {
        if vehicle.auction.endAt.None? || vehicle.auction.endAt.value > now {
          return Err(BadRequest);
        }
        if vehicle.auction.currentBidder != Some(user.id) {
          return Err(Forbidden);
        }
      } else {
        return Err(BadRequest);
      }
      if OrdersSpec.HasOpenOrder(prisma.orders, id, user.id) {
        return Err(Conflict);
      }
      var totals := Money.ComputeOrderTotals(base, feeBp, gstBp);
      var heldUntil := now + cfg.holdMs;
      if vehicle.heldUntil.Some? {
        heldUntil := vehicle.heldUntil.value;
      }

      var orders, payments := prisma.orders, prisma.payments;
      if ids.order in orders || (exists o | o in orders :: orders[o].pass == ids.pass) {
        return Err(UniqueViolation);
      }
      orders := orders[ids.order := Order(
        user.id, vehicle.bankId, Some(id), vehicle.saleType, totals.base, totals.fee, totals.gst, totals.total,
        ids.pass, Held, Some(heldUntil), None, None, None, None, None, None)];
      if ids.rzOrder.None? {
        return Err(GatewayDown);
      }
      if ids.payment in payments || (exists p | p in payments :: payments[p].rzOrderId == ids.rzOrder) {
        return Err(UniqueViolation);
      }
      payments := payments[ids.payment := Payment(
        ids.order, totals.total, ids.rzOrder, None, Initiated, None, None, None)];
      prisma.orders, prisma.payments := orders, payments;
      return Ok(CheckedOut(ids.order, totals.total));
    }

    /** The row that was found is the one the specification reads. */
    lemma PendingIsUnique(user: User, id: OrderId, payment: PaymentId)
      requires prisma.Valid()
      requires id in prisma.orders && prisma.orders[id].buyer == user.id
      requires prisma.orders[id].status != Expired && prisma.orders[id].status != Paid
      requires prisma.orders[id].status != ReadyForPickup
      requires OrdersSpec.IsPendingFor(prisma.payments, payment, id)
      ensures OrdersSpec.ReadForPayment(prisma.orders, prisma.payments, user.id, id)
           == Success(OrdersSpec.PayDue(id, prisma.orders[id], payment))
    {
      hide SalesTheory.OrderRowsOk, SalesTheory.NothingPendingOnceSettled, SalesTheory.InvoicesMatch;
    }

    /** Payment, order, vehicle, bank, invoice, in that order; the first write that fails undoes the earlier ones. */
    method Settle(id: OrderId, order: Order, payment: PaymentId, user: User, rzPayment: string, year: int, now: Time)
      returns (out: Outcome)
      modifies prisma`vehicles, prisma`orders, prisma`payments, prisma`invoices, prisma`banks
      ensures var w :=
          OrdersSpec.Settle(old(prisma.SalesRows()), old(prisma.vehicles), OrdersSpec.PayDue(id, order, payment),
                                         user.id, rzPayment, year, now);
              out == w.out && (prisma.SalesRows(), prisma.vehicles) == w.rows
    {
      var payments, orders, vehicles := prisma.payments, prisma.orders, prisma.vehicles;
      var banks, invoices := prisma.banks, prisma.invoices;
      if payment !in payments {
        return Err(RecordMissing);
      }
      if exists q | q in payments :: q != payment && payments[q].rzPaymentId == Some(rzPayment) {
        return Err(UniqueViolation);
      }
      payments := payments[payment := payments[payment].(
        status := Captured, rzPaymentId := Some(rzPayment), capturedAt := Some(now))];
      if id !in orders {
        return Err(RecordMissing);
      }
      orders := orders[id := orders[id].(status := ReadyForPickup, paidAt := Some(now))];
      if order.vehicleId.Some? {
        var v := order.vehicleId.value;
        if v !in vehicles {
          return Err(RecordMissing);
        }
        vehicles := vehicles[v := vehicles[v].(
          status := Sold, soldTo := Some(user.id), soldAt := Some(now), soldPrice := Some(order.base),
          heldBy := None, heldUntil := None)];
        if order.bankId !in banks {
          return Err(RecordMissing);
        }
        var bank := banks[order.bankId];
        banks := banks[order.bankId := Bank(bank.vehiclesSold + 1, bank.totalRecovered + order.base)];
      }
      var number := InvoiceNumber(year, order.pass.last);
      if exists i | 0 <= i < |invoices| :: invoices[i].orderId == id || invoices[i].number == number {
        return Err(UniqueViolation);
      }
      invoices := invoices + [Invoice(id, number)];
      prisma.payments, prisma.orders, prisma.vehicles := payments, orders, vehicles;
      prisma.banks, prisma.invoices := banks, invoices;
      return Ok(Settled);
    }

    /** The only precondition used is that an order has one payment row, so that the row found is the one. */
    method VerifyPayment(user: User, id: OrderId, rzPayment: string, signatureOk: bool, year: int, now: Time)
      returns (out: Outcome)
      requires prisma.Valid()
      modifies prisma`vehicles, prisma`orders, prisma`payments, prisma`invoices, prisma`banks
      ensures var w :=
          OrdersSpec.VerifyPayment(old(prisma.SalesRows()), old(prisma.vehicles), user.id, id, rzPayment, signatureOk,
              year, now);
              out == w.out && (prisma.SalesRows(), prisma.vehicles) == w.rows
    {
      if id !in prisma.orders {
        return Err(NotFound);
      }
      var order := prisma.orders[id];
      if order.buyer != user.id {
        return Err(Forbidden);
      }
      if order.status == Expired {
        return Err(Gone);
      }
      if order.status == Paid || order.status == ReadyForPickup {
        return Ok(AlreadyPaid);
      }
      var rows := prisma.payments;
      if forall p | p in rows :: !OrdersSpec.IsPendingFor(rows, p, id) {
        return Err(BadRequest);
      }
      var payment :| payment in rows && OrdersSpec.IsPendingFor(rows, payment, id);
      PendingIsUnique(user, id, payment);
      if !signatureOk {
        prisma.payments := prisma.payments[payment := prisma.payments[payment].(status := Failed)];
        return Err(BadRequest);
      }
      out := Settle(id, order, payment, user, rzPayment, year, now);
    }

    method ExpireOverdueOrders(now: Time) returns (out: Outcome)
      modifies prisma`orders
      ensures var w := OrdersSpec.ExpireOverdueOrders(old(prisma.orders), now);
              out == w.out && prisma.orders == w.rows
    {
      var rows := prisma.orders;
      var overdue := set id | id in rows && (rows[id].status == Held || rows[id].status == PaymentPending)
                             && rows[id].heldUntil.Some? && rows[id].heldUntil.value < now;
      prisma.orders := map id | id in rows ::
        if id in overdue then rows[id].(status := Expired, expiredAt := Some(now)) else rows[id];
      ghost var w := OrdersSpec.ExpireOverdueOrders(rows, now);
      assert overdue == set id | id in rows && OrdersSpec.Overdue(rows[id], now);
      assert forall id :: id in rows ==> prisma.orders[id] == w.rows[id];
      assert prisma.orders == w.rows;
      return Ok(Swept(|overdue|));
    }
  }
}
