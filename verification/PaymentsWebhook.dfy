/** src/modules/payments.webhook.controller.ts, writing the payment and event rows in place. */
module PaymentsWebhook {
  import opened Rows
  import opened Storage
  import WebhookSpec
  import SalesTheory
  import UniqueColumns

  class PaymentsWebhookController {
    const prisma: PrismaService

    constructor (prisma: PrismaService)
      ensures this.prisma == prisma
    {
      this.prisma := prisma;
    }

    method FindByRzOrder(rz: Option<string>) returns (found: Option<PaymentId>)
      requires prisma.Valid() && rz.Some?
      ensures found == WebhookSpec.FindByRzOrder(prisma.payments, rz)
    {
      hide SalesTheory.SalesInv;
      var rows := prisma.payments;
      if forall p | p in rows :: rows[p].rzOrderId != rz {
        return None;
      }
      var p :| p in rows && rows[p].rzOrderId == rz;
      assert WebhookSpec.HasRzOrder(rows, p, rz);
      return Some(p);
    }

    method FindByRzPayment(rz: Option<string>) returns (found: Option<PaymentId>)
      requires prisma.Valid() && rz.Some?
      ensures found == WebhookSpec.FindByRzPayment(prisma.payments, rz)
    {
      hide SalesTheory.SalesInv;
      var rows := prisma.payments;
      if forall p | p in rows :: rows[p].rzPaymentId != rz {
        return None;
      }
      var p :| p in rows && rows[p].rzPaymentId == rz;
      assert WebhookSpec.HasRzPayment(rows, p, rz);
      return Some(p);
    }

    /** False when the handler throws. */
    method Process(d: WebhookSpec.Delivery, now: Time) returns (ok: bool)
      requires prisma.Valid()
      modifies prisma`payments
      ensures match WebhookSpec.Process(old(prisma.payments), d, now)
              case Failure(_) => !ok && prisma.payments == old(prisma.payments)
              case Success(rows) => ok && prisma.payments == rows
    {
      hide SalesTheory.SalesInv, UniqueColumns.PaymentColumnsUnique;
      match d.kind
      case PaymentCaptured =>
        if !Truthy(d.paymentOrderId) {
          return true;
        }
        var payment := FindByRzOrder(d.paymentOrderId);
        if payment.None? {
          return true;
        }
        var row := prisma.payments[payment.value];
        if row.status == Captured {
          return true;
        }
        if d.paymentEntityId.Some? {
          if exists q | q in prisma.payments :: q != payment.value
              && prisma.payments[q].rzPaymentId == d.paymentEntityId {
            return false;
          }
          row := row.(rzPaymentId := d.paymentEntityId);
        }
        prisma.payments := prisma.payments[payment.value := row.(status := Captured, capturedAt := Some(now))];
        return true;
      case PaymentFailed =>
        if !Truthy(d.paymentOrderId) {
          return true;
        }
        var payment := FindByRzOrder(d.paymentOrderId);
        if payment.None? {
          return true;
        }
        prisma.payments := prisma.payments[payment.value := prisma.payments[payment.value].(status := Failed)];
        return true;
      case RefundProcessed =>
        if !Truthy(d.refundPaymentId) {
          return true;
        }
        var payment := FindByRzPayment(d.refundPaymentId);
        if payment.None? {
          return true;
        }
        if d.refundAmount.None? {
          return false;
        }
        prisma.payments := prisma.payments[payment.value := prisma.payments[payment.value].(
          status := Refunded, refundedAt := Some(now), refundAmount := d.refundAmount)];
        return true;
      case OtherEvent =>
        return true;
    }

    method Webhook(d: WebhookSpec.Delivery, now: Time) returns (out: Outcome)
      requires prisma.Valid()
      modifies prisma`payments, prisma`events
      ensures var w := WebhookSpec.Webhook(old(prisma.payments), old(prisma.events), d, now);
              out == w.out && (prisma.payments, prisma.events) == w.rows
    {
      hide SalesTheory.SalesInv, UniqueColumns.PaymentColumnsUnique, WebhookSpec.Process;
      if !d.signatureOk {
        return Err(BadRequest);
      }
      var key := WebhookSpec.EventKey(d);
      if key in prisma.events && prisma.events[key] {
        return Ok(EventDeduplicated);
      }
      if key !in prisma.events {
        prisma.events := prisma.events[key := false];
      }
      assert prisma.events == old(prisma.events)[key := false];
      var ok := Process(d, now);
      if !ok {
        return Ok(EventFailed);
      }
      prisma.events := prisma.events[key := true];
      assert prisma.events == old(prisma.events)[key := true];
      return Ok(EventProcessed);
    }
  }
}
