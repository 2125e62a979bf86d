/** What one webhook delivery does (src/modules/payments.webhook.controller.ts). */
module WebhookSpec {
  import opened Rows
  import OrdersSpec

  datatype EventKind = PaymentCaptured | PaymentFailed | RefundProcessed | OtherEvent

  /** The fields of the body the handler looks at; None is a missing field. */
  datatype Delivery = Delivery(
    signatureOk: bool,
    kind: EventKind,
    eventId: Option<string>,
    paymentEntityId: Option<string>,
    paymentOrderId: Option<string>,
    refundPaymentId: Option<string>,
    refundAmount: Option<int>,
    json: string)

  /** `body.event_id || payment id || first 64 characters of the body`. */
  function EventKey(d: Delivery): string {
    if Truthy(d.eventId) then d.eventId.value
    else if Truthy(d.paymentEntityId) then d.paymentEntityId.value
    else if |d.json| <= 64 then d.json else d.json[..64]
  }

  predicate HasRzOrder(payments: Payments, p: PaymentId, rz: Option<string>) {
    p in payments && payments[p].rzOrderId == rz
  }

  predicate HasRzPayment(payments: Payments, p: PaymentId, rz: Option<string>) {
    p in payments && payments[p].rzPaymentId == rz
  }

  ghost function FindByRzOrder(payments: Payments, rz: Option<string>): Option<PaymentId> {
    if exists p :: HasRzOrder(payments, p, rz) then
      var p :| HasRzOrder(payments, p, rz);
      Some(p)
    else None
  }

  ghost function FindByRzPayment(payments: Payments, rz: Option<string>): Option<PaymentId> {
    if exists p :: HasRzPayment(payments, p, rz) then
      var p :| HasRzPayment(payments, p, rz);
      Some(p)
    else None
  }

  /** Processes one event; Failure is an exception, which leaves the rows alone. */
  ghost function Process(payments: Payments, d: Delivery, now: Time): Result<Payments, Error> {
    match d.kind
    case PaymentCaptured =>
      if !Truthy(d.paymentOrderId) then Success(payments)
      else (match FindByRzOrder(payments, d.paymentOrderId)
        case None => Success(payments)
        case Some(p) =>
          if payments[p].status == Captured then Success(payments)
          else if d.paymentEntityId.Some? && !OrdersSpec.RzPaymentFree(payments, p, d.paymentEntityId.value)
              then Failure(UniqueViolation)
          else
            var rzPayment := if d.paymentEntityId.Some? then d.paymentEntityId else payments[p].rzPaymentId;
            Success(payments[p := payments[p].(status := Captured, rzPaymentId := rzPayment, capturedAt := Some(now))]))
    case PaymentFailed =>
      if !Truthy(d.paymentOrderId) then Success(payments)
      else (match FindByRzOrder(payments, d.paymentOrderId)
        case None => Success(payments)
        case Some(p) => Success(payments[p := payments[p].(status := Failed)]))
    case RefundProcessed =>
      if !Truthy(d.refundPaymentId) then Success(payments)
      else (match FindByRzPayment(payments, d.refundPaymentId)
        case None => Success(payments)
        case Some(p) =>
          // BigInt(undefined) throws
          if d.refundAmount.None? then Failure(BadRequest)
          else Success(payments[p :=
              payments[p].(status := Refunded, refundedAt := Some(now), refundAmount := d.refundAmount)]))
    case OtherEvent => Success(payments)
  }

  predicate Processed(events: Events, key: string) {
    key in events && events[key]
  }

  ghost function Webhook(payments: Payments, events: Events, d: Delivery, now: Time): Write<(Payments, Events)> {
    if !d.signatureOk then Write((payments, events), Err(BadRequest))
    else
      var key := EventKey(d);
      if Processed(events, key) then Write((payments, events), Ok(EventDeduplicated))
      else match Process(payments, d, now)
        case Failure(_) => Write((payments, events[key := false]), Ok(EventFailed))
        case Success(rows) => Write((rows, events[key := true]), Ok(EventProcessed))
  }
}
