/** L1: what a webhook delivery writes for each kind of event, in row columns. */
module WebhookOutcomes {
  import opened Rows
  import opened Machine
  import opened WebhookSpec
  import UniqueColumns

  predicate Given(s: Option<string>) {
    s.Some? && s.value != ""
  }

  /** The event id, else the payment's id, else the first 64 characters of the body. */
  predicate IsKeyOf(key: string, d: Delivery) {
    if Given(d.eventId) then Some(key) == d.eventId
    else if Given(d.paymentEntityId) then Some(key) == d.paymentEntityId
    else key <= d.json && |key| == if |d.json| < 64 then |d.json| else 64
  }

  /** The payment row the event is about: by order id, or by payment id for a refund. */
  predicate IsAbout(payments: Payments, d: Delivery, p: PaymentId) {
    && p in payments
    && match d.kind
       case PaymentCaptured => Given(d.paymentOrderId) && payments[p].rzOrderId == d.paymentOrderId
       case PaymentFailed => Given(d.paymentOrderId) && payments[p].rzOrderId == d.paymentOrderId
       case RefundProcessed => Given(d.refundPaymentId) && payments[p].rzPaymentId == d.refundPaymentId
       case OtherEvent => false
  }

  /** Another payment already has the event's payment id. */
  predicate IdTaken(payments: Payments, d: Delivery, p: PaymentId) {
    d.paymentEntityId.Some? && exists q | q in payments :: q != p && payments[q].rzPaymentId == d.paymentEntityId
  }

  /** The row's new columns, or None where the source throws. */
  function Noted(payments: Payments, d: Delivery, p: PaymentId, now: Time): Option<Payment>
    requires IsAbout(payments, d, p)
  {
    var row := payments[p];
    match d.kind
    case PaymentCaptured =>
      if row.status == Captured then Some(row)
      else if IdTaken(payments, d, p) then None
      else Some(row.(status := Captured, capturedAt := Some(now),
                     rzPaymentId := if d.paymentEntityId.Some? then d.paymentEntityId else row.rzPaymentId))
    case PaymentFailed => Some(row.(status := Failed))
    case RefundProcessed =>
      if d.refundAmount.None? then None
      else Some(row.(status := Refunded, refundedAt := Some(now), refundAmount := d.refundAmount))
  }

  /** A forged delivery, or one whose key has been processed, changes nothing. */
  lemma IgnoredDelivery(cfg: Config, db: Db, d: Delivery, key: string, now: Time)
    requires IsKeyOf(key, d) && (!d.signatureOk || (key in db.events && db.events[key]))
    ensures Apply(cfg, db, Event(Action.Webhook(d), now))
         == Step(db, if d.signatureOk then Ok(EventDeduplicated) else Err(BadRequest))
  {
    assert EventKey(d) == key;
  }

  lemma FoundByOrder(payments: Payments, p: PaymentId, rz: Option<string>)
    requires UniqueColumns.PaymentColumnsUnique(payments) && p in payments && payments[p].rzOrderId == rz && rz.Some?
    ensures FindByRzOrder(payments, rz) == Some(p)
  {
    assert HasRzOrder(payments, p, rz);
  }

  lemma FoundByPayment(payments: Payments, p: PaymentId, rz: Option<string>)
    requires UniqueColumns.PaymentColumnsUnique(payments) && p in payments && payments[p].rzPaymentId == rz && rz.Some?
    ensures FindByRzPayment(payments, rz) == Some(p)
  {
    assert HasRzPayment(payments, p, rz);
  }

  lemma ProcessedRow(payments: Payments, d: Delivery, p: PaymentId, now: Time)
    requires UniqueColumns.PaymentColumnsUnique(payments) && IsAbout(payments, d, p)
    ensures var row, after := Noted(payments, d, p, now), Process(payments, d, now);
            if row.Some? then after == Success(payments[p := row.value]) else after.Failure?
  {
    hide FindByRzOrder, FindByRzPayment, UniqueColumns.PaymentColumnsUnique;
    if d.kind == RefundProcessed {
      FoundByPayment(payments, p, d.refundPaymentId);
    } else {
      FoundByOrder(payments, p, d.paymentOrderId);
    }
    assert payments[p := payments[p]] == payments;
  }

  lemma NothingProcessed(payments: Payments, d: Delivery, now: Time)
    requires forall p :: !IsAbout(payments, d, p)
    ensures Process(payments, d, now) == Success(payments)
  {
    forall p | Given(d.paymentOrderId) && HasRzOrder(payments, p, d.paymentOrderId)
      ensures d.kind != PaymentCaptured && d.kind != PaymentFailed
    {
      assert !IsAbout(payments, d, p);
    }
    forall p | Given(d.refundPaymentId) && HasRzPayment(payments, p, d.refundPaymentId)
      ensures d.kind != RefundProcessed
    {
      assert !IsAbout(payments, d, p);
    }
  }

  /** The first delivery of an event about payment p: only that row and the event's flag change. */
  lemma FirstDelivery(cfg: Config, db: Db, d: Delivery, key: string, p: PaymentId, now: Time)
    requires UniqueColumns.PaymentColumnsUnique(db.sales.payments) && d.signatureOk && IsKeyOf(key, d)
    requires !(key in db.events && db.events[key]) && IsAbout(db.sales.payments, d, p)
    ensures var row := Noted(db.sales.payments, d, p, now);
            Apply(cfg, db, Event(Action.Webhook(d), now))
            == if row.Some? then
                 Step(db.(sales := db.sales.(payments := db.sales.payments[p := row.value]),
                          events := db.events[key := true]), Ok(EventProcessed))
               else Step(db.(events := db.events[key := false]), Ok(EventFailed))
  {
    assert EventKey(d) == key;
    hide Process, EventKey, IsKeyOf, Noted;
    ProcessedRow(db.sales.payments, d, p, now);
    assert db == db.(sales := db.sales.(payments := db.sales.payments));
  }

  /** The first delivery of an event about no payment: only the flag changes. */
  lemma UnrelatedDelivery(cfg: Config, db: Db, d: Delivery, key: string, now: Time)
    requires d.signatureOk && IsKeyOf(key, d) && !(key in db.events && db.events[key])
    requires forall p :: !IsAbout(db.sales.payments, d, p)
    ensures Apply(cfg, db, Event(Action.Webhook(d), now))
         == Step(db.(events := db.events[key := true]), Ok(EventProcessed))
  {
    assert EventKey(d) == key;
    hide Process, EventKey, IsKeyOf;
    NothingProcessed(db.sales.payments, d, now);
    assert db == db.(sales := db.sales.(payments := db.sales.payments));
  }

  /** Some key is the event's, and has not been processed. */
  ghost predicate FirstTime(events: Events, d: Delivery) {
    exists key :: IsKeyOf(key, d) && !(key in events && events[key])
  }

  lemma OneKey(d: Delivery, key: string)
    ensures IsKeyOf(EventKey(d), d)
    ensures IsKeyOf(key, d) ==> key == EventKey(d)
  {
  }

  lemma AboutExists(payments: Payments, d: Delivery, p: PaymentId)
    requires IsAbout(payments, d, p)
    ensures p in payments
  {
  }

  /** What a delivery does to the payment rows, whatever its kind. */
  lemma DeliveryOnPayments(cfg: Config, db: Db, d: Delivery, now: Time)
    requires UniqueColumns.PaymentColumnsUnique(db.sales.payments)
    ensures var w, payments := Apply(cfg, db, Event(Action.Webhook(d), now)), db.sales.payments;
            && w.db.sales == db.sales.(payments := w.db.sales.payments)
            && (forall p :: d.signatureOk && FirstTime(db.events, d) && IsAbout(payments, d, p) ==>
                  w.db.sales.payments
                  == if Noted(payments, d, p, now).Some? then payments[p := Noted(payments, d, p, now).value]
                      else payments)
            && ((!d.signatureOk || !FirstTime(db.events, d) || (forall p :: !IsAbout(payments, d, p))) ==>
                  w.db.sales.payments == payments)
  {
    hide Apply, IsKeyOf, EventKey, IsAbout, Noted, UniqueColumns.PaymentColumnsUnique;
    var key := EventKey(d);
    forall k ensures IsKeyOf(k, d) <==> k == key {
      OneKey(d, k);
    }
    if !d.signatureOk || (key in db.events && db.events[key]) {
      IgnoredDelivery(cfg, db, d, key, now);
    } else if p :| IsAbout(db.sales.payments, d, p) {
      forall q | IsAbout(db.sales.payments, d, q)
        ensures Apply(cfg, db, Event(Action.Webhook(d), now))
          == var row := Noted(db.sales.payments, d, q, now);
             if row.Some? then
               Step(db.(sales := db.sales.(payments := db.sales.payments[q := row.value]),
                        events := db.events[key := true]), Ok(EventProcessed))
             else Step(db.(events := db.events[key := false]), Ok(EventFailed))
      {
        FirstDelivery(cfg, db, d, key, q, now);
      }
      AboutExists(db.sales.payments, d, p);
    } else {
      UnrelatedDelivery(cfg, db, d, key, now);
    }
  }
}
