/** L1 theorems about webhook deliveries: a replay is harmless wherever it arrives. */
module Replay {
  import opened Rows
  import opened Machine
  import opened Frames
  import opened WebhookSpec

  ghost predicate Handled(db: Db, e: Event) {
    e.action.Webhook? && e.action.delivery.signatureOk && Processed(db.events, EventKey(e.action.delivery))
  }

  /** A delivery whose event has been processed changes nothing at all. */
  lemma ReplayIsNoOp(cfg: Config, db: Db, e: Event)
    requires Handled(db, e)
    ensures Apply(cfg, db, e) == Step(db, Ok(EventDeduplicated))
  {
    hide Process;
    assert db == db.(sales := db.sales.(payments := db.sales.payments), events := db.events);
  }

  /** A delivery touches only payment and event rows; what it answers decides how. */
  lemma WebhookRows(cfg: Config, db: Db, e: Event)
    requires e.action.Webhook?
    ensures var s := Apply(cfg, db, e);
            var key := EventKey(e.action.delivery);
            && s.db == db.(sales := db.sales.(payments := s.db.sales.payments), events := s.db.events)
            && (s.out == Ok(EventProcessed) <==>
                  e.action.delivery.signatureOk && !Processed(db.events, key)
                      && Process(db.sales.payments, e.action.delivery, e.now).Success?)
            && (s.out == Ok(EventProcessed) ==>
                  s.db.events == db.events[key := true]
                      && s.db.sales.payments == Process(db.sales.payments, e.action.delivery, e.now).value)
            && (s.out == Ok(EventFailed) ==>
                  !Processed(db.events, key) && s.db.events == db.events[key := false]
                      && s.db.sales.payments == db.sales.payments)
            && (s.out != Ok(EventProcessed) && s.out != Ok(EventFailed) ==> s.db == db)
  {
    hide Process;
    assert db == db.(sales := db.sales.(payments := db.sales.payments), events := db.events);
  }

  /** No step takes a processed event back. */
  lemma ProcessedStays(cfg: Config, db: Db, e: Event, key: string)
    requires Processed(db.events, key)
    ensures Processed(Apply(cfg, db, e).db.events, key)
  {
    hide Apply, Serve;
    StepFrame(cfg, db, e);
    if e.action.Webhook? {
      WebhookRows(cfg, db, e);
    }
  }

  /** A delivery whose processing throws leaves every payment as it was, and stays open to a retry:
      the event counts as processed afterwards only if it did before. */
  lemma FailedDeliveryCanBeRetried(cfg: Config, db: Db, e: Event)
    requires e.action.Webhook? && Apply(cfg, db, e).out == Ok(EventFailed)
    ensures var after := Apply(cfg, db, e).db;
            && after.sales == db.sales
            && !Processed(after.events, EventKey(e.action.delivery))
            && forall key :: Processed(after.events, key) <==> Processed(db.events, key)
  {
    hide Process;
  }

  // ---- dropping replays ---------------------------------------------------------------------------------

  /** The run without the deliveries of events already processed when they arrive. */
  ghost function WithoutReplays(cfg: Config, start: Db, es: seq<Event>): seq<Event>
    decreases |es|
  {
    if es == [] then []
    else
      var init, last := es[..|es| - 1], es[|es| - 1];
      WithoutReplays(cfg, start, init) + if Handled(StateAt(cfg, start, es, |es| - 1), last) then [] else [last]
  }

  lemma StateAfter(cfg: Config, start: Db, es: seq<Event>, e: Event)
    ensures StateAt(cfg, start, es + [e], |es|) == StateAt(cfg, start, es, |es|)
    ensures StateAt(cfg, start, es + [e], |es| + 1) == Apply(cfg, StateAt(cfg, start, es, |es|), e).db
  {
    hide Apply;
    assert (es + [e])[..|es|] == es[..|es|];
    SamePrefix(cfg, start, es + [e], es, |es|);
  }

  /** Any run, whatever calls surround the deliveries, ends in the same database with its replays removed. */
  lemma {:induction false} ReplaysAreHarmless(cfg: Config, start: Db, es: seq<Event>)
    ensures StateAt(cfg, start, es, |es|)
         == StateAt(cfg, start, WithoutReplays(cfg, start, es), |WithoutReplays(cfg, start, es)|)
  {
    hide Apply, Handled;
    if es != [] {
      var init, last := es[..|es| - 1], es[|es| - 1];
      assert es == init + [last];
      ReplaysAreHarmless(cfg, start, init);
      StateAfter(cfg, start, init, last);
      StateAfter(cfg, start, WithoutReplays(cfg, start, init), last);
      assert WithoutReplays(cfg, start, init) + [] == WithoutReplays(cfg, start, init);
      if Handled(StateAt(cfg, start, es, |es| - 1), last) {
        ReplayIsNoOp(cfg, StateAt(cfg, start, init, |init|), last);
      }
    }
  }

  lemma {:induction false} ProcessedLater(cfg: Config, start: Db, es: seq<Event>, m: nat, n: nat, key: string)
    requires m <= n <= |es| && Processed(StateAt(cfg, start, es, m).events, key)
    ensures Processed(StateAt(cfg, start, es, n).events, key)
    decreases n
  {
    hide Apply;
    if m < n {
      ProcessedLater(cfg, start, es, m, n - 1, key);
      ProcessedStays(cfg, StateAt(cfg, start, es, n - 1), es[n - 1], key);
    }
  }

  /** After one successful delivery of an event every later delivery of it is such a replay. */
  lemma {:induction false} LaterDeliveriesAreReplays(cfg: Config, start: Db, es: seq<Event>, i: nat, j: nat)
    requires i < j < |es| && es[i].action.Webhook? && es[j].action.Webhook? && es[j].action.delivery.signatureOk
    requires OutcomeAt(cfg, start, es, i) == Ok(EventProcessed)
    requires EventKey(es[i].action.delivery) == EventKey(es[j].action.delivery)
    ensures Handled(StateAt(cfg, start, es, j), es[j])
  {
    hide Apply, EventKey;
    WebhookRows(cfg, StateAt(cfg, start, es, i), es[i]);
    ProcessedLater(cfg, start, es, i + 1, j, EventKey(es[i].action.delivery));
  }

  predicate OnlyDeliveries(es: seq<Event>) {
    forall k :: 0 <= k < |es| ==> es[k].action.Webhook?
  }

  /** Deliveries alone never change an order, an invoice, a bank, a vehicle, a lot or a bid. */
  lemma {:induction false} DeliveriesTouchPaymentsOnly(cfg: Config, start: Db, es: seq<Event>, n: nat)
    requires OnlyDeliveries(es) && n <= |es|
    ensures var db := StateAt(cfg, start, es, n);
            db == start.(sales := start.sales.(payments := db.sales.payments), events := db.events)
  {
    hide Apply;
    if n > 0 {
      DeliveriesTouchPaymentsOnly(cfg, start, es, n - 1);
      WebhookRows(cfg, StateAt(cfg, start, es, n - 1), es[n - 1]);
    }
  }

  // ---- which deliveries are dropped --------------------------------------------------------------------

  /** Delivery i of this key goes through, whatever its kind. */
  ghost predicate GoesThroughAt(cfg: Config, start: Db, es: seq<Event>, i: nat, key: string) {
    && i < |es| && es[i].action.Webhook? && EventKey(es[i].action.delivery) == key
    && OutcomeAt(cfg, start, es, i) == Ok(EventProcessed)
  }

  lemma ProcessedStep(cfg: Config, db: Db, e: Event, key: string)
    requires !Processed(db.events, key) && Processed(Apply(cfg, db, e).db.events, key)
    ensures e.action.Webhook? && EventKey(e.action.delivery) == key && Apply(cfg, db, e).out == Ok(EventProcessed)
  {
    hide Apply, EventKey;
    StepFrame(cfg, db, e);
    if e.action.Webhook? {
      WebhookRows(cfg, db, e);
    }
  }

  lemma {:induction false} ProcessedWentThrough(cfg: Config, start: Db, es: seq<Event>, n: nat, key: string)
    requires n <= |es| && !Processed(start.events, key) && Processed(StateAt(cfg, start, es, n).events, key)
    ensures exists i: nat :: i < n && GoesThroughAt(cfg, start, es, i, key)
  {
    hide Apply, EventKey;
    if Processed(StateAt(cfg, start, es, n - 1).events, key) {
      ProcessedWentThrough(cfg, start, es, n - 1, key);
    } else {
      ProcessedStep(cfg, StateAt(cfg, start, es, n - 1), es[n - 1], key);
      assert GoesThroughAt(cfg, start, es, n - 1, key);
    }
  }

  lemma DroppedIffHandled(cfg: Config, db: Db, e: Event)
    requires e.action.Webhook?
    ensures Apply(cfg, db, e).out == Ok(EventDeduplicated) <==> Handled(db, e)
  {
    hide Process, EventKey;
  }

  lemma WentThroughStays(cfg: Config, start: Db, es: seq<Event>, i: nat, j: nat, key: string)
    requires i < j <= |es| && GoesThroughAt(cfg, start, es, i, key)
    ensures Processed(StateAt(cfg, start, es, j).events, key)
  {
    hide Apply, EventKey;
    WebhookRows(cfg, StateAt(cfg, start, es, i), es[i]);
    ProcessedLater(cfg, start, es, i + 1, j, key);
  }

  /** A delivery is dropped if and only if an earlier one of the same key went through, of whatever kind: the key says
      nothing about the kind of event. */
  lemma DroppedIffKeyTaken(cfg: Config, start: Db, es: seq<Event>, j: nat)
    requires j < |es| && es[j].action.Webhook? && es[j].action.delivery.signatureOk
    requires !Processed(start.events, EventKey(es[j].action.delivery))
    ensures OutcomeAt(cfg, start, es, j) == Ok(EventDeduplicated)
       <==> exists i: nat :: i < j && GoesThroughAt(cfg, start, es, i, EventKey(es[j].action.delivery))
  {
    hide Apply, EventKey, GoesThroughAt;
    var key := EventKey(es[j].action.delivery);
    DroppedIffHandled(cfg, StateAt(cfg, start, es, j), es[j]);
    if Processed(StateAt(cfg, start, es, j).events, key) {
      ProcessedWentThrough(cfg, start, es, j, key);
    }
    if i: nat :| i < j && GoesThroughAt(cfg, start, es, i, key) {
      WentThroughStays(cfg, start, es, i, j, key);
    }
  }

  /** So without event ids any other event of a payment, once through, hides the payment's capture. */
  lemma OtherEventHidesCapture(cfg: Config, db: Db, other: Delivery, capture: Delivery, now: Time, later: Time)
    requires other.signatureOk && capture.signatureOk
    requires other.kind != PaymentCaptured && capture.kind == PaymentCaptured
    requires !Truthy(other.eventId) && !Truthy(capture.eventId)
    requires Truthy(capture.paymentEntityId) && other.paymentEntityId == capture.paymentEntityId
    requires !Processed(db.events, EventKey(other)) && Process(db.sales.payments, other, now).Success?
    ensures var after := Apply(cfg, db, Event(Webhook(other), now)).db;
            Apply(cfg, after, Event(Webhook(capture), later)) == Step(after, Ok(EventDeduplicated))
  {
    assert EventKey(other) == EventKey(capture);
    hide Apply, Process, EventKey;
    WebhookRows(cfg, db, Event(Webhook(other), now));
    ReplayIsNoOp(cfg, Apply(cfg, db, Event(Webhook(other), now)).db, Event(Webhook(capture), later));
  }
}
