/** L2 theorems about the life of an order: what a payment read earlier can still do to it. */
module LifecycleInFlight {
  import opened Rows
  import opened OrdersSpec
  import opened SalesTheory
  import opened SalesRuns
  import opened Lifecycle
  import opened Interleaved
  import opened SysView
  import opened SettlementOnce
  import Machine
  import WebhookSpec

  ghost predicate InFlight(calls: map<CallId, Call>, o: OrderId) {
    exists c :: IsTicketFor(calls, c, o)
  }

  /** Some payment can still settle the order: one in flight, or a new one. */
  ghost predicate CanBePaid(sys: Sys, o: OrderId) {
    && o in sys.db.sales.orders && !SettledStatus(sys.db.sales.orders[o].status)
    && (|| InFlight(sys.calls, o)
        || (sys.db.sales.orders[o].status == Held && HasPendingPayment(sys.db.sales.payments, o)))
  }

  /** The lifecycle at L2: as at L1, but an EXPIRED order can still be settled, and a COLLECTED one can go back one
      step. */
  predicate CanBecomeInFlight(a: OrderStatus, b: OrderStatus) {
    CanBecome(a, b) || (a == Expired && SettledStatus(b)) || (a == Collected && b == PickupInProgress)
  }

  // ---- one move ------------------------------------------------------------------------------------

  lemma UnsettledStatus(s: Sales, o: OrderId)
    requires SalesInv(s) && o in s.orders && !HasInvoice(s.invoices, o)
    ensures s.orders[o].status == Held || s.orders[o].status == Expired
  {
  }

  lemma InvoicedIsSettled(s: Sales, o: OrderId)
    requires SalesInv(s) && o in s.orders
    ensures HasInvoice(s.invoices, o) <==> SettledStatus(s.orders[o].status)
  {
  }

  /** Only what can be paid is settled, and it was HELD or EXPIRED. */
  lemma SettlesWhatCanBePaid(cfg: Config, sys: Sys, m: Move, now: Time, o: OrderId)
    requires SysInv(sys) && o in sys.db.sales.orders && SettlesOn(cfg, sys, m, now, o)
    ensures CanBePaid(sys, o)
    ensures sys.db.sales.orders[o].status == Held || sys.db.sales.orders[o].status == Expired
    ensures m.Atomic? ==> sys.db.sales.orders[o].status == Held
  {
    hide Machine.Apply, SalesInv, HasPendingPayment, HasInvoice, FinishPayment;
    if m.Atomic? {
      StatusStep(cfg, sys.db, Machine.Event(m.action, now), o);
    } else {
      var call := sys.calls[m.call];
      SettleOnce(sys.db.sales, sys.db.vehicles, call.ticket, call.user, m.rzPayment, m.signatureOk, m.year, now);
      UnsettledStatus(sys.db.sales, o);
      assert IsTicketFor(sys.calls, m.call, o);
    }
  }

  /** The order of a pickup in flight is settled. */
  lemma PickupWritesSettled(sys: Sys, m: Move, o: OrderId)
    requires SysInv(sys) && (ScansOn(sys, m, o) || CompletesOn(sys, m, o))
    ensures o in sys.db.sales.orders && SettledStatus(sys.db.sales.orders[o].status)
  {
    hide SalesInv, CallsSound, Invoiced;
    SoundAt(sys, m.call);
    InvoicedExists(sys.db.sales, o);
    SettledIsInvoiced(sys.db.sales, o);
  }

  /** The moves of a status at L2. EXPIRED is left exactly by the commit of a payment in flight, COLLECTED exactly by
      the write of a scan in flight. */
  lemma SysStatusStep(cfg: Config, sys: Sys, m: Move, now: Time, o: OrderId)
    requires SysInv(sys) && o in sys.db.sales.orders
    ensures o in Advance(cfg, sys, m, now).sys.db.sales.orders
    ensures var a, b := sys.db.sales.orders[o].status, Advance(cfg, sys, m, now).sys.db.sales.orders[o].status;
            && CanBecomeInFlight(a, b)
            && (SettlesOn(cfg, sys, m, now, o) ==> b == ReadyForPickup)
            && (!SettledStatus(a) && SettledStatus(b) ==> SettlesOn(cfg, sys, m, now, o))
            && (a == Held && b == Expired ==> m == Atomic(Machine.ExpireOverdueOrders))
            && (a == Expired ==> (b != Expired <==> m.CommitPayment? && SettlesOn(cfg, sys, m, now, o)))
            && (a == Collected ==> (b != Collected <==> ScansOn(sys, m, o)))
  {
    hide Advance, SysInv, HasPendingPayment;
    SysInvGives(sys);
    OrderRowsOfInv(sys.db.sales);
    SysOrderStep(cfg, sys, m, now, o);
    if ScansOn(sys, m, o) || CompletesOn(sys, m, o) {
      PickupWritesSettled(sys, m, o);
    }
    if SettlesOn(cfg, sys, m, now, o) {
      SettlesWhatCanBePaid(cfg, sys, m, now, o);
    }
  }

  /** A move keeps what is settled. */
  lemma SettledStaysSettled(cfg: Config, sys: Sys, m: Move, now: Time, o: OrderId)
    requires SysInv(sys) && o in sys.db.sales.orders && SettledStatus(sys.db.sales.orders[o].status)
    ensures o in Advance(cfg, sys, m, now).sys.db.sales.orders
    ensures SettledStatus(Advance(cfg, sys, m, now).sys.db.sales.orders[o].status)
  {
    hide Advance, SysInv, SettlesOn;
    SysStatusStep(cfg, sys, m, now, o);
  }

  lemma FreshTicketIsPayable(s: Sales, user: UserId, o: OrderId)
    requires SalesInv(s) && ReadForPayment(s.orders, s.payments, user, o).Success?
    requires ReadForPayment(s.orders, s.payments, user, o).value.PayDue?
    ensures o in s.orders && s.orders[o].status == Held && s.orders[o].buyer == user && HasPendingPayment(s.payments, o)
  {
    NoPendingOnSettled(s, o);
  }

  /** An order that can be paid after a move could be paid before it, unless the move is its checkout. */
  lemma CanBePaidBefore(cfg: Config, sys: Sys, m: Move, now: Time, o: OrderId)
    requires SysInv(sys) && o in sys.db.sales.orders && CanBePaid(Advance(cfg, sys, m, now).sys, o)
    ensures CanBePaid(sys, o)
  {
    hide Advance, SalesInv, HasPendingPayment, SoundMove, CallsSound;
    var next := Advance(cfg, sys, m, now).sys;
    AdvanceSound(cfg, sys, m, now);
    SoundMoveGives(sys.db.sales, next.db.sales);
    if SettledStatus(sys.db.sales.orders[o].status) {
      SettledStaysSettled(cfg, sys, m, now, o);
    }
    if InFlight(next.calls, o) {
      var c :| IsTicketFor(next.calls, c, o);
      TicketBefore(cfg, sys, m, now, c, o);
      if !IsTicketFor(sys.calls, c, o) {
        FreshTicketIsPayable(sys.db.sales, m.user.id, o);
      }
    } else {
      SysStatusStep(cfg, sys, m, now, o);
      if !HasPendingPayment(sys.db.sales.payments, o) {
        NoPendingPaymentPersists(sys.db.sales, next.db.sales, o);
      }
    }
  }

  // ---- what can be paid can be settled -----------------------------------------------------------------

  ghost function SettlingMove(sys: Sys, o: OrderId, rzPayment: string, year: int): Move
    requires CanBePaid(sys, o)
  {
    if InFlight(sys.calls, o) then
      var c :| IsTicketFor(sys.calls, c, o);
      CommitPayment(c, rzPayment, true, year)
    else
      Atomic(Machine.VerifyPayment(User(sys.db.sales.orders[o].buyer, Buyer, None), o, rzPayment, true, year))
  }

  /** The rows the settlement updates exist and its unique values are not taken. */
  ghost predicate RoomToSettle(db: Db, o: OrderId, rzPayment: string, year: int)
    requires o in db.sales.orders
  {
    && (db.sales.orders[o].vehicleId.Some? ==>
          db.sales.orders[o].vehicleId.value in db.vehicles && db.sales.orders[o].bankId in db.sales.banks)
    && (forall p | p in db.sales.payments :: db.sales.payments[p].rzPaymentId != Some(rzPayment))
    && (forall i | 0 <= i < |db.sales.invoices| :: db.sales.invoices[i].number != NumberFor(db.sales.orders[o], year))
  }

  lemma CommitSettles(sys: Sys, c: CallId, o: OrderId, rzPayment: string, year: int, now: Time)
    requires SysInv(sys) && IsTicketFor(sys.calls, c, o)
    requires o in sys.db.sales.orders && !HasInvoice(sys.db.sales.invoices, o)
    requires RoomToSettle(sys.db, o, rzPayment, year)
    ensures Commit(sys, c, rzPayment, true, year, now).out == Some(Ok(Settled))
  {
    hide SalesInv;
    var ticket := sys.calls[c].ticket;
    assert TicketOk(sys.db.sales, ticket);
    assert forall i :: 0 <= i < |sys.db.sales.invoices| ==> sys.db.sales.invoices[i].orderId != o;
    assert CanSettle(sys.db.sales, sys.db.vehicles, ticket, rzPayment, year);
  }

  lemma WholePayment(cfg: Config, db: Db, a: Machine.Action, now: Time)
    requires a.VerifyPayment?
    ensures Machine.Apply(cfg, db, Machine.Event(a, now)).out
         == VerifyPayment(db.sales, db.vehicles, a.user.id, a.order, a.rzPayment, a.signatureOk, a.year, now).out
  {
    hide VerifyPayment;
  }

  lemma CanBePaidSettles(cfg: Config, sys: Sys, o: OrderId, rzPayment: string, year: int, now: Time)
    requires SysInv(sys) && CanBePaid(sys, o) && RoomToSettle(sys.db, o, rzPayment, year)
    ensures SettlesOn(cfg, sys, SettlingMove(sys, o, rzPayment, year), now, o)
  {
    hide Machine.Apply, SalesInv, HasPendingPayment, CallsSound, Commit, HasInvoice;
    InvoicedIsSettled(sys.db.sales, o);
    var m := SettlingMove(sys, o, rzPayment, year);
    if InFlight(sys.calls, o) {
      CommitSettles(sys, m.call, o, rzPayment, year, now);
    } else {
      SettlesIffPayable(sys.db, sys.db.sales.orders[o].buyer, o, rzPayment, year, now);
      WholePayment(cfg, sys.db, m.action, now);
    }
  }

  // ---- runs ------------------------------------------------------------------------------------------------

  ghost function StatusAt(cfg: Config, start: Sys, ts: seq<Tick>, n: nat, o: OrderId): OrderStatus
    requires n <= |ts| && o in SysAt(cfg, start, ts, n).db.sales.orders
  {
    SysAt(cfg, start, ts, n).db.sales.orders[o].status
  }

  lemma {:induction false} NeverGoesBackInFlight(cfg: Config, start: Sys, ts: seq<Tick>, o: OrderId, m: nat, n: nat)
    requires SysInv(start) && m <= n <= |ts| && o in SysAt(cfg, start, ts, m).db.sales.orders
    ensures o in SysAt(cfg, start, ts, n).db.sales.orders
    ensures CanBecomeInFlight(StatusAt(cfg, start, ts, m, o), StatusAt(cfg, start, ts, n, o))
    decreases n
  {
    hide Advance, SysInv, SettlesOn;
    if m < n {
      NeverGoesBackInFlight(cfg, start, ts, o, m, n - 1);
      SysInvAlways(cfg, start, ts, n - 1);
      SysStatusStep(cfg, SysAt(cfg, start, ts, n - 1), ts[n - 1].move, ts[n - 1].now, o);
    }
  }

  /** Move i reads order o, HELD, for call c. */
  ghost predicate ReadsAt(cfg: Config, start: Sys, ts: seq<Tick>, i: nat, c: CallId, o: OrderId) {
    && i < |ts| && ts[i].move.ReadPayment? && ts[i].move.call == c && ts[i].move.order == o
    && o in SysAt(cfg, start, ts, i).db.sales.orders && StatusAt(cfg, start, ts, i, o) == Held
  }

  lemma {:induction false} TicketWasRead(cfg: Config, start: Sys, ts: seq<Tick>, n: nat, c: CallId, o: OrderId)
    requires SysInv(start) && n <= |ts| && c !in start.calls && IsTicketFor(SysAt(cfg, start, ts, n).calls, c, o)
    ensures exists i: nat :: i < n && ReadsAt(cfg, start, ts, i, c, o)
  {
    hide Advance, SysInv, ReadForPayment;
    if n > 0 {
      var sys := SysAt(cfg, start, ts, n - 1);
      TicketBefore(cfg, sys, ts[n - 1].move, ts[n - 1].now, c, o);
      if IsTicketFor(sys.calls, c, o) {
        TicketWasRead(cfg, start, ts, n - 1, c, o);
      } else {
        SysInvAlways(cfg, start, ts, n - 1);
        SysInvGives(sys);
        FreshTicketIsPayable(sys.db.sales, ts[n - 1].move.user.id, o);
        assert ReadsAt(cfg, start, ts, n - 1, c, o);
      }
    }
  }

  /** Move j is the sweep that expires order o. */
  ghost predicate ExpiresAt(cfg: Config, start: Sys, ts: seq<Tick>, j: nat, o: OrderId) {
    && j < |ts| && ts[j].move == Atomic(Machine.ExpireOverdueOrders)
    && o in SysAt(cfg, start, ts, j).db.sales.orders && o in SysAt(cfg, start, ts, j + 1).db.sales.orders
    && StatusAt(cfg, start, ts, j, o) == Held && StatusAt(cfg, start, ts, j + 1, o) == Expired
  }

  lemma {:induction false} ExpiredByASweep(cfg: Config, start: Sys, ts: seq<Tick>, i: nat, n: nat, o: OrderId)
    requires SysInv(start) && i <= n <= |ts|
    requires o in SysAt(cfg, start, ts, i).db.sales.orders && StatusAt(cfg, start, ts, i, o) == Held
    requires o in SysAt(cfg, start, ts, n).db.sales.orders && StatusAt(cfg, start, ts, n, o) == Expired
    ensures exists j: nat :: i <= j < n && ExpiresAt(cfg, start, ts, j, o)
    decreases n
  {
    hide Advance, SysInv, SettlesOn;
    NeverGoesBackInFlight(cfg, start, ts, o, i, n - 1);
    SysInvAlways(cfg, start, ts, n - 1);
    SysStatusStep(cfg, SysAt(cfg, start, ts, n - 1), ts[n - 1].move, ts[n - 1].now, o);
    if StatusAt(cfg, start, ts, n - 1, o) == Expired {
      ExpiredByASweep(cfg, start, ts, i, n - 1, o);
    } else {
      assert ExpiresAt(cfg, start, ts, n - 1, o);
    }
  }

  lemma ReadIsHeld(cfg: Config, start: Sys, ts: seq<Tick>, i: nat, c: CallId, o: OrderId)
    requires ReadsAt(cfg, start, ts, i, c, o)
    ensures i < |ts| && o in SysAt(cfg, start, ts, i).db.sales.orders && StatusAt(cfg, start, ts, i, o) == Held
  {
  }

  /** An order leaves EXPIRED exactly when a payment commits that had read it before the sweep expired it. */
  lemma ExpiredLeftByStaleCommit(cfg: Config, start: Sys, ts: seq<Tick>, n: nat, o: OrderId)
    requires SysInv(start) && start.calls == map[] && n < |ts|
    requires o in SysAt(cfg, start, ts, n).db.sales.orders && StatusAt(cfg, start, ts, n, o) == Expired
    ensures o in SysAt(cfg, start, ts, n + 1).db.sales.orders
    ensures StatusAt(cfg, start, ts, n + 1, o) != Expired
       <==> ts[n].move.CommitPayment? && SettlesAt(cfg, start, ts, n, o)
    ensures StatusAt(cfg, start, ts, n + 1, o) != Expired ==>
              && StatusAt(cfg, start, ts, n + 1, o) == ReadyForPickup
              && exists i: nat, j: nat ::
                   i <= j < n && ReadsAt(cfg, start, ts, i, ts[n].move.call, o) && ExpiresAt(cfg, start, ts, j, o)
  {
    var sys, m := SysAt(cfg, start, ts, n), ts[n].move;
    hide Advance, SysInv, ReadsAt, ExpiresAt;
    SysInvAlways(cfg, start, ts, n);
    SysStatusStep(cfg, sys, m, ts[n].now, o);
    if m.CommitPayment? && SettlesOn(cfg, sys, m, ts[n].now, o) {
      TicketWasRead(cfg, start, ts, n, m.call, o);
      var i: nat :| i < n && ReadsAt(cfg, start, ts, i, m.call, o);
      ReadIsHeld(cfg, start, ts, i, m.call, o);
      ExpiredByASweep(cfg, start, ts, i, n, o);
      var j: nat :| i <= j < n && ExpiresAt(cfg, start, ts, j, o);
    }
  }

  // ---- which orders are stranded ---------------------------------------------------------------------------

  lemma {:induction false} StrandedForeverInFlight(cfg: Config, start: Sys, ts: seq<Tick>, n: nat, o: OrderId)
    requires SysInv(start) && n <= |ts| && o in start.db.sales.orders
    requires !SettledStatus(start.db.sales.orders[o].status) && !CanBePaid(start, o)
    ensures o in SysAt(cfg, start, ts, n).db.sales.orders && !SettledStatus(StatusAt(cfg, start, ts, n, o))
    ensures !CanBePaid(SysAt(cfg, start, ts, n), o)
  {
    hide Advance, SysInv, SettlesOn;
    if n > 0 {
      var sys, m, now := SysAt(cfg, start, ts, n - 1), ts[n - 1].move, ts[n - 1].now;
      StrandedForeverInFlight(cfg, start, ts, n - 1, o);
      SysInvAlways(cfg, start, ts, n - 1);
      SysStatusStep(cfg, sys, m, now, o);
      if SettlesOn(cfg, sys, m, now, o) {
        SettlesWhatCanBePaid(cfg, sys, m, now, o);
      }
      if CanBePaid(Advance(cfg, sys, m, now).sys, o) {
        CanBePaidBefore(cfg, sys, m, now, o);
      }
    }
  }

  ghost predicate SettledBy(cfg: Config, start: Sys, ts: seq<Tick>, o: OrderId, since: Time) {
    && InTimeOrder(ts) && (forall k :: 0 <= k < |ts| ==> since <= ts[k].now)
    && o in SysAt(cfg, start, ts, |ts|).db.sales.orders && SettledStatus(StatusAt(cfg, start, ts, |ts|, o))
  }

  /** Some continuation, from this clock reading on, settles the order. */
  ghost predicate Settleable(cfg: Config, start: Sys, o: OrderId, since: Time) {
    exists ts: seq<Tick> :: SettledBy(cfg, start, ts, o, since)
  }

  /** An unsettled order can ever be settled if and only if it has a payment in flight, or is HELD with one pending. */
  lemma SettleableIffCanBePaid(cfg: Config, start: Sys, o: OrderId, rzPayment: string, year: int, now: Time)
    requires SysInv(start) && o in start.db.sales.orders && !SettledStatus(start.db.sales.orders[o].status)
    requires RoomToSettle(start.db, o, rzPayment, year)
    ensures Settleable(cfg, start, o, now) <==> CanBePaid(start, o)
  {
    hide Advance, SysInv, CanBePaid, RoomToSettle;
    if CanBePaid(start, o) {
      CanBePaidSettles(cfg, start, o, rzPayment, year, now);
      var ts := [Tick(SettlingMove(start, o, rzPayment, year), now)];
      assert SysAt(cfg, start, ts, 0) == start;
      SysStatusStep(cfg, start, ts[0].move, now, o);
      assert SettledBy(cfg, start, ts, o, now);
    } else if ts :| SettledBy(cfg, start, ts, o, now) {
      StrandedForeverInFlight(cfg, start, ts, |ts|, o);
    }
  }

  lemma AfterWebhook(cfg: Config, sys: Sys, d: WebhookSpec.Delivery, now: Time)
    ensures var after := Advance(cfg, sys, Atomic(Machine.Webhook(d)), now).sys;
            var rows := WebhookSpec.Webhook(sys.db.sales.payments, sys.db.events, d, now).rows;
            after == sys.(db := sys.db.(sales := sys.db.sales.(payments := rows.0), events := rows.1))
  {
    hide WebhookSpec.Webhook;
  }

  lemma CapturedLeavesRoom(db: Db, d: WebhookSpec.Delivery, now: Time, o: OrderId, rzPayment: string, year: int)
    requires o in db.sales.orders && RoomToSettle(db, o, rzPayment, year) && d.paymentEntityId != Some(rzPayment)
    requires d.kind == WebhookSpec.PaymentCaptured
    ensures var payments := WebhookSpec.Webhook(db.sales.payments, db.events, d, now).rows.0;
            forall q | q in payments :: payments[q].rzPaymentId != Some(rzPayment)
  {
  }

  /** After a `payment.captured` event for an unpaid order's payment, the order can ever be settled if and only if a
      payment call had already read it. */
  lemma CapturedWebhookStrandsUnlessRead(cfg: Config, start: Sys, d: WebhookSpec.Delivery, now: Time, p: PaymentId,
                                         rzPayment: string, year: int)
    requires SysInv(start) && p in start.db.sales.payments
    requires start.db.sales.payments[p].orderId in start.db.sales.orders
    requires start.db.sales.orders[start.db.sales.payments[p].orderId].status == Held
    requires d.signatureOk && d.kind == WebhookSpec.PaymentCaptured
    requires !WebhookSpec.Processed(start.db.events, WebhookSpec.EventKey(d))
    requires Truthy(d.paymentOrderId) && start.db.sales.payments[p].rzOrderId == d.paymentOrderId
    requires forall q | q in start.db.sales.payments && q != p ::
               start.db.sales.payments[q].rzOrderId != d.paymentOrderId
               && (d.paymentEntityId.Some? ==> start.db.sales.payments[q].rzPaymentId != d.paymentEntityId)
    requires d.paymentEntityId != Some(rzPayment)
    requires RoomToSettle(start.db, start.db.sales.payments[p].orderId, rzPayment, year)
    ensures var after := Advance(cfg, start, Atomic(Machine.Webhook(d)), now).sys;
            var o := start.db.sales.payments[p].orderId;
            Settleable(cfg, after, o, now) <==> InFlight(start.calls, o)
  {
    var m := Atomic(Machine.Webhook(d));
    var after := Advance(cfg, start, m, now).sys;
    var o := start.db.sales.payments[p].orderId;
    CapturedRowAfter(start.db, d, now, p);
    AfterWebhook(cfg, start, d, now);
    CapturedLeavesRoom(start.db, d, now, o, rzPayment, year);
    hide Advance, Machine.Apply, WebhookSpec.Webhook, SalesInv, CallsSound, RoomToSettle;
    AdvanceSound(cfg, start, m, now);
    OnlyPaymentCaptured(after.db.sales, p, o);
    SettleableIffCanBePaid(cfg, after, o, rzPayment, year, now);
  }
}
