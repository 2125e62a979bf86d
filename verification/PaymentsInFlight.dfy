/** L2: what the commit of a payment in flight writes, in row columns; and exactly when a settled order's payment is
    and stays CAPTURED. */
module PaymentsInFlight {
  import opened Rows
  import opened SalesTheory
  import opened Interleaved
  import opened SysView
  import opened SettlementOnce
  import opened LifecycleInFlight
  import opened PaymentOutcomes
  import OrdersSpec
  import Machine
  import CheckoutOutcomes
  import Frames
  import UniqueColumns
  import PickupSpec

  // ---- one commit ------------------------------------------------------------------------------------------

  /** The commit of a payment that was due when it was read: on the rows as they are now. */
  lemma CommitWrites(sys: Sys, c: CallId, o: OrderId, rzPayment: string, signatureOk: bool, year: int, now: Time)
    requires SysInv(sys) && IsTicketFor(sys.calls, c, o)
    ensures o in sys.db.sales.orders
    ensures var p, w := sys.calls[c].ticket.paymentId, Commit(sys, c, rzPayment, signatureOk, year, now);
            && p in sys.db.sales.payments && sys.db.sales.payments[p].orderId == o
            && w.sys.calls == sys.calls - {c}
            && if !signatureOk then
                 && w.out == Some(Err(BadRequest))
                 && w.sys.db == sys.db.(sales := sys.db.sales.(payments :=
                      sys.db.sales.payments[p := sys.db.sales.payments[p].(status := Failed)]))
               else if RowsReady(sys.db, o, p, rzPayment, year) && !HasInvoice(sys.db.sales.invoices, o) then
                 && w.out == Some(Ok(Settled))
                 && w.sys.db == SettledDb(sys.db, User(sys.calls[c].user, Buyer, None), o, p, rzPayment, year, now)
               else w.sys.db == sys.db && w.out.Some? && w.out.value.Err?
  {
    hide SalesInv;
    assert TicketOk(sys.db.sales, sys.calls[c].ticket);
    assert sys.db == sys.db.(sales := sys.db.sales, vehicles := sys.db.vehicles);
  }

  // ---- a settled order's payment ----------------------------------------------------------------------------

  predicate IsWebhook(m: Move) {
    m.Atomic? && m.action.Webhook?
  }

  /** The commit, with a bad signature, of a payment that had read order o. */
  predicate FailsOn(sys: Sys, m: Move, o: OrderId) {
    m.CommitPayment? && !m.signatureOk && IsTicketFor(sys.calls, m.call, o)
  }

  ghost predicate FailsSettled(sys: Sys, m: Move) {
    exists o :: FailsOn(sys, m, o) && o in sys.db.sales.orders && SettledStatus(sys.db.sales.orders[o].status)
  }

  /** The move is a delivery that takes a settled order's payment back. */
  ghost predicate Undoes(sys: Sys, m: Move) {
    IsWebhook(m) && TakesBack(sys.db, m.action.delivery)
  }

  lemma WholeCallKeepsCapturedIff(cfg: Config, sys: Sys, a: Machine.Action, now: Time)
    requires SysInv(sys) && CapturedOnceSettled(sys.db.sales)
    requires UniqueColumns.PaymentColumnsUnique(sys.db.sales.payments)
    ensures CapturedOnceSettled(Advance(cfg, sys, Atomic(a), now).sys.db.sales) <==> !Undoes(sys, Atomic(a))
  {
    hide Machine.Apply, SalesInv, CallsSound, CapturedOnceSettled, UniqueColumns.PaymentColumnsUnique, TakesBack;
    PaymentOutcomes.CapturedStepIff(cfg, sys.db, Machine.Event(a, now));
  }

  lemma OnePaymentOf(sys: Sys, p: PaymentId)
    requires SysInv(sys) && p in sys.db.sales.payments
    ensures var payments := sys.db.sales.payments;
            forall q :: q in payments && payments[q].orderId == payments[p].orderId ==> q == p
  {
    OnePayment(sys.db.sales, p);
  }

  lemma CommitKeepsCapturedIff(sys: Sys, c: CallId, rzPayment: string, signatureOk: bool, year: int, now: Time)
    requires SysInv(sys) && CapturedOnceSettled(sys.db.sales) && c in sys.calls
    ensures CapturedOnceSettled(Commit(sys, c, rzPayment, signatureOk, year, now).sys.db.sales)
       <==> !FailsSettled(sys, CommitPayment(c, rzPayment, signatureOk, year))
  {
    hide SysInv, RowsReady;
    var m, s := CommitPayment(c, rzPayment, signatureOk, year), sys.db.sales;
    if sys.calls[c].Paying? && sys.calls[c].ticket.PayDue? {
      var o, p := sys.calls[c].ticket.orderId, sys.calls[c].ticket.paymentId;
      CommitWrites(sys, c, o, rzPayment, signatureOk, year, now);
      OnePaymentOf(sys, p);
      hide Commit;
      assert FailsSettled(sys, m) <==> !signatureOk && SettledStatus(s.orders[o].status) by {
        assert FailsOn(sys, m, o) <==> !signatureOk;
      }
      if FailsSettled(sys, m) {
        var t := Commit(sys, c, rzPayment, signatureOk, year, now).sys.db.sales;
        assert p in t.payments && t.payments[p].status == Failed && t.payments[p].orderId == o;
      }
    }
  }

  lemma PickupKeepsCaptured(cfg: Config, sys: Sys, m: Move, now: Time)
    requires SysInv(sys) && CapturedOnceSettled(sys.db.sales) && (m.WriteScan? || m.WriteComplete?)
    ensures CapturedOnceSettled(Advance(cfg, sys, m, now).sys.db.sales)
  {
    hide SysInv, WholeCall, Commit;
    if m.call in sys.calls && (sys.calls[m.call].Scanning? || sys.calls[m.call].Completing?) {
      var o := if sys.calls[m.call].Scanning? then sys.calls[m.call].scanned else sys.calls[m.call].completed;
      if ScansOn(sys, m, o) || CompletesOn(sys, m, o) {
        PickupWritesSettled(sys, m, o);
      }
    }
  }

  /** One move leaves the payments of settled orders CAPTURED if and only if it is neither. */
  lemma CapturedMoveIff(cfg: Config, sys: Sys, m: Move, now: Time)
    requires SysInv(sys) && CapturedOnceSettled(sys.db.sales)
    requires UniqueColumns.PaymentColumnsUnique(sys.db.sales.payments)
    ensures CapturedOnceSettled(Advance(cfg, sys, m, now).sys.db.sales) <==> !FailsSettled(sys, m) && !Undoes(sys, m)
  {
    hide SysInv, CapturedOnceSettled, Commit, WholeCall, TakesBack, UniqueColumns.PaymentColumnsUnique;
    hide BeginPayment, FinishSweep, BeginVehicleBid, BeginLotBid, Swap, RecordRow, Extend, BeginScan, BeginComplete;
    hide BeginUpdate, BeginLot, FinishScan, FinishComplete, FinishUpdate, FinishLot;
    if m.Atomic? {
      WholeCallKeepsCapturedIff(cfg, sys, m.action, now);
    } else if m.CommitPayment? {
      if m.call in sys.calls {
        CommitKeepsCapturedIff(sys, m.call, m.rzPayment, m.signatureOk, m.year, now);
      }
    } else if m.WriteScan? || m.WriteComplete? {
      PickupKeepsCaptured(cfg, sys, m, now);
    } else {
      OtherMovesKeepSales(cfg, sys, m, now);
    }
  }

  // ---- the unique columns --------------------------------------------------------------------------------------

  lemma CommitKeepsUnique(sys: Sys, c: CallId, rzPayment: string, signatureOk: bool, year: int, now: Time)
    requires SysInv(sys) && UniqueColumns.PaymentColumnsUnique(sys.db.sales.payments) && c in sys.calls
    ensures UniqueColumns.PaymentColumnsUnique(Commit(sys, c, rzPayment, signatureOk, year, now).sys.db.sales.payments)
  {
    hide SysInv, RowsThere, NumberUnused, HasInvoice;
    if sys.calls[c].Paying? && sys.calls[c].ticket.PayDue? {
      CommitWrites(sys, c, sys.calls[c].ticket.orderId, rzPayment, signatureOk, year, now);
      hide Commit;
    }
  }

  lemma MoveKeepsUnique(cfg: Config, sys: Sys, m: Move, now: Time)
    requires SysInv(sys) && UniqueColumns.PaymentColumnsUnique(sys.db.sales.payments)
    ensures UniqueColumns.PaymentColumnsUnique(Advance(cfg, sys, m, now).sys.db.sales.payments)
  {
    hide SysInv, Machine.Apply, Commit, UniqueColumns.PaymentColumnsUnique, PickupSpec.ScannedRow;
    hide PickupSpec.CollectedRow, BeginPayment, FinishSweep, BeginVehicleBid, BeginLotBid, Swap, RecordRow, Extend;
    hide BeginScan, BeginComplete, BeginUpdate, BeginLot, FinishUpdate, FinishLot;
    if m.Atomic? {
      UniqueColumns.StepKeepsUnique(cfg, sys.db, Machine.Event(m.action, now));
    } else if m.CommitPayment? {
      if m.call in sys.calls {
        CommitKeepsUnique(sys, m.call, m.rzPayment, m.signatureOk, m.year, now);
      }
    } else if !m.WriteScan? && !m.WriteComplete? {
      OtherMovesKeepSales(cfg, sys, m, now);
    }
  }

  /** The gateway ids stay unique in every state of every interleaving. */
  lemma {:induction false} ColumnsStayUniqueInFlight(cfg: Config, start: Sys, ts: seq<Tick>, n: nat)
    requires SysInv(start) && UniqueColumns.PaymentColumnsUnique(start.db.sales.payments) && n <= |ts|
    ensures UniqueColumns.PaymentColumnsUnique(SysAt(cfg, start, ts, n).db.sales.payments)
  {
    hide Advance, SysInv, UniqueColumns.PaymentColumnsUnique;
    if n > 0 {
      ColumnsStayUniqueInFlight(cfg, start, ts, n - 1);
      SysInvAlways(cfg, start, ts, n - 1);
      MoveKeepsUnique(cfg, SysAt(cfg, start, ts, n - 1), ts[n - 1].move, ts[n - 1].now);
    }
  }

  // ---- runs ----------------------------------------------------------------------------------------------------

  ghost predicate CapturedThroughout(cfg: Config, start: Sys, ts: seq<Tick>, n: nat)
    requires n <= |ts|
  {
    forall k: nat :: k <= n ==> CapturedOnceSettled(SysAt(cfg, start, ts, k).db.sales)
  }

  /** Move k fails, or takes back, the payment of a settled order. */
  ghost predicate UncapturesAt(cfg: Config, start: Sys, ts: seq<Tick>, k: nat) {
    && k < |ts|
    && (FailsSettled(SysAt(cfg, start, ts, k), ts[k].move) || Undoes(SysAt(cfg, start, ts, k), ts[k].move))
  }

  /** Throughout an interleaving the payment of every settled order is CAPTURED if and only if no payment call commits
      a bad signature on an order that another call has settled since its read, and no delivery takes a payment back.
      */
  lemma {:induction false} SettledMeansCapturedInFlightIff(cfg: Config, start: Sys, ts: seq<Tick>, n: nat)
    requires SysInv(start) && UniqueColumns.PaymentColumnsUnique(start.db.sales.payments)
    requires CapturedOnceSettled(start.db.sales) && n <= |ts|
    ensures CapturedThroughout(cfg, start, ts, n) <==> forall k: nat :: k < n ==> !UncapturesAt(cfg, start, ts, k)
  {
    hide Advance, SysInv, CapturedOnceSettled, FailsSettled, Undoes, UniqueColumns.PaymentColumnsUnique;
    if n == 0 {
      FirstSys(cfg, start, ts);
    } else {
      var sys, m := SysAt(cfg, start, ts, n - 1), ts[n - 1].move;
      SettledMeansCapturedInFlightIff(cfg, start, ts, n - 1);
      if CapturedOnceSettled(sys.db.sales) {
        SysInvAlways(cfg, start, ts, n - 1);
        ColumnsStayUniqueInFlight(cfg, start, ts, n - 1);
        CapturedMoveIff(cfg, sys, m, ts[n - 1].now);
      }
      assert UncapturesAt(cfg, start, ts, n - 1) <==> FailsSettled(sys, m) || Undoes(sys, m);
      assert CapturedThroughout(cfg, start, ts, n)
        <==> CapturedThroughout(cfg, start, ts, n - 1) && CapturedOnceSettled(SysAt(cfg, start, ts, n).db.sales);
    }
  }

  // ---- every continuation ----------------------------------------------------------------------------------------

  /** p pays for the settled order o. */
  predicate PaysSettled(s: Sales, p: PaymentId, o: OrderId) {
    && p in s.payments && s.payments[p].orderId == o && o in s.orders && SettledStatus(s.orders[o].status)
  }

  lemma WholeCallOnSettled(cfg: Config, sys: Sys, a: Machine.Action, now: Time, p: PaymentId, o: OrderId)
    requires SysInv(sys) && PaysSettled(sys.db.sales, p, o) && !a.Webhook?
    ensures var t := Advance(cfg, sys, Atomic(a), now).sys.db.sales;
            p in t.payments && t.payments[p] == sys.db.sales.payments[p]
  {
    hide Machine.Apply, SalesInv, CallsSound, CheckoutOutcomes.InProgress, CheckoutOutcomes.Billed, RowsReady;
    var db, e := sys.db, Machine.Event(a, now);
    Frames.StepFrame(cfg, db, e);
    if a.VerifyPayment? {
      if q :| Due(db.sales, a.user.id, a.order, q) {
        DuePayment(cfg, db, a.user, a.order, q, a.rzPayment, a.signatureOk, a.year, now);
      } else {
        NothingDue(cfg, db, a.user, a.order, a.rzPayment, a.signatureOk, a.year, now);
      }
    } else if a.StartCheckout? {
      CheckoutOutcomes.CheckoutAcceptedIff(cfg, db, a.user, a.vehicle, a.ids, a.feeBp, a.gstBp, now);
      if Machine.Apply(cfg, db, e).out.Ok? {
        CheckoutOutcomes.AcceptedCheckoutWrites(cfg, db, a.user, a.vehicle, a.ids, a.feeBp, a.gstBp, now);
      } else {
        CheckoutOutcomes.RefusedCheckout(cfg, db, a.user, a.vehicle, a.ids, a.feeBp, a.gstBp, now);
      }
    }
  }

  lemma CommitOnSettled(sys: Sys, c: CallId, rzPayment: string, signatureOk: bool, year: int, now: Time, p: PaymentId,
                        o: OrderId)
    requires SysInv(sys) && PaysSettled(sys.db.sales, p, o) && c in sys.calls
    ensures var t := Commit(sys, c, rzPayment, signatureOk, year, now).sys.db.sales;
            && p in t.payments
            && t.payments[p] == if IsTicketFor(sys.calls, c, o) && !signatureOk
                                then sys.db.sales.payments[p].(status := Failed) else sys.db.sales.payments[p]
  {
    hide SysInv, RowsReady;
    if sys.calls[c].Paying? && sys.calls[c].ticket.PayDue? {
      CommitWrites(sys, c, sys.calls[c].ticket.orderId, rzPayment, signatureOk, year, now);
      OnePaymentOf(sys, p);
      SysInvGives(sys);
      InvoicedIsSettled(sys.db.sales, o);
      hide Commit;
    }
  }

  /** A move that is no webhook touches the payment of a settled order only by failing it. */
  lemma SettledPaymentMoves(cfg: Config, sys: Sys, m: Move, now: Time, p: PaymentId, o: OrderId)
    requires SysInv(sys) && PaysSettled(sys.db.sales, p, o) && !IsWebhook(m)
    ensures var t := Advance(cfg, sys, m, now).sys.db.sales;
            && p in t.payments
            && t.payments[p] == if FailsOn(sys, m, o) then sys.db.sales.payments[p].(status := Failed)
                                else sys.db.sales.payments[p]
  {
    hide SysInv, Commit, WholeCall;
    hide BeginPayment, FinishSweep, BeginVehicleBid, BeginLotBid, Swap, RecordRow, Extend, BeginScan, BeginComplete;
    hide BeginUpdate, BeginLot, FinishUpdate, FinishLot, PickupSpec.ScannedRow, PickupSpec.CollectedRow;
    if m.Atomic? {
      WholeCallOnSettled(cfg, sys, m.action, now, p, o);
    } else if m.CommitPayment? {
      if m.call in sys.calls {
        CommitOnSettled(sys, m.call, m.rzPayment, m.signatureOk, m.year, now, p, o);
      }
    } else if !m.WriteScan? && !m.WriteComplete? {
      OtherMovesKeepSales(cfg, sys, m, now);
    }
  }

  predicate NoWebhook(ts: seq<Tick>) {
    forall k :: 0 <= k < |ts| ==> !IsWebhook(ts[k].move)
  }

  lemma SettledNotRead(cfg: Config, sys: Sys, m: Move, now: Time, o: OrderId)
    requires SysInv(sys) && o in sys.db.sales.orders && SettledStatus(sys.db.sales.orders[o].status)
    requires !InFlight(sys.calls, o)
    ensures !InFlight(Advance(cfg, sys, m, now).sys.calls, o)
  {
    hide Advance, SalesInv, CallsSound, OrdersSpec.ReadForPayment;
    var next := Advance(cfg, sys, m, now).sys;
    if c :| IsTicketFor(next.calls, c, o) {
      TicketBefore(cfg, sys, m, now, c, o);
      if !IsTicketFor(sys.calls, c, o) {
        FreshTicketIsPayable(sys.db.sales, m.user.id, o);
      }
    }
  }

  lemma NoFailure(sys: Sys, m: Move, o: OrderId)
    requires !InFlight(sys.calls, o)
    ensures !FailsOn(sys, m, o)
  {
  }

  lemma {:induction false} SettledPaymentStays(cfg: Config, start: Sys, ts: seq<Tick>, n: nat, p: PaymentId, o: OrderId)
    requires SysInv(start) && PaysSettled(start.db.sales, p, o) && !InFlight(start.calls, o)
    requires NoWebhook(ts) && n <= |ts|
    ensures var sys := SysAt(cfg, start, ts, n);
            && PaysSettled(sys.db.sales, p, o) && sys.db.sales.payments[p] == start.db.sales.payments[p]
            && !InFlight(sys.calls, o)
  {
    hide Advance, SysInv, InFlight;
    if n > 0 {
      var sys, m, now := SysAt(cfg, start, ts, n - 1), ts[n - 1].move, ts[n - 1].now;
      SettledPaymentStays(cfg, start, ts, n - 1, p, o);
      SysInvAlways(cfg, start, ts, n - 1);
      SettledPaymentMoves(cfg, sys, m, now, p, o);
      SettledStaysSettled(cfg, sys, m, now, o);
      SettledNotRead(cfg, sys, m, now, o);
      NoFailure(sys, m, o);
    }
  }

  ghost predicate CapturedForGood(cfg: Config, start: Sys, p: PaymentId) {
    forall ts: seq<Tick> :: NoWebhook(ts) ==>
        var payments := SysAt(cfg, start, ts, |ts|).db.sales.payments;
        p in payments && payments[p].status == Captured
  }

  /** The captured payment of a settled order is CAPTURED in every continuation without webhooks if and only if no
      payment call that has read the order is still in flight. */
  lemma CapturedForGoodIff(cfg: Config, start: Sys, p: PaymentId, o: OrderId, now: Time)
    requires SysInv(start) && PaysSettled(start.db.sales, p, o) && start.db.sales.payments[p].status == Captured
    ensures CapturedForGood(cfg, start, p) <==> !InFlight(start.calls, o)
  {
    hide Advance, SysInv, SysAt;
    if c :| IsTicketFor(start.calls, c, o) {
      var ts := [Tick(CommitPayment(c, "", false, 0), now)];
      Ticks(cfg, start, ts);
      SettledPaymentMoves(cfg, start, ts[0].move, now, p, o);
      assert NoWebhook(ts) && FailsOn(start, ts[0].move, o);
      assert SysAt(cfg, start, ts, |ts|).db.sales.payments[p].status == Failed;
    } else {
      forall ts: seq<Tick> | NoWebhook(ts)
        ensures var payments := SysAt(cfg, start, ts, |ts|).db.sales.payments;
                p in payments && payments[p].status == Captured
      {
        SettledPaymentStays(cfg, start, ts, |ts|, p, o);
      }
    }
  }

  // ---- a paid order whose payment ends FAILED --------------------------------------------------------------------

  lemma DuePaymentRead(cfg: Config, sys: Sys, c: CallId, user: User, o: OrderId, p: PaymentId, now: Time)
    requires SysInv(sys) && c !in sys.calls && Due(sys.db.sales, user.id, o, p)
    ensures Advance(cfg, sys, ReadPayment(c, user, o), now).sys
         == Sys(sys.db, sys.calls[c := Paying(user.id, OrdersSpec.PayDue(o, sys.db.sales.orders[o], p))])
  {
    OneDue(sys.db.sales, user.id, o, p);
    hide WholeCall, OrdersSpec.ReadForPayment, SalesInv, CallsSound;
  }

  lemma CommitMove(cfg: Config, sys: Sys, c: CallId, rzPayment: string, signatureOk: bool, year: int, now: Time)
    requires c in sys.calls
    ensures Advance(cfg, sys, CommitPayment(c, rzPayment, signatureOk, year), now)
         == Commit(sys, c, rzPayment, signatureOk, year, now)
  {
    hide WholeCall, Commit;
  }

  lemma HeldIsUninvoiced(s: Sales, o: OrderId)
    requires SalesInv(s) && o in s.orders && s.orders[o].status == Held
    ensures !HasInvoice(s.invoices, o)
  {
  }

  /** Two payment calls read one order; the first settles it, the second commits a bad signature: the order is settled
      and invoiced, its only payment FAILED. */
  lemma StaleFailureAfterSettlement(cfg: Config, sys: Sys, c: CallId, d: CallId, user: User, o: OrderId, p: PaymentId,
                                    rzPayment: string, year: int, now: Time)
    requires SysInv(sys) && c !in sys.calls && d !in sys.calls && c != d
    requires Due(sys.db.sales, user.id, o, p) && RowsReady(sys.db, o, p, rzPayment, year)
    ensures var ts := [Tick(ReadPayment(c, user, o), now), Tick(ReadPayment(d, user, o), now),
                       Tick(CommitPayment(c, rzPayment, true, year), now),
                           Tick(CommitPayment(d, "", false, year), now)];
            var s := SysAt(cfg, sys, ts, 4).db.sales;
            && SettlesAt(cfg, sys, ts, 2, o)
            && PaysSettled(s, p, o) && s.payments[p].status == Failed && HasInvoice(s.invoices, o)
  {
    hide Advance, SysInv, RowsReady, Commit, HasInvoice;
    var ts := [Tick(ReadPayment(c, user, o), now), Tick(ReadPayment(d, user, o), now),
               Tick(CommitPayment(c, rzPayment, true, year), now), Tick(CommitPayment(d, "", false, year), now)];
    Ticks(cfg, sys, ts);
    var s1, s2, s3 := SysAt(cfg, sys, ts, 1), SysAt(cfg, sys, ts, 2), SysAt(cfg, sys, ts, 3);
    SysInvGives(sys);
    HeldIsUninvoiced(sys.db.sales, o);
    DuePaymentRead(cfg, sys, c, user, o, p, now);
    SysInvAlways(cfg, sys, ts, 1);
    DuePaymentRead(cfg, s1, d, user, o, p, now);
    SysInvAlways(cfg, sys, ts, 2);
    CommitMove(cfg, s2, c, rzPayment, true, year, now);
    CommitWrites(s2, c, o, rzPayment, true, year, now);
    assert SettlesOn(cfg, s2, ts[2].move, now, o);
    SysInvAlways(cfg, sys, ts, 3);
    CommitMove(cfg, s3, d, "", false, year, now);
    CommitWrites(s3, d, o, "", false, year, now);
    SysInvGives(s3);
    InvoicedIsSettled(s3.db.sales, o);
  }
}
