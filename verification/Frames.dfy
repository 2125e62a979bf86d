/** Which tables one L1 step can touch. */
module Frames {
  import opened Rows
  import opened Machine
  import opened AttemptGate
  import BidsSpec
  import VehiclesSpec
  import OrdersSpec
  import PickupSpec
  import WebhookSpec
  import LotsSpec

  predicate TouchesVehicles(a: Action) {
    a.BidOnVehicle? || a.Hold? || a.ReleaseExpiredHolds? || a.UpdatePrices? || a.VerifyPayment? || a.CreateLot?
  }

  predicate TouchesOrders(a: Action) {
    a.StartCheckout? || a.VerifyPayment? || a.ExpireOverdueOrders? || a.Scan? || a.Complete?
  }

  predicate TouchesPayments(a: Action) {
    a.StartCheckout? || a.VerifyPayment? || a.Webhook?
  }

  /** The tables a step with action a leaves as they are. */
  ghost predicate Framed(a: Action, db: Db, after: Db) {
    && (!TouchesVehicles(a) ==> after.vehicles == db.vehicles)
    && (!a.BidOnLot? && !a.CreateLot? ==> after.lots == db.lots)
    && (!a.BidOnVehicle? && !a.BidOnLot? ==> after.bids == db.bids)
    && (!TouchesOrders(a) ==> after.sales.orders == db.sales.orders)
    && (!TouchesPayments(a) ==> after.sales.payments == db.sales.payments)
    && (!a.VerifyPayment? ==> after.sales.invoices == db.sales.invoices && after.sales.banks == db.sales.banks)
    && (!a.Webhook? ==> after.events == db.events)
    && (!a.ApproveBidder? ==> after.approvals == db.approvals)
    && (!a.BidOnVehicle? && !a.Hold? ==> after.counters == db.counters)
  }

  lemma ServeFrame(cfg: Config, db: Db, a: Action, now: Time)
    ensures Framed(a, db, Serve(cfg, db, a, now).db)
    ensures Serve(cfg, db, a, now).db.counters == db.counters
  {
    hide BidsSpec.BidOnVehicle, BidsSpec.BidOnLot, VehiclesSpec.Hold, VehiclesSpec.ReleaseExpiredHolds;
    hide VehiclesSpec.UpdatePrices;
    hide OrdersSpec.StartCheckout, OrdersSpec.VerifyPayment, OrdersSpec.ExpireOverdueOrders;
    hide PickupSpec.Scan, PickupSpec.Complete, WebhookSpec.Webhook, LotsSpec.CreateLot, LotsSpec.ApproveBidder;
  }

  lemma StepFrame(cfg: Config, db: Db, e: Event)
    ensures Framed(e.action, db, Apply(cfg, db, e).db)
  {
    hide Serve;
    if GateOf(e.action).None? {
      ServeFrame(cfg, db, e.action, e.now);
    } else {
      ServeFrame(cfg, db.(counters := Attempt(db.counters, GateOf(e.action).value, e.now)), e.action, e.now);
    }
  }

  /** A step is refused at the gate and only counts the attempt, or it is served. */
  lemma ApplyCases(cfg: Config, db: Db, e: Event)
    ensures var after := Apply(cfg, db, e);
            || (GateOf(e.action).Some? && after.out == Err(TooManyAttempts)
                && after.db == db.(counters := after.db.counters))
            || after == Serve(cfg, db.(counters := after.db.counters), e.action, e.now)
  {
    hide Serve;
    if GateOf(e.action).None? {
      ServeFrame(cfg, db, e.action, e.now);
      assert db == db.(counters := Apply(cfg, db, e).db.counters);
    } else {
      ServeFrame(cfg, db.(counters := Attempt(db.counters, GateOf(e.action).value, e.now)), e.action, e.now);
    }
  }
}
