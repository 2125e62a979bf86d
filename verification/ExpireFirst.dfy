/** L1 theorem: running the order-expiry sweep right before each hold is enough to rule out double sales. */
module ExpireFirst {
  import opened Rows
  import opened OrdersSpec
  import opened Machine
  import opened SalesTheory
  import opened SalesRuns
  import opened OrderView
  import opened VehicleView
  import opened NoDoubleSale
  import opened Lifecycle

  /** A held vehicle is on hold and has a deadline. */
  predicate HolderHasDeadline(v: Vehicle) {
    v.heldBy.Some? ==> v.status == OnHold && v.heldUntil.Some?
  }

  /** A payable order has the deadline of the standing hold, or one the clock has passed. */
  predicate DeadlineKept(o: Order, v: Vehicle, now: Time) {
    o.heldUntil.Some? && (o.heldUntil.value < now || (v.status == OnHold && v.heldUntil == o.heldUntil))
  }

  ghost predicate DeadlineInv(db: Db, v: VehicleId, now: Time) {
    && v in db.vehicles && HolderHasDeadline(db.vehicles[v])
    && forall o :: Payable(db.sales, o, v) ==> DeadlineKept(db.sales.orders[o], db.vehicles[v], now)
  }

  /** A new order's deadline is its vehicle's. */
  lemma NewOrderDeadline(cfg: Config, db: Db, e: Event, o: OrderId, v: VehicleId)
    requires SalesInv(db.sales) && DeadlineInv(db, v, e.now) && SaleInv(db, v)
    requires o !in db.sales.orders && Payable(Apply(cfg, db, e).db.sales, o, v)
    ensures v in Apply(cfg, db, e).db.vehicles
    ensures DeadlineKept(Apply(cfg, db, e).db.sales.orders[o], Apply(cfg, db, e).db.vehicles[v], e.now)
  {
    hide Apply, SalesInv, HasPendingPayment;
    PayableBefore(cfg, db, e, o, v);
    VehicleStep(cfg, db, e, v);
  }

  lemma DeadlineLater(db: Db, v: VehicleId, now: Time, later: Time)
    requires DeadlineInv(db, v, now) && now <= later
    ensures DeadlineInv(db, v, later)
  {
    hide Payable;
  }

  /** A sale of v leaves no payable order on it. */
  lemma SettledOrderLeavesNone(cfg: Config, db: Db, e: Event, o: OrderId, v: VehicleId)
    requires SalesInv(db.sales) && SaleInv(db, v) && Sells(db, e.action, Apply(cfg, db, e).out, v)
    ensures !Payable(Apply(cfg, db, e).db.sales, o, v)
  {
    hide Apply, SalesInv, HasPendingPayment, SaleInv;
    var q := e.action.order;
    StatusStep(cfg, db, e, q);
    OrderRowsOfInv(db.sales);
    OrderStep(cfg, db, e, q);
    NothingElsePayable(cfg, db, e, q, o, v);
  }

  lemma OldDeadlineKept(cfg: Config, db: Db, e: Event, o: OrderId, v: VehicleId, now: Time)
    requires SalesInv(db.sales) && SaleInv(db, v) && DeadlineInv(db, v, now) && now <= e.now && CleanStep(cfg, db, e, v)
    requires o in db.sales.orders && Payable(db.sales, o, v) && Payable(Apply(cfg, db, e).db.sales, o, v)
    ensures v in Apply(cfg, db, e).db.vehicles
    ensures DeadlineKept(Apply(cfg, db, e).db.sales.orders[o], Apply(cfg, db, e).db.vehicles[v], e.now)
  {
    hide Apply, SalesInv, HasPendingPayment, SaleInv, SoundMove;
    VehicleStep(cfg, db, e, v);
    SalesStep(cfg, db, e);
    SoundMoveGives(db.sales, Apply(cfg, db, e).db.sales);
    assert DeadlineKept(db.sales.orders[o], db.vehicles[v], now);
    if Sells(db, e.action, Apply(cfg, db, e).out, v) {
      SettledOrderLeavesNone(cfg, db, e, o, v);
    }
  }

  lemma DeadlineStep(cfg: Config, db: Db, e: Event, v: VehicleId, now: Time)
    requires SalesInv(db.sales) && SaleInv(db, v) && DeadlineInv(db, v, now) && now <= e.now
    requires CleanStep(cfg, db, e, v)
    ensures DeadlineInv(Apply(cfg, db, e).db, v, e.now)
  {
    hide Apply, SalesInv, HasPendingPayment, SaleInv, CheckedOutRow, SoundMove;
    var after := Apply(cfg, db, e).db;
    VehicleStep(cfg, db, e, v);
    SaleInvStep(cfg, db, e, v);
    SalesStep(cfg, db, e);
    SoundMoveGives(db.sales, after.sales);
    forall o | Payable(after.sales, o, v) ensures DeadlineKept(after.sales.orders[o], after.vehicles[v], e.now) {
      PayableBefore(cfg, db, e, o, v);
      if o in db.sales.orders {
        OldDeadlineKept(cfg, db, e, o, v, now);
      } else {
        DeadlineLater(db, v, now, e.now);
        NewOrderDeadline(cfg, db, e, o, v);
      }
    }
  }

  // ---- runs ---------------------------------------------------------------------------------------------

  /** Every hold on v comes right after an order-expiry sweep at the same clock reading. */
  predicate ExpiryBeforeHolds(es: seq<Event>, v: VehicleId) {
    forall i :: 0 <= i < |es| && es[i].action.Hold? && es[i].action.vehicle == v ==>
      i > 0 && es[i - 1].action.ExpireOverdueOrders? && es[i - 1].now == es[i].now
  }

  lemma NothingOverdueAfterExpiry(cfg: Config, db: Db, e: Event, o: OrderId, v: VehicleId)
    requires e.action.ExpireOverdueOrders? && Payable(Apply(cfg, db, e).db.sales, o, v)
    ensures Apply(cfg, db, e).db.sales.orders[o].heldUntil.Some? ==>
        Apply(cfg, db, e).db.sales.orders[o].heldUntil.value >= e.now
  {
    hide HasPendingPayment;
  }

  /** A hold that succeeds right after the sweep finds no payable order. */
  lemma HoldAfterExpiryIsClean(cfg: Config, db: Db, sweep: Event, hold: Event, v: VehicleId)
    requires sweep.action.ExpireOverdueOrders? && sweep.now == hold.now
    requires DeadlineInv(Apply(cfg, db, sweep).db, v, sweep.now)
    ensures CleanStep(cfg, Apply(cfg, db, sweep).db, hold, v)
  {
    hide Apply, Payable;
    var swept := Apply(cfg, db, sweep).db;
    VehicleStep(cfg, swept, hold, v);
    if hold.action.Hold? && hold.action.vehicle == v && Apply(cfg, swept, hold).out.Ok? {
      forall o ensures !IsRival(swept.sales, o, v, hold.action.user.id) {
        if Payable(swept.sales, o, v) {
          NothingOverdueAfterExpiry(cfg, db, sweep, o, v);
        }
      }
    }
  }

  function ClockAt(es: seq<Event>, n: nat, since: Time): Time
    requires n <= |es|
  {
    if n == 0 then since else es[n - 1].now
  }

  lemma {:induction false} CleanSoFar(cfg: Config, start: Db, es: seq<Event>, n: nat, v: VehicleId, since: Time)
    requires SalesInv(start.sales) && SaleInv(start, v) && DeadlineInv(start, v, since)
    requires Ordered(es) && (es != [] ==> since <= es[0].now) && ExpiryBeforeHolds(es, v) && n <= |es|
    ensures SaleInv(StateAt(cfg, start, es, n), v) && DeadlineInv(StateAt(cfg, start, es, n), v, ClockAt(es, n, since))
    ensures n < |es| ==> CleanStep(cfg, StateAt(cfg, start, es, n), es[n], v)
  {
    hide Apply, SalesInv, SaleInv, DeadlineInv, NoRival;
    if n > 0 {
      CleanSoFar(cfg, start, es, n - 1, v, since);
      SalesInvAlways(cfg, start, es, n - 1);
      SaleInvStep(cfg, StateAt(cfg, start, es, n - 1), es[n - 1], v);
      DeadlineStep(cfg, StateAt(cfg, start, es, n - 1), es[n - 1], v, ClockAt(es, n - 1, since));
    }
    if n < |es| && es[n].action.Hold? && es[n].action.vehicle == v {
      HoldAfterExpiryIsClean(cfg, StateAt(cfg, start, es, n - 1), es[n - 1], es[n], v);
    }
  }

  /** With the sweep in front of every hold the vehicle is sold at most once, in every run. */
  lemma ExpiryBeforeHoldsSuffices(cfg: Config, start: Db, es: seq<Event>, v: VehicleId, since: Time)
    requires SalesInv(start.sales) && SaleInv(start, v) && DeadlineInv(start, v, since)
    requires Ordered(es) && (es != [] ==> since <= es[0].now) && ExpiryBeforeHolds(es, v)
    ensures CleanRun(cfg, start, es, v) && SoldAtMostOnceIn(cfg, start, es, v)
  {
    hide Apply, SalesInv, SaleInv, DeadlineInv, CleanStep, SellsAt, ExpiryBeforeHolds;
    forall i: nat | i < |es| ensures CleanStep(cfg, StateAt(cfg, start, es, i), es[i], v) {
      CleanSoFar(cfg, start, es, i, v, since);
    }
    forall i: nat, j: nat, o, q | SellsAt(cfg, start, es, i, o, v) && SellsAt(cfg, start, es, j, q, v) ensures i == j {
      SoldAtMostOnce(cfg, start, es, v, i, j, o, q);
    }
  }
}
