/** The double sale reached from a fresh database, at L1 and at L2. */
module FreshDoubleSale {
  import opened Rows
  import opened AttemptGate
  import opened OrdersSpec
  import opened SalesTheory
  import opened SalesRuns
  import opened OrderView
  import opened Holds
  import opened NoDoubleSale
  import opened FreshStart
  import VehiclesSpec
  import Machine
  import HoldsInFlight
  import VehicleView
  import I = Interleaved
  import L2 = DoubleSaleRuns
  import SettlementOnce
  import UniqueColumns
  import StaleSales

  /** A fresh database with a vehicle to buy now, and two checkouts whose draws are all different. */
  ghost predicate Scene(cfg: Config, db: Db, first: User, second: User, v: VehicleId, ids: FreshIds, d: Draws,
                        t0: Time, t1: Time) {
    && Fresh(db) && cfg.holdMs >= 0 && t1 == t0 + cfg.holdMs + 1
    && v in db.vehicles && db.vehicles[v].status == Live
    && (db.vehicles[v].saleType == BuyNow || db.vehicles[v].saleType == Hybrid)
    && db.vehicles[v].buyNowPrice.Some? && db.vehicles[v].buyNowPrice.value != 0
    && (forall w | w in db.vehicles :: db.vehicles[w].bankId in db.sales.banks)
    && PassesGate(cfg, db.counters, HoldGate(first.id), t0)
    && PassesGate(cfg, Attempt(db.counters, HoldGate(first.id), t0), HoldGate(second.id), t1)
    && Truthy(ids.rzOrder) && Truthy(d.ids.rzOrder) && ids.rzOrder != d.ids.rzOrder
    && ids.order != d.ids.order && ids.payment != d.ids.payment && ids.pass.last != d.ids.pass.last
    && d.rzFirst != d.rzSecond
  }

  /** The tables after the first buyer has held the vehicle and checked it out. */
  ghost predicate CheckedOutFirst(cfg: Config, db: Db, after: Db, first: User, v: VehicleId, ids: FreshIds, t0: Time) {
    && v in db.vehicles
    && after.vehicles == db.vehicles[v := VehiclesSpec.WithHold(db.vehicles[v], first.id, t0 + cfg.holdMs)]
    && after.counters == Attempt(db.counters, HoldGate(first.id), t0)
    && after.sales.orders.Keys == {ids.order} && after.sales.payments.Keys == {ids.payment}
    && after.sales.invoices == db.sales.invoices && after.sales.banks == db.sales.banks
    && (var row := after.sales.orders[ids.order];
        && row.buyer == first.id && row.vehicleId == Some(v) && row.bankId == db.vehicles[v].bankId
           && row.pass == ids.pass
        && row.status == Held && row.heldUntil == Some(t0 + cfg.holdMs))
    && (var row := after.sales.payments[ids.payment];
        row.orderId == ids.order && row.rzOrderId == ids.rzOrder && row.rzPaymentId == None && row.status == Initiated)
  }

  function Checkout(user: User, v: VehicleId, ids: FreshIds, d: Draws): Machine.Action {
    Machine.StartCheckout(user, v, ids, d.feeBp, d.gstBp)
  }

  lemma FirstCheckout(cfg: Config, db: Db, first: User, second: User, v: VehicleId, ids: FreshIds, d: Draws,
                      t0: Time, t1: Time)
    requires Scene(cfg, db, first, second, v, ids, d, t0, t1)
    ensures var held := Machine.Apply(cfg, db, Machine.Event(Machine.Hold(first, v), t0)).db;
            CheckedOutFirst(cfg, db, Machine.Apply(cfg, held, Machine.Event(Checkout(first, v, ids, d), t0)).db,
                first, v, ids, t0)
  {
    hide PassesGate;
    VehicleView.HoldGoesThrough(cfg, db, first, v, t0);
    var held := Machine.Apply(cfg, db, Machine.Event(Machine.Hold(first, v), t0)).db;
    HolderEntitled(held.vehicles[v], first.id, t0);
    ServedCheckout(cfg, held, Checkout(first, v, ids, d), t0);
    hide Machine.Apply;
    CheckoutGoesThrough(cfg, held, first, v, ids, d.feeBp, d.gstBp, t0);
    CheckoutStep(cfg, held, Machine.Event(Checkout(first, v, ids, d), t0), ids.order);
  }

  /** The first buyer's order is now a rival of the second, whose draws are free. */
  lemma RivalReached(cfg: Config, db: Db, after: Db, first: User, second: User, v: VehicleId, ids: FreshIds,
                     d: Draws, t0: Time, t1: Time)
    requires Scene(cfg, db, first, second, v, ids, d, t0, t1) && CheckedOutFirst(cfg, db, after, first, v, ids, t0)
    ensures HasPendingPayment(after.sales.payments, ids.order)
    ensures first.id != second.id ==>
              IsRival(after.sales, ids.order, v, second.id) && !HasOpenOrder(after.sales.orders, v, second.id)
    ensures !HasOpenOrder(ExpireOverdueOrders(after.sales.orders, t1).rows, v, second.id) && DrawsFree(after, d)
    ensures forall q :: IsRival(after.sales, q, v, second.id) ==> q == ids.order
    ensures v in after.vehicles && VehiclesSpec.Holdable(after.vehicles[v], t1)
    ensures PassesGate(cfg, after.counters, HoldGate(second.id), t1)
    ensures Overdue(after.sales.orders[ids.order], t1)
  {
    assert IsPendingFor(after.sales.payments, ids.payment, ids.order);
  }

  // ---- L1 --------------------------------------------------------------------------------------------

  lemma {:induction false} RunsAppend(cfg: Config, start: Db, xs: seq<Machine.Event>, ys: seq<Machine.Event>, n: nat)
    requires n <= |ys|
    ensures Machine.StateAt(cfg, start, xs + ys, |xs| + n)
        == Machine.StateAt(cfg, Machine.StateAt(cfg, start, xs, |xs|), ys, n)
  {
    hide Machine.Apply;
    if n > 0 {
      RunsAppend(cfg, start, xs, ys, n - 1);
    } else {
      Machine.SamePrefix(cfg, start, xs + ys, xs, |xs|);
    }
  }

  /** Hold and checkout by the first buyer, a hold by the second after the deadline. */
  function Opening(first: User, second: User, v: VehicleId, ids: FreshIds, d: Draws, t0: Time,
                   t1: Time): seq<Machine.Event> {
    [Machine.Event(Machine.Hold(first, v), t0),
     Machine.Event(Checkout(first, v, ids, d), t0),
     Machine.Event(Machine.Hold(second, v), t1)]
  }

  lemma OpeningSound(cfg: Config, db: Db, first: User, second: User, v: VehicleId, ids: FreshIds, d: Draws, t0: Time,
                     t1: Time)
    requires Scene(cfg, db, first, second, v, ids, d, t0, t1)
    ensures var es := Opening(first, second, v, ids, d, t0, t1);
            && CheckedOutFirst(cfg, db, Machine.StateAt(cfg, db, es, 2), first, v, ids, t0)
            && Machine.OutcomeAt(cfg, db, es, 0).Ok? && Machine.OutcomeAt(cfg, db, es, 2).Ok?
            && SalesInv(Machine.StateAt(cfg, db, es, 2).sales)
  {
    hide Machine.Apply, SalesInv, PassesGate, CheckedOutFirst;
    var es := Opening(first, second, v, ids, d, t0, t1);
    FreshDatabaseIsSound(cfg, db, v, t0);
    UniqueColumns.SalesOfRows(db.sales);
    SalesInvAlways(cfg, db, es, 2);
    assert Machine.StateAt(cfg, db, es, 0) == db;
    assert Machine.StateAt(cfg, db, es, 1) == Machine.Apply(cfg, db, es[0]).db;
    VehicleView.HoldGoesThrough(cfg, db, first, v, t0);
    FirstCheckout(cfg, db, first, second, v, ids, d, t0, t1);
    RivalReached(cfg, db, Machine.StateAt(cfg, db, es, 2), first, second, v, ids, d, t0, t1);
    VehicleView.HoldGoesThrough(cfg, Machine.StateAt(cfg, db, es, 2), second, v, t1);
  }

  lemma ThirdState(cfg: Config, db: Db, es: seq<Machine.Event>)
    requires |es| >= 3
    ensures Machine.StateAt(cfg, db, es, 3) == Machine.Apply(cfg, Machine.StateAt(cfg, db, es, 2), es[2]).db
  {
    hide Machine.Apply;
  }

  lemma RivalsBuyer(cfg: Config, db: Db, after: Db, first: User, v: VehicleId, ids: FreshIds, t0: Time)
    requires CheckedOutFirst(cfg, db, after, first, v, ids, t0)
    ensures ids.order in after.sales.orders && after.sales.orders[ids.order].buyer == first.id
    ensures v in after.vehicles && after.vehicles[v].buyNowPrice == db.vehicles[v].buyNowPrice
    ensures after.sales.orders[ids.order].vehicleId == Some(v) && after.sales.orders[ids.order].status == Held
  {
  }

  /** From a fresh database: both buyers hold the vehicle in turn, check out and pay, and it is sold twice. */
  lemma FreshRunSellsTwice(cfg: Config, db: Db, first: User, second: User, v: VehicleId, ids: FreshIds, d: Draws,
                           t0: Time, t1: Time)
    requires Scene(cfg, db, first, second, v, ids, d, t0, t1) && first.id != second.id
    ensures var es := Opening(first, second, v, ids, d, t0, t1) + DoubleSale(second, first, v, ids.order, d, t1);
            && Machine.Ordered(es) && HoldsAt(cfg, db, es, 0, v) && HoldsAt(cfg, db, es, 2, v)
            && SellsAt(cfg, db, es, 4, ids.order, v) && SellsAt(cfg, db, es, 5, d.ids.order, v)
  {
    hide Machine.Apply, SalesInv, CheckedOutFirst, PassesGate, HasOpenOrder, DrawsFree, Payable, Machine.StateAt;
    var xs, ys := Opening(first, second, v, ids, d, t0, t1), DoubleSale(second, first, v, ids.order, d, t1);
    var two, three := Machine.StateAt(cfg, db, xs, 2), Machine.StateAt(cfg, db, xs, 3);
    OpeningSound(cfg, db, first, second, v, ids, d, t0, t1);
    RivalReached(cfg, db, two, first, second, v, ids, d, t0, t1);
    RivalsBuyer(cfg, db, two, first, v, ids, t0);
    ThirdState(cfg, db, xs);
    RivalMakesDoubleSale(cfg, two, second, first, v, t1, ids.order, d);
    RunsAppend(cfg, db, xs, ys, 1);
    RunsAppend(cfg, db, xs, ys, 2);
    Machine.SamePrefix(cfg, db, xs + ys, xs, 0);
    Machine.SamePrefix(cfg, db, xs + ys, xs, 2);
  }

  // ---- L2 --------------------------------------------------------------------------------------------

  lemma {:induction false} PrefixSys(cfg: Config, start: I.Sys, xs: seq<I.Tick>, ys: seq<I.Tick>, n: nat)
    requires n <= |xs|
    ensures I.SysAt(cfg, start, xs + ys, n) == I.SysAt(cfg, start, xs, n)
  {
    hide I.Advance;
    if n > 0 {
      PrefixSys(cfg, start, xs, ys, n - 1);
    }
  }

  lemma {:induction false} TicksAppend(cfg: Config, start: I.Sys, xs: seq<I.Tick>, ys: seq<I.Tick>, n: nat)
    requires n <= |ys|
    ensures I.SysAt(cfg, start, xs + ys, |xs| + n) == I.SysAt(cfg, I.SysAt(cfg, start, xs, |xs|), ys, n)
  {
    hide I.Advance;
    if n > 0 {
      TicksAppend(cfg, start, xs, ys, n - 1);
    } else {
      PrefixSys(cfg, start, xs, ys, |xs|);
    }
  }

  function OpeningTicks(first: User, v: VehicleId, ids: FreshIds, d: Draws, t0: Time): seq<I.Tick> {
    [I.Tick(I.Atomic(Machine.Hold(first, v)), t0), I.Tick(I.Atomic(Checkout(first, v, ids, d)), t0)]
  }

  lemma OpeningInFlight(cfg: Config, db: Db, first: User, second: User, v: VehicleId, ids: FreshIds, d: Draws,
                        t0: Time, t1: Time)
    requires Scene(cfg, db, first, second, v, ids, d, t0, t1)
    ensures var sys := I.SysAt(cfg, I.Sys(db, map[]), OpeningTicks(first, v, ids, d, t0), 2);
            sys.calls == map[] && CheckedOutFirst(cfg, db, sys.db, first, v, ids, t0) && SettlementOnce.SysInv(sys)
  {
    hide Machine.Apply, SalesInv, CheckedOutFirst;
    var start, ts := I.Sys(db, map[]), OpeningTicks(first, v, ids, d, t0);
    FreshDatabaseIsSound(cfg, db, v, t0);
    UniqueColumns.SalesOfRows(db.sales);
    SettlementOnce.SysInvAlways(cfg, start, ts, 2);
    assert I.SysAt(cfg, start, ts, 0) == start;
    assert I.SysAt(cfg, start, ts, 1)
        == I.Sys(Machine.Apply(cfg, db, Machine.Event(Machine.Hold(first, v), t0)).db, map[]);
    FirstCheckout(cfg, db, first, second, v, ids, d, t0, t1);
  }

  lemma RivalIsOverdue(cfg: Config, db: Db, sys: I.Sys, first: User, second: User, v: VehicleId, ids: FreshIds,
                       d: Draws, t0: Time, t1: Time)
    requires Scene(cfg, db, first, second, v, ids, d, t0, t1) && CheckedOutFirst(cfg, db, sys.db, first, v, ids, t0)
    ensures L2.OverdueRival(cfg, sys, first, second, ids.order, v, d, t1)
  {
    hide HasOpenOrder, DrawsFree, PassesGate, HasPendingPayment;
    RivalReached(cfg, db, sys.db, first, second, v, ids, d, t0, t1);
    RivalsBuyer(cfg, db, sys.db, first, v, ids, t0);
  }

  /** From a fresh database, with the expiry sweep right before the second hold and no rival left by the L1
      condition: a payment read before the sweep still sells the vehicle a second time, be it to the same buyer. */
  lemma FreshRunSellsTwiceInFlight(cfg: Config, db: Db, c: I.CallId, first: User, second: User, v: VehicleId,
                                   ids: FreshIds, d: Draws, t0: Time, t1: Time)
    requires Scene(cfg, db, first, second, v, ids, d, t0, t1)
    ensures var start := I.Sys(db, map[]);
            var ts := OpeningTicks(first, v, ids, d, t0) + L2.StaleRun(c, first, second, ids.order, v, d, t1);
            && I.InTimeOrder(ts) && |ts| == 8
            && ts[3].move == I.Atomic(Machine.ExpireOverdueOrders) && ts[4].move == I.Atomic(Machine.Hold(second, v))
            && HoldsInFlight.HoldsAt(cfg, start, ts, 4, v)
            && NoRival(I.SysAt(cfg, start, ts, 4).db.sales, v, second.id)
            && SettlementOnce.SettlesAt(cfg, start, ts, 6, d.ids.order)
               && SettlementOnce.SettlesAt(cfg, start, ts, 7, ids.order)
            && SettledOn(I.SysAt(cfg, start, ts, 8).db.sales, ids.order, v)
            && SettledOn(I.SysAt(cfg, start, ts, 8).db.sales, d.ids.order, v) && ids.order != d.ids.order
  {
    hide I.Advance, I.SysAt, CheckedOutFirst, SettlementOnce.SysInv, L2.OverdueRival, NoRival, SettledOn;
    hide StaleSales.CheckoutMove;
    var start := I.Sys(db, map[]);
    var xs, ys := OpeningTicks(first, v, ids, d, t0), L2.StaleRun(c, first, second, ids.order, v, d, t1);
    var two := I.SysAt(cfg, start, xs, 2);
    OpeningInFlight(cfg, db, first, second, v, ids, d, t0, t1);
    RivalIsOverdue(cfg, db, two, first, second, v, ids, d, t0, t1);
    L2.StaleCommitSellsTwice(cfg, two, c, first, second, ids.order, v, d, t1);
    TicksAppend(cfg, start, xs, ys, 2);
    TicksAppend(cfg, start, xs, ys, 4);
    TicksAppend(cfg, start, xs, ys, 5);
    TicksAppend(cfg, start, xs, ys, 6);
  }
}
