/** L1: every service call is one atomic step with one clock reading. */
module Machine {
  import opened Rows
  import opened AttemptGate
  import BidsSpec
  import VehiclesSpec
  import OrdersSpec
  import PickupSpec
  import WebhookSpec
  import LotsSpec

  datatype Action =
    | BidOnVehicle(user: User, vehicle: VehicleId, amount: int)
    | BidOnLot(user: User, lot: LotId, amount: int)
    | Hold(user: User, vehicle: VehicleId)
    | ReleaseExpiredHolds
    | UpdatePrices(user: User, vehicle: VehicleId, reserve: Option<int>, buyNow: Option<int>)
    | StartCheckout(user: User, vehicle: VehicleId, ids: OrdersSpec.FreshIds, feeBp: int, gstBp: int)
    | VerifyPayment(user: User, order: OrderId, rzPayment: string, signatureOk: bool, year: int)
    | ExpireOverdueOrders
    | Scan(user: User, pass: Pass, otp: int)
    | Complete(user: User, order: OrderId, otp: int)
    | Webhook(delivery: WebhookSpec.Delivery)
    | CreateLot(user: User, request: LotsSpec.NewLot)
    | ApproveBidder(user: User, lot: LotId, bidder: UserId)

  datatype Event = Event(action: Action, now: Time)

  /** The attempt gate an action passes first, if any. */
  function GateOf(a: Action): Option<GateKey> {
    match a
    case Hold(user, _) => Some(HoldGate(user.id))
    case BidOnVehicle(user, _, amount) => if amount > 0 then Some(BidGate(user.id)) else None
    case _ => None
  }

  /** An action behind its gate. */
  ghost function Serve(cfg: Config, db: Db, a: Action, now: Time): Step {
    match a
    case BidOnVehicle(user, id, amount) =>
      if amount <= 0 then Step(db, Err(BadRequest))
      else
        var w := BidsSpec.BidOnVehicle(cfg, db.vehicles, db.bids, user, id, amount, now);
        Step(db.(vehicles := w.rows.0, bids := w.rows.1), w.out)
    case BidOnLot(user, id, amount) =>
      var w := BidsSpec.BidOnLot(cfg, db.lots, db.bids, db.approvals, user, id, amount, now);
      Step(db.(lots := w.rows.0, bids := w.rows.1), w.out)
    case Hold(user, id) =>
      var w := VehiclesSpec.Hold(cfg, db.vehicles, user.id, id, now);
      Step(db.(vehicles := w.rows), w.out)
    case ReleaseExpiredHolds =>
      var w := VehiclesSpec.ReleaseExpiredHolds(db.vehicles, now);
      Step(db.(vehicles := w.rows), w.out)
    case UpdatePrices(user, id, reserve, buyNow) =>
      var w := VehiclesSpec.UpdatePrices(db.vehicles, user, id, reserve, buyNow);
      Step(db.(vehicles := w.rows), w.out)
    case StartCheckout(user, id, ids, feeBp, gstBp) =>
      var w := OrdersSpec.StartCheckout(cfg, db.vehicles, db.sales.orders, db.sales.payments, user.id, id, ids, feeBp,
          gstBp, now);
      Step(db.(sales := db.sales.(orders := w.rows.0, payments := w.rows.1)), w.out)
    case VerifyPayment(user, id, rzPayment, signatureOk, year) =>
      var w := OrdersSpec.VerifyPayment(db.sales, db.vehicles, user.id, id, rzPayment, signatureOk, year, now);
      Step(db.(sales := w.rows.0, vehicles := w.rows.1), w.out)
    case ExpireOverdueOrders =>
      var w := OrdersSpec.ExpireOverdueOrders(db.sales.orders, now);
      Step(db.(sales := db.sales.(orders := w.rows)), w.out)
    case Scan(user, pass, otp) =>
      var w := PickupSpec.Scan(db.sales.orders, user, pass, otp, now);
      Step(db.(sales := db.sales.(orders := w.rows)), w.out)
    case Complete(user, id, otp) =>
      var w := PickupSpec.Complete(db.sales.orders, user, id, otp, now);
      Step(db.(sales := db.sales.(orders := w.rows)), w.out)
    case Webhook(delivery) =>
      var w := WebhookSpec.Webhook(db.sales.payments, db.events, delivery, now);
      Step(db.(sales := db.sales.(payments := w.rows.0), events := w.rows.1), w.out)
    case CreateLot(user, request) =>
      var w := LotsSpec.CreateLot(db.vehicles, db.lots, user, request);
      Step(db.(vehicles := w.rows.0, lots := w.rows.1), w.out)
    case ApproveBidder(user, id, bidder) =>
      var w := LotsSpec.ApproveBidder(db.lots, db.approvals, user, id, bidder);
      Step(db.(approvals := w.rows), w.out)
  }

  /** One service call. */
  ghost function Apply(cfg: Config, db: Db, e: Event): Step {
    match GateOf(e.action)
    case None => Serve(cfg, db, e.action, e.now)
    case Some(key) =>
      var counted := db.(counters := Attempt(db.counters, key, e.now));
      if counted.counters[key].count > ThresholdOf(cfg, key) then Step(counted, Err(TooManyAttempts))
      else Serve(cfg, counted, e.action, e.now)
  }

  /** The tables after the first n events. */
  ghost function StateAt(cfg: Config, start: Db, es: seq<Event>, n: nat): Db
    requires n <= |es|
  {
    if n == 0 then start else Apply(cfg, StateAt(cfg, start, es, n - 1), es[n - 1]).db
  }

  /** What event n answered. */
  ghost function OutcomeAt(cfg: Config, start: Db, es: seq<Event>, n: nat): Outcome
    requires n < |es|
  {
    Apply(cfg, StateAt(cfg, start, es, n), es[n]).out
  }

  /** The clock never runs back. */
  predicate Ordered(es: seq<Event>) {
    forall i, j :: 0 <= i <= j < |es| ==> es[i].now <= es[j].now
  }

  /** A state depends only on the events before it. */
  lemma {:induction false} SamePrefix(cfg: Config, start: Db, xs: seq<Event>, ys: seq<Event>, n: nat)
    requires n <= |xs| && n <= |ys| && xs[..n] == ys[..n]
    ensures StateAt(cfg, start, xs, n) == StateAt(cfg, start, ys, n)
  {
    hide Apply;
    if n > 0 {
      assert xs[..n - 1] == xs[..n][..n - 1] == ys[..n][..n - 1] == ys[..n - 1];
      SamePrefix(cfg, start, xs, ys, n - 1);
      assert xs[n - 1] == xs[..n][n - 1] == ys[..n][n - 1] == ys[n - 1];
    }
  }
}
