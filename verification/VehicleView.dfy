/** What one L1 step does to one vehicle row. */
module VehicleView {
  import opened Rows
  import opened AttemptGate
  import opened BidsSpec
  import opened VehiclesSpec
  import opened OrdersSpec
  import opened LotsSpec
  import opened Machine
  import opened Frames
  import opened AuctionView

  function LotRow(v: Vehicle, lot: LotId): Vehicle {
    v.(lotId := Some(lot), saleType := LotSale)
  }

  /** The settled order of a payment step sells this vehicle. */
  predicate Sells(db: Db, a: Action, out: Outcome, id: VehicleId) {
    a.VerifyPayment? && out == Ok(Settled) && a.order in db.sales.orders
        && db.sales.orders[a.order].vehicleId == Some(id)
  }

  /** The row after the step, and the guards the change has passed. */
  ghost predicate Changed(cfg: Config, db: Db, a: Action, now: Time, out: Outcome, id: VehicleId, before: Vehicle,
                          after: Vehicle) {
    match a
    case BidOnVehicle(user, v, amount) =>
      if v == id && out.Ok?
      then before.status == Live && (before.saleType == SaleType.Auction || before.saleType == Hybrid)
          && after == BidRow(cfg, before, user.id, amount, now)
      else after == before
    case Hold(user, v) =>
      if v == id && out.Ok?
      then Holdable(before, now) && after == WithHold(before, user.id, now + cfg.holdMs)
      else after == before
    case ReleaseExpiredHolds => after == if HoldLapsed(before, now) then Released(before) else before
    case UpdatePrices(user, v, reserve, buyNow) => after == if v == id && out.Ok?
        then WithPrices(before, reserve, buyNow) else before
    case VerifyPayment(user, o, _, _, _) =>
      if Sells(db, a, out, id) then after == SoldTo(before, user.id, db.sales.orders[o].base, now) else after == before
    case CreateLot(user, req) =>
      if out.Ok? && id in req.vehicleIds
          then user.bankId.Some? && Eligible(before, user.bankId.value) && after == LotRow(before, req.id)
      else after == before
    case _ => after == before
  }

  /** A list of identifiers as long as the set it finds has no repeats and misses none. */
  lemma {:induction false} AllFound(ids: seq<VehicleId>, found: set<VehicleId>)
    requires found <= (set id | id in ids)
    ensures |found| <= |ids|
    ensures |found| == |ids| ==>
        (forall i, j :: 0 <= i < j < |ids| ==> ids[i] != ids[j]) && forall id :: id in ids ==> id in found
  {
    if ids == [] {
      assert found == {};
    } else {
      var last := ids[|ids| - 1];
      var init := ids[..|ids| - 1];
      assert ids == init + [last];
      AllFound(init, found - {last});
      if last in found {
        assert |found - {last}| == |found| - 1;
      } else {
        assert found - {last} == found;
      }
    }
  }

  lemma BidVehicles(cfg: Config, db: Db, a: Action, now: Time, id: VehicleId)
    requires a.BidOnVehicle? && id in db.vehicles
    ensures var s := Serve(cfg, db, a, now);
            id in s.db.vehicles && Changed(cfg, db, a, now, s.out, id, db.vehicles[id], s.db.vehicles[id])
  {
    hide PlaceOnVehicle, BidRow;
    if a.vehicle == id && PlaceOnVehicle(cfg, db.vehicles[id], a.user, a.amount, now).Success? {
      VehicleRowAfterBid(cfg, db.vehicles[id], a.user, a.amount, now);
    }
  }

  lemma SettleVehicles(cfg: Config, db: Db, a: Action, now: Time, id: VehicleId)
    requires a.VerifyPayment? && id in db.vehicles
    ensures var s := Serve(cfg, db, a, now);
            id in s.db.vehicles && Changed(cfg, db, a, now, s.out, id, db.vehicles[id], s.db.vehicles[id])
  {
  }

  lemma LotVehicles(cfg: Config, db: Db, a: Action, now: Time, id: VehicleId)
    requires a.CreateLot? && id in db.vehicles
    ensures var s := Serve(cfg, db, a, now);
            id in s.db.vehicles && Changed(cfg, db, a, now, s.out, id, db.vehicles[id], s.db.vehicles[id])
  {
    if a.user.bankId.Some? {
      AllFound(a.request.vehicleIds, EligibleIds(db.vehicles, a.request.vehicleIds, a.user.bankId.value));
    }
  }

  lemma ServedVehicle(cfg: Config, db: Db, a: Action, now: Time, id: VehicleId)
    requires id in db.vehicles
    ensures var s := Serve(cfg, db, a, now);
            id in s.db.vehicles && Changed(cfg, db, a, now, s.out, id, db.vehicles[id], s.db.vehicles[id])
  {
    hide BidsSpec.BidOnVehicle, OrdersSpec.VerifyPayment, LotsSpec.CreateLot;
    match a
    case BidOnVehicle(_, _, _) => BidVehicles(cfg, db, a, now, id);
    case VerifyPayment(_, _, _, _, _) => SettleVehicles(cfg, db, a, now, id);
    case CreateLot(_, _) => LotVehicles(cfg, db, a, now, id);
    case _ =>
      ServeFrame(cfg, db, a, now);
  }

  lemma VehicleStep(cfg: Config, db: Db, e: Event, id: VehicleId)
    requires id in db.vehicles
    ensures var s := Apply(cfg, db, e);
            id in s.db.vehicles && Changed(cfg, db, e.action, e.now, s.out, id, db.vehicles[id], s.db.vehicles[id])
  {
    hide Apply, Serve;
    ApplyCases(cfg, db, e);
    StepFrame(cfg, db, e);
    ServedVehicle(cfg, db.(counters := Apply(cfg, db, e).db.counters), e.action, e.now, id);
  }

  lemma ServedKeys(cfg: Config, db: Db, a: Action, now: Time)
    ensures Serve(cfg, db, a, now).db.vehicles.Keys == db.vehicles.Keys
  {
    hide PlaceOnVehicle, ReadForPayment, SettledSales;
    if !TouchesVehicles(a) {
      ServeFrame(cfg, db, a, now);
    }
  }

  /** No call inserts or deletes a vehicle. */
  lemma VehiclesStay(cfg: Config, db: Db, e: Event)
    ensures Apply(cfg, db, e).db.vehicles.Keys == db.vehicles.Keys
  {
    hide Apply, Serve;
    ApplyCases(cfg, db, e);
    ServedKeys(cfg, db.(counters := Apply(cfg, db, e).db.counters), e.action, e.now);
  }

  /** A hold that passes the gate on a vehicle free to be held is granted. */
  lemma HoldGoesThrough(cfg: Config, db: Db, user: User, v: VehicleId, now: Time)
    requires v in db.vehicles && Holdable(db.vehicles[v], now) && PassesGate(cfg, db.counters, HoldGate(user.id), now)
    ensures Apply(cfg, db, Event(Action.Hold(user, v), now))
         == Step(db.(counters := Attempt(db.counters, HoldGate(user.id), now),
                     vehicles := db.vehicles[v := WithHold(db.vehicles[v], user.id, now + cfg.holdMs)]),
                 Ok(HoldPlaced(now + cfg.holdMs)))
  {
  }
}
