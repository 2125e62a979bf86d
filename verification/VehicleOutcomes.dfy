/** L1: when a hold is granted, what the hold sweep and a price update write, in row columns. */
module VehicleOutcomes {
  import opened Rows
  import opened Machine
  import opened Columns
  import VehiclesSpec

  /** ON_HOLD with a deadline before now. */
  predicate HoldOver(v: Vehicle, now: Time) {
    v.status == OnHold && Over(v.heldUntil, now)
  }

  predicate ForHolding(v: Vehicle) {
    v.saleType == BuyNow || v.saleType == Hybrid
  }

  lemma HoldGrantedIff(cfg: Config, db: Db, user: User, v: VehicleId, now: Time)
    ensures Apply(cfg, db, Event(Action.Hold(user, v), now)).out.Ok? <==>
              && AttemptsNow(db.counters, HoldGate(user.id), now) <= cfg.holdThreshold && v in db.vehicles
              && ForHolding(db.vehicles[v]) && (db.vehicles[v].status == Live || HoldOver(db.vehicles[v], now))
  {
  }

  lemma GrantedHoldWrites(cfg: Config, db: Db, user: User, v: VehicleId, now: Time)
    requires Apply(cfg, db, Event(Action.Hold(user, v), now)).out.Ok?
    ensures v in db.vehicles
    ensures var row := db.vehicles[v];
            Apply(cfg, db, Event(Action.Hold(user, v), now))
            == Step(db.(counters := WithAttempt(db.counters, HoldGate(user.id), now),
                        vehicles := db.vehicles[v := row.(
                            status := OnHold, heldBy := Some(user.id), heldUntil := Some(now + cfg.holdMs),
                            lockVersion := row.lockVersion + 1)]),
                    Ok(HoldPlaced(now + cfg.holdMs)))
  {
  }

  /** A refusal counts the attempt, writes nothing else, and says why. */
  lemma RefusedHold(cfg: Config, db: Db, user: User, v: VehicleId, now: Time)
    requires Apply(cfg, db, Event(Action.Hold(user, v), now)).out.Err?
    ensures var w := Apply(cfg, db, Event(Action.Hold(user, v), now));
            var tooMany := AttemptsNow(db.counters, HoldGate(user.id), now) > cfg.holdThreshold;
            && w.db == db.(counters := WithAttempt(db.counters, HoldGate(user.id), now))
            && (w.out == Err(TooManyAttempts) <==> tooMany)
            && (w.out == Err(NotFound) <==> !tooMany && v !in db.vehicles)
            && (!tooMany && v in db.vehicles ==>
                  var row := db.vehicles[v];
                  && (w.out == Err(Gone) <==> row.status == Sold)
                  && (w.out == Err(BadRequest) <==> row.status != Sold && row.saleType == SaleType.Auction)
                  && (w.out == Err(Conflict) <==> row.status != Sold && row.saleType != SaleType.Auction))
  {
  }

  function OverHolds(vehicles: Vehicles, now: Time): set<VehicleId> {
    set v | v in vehicles && HoldOver(vehicles[v], now)
  }

  lemma OverIsLapsed(vehicles: Vehicles, now: Time)
    ensures VehiclesSpec.LapsedHolds(vehicles, now) == OverHolds(vehicles, now)
  {
    forall v | v in vehicles ensures VehiclesSpec.HoldLapsed(vehicles[v], now) <==> HoldOver(vehicles[v], now) {
    }
  }

  /** The sweep puts back on sale exactly the vehicles whose hold is over, and answers how many. */
  lemma SweepWrites(cfg: Config, db: Db, now: Time)
    ensures var w := Apply(cfg, db, Event(Action.ReleaseExpiredHolds, now));
            && w.out == Ok(Swept(|OverHolds(db.vehicles, now)|))
            && w.db == db.(vehicles := w.db.vehicles) && w.db.vehicles.Keys == db.vehicles.Keys
            && forall v :: v in db.vehicles ==>
                 var row := db.vehicles[v];
                 w.db.vehicles[v] == if HoldOver(row, now)
                                     then row.(status := Live, heldBy := None, heldUntil := None) else row
  {
    OverIsLapsed(db.vehicles, now);
    hide VehiclesSpec.LapsedHolds;
  }

  lemma UpdateWrites(cfg: Config, db: Db, user: User, v: VehicleId, reserve: Option<int>, buyNow: Option<int>,
                     now: Time)
    ensures var w := Apply(cfg, db, Event(Action.UpdatePrices(user, v, reserve, buyNow), now));
            && (w.out.Ok? <==> v in db.vehicles && OwnerOrAdmin(user, db.vehicles[v].bankId))
            && (w.out.Err? ==> w.db == db && w.out == Err(if v in db.vehicles then Forbidden else NotFound))
            && (w.out.Ok? ==>
                  var row := db.vehicles[v];
                  var standing := row.auction.bidCount > 0;
                  && w.out == Ok(Updated)
                  && w.db == db.(vehicles := db.vehicles[v := row.(
                       reservePrice := PriceKept(standing, reserve, Some(row.reservePrice)).value,
                       buyNowPrice := PriceKept(standing, buyNow, row.buyNowPrice))]))
  {
  }
}
