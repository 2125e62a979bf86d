/** What one call of hold, releaseExpiredHolds or update does (src/modules/vehicles.service.ts). */
module VehiclesSpec {
  import opened Rows

  /** ON_HOLD with a deadline strictly in the past. */
  predicate HoldLapsed(v: Vehicle, now: Time) {
    v.status == OnHold && v.heldUntil.Some? && v.heldUntil.value < now
  }

  /** The WHERE clause of the conditional update in `hold`. */
  predicate Holdable(v: Vehicle, now: Time) {
    (v.saleType == BuyNow || v.saleType == Hybrid) && (v.status == Live || HoldLapsed(v, now))
  }

  function WithHold(v: Vehicle, user: UserId, until: Time): Vehicle {
    v.(status := OnHold, heldBy := Some(user), heldUntil := Some(until), lockVersion := v.lockVersion + 1)
  }

  function HoldRefusal(vehicles: Vehicles, id: VehicleId): Error {
    if id !in vehicles then NotFound
    else if vehicles[id].status == Sold then Gone
    else if vehicles[id].saleType == SaleType.Auction then BadRequest
    else Conflict
  }

  /** The locked part of `hold`. */
  function Hold(cfg: Config, vehicles: Vehicles, user: UserId, id: VehicleId, now: Time): Write<Vehicles> {
    if id in vehicles && Holdable(vehicles[id], now) then
      var until := now + cfg.holdMs;
      Write(vehicles[id := WithHold(vehicles[id], user, until)], Ok(HoldPlaced(until)))
    else Write(vehicles, Err(HoldRefusal(vehicles, id)))
  }

  /** The read half of the sweep. */
  function LapsedHolds(vehicles: Vehicles, now: Time): set<VehicleId> {
    set id | id in vehicles && HoldLapsed(vehicles[id], now)
  }

  function Released(v: Vehicle): Vehicle {
    v.(status := Live, heldBy := None, heldUntil := None)
  }

  /** The write half of the sweep: by identifier only. */
  function Release(vehicles: Vehicles, ids: set<VehicleId>): Vehicles {
    map id | id in vehicles :: if id in ids then Released(vehicles[id]) else vehicles[id]
  }

  function ReleaseExpiredHolds(vehicles: Vehicles, now: Time): Write<Vehicles> {
    var lapsed := LapsedHolds(vehicles, now);
    Write(Release(vehicles, lapsed), Ok(Swept(|lapsed|)))
  }

  predicate MayEdit(user: User, bankId: BankId) {
    user.bankId == Some(bankId) || user.role == Admin || user.role == SuperAdmin
  }

  /** Whether a price field of the request is written: not when it is left out, zero or frozen. */
  predicate Edits(frozen: bool, requested: Option<int>) {
    !frozen && requested.Some? && requested.value != 0
  }

  /** The price columns after `update`, frozen if the row it read had a bid. */
  function PricesWritten(v: Vehicle, frozen: bool, reserve: Option<int>, buyNow: Option<int>): Vehicle {
    v.(reservePrice := if Edits(frozen, reserve) then reserve.value else v.reservePrice,
       buyNowPrice := if Edits(frozen, buyNow) then buyNow else v.buyNowPrice)
  }

  function WithPrices(v: Vehicle, reserve: Option<int>, buyNow: Option<int>): Vehicle {
    PricesWritten(v, v.auction.bidCount > 0, reserve, buyNow)
  }

  /** The price part of `update`: once a bid exists both prices are frozen. */
  function UpdatePrices(vehicles: Vehicles, user: User, id: VehicleId, reserve: Option<int>,
                        buyNow: Option<int>): Write<Vehicles> {
    if id !in vehicles then Write(vehicles, Err(NotFound))
    else if !MayEdit(user, vehicles[id].bankId) then Write(vehicles, Err(Forbidden))
    else Write(vehicles[id := WithPrices(vehicles[id], reserve, buyNow)], Ok(Updated))
  }
}
