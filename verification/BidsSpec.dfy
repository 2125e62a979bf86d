/** What one call of bidOnVehicle or bidOnLot does (src/modules/bids.service.ts),
    cut into the phases between which another call can run. */
module BidsSpec {
  import opened Rows

  // ---- the rules a vehicle and a lot share ------------------------------------

  function MinRequired(a: AuctionState, increment: int, floor: int): int {
    if a.currentBid > 0 then a.currentBid + increment else floor
  }

  function Placed(a: AuctionState, bidder: UserId, amount: int): AuctionState {
    a.(currentBid := amount, currentBidder := Some(bidder), bidCount := a.bidCount + 1)
  }

  predicate Ended(a: AuctionState, now: Time) {
    a.endAt.Some? && a.endAt.value < now
  }

  predicate Sniped(endAt: Option<Time>, cfg: Config, now: Time) {
    endAt.Some? && 0 < endAt.value - now < cfg.snipeWindow
  }

  function EndAfterBid(endAt: Option<Time>, cfg: Config, now: Time): Option<Time> {
    if Sniped(endAt, cfg, now) then Some(now + cfg.snipeExtension) else endAt
  }

  function Floor(v: Vehicle): int {
    if v.startingBid.Some? then v.startingBid.value else v.reservePrice
  }

  predicate IsOwnStaff(user: User, bankId: BankId) {
    user.role == BankStaff && user.bankId == Some(bankId)
  }

  /** Clears the winning flag on every row of one target. */
  function Unmark(bids: seq<Bid>, t: Target): (r: seq<Bid>)
    ensures |r| == |bids|
    ensures forall k :: 0 <= k < |bids| ==>
      r[k] == if bids[k].target == t then bids[k].(isWinning := false) else bids[k]
  {
    seq(|bids|, k requires 0 <= k < |bids| => if bids[k].target == t then bids[k].(isWinning := false) else bids[k])
  }

  function Record(bids: seq<Bid>, t: Target, bidder: UserId, amount: int): seq<Bid> {
    Unmark(bids, t) + [Bid(t, bidder, amount, true)]
  }

  // ---- phases of a bid on a vehicle ---------------------------------------------

  /** The guards on the row that was read. */
  function VehicleBidRefusal(cfg: Config, v: Vehicle, user: User, amount: int, now: Time): Option<Error> {
    if v.saleType != SaleType.Auction && v.saleType != Hybrid then Some(BadRequest)
    else if v.status != Live then Some(Conflict)
    else if Ended(v.auction, now) then Some(Gone)
    else if IsOwnStaff(user, v.bankId) then Some(Forbidden)
    else if amount < MinRequired(v.auction, cfg.vehicleIncrement, Floor(v)) then Some(BadRequest)
    else None
  }

  /** The conditional update: it matches only while the price is still the one read. */
  function SwapVehicle(v: Vehicle, seen: Vehicle, bidder: UserId, amount: int): Option<Vehicle> {
    if v.auction.currentBid == seen.auction.currentBid && v.status == Live
    then Some(v.(auction := Placed(v.auction, bidder, amount)))
    else None
  }

  /** The anti-snipe write, decided on the end time that was read. */
  function ExtendVehicle(cfg: Config, v: Vehicle, seen: Vehicle, now: Time): Vehicle {
    if Sniped(seen.auction.endAt, cfg, now) then
      v.(auction := v.auction.(endAt := EndAfterBid(seen.auction.endAt, cfg, now)),
          autoExtendCount := v.autoExtendCount + 1)
    else v
  }

  /** The phases back to back, as the lock around them makes them run. */
  function PlaceOnVehicle(cfg: Config, v: Vehicle, user: User, amount: int, now: Time): Result<Vehicle, Error> {
    match VehicleBidRefusal(cfg, v, user, amount, now)
    case Some(e) => Failure(e)
    case None =>
      match SwapVehicle(v, v, user.id, amount)
      case None => Failure(Conflict)
      case Some(swapped) => Success(ExtendVehicle(cfg, swapped, v, now))
  }

  function BidOnVehicle(cfg: Config, vehicles: Vehicles, bids: seq<Bid>, user: User, id: VehicleId, amount: int,
                        now: Time)
    : Write<(Vehicles, seq<Bid>)>
  {
    if id !in vehicles then Write((vehicles, bids), Err(NotFound))
    else match PlaceOnVehicle(cfg, vehicles[id], user, amount, now)
      case Failure(e) => Write((vehicles, bids), Err(e))
      case Success(v) =>
        Write((vehicles[id := v], Record(bids, OnVehicle(id), user.id, amount)), Ok(BidPlaced(amount, v.auction.endAt)))
  }

  // ---- phases of a bid on a lot ---------------------------------------------------

  function LotBidRefusal(cfg: Config, lot: Lot, approved: bool, user: User, amount: int, now: Time): Option<Error> {
    if lot.status != Open && lot.status != Private then Some(Conflict)
    else if Ended(lot.auction, now) then Some(Gone)
    else if lot.isPrivate && !approved then Some(Forbidden)
    else if IsOwnStaff(user, lot.bankId) then Some(Forbidden)
    else if amount < MinRequired(lot.auction, cfg.lotIncrement, lot.reservePrice) then Some(BadRequest)
    else None
  }

  function SwapLot(lot: Lot, seen: Lot, bidder: UserId, amount: int): Option<Lot> {
    if lot.auction.currentBid == seen.auction.currentBid
    then Some(lot.(auction := Placed(lot.auction, bidder, amount)))
    else None
  }

  function ExtendLot(cfg: Config, lot: Lot, seen: Lot, now: Time): Lot {
    if Sniped(seen.auction.endAt, cfg, now)
    then lot.(auction := lot.auction.(endAt := EndAfterBid(seen.auction.endAt, cfg, now)))
    else lot
  }

  function PlaceOnLot(cfg: Config, lot: Lot, approved: bool, user: User, amount: int, now: Time): Result<Lot, Error> {
    match LotBidRefusal(cfg, lot, approved, user, amount, now)
    case Some(e) => Failure(e)
    case None =>
      match SwapLot(lot, lot, user.id, amount)
      case None => Failure(Conflict)
      case Some(swapped) => Success(ExtendLot(cfg, swapped, lot, now))
  }

  function BidOnLot(cfg: Config, lots: Lots, bids: seq<Bid>, approvals: set<(LotId, UserId)>, user: User, id: LotId,
                    amount: int, now: Time)
    : Write<(Lots, seq<Bid>)>
  {
    if amount <= 0 then Write((lots, bids), Err(BadRequest))
    else if id !in lots then Write((lots, bids), Err(NotFound))
    else match PlaceOnLot(cfg, lots[id], (id, user.id) in approvals, user, amount, now)
      case Failure(e) => Write((lots, bids), Err(e))
      case Success(lot) =>
        Write((lots[id := lot], Record(bids, OnLot(id), user.id, amount)), Ok(BidPlaced(amount, lot.auction.endAt)))
  }
}
