/** What one call of create or approveBidder does (src/modules/lots.service.ts). */
module LotsSpec {
  import opened Rows
  import VehiclesSpec

  datatype NewLot = NewLot(
    id: LotId, lotNumber: int, vehicleIds: seq<VehicleId>, reservePrice: int, isPrivate: bool, endAt: Option<Time>)

  predicate Eligible(v: Vehicle, bankId: BankId) {
    v.bankId == bankId && v.status != Sold && v.status != CancelledListing && v.lotId == None
  }

  function EligibleIds(vehicles: Vehicles, ids: seq<VehicleId>, bankId: BankId): set<VehicleId> {
    set id | id in ids && id in vehicles && Eligible(vehicles[id], bankId)
  }

  predicate LotIdFree(lots: Lots, req: NewLot) {
    req.id !in lots && forall l | l in lots :: lots[l].lotNumber != req.lotNumber
  }

  function LotRow(req: NewLot, bankId: BankId, count: int): Lot {
    Lot(req.lotNumber, bankId, count, req.reservePrice, AuctionState(0, None, 0, req.endAt), req.isPrivate,
        if req.isPrivate then Private else Open)
  }

  /** Points the listed vehicles at the lot. */
  function Assigned(vehicles: Vehicles, ids: seq<VehicleId>, lot: LotId): Vehicles {
    map id | id in vehicles :: if id in ids then vehicles[id].(lotId := Some(lot), saleType := LotSale)
        else vehicles[id]
  }

  /** The guards of `create` on the rows it reads. */
  function LotRefusal(vehicles: Vehicles, user: User, req: NewLot): Option<Error> {
    if user.bankId.None? then Some(BadRequest)
    else if |EligibleIds(vehicles, req.vehicleIds, user.bankId.value)| != |req.vehicleIds| then Some(BadRequest)
    else None
  }

  /** Its transaction. */
  function InsertLot(vehicles: Vehicles, lots: Lots, bankId: BankId, req: NewLot): Write<(Vehicles, Lots)> {
    if !LotIdFree(lots, req) then Write((vehicles, lots), Err(UniqueViolation))
    else Write((Assigned(vehicles, req.vehicleIds, req.id), lots[req.id := LotRow(req, bankId, |req.vehicleIds|)]),
               Ok(LotCreated))
  }

  function CreateLot(vehicles: Vehicles, lots: Lots, user: User, req: NewLot): Write<(Vehicles, Lots)> {
    match LotRefusal(vehicles, user, req)
    case Some(e) => Write((vehicles, lots), Err(e))
    case None => InsertLot(vehicles, lots, user.bankId.value, req)
  }

  function ApproveBidder(lots: Lots, approvals: set<(LotId, UserId)>, user: User, id: LotId,
                         bidder: UserId): Write<set<(LotId, UserId)>> {
    if id !in lots then Write(approvals, Err(NotFound))
    else if !VehiclesSpec.MayEdit(user, lots[id].bankId) then Write(approvals, Err(Forbidden))
    else Write(approvals + {(id, bidder)}, Ok(BidderApproved))
  }
}
