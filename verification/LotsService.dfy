/** src/modules/lots.service.ts, writing the lot, vehicle and approval rows in place. */
module LotsModule {
  import opened Rows
  import opened Storage
  import LotsSpec

  class LotsService {
    const prisma: PrismaService

    constructor (prisma: PrismaService)
      ensures this.prisma == prisma
    {
      this.prisma := prisma;
    }

    method Create(user: User, req: LotsSpec.NewLot) returns (out: Outcome)
      modifies prisma`vehicles, prisma`lots
      ensures var w := LotsSpec.CreateLot(old(prisma.vehicles), old(prisma.lots), user, req);
              out == w.out && (prisma.vehicles, prisma.lots) == w.rows
    {
      if user.bankId.None? {
        return Err(BadRequest);
      }
      var bankId := user.bankId.value;
      var rows := prisma.vehicles;
      var found := set id | id in rows && id in req.vehicleIds && rows[id].bankId == bankId
                           && rows[id].status != Sold && rows[id].status != CancelledListing && rows[id].lotId == None;
      assert forall id :: id in found <==> id in LotsSpec.EligibleIds(rows, req.vehicleIds, bankId);
      assert found == LotsSpec.EligibleIds(rows, req.vehicleIds, bankId);
      if |found| != |req.vehicleIds| {
        return Err(BadRequest);
      }
      if req.id in prisma.lots || (exists l | l in prisma.lots :: prisma.lots[l].lotNumber == req.lotNumber) {
        return Err(UniqueViolation);
      }
      var status := if req.isPrivate then Private else Open;
      prisma.lots := prisma.lots[req.id := Lot(
        req.lotNumber, bankId, |found|, req.reservePrice, AuctionState(0, None, 0, req.endAt), req.isPrivate, status)];
      // Every listed vehicle now points at the lot and is sold with it
      prisma.vehicles := map id | id in rows ::
        if id in req.vehicleIds then rows[id].(lotId := Some(req.id), saleType := LotSale) else rows[id];
      assert forall id :: id in rows ==> prisma.vehicles[id] == LotsSpec.Assigned(rows, req.vehicleIds, req.id)[id];
      assert prisma.vehicles == LotsSpec.Assigned(rows, req.vehicleIds, req.id);
      return Ok(LotCreated);
    }

    method ApproveBidder(user: User, id: LotId, bidder: UserId) returns (out: Outcome)
      modifies prisma`approvals
      ensures var w := LotsSpec.ApproveBidder(prisma.lots, old(prisma.approvals), user, id, bidder);
              out == w.out && prisma.approvals == w.rows
    {
      if id !in prisma.lots {
        return Err(NotFound);
      }
      var lot := prisma.lots[id];
      var isOwner := user.bankId == Some(lot.bankId);
      var isAdmin := user.role == Admin || user.role == SuperAdmin;
      if !isOwner && !isAdmin {
        return Err(Forbidden);
      }
      prisma.approvals := prisma.approvals + {(id, bidder)};
      return Ok(BidderApproved);
    }
  }
}
