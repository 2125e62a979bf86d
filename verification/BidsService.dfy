/** src/modules/bids.service.ts, writing the vehicle, lot and bid rows in place. */
module BidsModule {
  import opened Rows
  import opened Storage
  import AttemptGate
  import BidsSpec

  class BidsService {
    const prisma: PrismaService
    const redis: RedisService
    const cfg: Config

    constructor (prisma: PrismaService, redis: RedisService, cfg: Config)
      ensures this.prisma == prisma && this.redis == redis && this.cfg == cfg
    {
      this.prisma, this.redis, this.cfg := prisma, redis, cfg;
    }

    method BidOnVehicle(user: User, id: VehicleId, amount: int, now: Time) returns (out: Outcome)
      modifies prisma`vehicles, prisma`bids, redis
      ensures amount <= 0 ==> out == Err(BadRequest) && unchanged(prisma) && unchanged(redis)
      ensures amount > 0 ==> redis.counters == AttemptGate.Attempt(old(redis.counters), BidGate(user.id), now)
      ensures amount > 0 ==>
        var w := BidsSpec.BidOnVehicle(cfg, old(prisma.vehicles), old(prisma.bids), user, id, amount, now);
        if redis.counters[BidGate(user.id)].count > cfg.bidThreshold
        then out == Err(TooManyAttempts) && unchanged(prisma)
        else out == w.out && (prisma.vehicles, prisma.bids) == w.rows
    {
      if amount <= 0 {
        return Err(BadRequest);
      }
      var attempts := redis.IncrWindow(BidGate(user.id), AttemptGate.FRAUD_WINDOW_MS, now);
      if attempts > cfg.bidThreshold {
        return Err(TooManyAttempts);
      }
      if id !in prisma.vehicles {
        return Err(NotFound);
      }
      var v := prisma.vehicles[id];
      if v.saleType != SaleType.Auction && v.saleType != Hybrid {
        return Err(BadRequest);
      }
      if v.status != Live {
        return Err(Conflict);
      }
      if v.auction.endAt.Some? && v.auction.endAt.value < now {
        return Err(Gone);
      }
      if user.role == BankStaff && user.bankId == Some(v.bankId) {
        return Err(Forbidden);
      }
      var minRequired := v.reservePrice;
      if v.auction.currentBid > 0 {
        minRequired := v.auction.currentBid + cfg.vehicleIncrement;
      } else if v.startingBid.Some? {
        minRequired := v.startingBid.value;
      }
      if amount < minRequired {
        return Err(BadRequest);
      }

      // The write applies only to a row whose price and status are those just read
      var row := prisma.vehicles[id];
      if row.auction.currentBid != v.auction.currentBid || row.status != Live {
        return Err(Conflict);
      }
      prisma.vehicles := prisma.vehicles[id := row.(auction := row.auction.(
        currentBid := amount, currentBidder := Some(user.id), bidCount := row.auction.bidCount + 1))];

      prisma.MarkNotWinning(OnVehicle(id));
      prisma.bids := prisma.bids + [Bid(OnVehicle(id), user.id, amount, true)];

      // A bid in the closing window moves the end
      var newEnd := v.auction.endAt;
      if v.auction.endAt.Some? {
        var msLeft := v.auction.endAt.value - now;
        if msLeft > 0 && msLeft < cfg.snipeWindow {
          newEnd := Some(now + cfg.snipeExtension);
          row := prisma.vehicles[id];
          prisma.vehicles := prisma.vehicles[id := row.(
            auction := row.auction.(endAt := newEnd), autoExtendCount := row.autoExtendCount + 1)];
        }
      }
      assert prisma.vehicles == old(prisma.vehicles)[id := prisma.vehicles[id]];
      return Ok(BidPlaced(amount, newEnd));
    }

    method BidOnLot(user: User, id: LotId, amount: int, now: Time) returns (out: Outcome)
      modifies prisma`lots, prisma`bids
      ensures var w :=
          BidsSpec.BidOnLot(cfg, old(prisma.lots), old(prisma.bids), prisma.approvals, user, id, amount, now);
              out == w.out && (prisma.lots, prisma.bids) == w.rows
    {
      if amount <= 0 {
        return Err(BadRequest);
      }
      if id !in prisma.lots {
        return Err(NotFound);
      }
      var lot := prisma.lots[id];
      if lot.status != Open && lot.status != Private {
        return Err(Conflict);
      }
      if lot.auction.endAt.Some? && lot.auction.endAt.value < now {
        return Err(Gone);
      }
      if lot.isPrivate && (id, user.id) !in prisma.approvals {
        return Err(Forbidden);
      }
      if user.role == BankStaff && user.bankId == Some(lot.bankId) {
        return Err(Forbidden);
      }
      var minRequired := lot.reservePrice;
      if lot.auction.currentBid > 0 {
        minRequired := lot.auction.currentBid + cfg.lotIncrement;
      }
      if amount < minRequired {
        return Err(BadRequest);
      }

      var row := prisma.lots[id];
      if row.auction.currentBid != lot.auction.currentBid {
        return Err(Conflict);
      }
      prisma.lots := prisma.lots[id := row.(auction := row.auction.(
        currentBid := amount, currentBidder := Some(user.id), bidCount := row.auction.bidCount + 1))];

      prisma.MarkNotWinning(OnLot(id));
      prisma.bids := prisma.bids + [Bid(OnLot(id), user.id, amount, true)];

      var newEnd := lot.auction.endAt;
      if lot.auction.endAt.Some? {
        var msLeft := lot.auction.endAt.value - now;
        if msLeft > 0 && msLeft < cfg.snipeWindow {
          newEnd := Some(now + cfg.snipeExtension);
          row := prisma.lots[id];
          prisma.lots := prisma.lots[id := row.(auction := row.auction.(endAt := newEnd))];
        }
      }
      assert prisma.lots == old(prisma.lots)[id := prisma.lots[id]];
      return Ok(BidPlaced(amount, newEnd));
    }
  }
}
