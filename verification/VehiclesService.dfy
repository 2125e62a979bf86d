/** src/modules/vehicles.service.ts, writing the vehicle rows in place. */
module VehiclesModule {
  import opened Rows
  import opened Storage
  import AttemptGate
  import VehiclesSpec

  class VehiclesService {
    const prisma: PrismaService
    const redis: RedisService
    const cfg: Config

    constructor (prisma: PrismaService, redis: RedisService, cfg: Config)
      ensures this.prisma == prisma && this.redis == redis && this.cfg == cfg
    {
      this.prisma, this.redis, this.cfg := prisma, redis, cfg;
    }

    /** Every attempt is counted; only those within the threshold reach the conditional update. */
    method Hold(user: User, id: VehicleId, now: Time) returns (out: Outcome)
      modifies prisma`vehicles, redis
      ensures redis.counters == AttemptGate.Attempt(old(redis.counters), HoldGate(user.id), now)
      ensures var w := VehiclesSpec.Hold(cfg, old(prisma.vehicles), user.id, id, now);
              if redis.counters[HoldGate(user.id)].count > cfg.holdThreshold
              then out == Err(TooManyAttempts) && prisma.vehicles == old(prisma.vehicles)
              else out == w.out && prisma.vehicles == w.rows
    {
      var attempts := redis.IncrWindow(HoldGate(user.id), AttemptGate.FRAUD_WINDOW_MS, now);
      if attempts > cfg.holdThreshold {
        return Err(TooManyAttempts);
      }
      var until := now + cfg.holdMs;
      var count := 0;
      if id in prisma.vehicles {
        var row := prisma.vehicles[id];
        if (row.saleType == BuyNow || row.saleType == Hybrid)
           && (row.status == Live || (row.status == OnHold && row.heldUntil.Some? && row.heldUntil.value < now)) {
          prisma.vehicles := prisma.vehicles[id := row.(
            status := OnHold, heldBy := Some(user.id), heldUntil := Some(until), lockVersion := row.lockVersion + 1)];
          count := 1;
        }
      }
      if count == 0 {
        // No row matched: look the vehicle up to say which guard failed
        if id !in prisma.vehicles {
          return Err(NotFound);
        }
        var v := prisma.vehicles[id];
        if v.status == Sold {
          return Err(Gone);
        }
        if v.saleType == SaleType.Auction {
          return Err(BadRequest);
        }
        return Err(Conflict);
      }
      return Ok(HoldPlaced(until));
    }

    /** A read, then a bulk write by identifier. */
    method ReleaseExpiredHolds(now: Time) returns (out: Outcome)
      modifies prisma`vehicles
      ensures var w := VehiclesSpec.ReleaseExpiredHolds(old(prisma.vehicles), now);
              out == w.out && prisma.vehicles == w.rows
    {
      var rows := prisma.vehicles;
      var expired := set id | id in rows && rows[id].status == OnHold && rows[id].heldUntil.Some?
          && rows[id].heldUntil.value < now;
      assert forall id :: id in expired <==> id in rows && VehiclesSpec.HoldLapsed(rows[id], now);
      assert forall id :: id in VehiclesSpec.LapsedHolds(rows, now) <==>
                            id in rows && VehiclesSpec.HoldLapsed(rows[id], now);
      assert expired == VehiclesSpec.LapsedHolds(rows, now);
      if expired == {} {
        assert VehiclesSpec.Release(rows, expired) == rows;
        return Ok(Swept(0));
      }
      prisma.vehicles := map id | id in rows ::
        if id in expired then rows[id].(status := Live, heldBy := None, heldUntil := None) else rows[id];
      assert forall id :: id in rows ==> prisma.vehicles[id] == VehiclesSpec.Release(rows, expired)[id];
      assert prisma.vehicles == VehiclesSpec.Release(rows, expired);
      return Ok(Swept(|expired|));
    }

    /** The price part of `update`. */
    method UpdatePrices(user: User, id: VehicleId, reserve: Option<int>, buyNow: Option<int>) returns (out: Outcome)
      modifies prisma`vehicles
      ensures var w := VehiclesSpec.UpdatePrices(old(prisma.vehicles), user, id, reserve, buyNow);
              out == w.out && prisma.vehicles == w.rows
    {
      if id !in prisma.vehicles {
        return Err(NotFound);
      }
      var vehicle := prisma.vehicles[id];
      var isOwner := user.bankId == Some(vehicle.bankId);
      var isAdmin := user.role == Admin || user.role == SuperAdmin;
      if !isOwner && !isAdmin {
        return Err(Forbidden);
      }
      var newReserve, newBuyNow := reserve, buyNow;
      if vehicle.auction.bidCount > 0 {
        newReserve, newBuyNow := None, None;
      }
      // An amount of zero counts as left out
      if newReserve.Some? && newReserve.value != 0 {
        vehicle := vehicle.(reservePrice := newReserve.value);
      }
      if newBuyNow.Some? && newBuyNow.value != 0 {
        vehicle := vehicle.(buyNowPrice := newBuyNow);
      }
      prisma.vehicles := prisma.vehicles[id := vehicle];
      return Ok(Updated);
    }
  }
}
