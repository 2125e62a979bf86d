/** The two stores behind every service: the Postgres tables and the Redis counters. */
module Storage {
  import opened Rows
  import opened AttemptGate
  import BidsSpec
  import UniqueColumns

  class PrismaService {
    var vehicles: Vehicles
    var lots: Lots
    var bids: seq<Bid>
    var orders: Orders
    var payments: Payments
    var invoices: seq<Invoice>
    var banks: map<BankId, Bank>
    var events: Events
    var approvals: set<(LotId, UserId)>

    ghost function SalesRows(): Sales
      reads this
    {
      Sales(orders, payments, invoices, banks)
    }

    /** What the schema promises and every call keeps about the rows of a sale. */
    ghost predicate Valid()
      reads this
    {
      UniqueColumns.RowsValid(SalesRows())
    }

    /** UPDATE bid SET isWinning = false WHERE the row names t AND isWinning. */
    method MarkNotWinning(t: Target)
      modifies `bids
      ensures bids == BidsSpec.Unmark(old(bids), t)
    {
      var rows := bids;
      bids := seq(|rows|, k requires 0 <= k < |rows| =>
        if rows[k].target == t && rows[k].isWinning then rows[k].(isWinning := false) else rows[k]);
    }
  }

  class RedisService {
    var counters: Counters

    /** INCR then EXPIRE, in one MULTI. */
    method IncrWindow(key: GateKey, windowMs: int, now: Time) returns (attempts: int)
      modifies `counters
      ensures counters == old(counters)[key := Bump(Lookup(old(counters), key), windowMs, now)]
      ensures attempts == counters[key].count
    {
      attempts := 0;
      if key in counters && now < counters[key].expiresAt {
        attempts := counters[key].count;
      }
      attempts := attempts + 1;
      counters := counters[key := Counter(attempts, now + windowMs)];
    }
  }

  /** The state of the L1 machine that the stores hold. */
  ghost function Snapshot(prisma: PrismaService, redis: RedisService): Db
    reads prisma, redis
  {
    Db(prisma.vehicles, prisma.lots, prisma.bids, prisma.SalesRows(), prisma.events, prisma.approvals, redis.counters)
  }
}
