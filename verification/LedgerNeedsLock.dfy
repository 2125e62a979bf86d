/** L2: with the lock the phases of a bid are one L1 step; without it the ledger can end in the wrong order. */
module LedgerNeedsLock {
  import opened Rows
  import opened AttemptGate
  import opened BidsSpec
  import opened AuctionView
  import opened Interleaved
  import Machine
  import Auctions

  /** A vehicle bid that passes its gate and its guards. */
  predicate BidReady(cfg: Config, sys: Sys, c: CallId, user: User, v: VehicleId, amount: int, now: Time) {
    && c !in sys.calls && amount > 0 && PassesGate(cfg, sys.db.counters, BidGate(user.id), now)
    && v in sys.db.vehicles && VehicleBidRefusal(cfg, sys.db.vehicles[v], user, amount, now) == None
  }

  lemma LiveIfNotRefused(cfg: Config, v: Vehicle, user: User, amount: int, now: Time)
    requires VehicleBidRefusal(cfg, v, user, amount, now) == None
    ensures v.status == Live
  {
  }

  lemma ReadAndSwap(cfg: Config, sys: Sys, c: CallId, user: User, v: VehicleId, amount: int, now: Time)
    requires BidReady(cfg, sys, c, user, v, amount, now)
    ensures var read := Advance(cfg, sys, ReadVehicleBid(c, user, v, amount), now).sys;
            var swapped := Advance(cfg, read, SwapBid(c), now).sys;
            && Advance(cfg, sys, ReadVehicleBid(c, user, v, amount), now).out.None?
            && read.db == sys.db.(counters := Attempt(sys.db.counters, BidGate(user.id), now))
            && c in read.calls
            && swapped.db == read.db.(vehicles := sys.db.vehicles[v :=
                 sys.db.vehicles[v].(auction := Placed(sys.db.vehicles[v].auction, user.id, amount))])
            && swapped.calls == sys.calls[c := BiddingOnVehicle(user.id, v, amount, sys.db.vehicles[v], ToRecord)]
  {
    LiveIfNotRefused(cfg, sys.db.vehicles[v], user, amount, now);
    hide VehicleBidRefusal, Machine.Apply;
    var read := Advance(cfg, sys, ReadVehicleBid(c, user, v, amount), now).sys;
    assert read.calls == sys.calls[c := BiddingOnVehicle(user.id, v, amount, sys.db.vehicles[v], ToSwap)];
  }

  lemma RecordAndExtend(cfg: Config, sys: Sys, c: CallId, user: UserId, v: VehicleId, amount: int, seen: Vehicle,
                        now: Time)
    requires c in sys.calls && sys.calls[c] == BiddingOnVehicle(user, v, amount, seen, ToRecord) && v in sys.db.vehicles
    ensures var recorded := Advance(cfg, sys, RecordBid(c), now).sys;
            && recorded.db == sys.db.(bids := Record(sys.db.bids, OnVehicle(v), user, amount))
            && recorded.calls == sys.calls[c := BiddingOnVehicle(user, v, amount, seen, ToExtend)]
            && var last := Advance(cfg, recorded, ExtendBid(c), now);
               && last.sys.db
                  == recorded.db.(vehicles := sys.db.vehicles[v := ExtendVehicle(cfg, sys.db.vehicles[v], seen, now)])
               && last.sys.calls == sys.calls - {c}
               && last.out == Some(Ok(BidPlaced(amount, EndAfterBid(seen.auction.endAt, cfg, now))))
  {
    hide ExtendVehicle, Record, EndAfterBid, Machine.Apply;
  }

  lemma WholeBid(cfg: Config, db: Db, user: User, v: VehicleId, amount: int, now: Time)
    requires amount > 0 && PassesGate(cfg, db.counters, BidGate(user.id), now)
    requires v in db.vehicles && VehicleBidRefusal(cfg, db.vehicles[v], user, amount, now) == None
    ensures var row := db.vehicles[v];
            var after := ExtendVehicle(cfg, row.(auction := Placed(row.auction, user.id, amount)), row, now);
            Machine.Apply(cfg, db, Machine.Event(Machine.BidOnVehicle(user, v, amount), now))
              == Step(db.(counters := Attempt(db.counters, BidGate(user.id), now), vehicles := db.vehicles[v := after],
                              bids := Record(db.bids, OnVehicle(v), user.id, amount)),
                      Ok(BidPlaced(amount, EndAfterBid(row.auction.endAt, cfg, now))))
  {
    LiveIfNotRefused(cfg, db.vehicles[v], user, amount, now);
    hide VehicleBidRefusal, Record;
  }

  /** A bid refused at its read is refused by the whole call in the same way. */
  lemma RefusedAtOnce(cfg: Config, sys: Sys, c: CallId, user: User, v: VehicleId, amount: int, now: Time)
    requires c !in sys.calls && !BidReady(cfg, sys, c, user, v, amount, now)
    ensures var whole := Machine.Apply(cfg, sys.db, Machine.Event(Machine.BidOnVehicle(user, v, amount), now));
            var read := Advance(cfg, sys, ReadVehicleBid(c, user, v, amount), now);
            read.out == Some(whole.out) && read.sys == sys.(db := whole.db)
  {
    hide VehicleBidRefusal, Record, SwapVehicle, ExtendVehicle;
  }

  lemma ReadyRow(cfg: Config, sys: Sys, c: CallId, user: User, v: VehicleId, amount: int, now: Time)
    requires BidReady(cfg, sys, c, user, v, amount, now)
    ensures v in sys.db.vehicles && VehicleBidRefusal(cfg, sys.db.vehicles[v], user, amount, now) == None
    ensures amount > 0 && PassesGate(cfg, sys.db.counters, BidGate(user.id), now)
  {
  }

  /** Back to back, the four phases of a bid are the whole call; one that ends at its read is the whole call too. */
  lemma BidPhasesCompose(cfg: Config, sys: Sys, c: CallId, user: User, v: VehicleId, amount: int, now: Time)
    requires c !in sys.calls
    ensures var whole := Machine.Apply(cfg, sys.db, Machine.Event(Machine.BidOnVehicle(user, v, amount), now));
            var ts := [Tick(ReadVehicleBid(c, user, v, amount), now), Tick(SwapBid(c), now), Tick(RecordBid(c), now),
                Tick(ExtendBid(c), now)];
            var read, last := SysAt(cfg, sys, ts, 1), SysAt(cfg, sys, ts, 4);
            if AnswerAt(cfg, sys, ts, 0).Some?
                then read == sys.(db := whole.db) && AnswerAt(cfg, sys, ts, 0) == Some(whole.out)
            else last == sys.(db := whole.db) && AnswerAt(cfg, sys, ts, 3) == Some(whole.out)
  {
    hide VehicleBidRefusal, Record, ExtendVehicle, Advance, Machine.Apply, EndAfterBid, BidReady;
    var ts := [Tick(ReadVehicleBid(c, user, v, amount), now), Tick(SwapBid(c), now), Tick(RecordBid(c), now),
        Tick(ExtendBid(c), now)];
    Ticks(cfg, sys, ts);
    if BidReady(cfg, sys, c, user, v, amount, now) {
      ReadyRow(cfg, sys, c, user, v, amount, now);
      var seen := sys.db.vehicles[v];
      ReadAndSwap(cfg, sys, c, user, v, amount, now);
      RecordAndExtend(cfg, SysAt(cfg, sys, ts, 2), c, user.id, v, amount, seen, now);
      CallForgotten(sys.calls, c, BiddingOnVehicle(user.id, v, amount, seen, ToRecord));
      WholeBid(cfg, sys.db, user, v, amount, now);
    } else {
      RefusedAtOnce(cfg, sys, c, user, v, amount, now);
    }
  }

  /** What an accepted bid on a lot leaves and answers. */
  ghost function LotBidDone(cfg: Config, db: Db, user: UserId, l: LotId, amount: int, now: Time): Step
    requires l in db.lots
  {
    var row := db.lots[l];
    Step(db.(lots := db.lots[l := ExtendLot(cfg, row.(auction := Placed(row.auction, user, amount)), row, now)],
             bids := Record(db.bids, OnLot(l), user, amount)),
         Ok(BidPlaced(amount, EndAfterBid(row.auction.endAt, cfg, now))))
  }

  lemma LotRead(cfg: Config, sys: Sys, c: CallId, user: User, l: LotId, amount: int, now: Time)
    requires c !in sys.calls
    ensures var whole := Machine.Apply(cfg, sys.db, Machine.Event(Machine.BidOnLot(user, l, amount), now));
            var read := Advance(cfg, sys, ReadLotBid(c, user, l, amount), now);
            if read.out.Some? then read.out == Some(whole.out) && read.sys == sys.(db := whole.db)
            else
              && l in sys.db.lots
              && read.sys == sys.(calls := sys.calls[c := BiddingOnLot(user.id, l, amount, sys.db.lots[l], ToSwap)])
              && whole == LotBidDone(cfg, sys.db, user.id, l, amount, now)
  {
    hide LotBidRefusal, Record;
  }

  lemma LotWrites(cfg: Config, sys: Sys, c: CallId, user: UserId, l: LotId, amount: int, now: Time)
    requires l in sys.db.lots && c in sys.calls && sys.calls[c] == BiddingOnLot(user, l, amount, sys.db.lots[l], ToSwap)
    ensures var swapped := Advance(cfg, sys, SwapBid(c), now).sys;
            var recorded := Advance(cfg, swapped, RecordBid(c), now).sys;
            var last := Advance(cfg, recorded, ExtendBid(c), now);
            var done := LotBidDone(cfg, sys.db, user, l, amount, now);
            last.sys == Sys(done.db, sys.calls - {c}) && last.out == Some(done.out)
  {
    hide ExtendLot, Record, EndAfterBid, Machine.Apply;
    var seen := sys.db.lots[l];
    var swapped := Advance(cfg, sys, SwapBid(c), now).sys;
    assert swapped.calls == sys.calls[c := BiddingOnLot(user, l, amount, seen, ToRecord)];
    var recorded := Advance(cfg, swapped, RecordBid(c), now).sys;
    assert recorded.calls == sys.calls[c := BiddingOnLot(user, l, amount, seen, ToExtend)];
    assert recorded.calls - {c} == sys.calls - {c};
  }

  /** The same for a lot. */
  lemma LotBidPhasesCompose(cfg: Config, sys: Sys, c: CallId, user: User, l: LotId, amount: int, now: Time)
    requires c !in sys.calls
    ensures var whole := Machine.Apply(cfg, sys.db, Machine.Event(Machine.BidOnLot(user, l, amount), now));
            var ts := [Tick(ReadLotBid(c, user, l, amount), now), Tick(SwapBid(c), now), Tick(RecordBid(c), now),
                Tick(ExtendBid(c), now)];
            var read, last := SysAt(cfg, sys, ts, 1), SysAt(cfg, sys, ts, 4);
            if AnswerAt(cfg, sys, ts, 0).Some?
                then read == sys.(db := whole.db) && AnswerAt(cfg, sys, ts, 0) == Some(whole.out)
            else last == sys.(db := whole.db) && AnswerAt(cfg, sys, ts, 3) == Some(whole.out)
  {
    hide LotBidRefusal, Record, ExtendLot, Advance, Machine.Apply, EndAfterBid;
    var ts := [Tick(ReadLotBid(c, user, l, amount), now), Tick(SwapBid(c), now), Tick(RecordBid(c), now),
        Tick(ExtendBid(c), now)];
    Ticks(cfg, sys, ts);
    LotRead(cfg, sys, c, user, l, amount, now);
    if AnswerAt(cfg, sys, ts, 0).None? {
      LotWrites(cfg, SysAt(cfg, sys, ts, 1), c, user.id, l, amount, now);
      CallForgotten(sys.calls, c, BiddingOnLot(user.id, l, amount, sys.db.lots[l], ToSwap));
    }
  }

  // ---- two bids that record in the wrong order --------------------------------------------------------------

  function CrossedBids(c: CallId, d: CallId, first: User, second: User, v: VehicleId, low: int, high: int,
                       now: Time): seq<Tick> {
    [Tick(ReadVehicleBid(c, first, v, low), now), Tick(SwapBid(c), now),
     Tick(ReadVehicleBid(d, second, v, high), now), Tick(SwapBid(d), now),
     Tick(RecordBid(d), now), Tick(RecordBid(c), now)]
  }

  /** Both bidders pass the guards, the second over the first one's price. */
  predicate PriceLeavesRoom(cfg: Config, sys: Sys, c: CallId, d: CallId, first: User, second: User, v: VehicleId,
                            low: int, high: int, now: Time) {
    && BidReady(cfg, sys, c, first, v, low, now) && BidReady(cfg, sys, d, second, v, high, now)
    && c != d && first.id != second.id && high >= low + cfg.vehicleIncrement && cfg.vehicleIncrement > 0
  }

  lemma SecondBidReady(cfg: Config, sys: Sys, later: Sys, c: CallId, d: CallId, first: User, second: User,
                       v: VehicleId, low: int, high: int, now: Time)
    requires PriceLeavesRoom(cfg, sys, c, d, first, second, v, low, high, now)
    requires later.db
        == sys.db.(counters := Attempt(sys.db.counters, BidGate(first.id), now), vehicles := sys.db.vehicles[v :=
               sys.db.vehicles[v].(auction := Placed(sys.db.vehicles[v].auction, first.id, low))])
    requires later.calls.Keys == sys.calls.Keys + {c}
    ensures BidReady(cfg, later, d, second, v, high, now)
  {
  }

  lemma CrossedBidsState(cfg: Config, sys: Sys, c: CallId, d: CallId, first: User, second: User, v: VehicleId,
                         low: int, high: int, now: Time)
    requires PriceLeavesRoom(cfg, sys, c, d, first, second, v, low, high, now)
    ensures var last := SysAt(cfg, sys, CrossedBids(c, d, first, second, v, low, high, now), 6).db;
            && v in last.vehicles && last.vehicles[v].auction.currentBid == high
               && last.vehicles[v].auction.currentBidder == Some(second.id)
            && last.bids == Record(Record(sys.db.bids, OnVehicle(v), second.id, high), OnVehicle(v), first.id, low)
  {
    assert v in sys.db.vehicles;
    hide VehicleBidRefusal, Record, Advance, BidReady;
    var ts := CrossedBids(c, d, first, second, v, low, high, now);
    Ticks(cfg, sys, ts);
    ReadAndSwap(cfg, sys, c, first, v, low, now);
    var s2, s4, s5 := SysAt(cfg, sys, ts, 2), SysAt(cfg, sys, ts, 4), SysAt(cfg, sys, ts, 5);
    SecondBidReady(cfg, sys, s2, c, d, first, second, v, low, high, now);
    ReadAndSwap(cfg, s2, d, second, v, high, now);
    RecordAndExtend(cfg, s4, d, second.id, v, high, s2.db.vehicles[v], now);
    RecordAndExtend(cfg, s5, c, first.id, v, low, sys.db.vehicles[v], now);
  }

  lemma LastTwoRows(bids: seq<Bid>, t: Target, first: UserId, low: int, second: UserId, high: int)
    ensures var rows := BidsOn(Record(Record(bids, t, first, low), t, second, high), t);
            && |rows| >= 2 && rows[|rows| - 1] == Bid(t, second, high, true)
               && rows[|rows| - 2] == Bid(t, first, low, false)
  {
    BidsOnRecord(bids, t, first, low, t);
    BidsOnRecord(Record(bids, t, first, low), t, second, high, t);
  }

  /** The higher bid holds the price, the lower bid carries the winning flag and comes last. */
  lemma CrossedBidsBreakTheLedger(cfg: Config, sys: Sys, c: CallId, d: CallId, first: User, second: User,
                                  v: VehicleId, low: int, high: int, now: Time)
    requires PriceLeavesRoom(cfg, sys, c, d, first, second, v, low, high, now)
    ensures var last := SysAt(cfg, sys, CrossedBids(c, d, first, second, v, low, high, now), 6);
            var rows := BidsOn(last.db.bids, OnVehicle(v));
            && v in last.db.vehicles && last.db.vehicles[v].auction.currentBid == high
            && last.db.vehicles[v].auction.currentBidder == Some(second.id)
            && |rows| >= 2
            && rows[|rows| - 1] == Bid(OnVehicle(v), first.id, low, true)
            && rows[|rows| - 2] == Bid(OnVehicle(v), second.id, high, false)
            && !Auctions.LedgerAgrees(last.db.vehicles[v].auction, rows, cfg.vehicleIncrement)
  {
    assert high > low;
    hide Advance, BidReady, BidsOn, Record, SysAt, PriceLeavesRoom;
    CrossedBidsState(cfg, sys, c, d, first, second, v, low, high, now);
    LastTwoRows(sys.db.bids, OnVehicle(v), second.id, high, first.id, low);
  }
}
