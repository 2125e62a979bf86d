/** L1: when a bid on a vehicle or a lot is accepted, what it writes and how it is refused, in row columns. */
module BidOutcomes {
  import opened Rows
  import opened Machine
  import opened Columns
  import BidsSpec

  // ---- a bid on a vehicle --------------------------------------------------------------------------------

  /** The listing takes bids at this moment. */
  predicate VehicleOpen(v: Vehicle, now: Time) {
    (v.saleType == SaleType.Auction || v.saleType == Hybrid) && v.status == Live && !Over(v.auction.endAt, now)
  }

  predicate VehicleBidEnough(cfg: Config, v: Vehicle, amount: int) {
    if v.auction.currentBid > 0 then amount >= v.auction.currentBid + cfg.vehicleIncrement
    else if v.startingBid.Some? then amount >= v.startingBid.value
    else amount >= v.reservePrice
  }

  /** A positive amount, and a user within the rate. */
  predicate VehicleBidServed(cfg: Config, db: Db, user: User, amount: int, now: Time) {
    amount > 0 && AttemptsNow(db.counters, BidGate(user.id), now) <= cfg.bidThreshold
  }

  lemma VehicleBidAcceptedIff(cfg: Config, db: Db, user: User, v: VehicleId, amount: int, now: Time)
    ensures Apply(cfg, db, Event(Action.BidOnVehicle(user, v, amount), now)).out.Ok? <==>
              && VehicleBidServed(cfg, db, user, amount, now) && v in db.vehicles
              && VehicleOpen(db.vehicles[v], now) && !OwnStaff(user, db.vehicles[v].bankId)
              && VehicleBidEnough(cfg, db.vehicles[v], amount)
  {
    hide BidsSpec.Record;
  }

  lemma AcceptedVehicleBidWrites(cfg: Config, db: Db, user: User, v: VehicleId, amount: int, now: Time)
    requires Apply(cfg, db, Event(Action.BidOnVehicle(user, v, amount), now)).out.Ok?
    ensures v in db.vehicles
    ensures var w, row := Apply(cfg, db, Event(Action.BidOnVehicle(user, v, amount), now)), db.vehicles[v];
            var late := InLastStretch(row.auction.endAt, cfg.snipeWindow, now);
            var endAt := if late then Some(now + cfg.snipeExtension) else row.auction.endAt;
            && w.out == Ok(BidPlaced(amount, endAt))
            && w.db == db.(bids := w.db.bids, counters := WithAttempt(db.counters, BidGate(user.id), now),
                 vehicles := db.vehicles[v := row.(
                     auction := AuctionState(amount, Some(user.id), row.auction.bidCount + 1, endAt),
                     autoExtendCount := row.autoExtendCount + if late then 1 else 0)])
            && BidAdded(db.bids, w.db.bids, OnVehicle(v), user.id, amount)
  {
  }

  /** A refusal writes nothing but the attempt, and names the first guard that fails. */
  lemma RefusedVehicleBid(cfg: Config, db: Db, user: User, v: VehicleId, amount: int, now: Time)
    requires Apply(cfg, db, Event(Action.BidOnVehicle(user, v, amount), now)).out.Err?
    ensures var w := Apply(cfg, db, Event(Action.BidOnVehicle(user, v, amount), now));
            && w.db == (if amount > 0 then db.(counters := WithAttempt(db.counters, BidGate(user.id), now)) else db)
            && (w.out == Err(TooManyAttempts) <==>
                  amount > 0 && AttemptsNow(db.counters, BidGate(user.id), now) > cfg.bidThreshold)
            && (w.out == Err(NotFound) <==> VehicleBidServed(cfg, db, user, amount, now) && v !in db.vehicles)
            && (w.out == Err(BadRequest) <==>
                  || amount <= 0
                  || (VehicleBidServed(cfg, db, user, amount, now) && v in db.vehicles
                      && var row := db.vehicles[v];
                         || (row.saleType != SaleType.Auction && row.saleType != Hybrid)
                         || (VehicleOpen(row, now) && !OwnStaff(user, row.bankId)
                             && !VehicleBidEnough(cfg, row, amount))))
            && (VehicleBidServed(cfg, db, user, amount, now) && v in db.vehicles
                && (db.vehicles[v].saleType == SaleType.Auction || db.vehicles[v].saleType == Hybrid) ==>
                  var row := db.vehicles[v];
                  && (w.out == Err(Conflict) <==> row.status != Live)
                  && (w.out == Err(Gone) <==> row.status == Live && Over(row.auction.endAt, now))
                  && (w.out == Err(Forbidden) <==> VehicleOpen(row, now) && OwnStaff(user, row.bankId)))
  {
    hide BidsSpec.Record;
  }

  // ---- a bid on a lot -------------------------------------------------------------------------------------

  predicate LotOpen(l: Lot, now: Time) {
    (l.status == Open || l.status == Private) && !Over(l.auction.endAt, now)
  }

  /** The lot is public, or the user is on its list. */
  predicate Admitted(db: Db, user: User, l: LotId)
    requires l in db.lots
  {
    db.lots[l].isPrivate ==> (l, user.id) in db.approvals
  }

  predicate LotBidEnough(cfg: Config, l: Lot, amount: int) {
    if l.auction.currentBid > 0 then amount >= l.auction.currentBid + cfg.lotIncrement else amount >= l.reservePrice
  }

  lemma LotBidAcceptedIff(cfg: Config, db: Db, user: User, l: LotId, amount: int, now: Time)
    ensures Apply(cfg, db, Event(Action.BidOnLot(user, l, amount), now)).out.Ok? <==>
              && amount > 0 && l in db.lots
              && LotOpen(db.lots[l], now) && Admitted(db, user, l) && !OwnStaff(user, db.lots[l].bankId)
              && LotBidEnough(cfg, db.lots[l], amount)
  {
    hide BidsSpec.Record;
  }

  lemma AcceptedLotBidWrites(cfg: Config, db: Db, user: User, l: LotId, amount: int, now: Time)
    requires Apply(cfg, db, Event(Action.BidOnLot(user, l, amount), now)).out.Ok?
    ensures l in db.lots
    ensures var w, row := Apply(cfg, db, Event(Action.BidOnLot(user, l, amount), now)), db.lots[l];
            var late := InLastStretch(row.auction.endAt, cfg.snipeWindow, now);
            var endAt := if late then Some(now + cfg.snipeExtension) else row.auction.endAt;
            && w.out == Ok(BidPlaced(amount, endAt))
            && w.db == db.(bids := w.db.bids, lots := db.lots[l := row.(
                 auction := AuctionState(amount, Some(user.id), row.auction.bidCount + 1, endAt))])
            && BidAdded(db.bids, w.db.bids, OnLot(l), user.id, amount)
  {
  }

  lemma RefusedLotBid(cfg: Config, db: Db, user: User, l: LotId, amount: int, now: Time)
    requires Apply(cfg, db, Event(Action.BidOnLot(user, l, amount), now)).out.Err?
    ensures var w := Apply(cfg, db, Event(Action.BidOnLot(user, l, amount), now));
            && w.db == db
            && (amount <= 0 ==> w.out == Err(BadRequest))
            && (w.out == Err(NotFound) <==> amount > 0 && l !in db.lots)
            && (amount > 0 && l in db.lots ==>
                  var row := db.lots[l];
                  && (w.out == Err(Conflict) <==> row.status != Open && row.status != Private)
                  && (w.out == Err(Gone) <==>
                        (row.status == Open || row.status == Private) && Over(row.auction.endAt, now))
                  && (w.out == Err(Forbidden) <==>
                        LotOpen(row, now) && (!Admitted(db, user, l) || OwnStaff(user, row.bankId)))
                  && (w.out == Err(BadRequest) <==>
                        && LotOpen(row, now) && Admitted(db, user, l) && !OwnStaff(user, row.bankId)
                        && !LotBidEnough(cfg, row, amount)))
  {
  }

  // ---- runs ------------------------------------------------------------------------------------------------

  /** Event n is a bid, accepted, by staff of the bank that sells the target. */
  ghost predicate OwnStaffBidAt(cfg: Config, start: Db, es: seq<Event>, n: nat) {
    && n < |es| && OutcomeAt(cfg, start, es, n).Ok?
    && var db, a := StateAt(cfg, start, es, n), es[n].action;
       || (a.BidOnVehicle? && a.vehicle in db.vehicles && OwnStaff(a.user, db.vehicles[a.vehicle].bankId))
       || (a.BidOnLot? && a.lot in db.lots && OwnStaff(a.user, db.lots[a.lot].bankId))
  }

  /** In no run does a bank bid on its own listings. */
  lemma NoOwnStaffBid(cfg: Config, start: Db, es: seq<Event>, n: nat)
    ensures !OwnStaffBidAt(cfg, start, es, n)
  {
    hide Apply;
    if n < |es| {
      var db, a := StateAt(cfg, start, es, n), es[n].action;
      if a.BidOnVehicle? {
        VehicleBidAcceptedIff(cfg, db, a.user, a.vehicle, a.amount, es[n].now);
      } else if a.BidOnLot? {
        LotBidAcceptedIff(cfg, db, a.user, a.lot, a.amount, es[n].now);
      }
    }
  }

  /** An approval is given by the lot's own bank or an admin, and adds one pair to the list. */
  lemma ApprovalWrites(cfg: Config, db: Db, user: User, l: LotId, bidder: UserId, now: Time)
    ensures var w := Apply(cfg, db, Event(Action.ApproveBidder(user, l, bidder), now));
            && (w.out.Ok? <==> l in db.lots && OwnerOrAdmin(user, db.lots[l].bankId))
            && (w.out.Ok? ==> w.out == Ok(BidderApproved) && w.db == db.(approvals := db.approvals + {(l, bidder)}))
            && (w.out.Err? ==> w.db == db && w.out == Err(if l in db.lots then Forbidden else NotFound))
  {
  }

  /** Once the bank of a private lot, or an admin, has approved a bidder, the bidder's bid is accepted if and only if
      it meets the remaining guards. */
  lemma ApprovedBidIsAccepted(cfg: Config, db: Db, approver: User, bidder: User, l: LotId, amount: int, t0: Time,
                              t1: Time)
    requires l in db.lots && OwnerOrAdmin(approver, db.lots[l].bankId)
    ensures var es :=
        [Event(Action.ApproveBidder(approver, l, bidder.id), t0), Event(Action.BidOnLot(bidder, l, amount), t1)];
            && OutcomeAt(cfg, db, es, 0) == Ok(BidderApproved)
            && (OutcomeAt(cfg, db, es, 1).Ok? <==>
                  && amount > 0 && LotOpen(db.lots[l], t1) && !OwnStaff(bidder, db.lots[l].bankId)
                  && LotBidEnough(cfg, db.lots[l], amount))
  {
    var es := [Event(Action.ApproveBidder(approver, l, bidder.id), t0), Event(Action.BidOnLot(bidder, l, amount), t1)];
    assert StateAt(cfg, db, es, 0) == db;
    ApprovalWrites(cfg, db, approver, l, bidder.id, t0);
    hide Apply;
    LotBidAcceptedIff(cfg, StateAt(cfg, db, es, 1), bidder, l, amount, t1);
  }
}
