/** How one L1 step acts on one auction, vehicle or lot alike: an accepted bid, or nothing. */
module AuctionView {
  import opened Rows
  import opened BidsSpec
  import opened Machine
  import opened Frames
  import OrdersSpec

  function AuctionOf(db: Db, t: Target): Option<AuctionState> {
    match t
    case OnVehicle(v) => if v in db.vehicles then Some(db.vehicles[v].auction) else None
    case OnLot(l) => if l in db.lots then Some(db.lots[l].auction) else None
  }

  /** The least first bid on a target. */
  function FloorOf(db: Db, t: Target): int
    requires AuctionOf(db, t).Some?
  {
    match t
    case OnVehicle(v) => Floor(db.vehicles[v])
    case OnLot(l) => db.lots[l].reservePrice
  }

  function Increment(cfg: Config, t: Target): int {
    if t.OnVehicle? then cfg.vehicleIncrement else cfg.lotIncrement
  }

  predicate PositiveIncrements(cfg: Config) {
    cfg.vehicleIncrement > 0 && cfg.lotIncrement > 0
  }

  /** The rows of one target, oldest first. */
  function BidsOn(bids: seq<Bid>, t: Target): seq<Bid> {
    if bids == [] then []
    else
      var last := bids[|bids| - 1];
      BidsOn(bids[..|bids| - 1], t) + if last.target == t then [last] else []
  }

  predicate IsBidOn(a: Action, t: Target) {
    (a.BidOnVehicle? && t == OnVehicle(a.vehicle)) || (a.BidOnLot? && t == OnLot(a.lot))
  }

  /** Event e is a bid on t, and the call succeeds. */
  ghost predicate Accepts(cfg: Config, db: Db, e: Event, t: Target) {
    IsBidOn(e.action, t) && Apply(cfg, db, e).out.Ok?
  }

  /** The row after an accepted bid, anti-snipe included. */
  function AfterBid(cfg: Config, a: AuctionState, bidder: UserId, amount: int, now: Time): AuctionState {
    Placed(a, bidder, amount).(endAt := EndAfterBid(a.endAt, cfg, now))
  }

  /** A vehicle's row after an accepted bid. */
  function BidRow(cfg: Config, v: Vehicle, bidder: UserId, amount: int, now: Time): Vehicle {
    v.(auction := AfterBid(cfg, v.auction, bidder, amount, now),
       autoExtendCount := v.autoExtendCount + if Sniped(v.auction.endAt, cfg, now) then 1 else 0)
  }

  /** The guards an accepted bid has passed, all against the row it found. */
  predicate Acceptable(cfg: Config, db: Db, amount: int, now: Time, t: Target)
    requires AuctionOf(db, t).Some?
  {
    var a := AuctionOf(db, t).value;
    amount > 0 && amount >= MinRequired(a, Increment(cfg, t), FloorOf(db, t)) && !Ended(a, now)
  }

  // ---- one served bid ---------------------------------------------------------------

  lemma VehicleRowAfterBid(cfg: Config, v: Vehicle, user: User, amount: int, now: Time)
    requires PlaceOnVehicle(cfg, v, user, amount, now).Success?
    ensures v.status == Live && (v.saleType == SaleType.Auction || v.saleType == Hybrid)
    ensures !Ended(v.auction, now) && amount >= MinRequired(v.auction, cfg.vehicleIncrement, Floor(v))
    ensures PlaceOnVehicle(cfg, v, user, amount, now).value == BidRow(cfg, v, user.id, amount, now)
  {
  }

  lemma LotRowAfterBid(cfg: Config, lot: Lot, approved: bool, user: User, amount: int, now: Time)
    requires PlaceOnLot(cfg, lot, approved, user, amount, now).Success?
    ensures !Ended(lot.auction, now) && amount >= MinRequired(lot.auction, cfg.lotIncrement, lot.reservePrice)
    ensures PlaceOnLot(cfg, lot, approved, user, amount, now).value
         == lot.(auction := AfterBid(cfg, lot.auction, user.id, amount, now))
  {
  }

  lemma ServedBid(cfg: Config, db: Db, a: Action, now: Time, t: Target)
    requires IsBidOn(a, t) && Serve(cfg, db, a, now).out.Ok?
    ensures AuctionOf(db, t).Some? && Acceptable(cfg, db, a.amount, now, t)
    ensures var after := Serve(cfg, db, a, now).db;
            && AuctionOf(after, t) == Some(AfterBid(cfg, AuctionOf(db, t).value, a.user.id, a.amount, now))
            && FloorOf(after, t) == FloorOf(db, t)
            && after.bids == Record(db.bids, t, a.user.id, a.amount)
            && forall u :: u != t ==> AuctionOf(after, u) == AuctionOf(db, u)
  {
    hide PlaceOnVehicle, PlaceOnLot;
    if a.BidOnVehicle? {
      VehicleRowAfterBid(cfg, db.vehicles[a.vehicle], a.user, a.amount, now);
    } else {
      LotRowAfterBid(cfg, db.lots[a.lot], (a.lot, a.user.id) in db.approvals, a.user, a.amount, now);
    }
  }

  lemma RefusedBid(cfg: Config, db: Db, a: Action, now: Time, t: Target)
    requires IsBidOn(a, t) && Serve(cfg, db, a, now).out.Err?
    ensures Serve(cfg, db, a, now).db == db
  {
    hide PlaceOnVehicle, PlaceOnLot;
  }

  // ---- one step -----------------------------------------------------------------------

  lemma AcceptedBid(cfg: Config, db: Db, e: Event, t: Target)
    requires Accepts(cfg, db, e, t)
    ensures AuctionOf(db, t).Some? && Acceptable(cfg, db, e.action.amount, e.now, t)
    ensures var after := Apply(cfg, db, e).db;
            && AuctionOf(after, t)
               == Some(AfterBid(cfg, AuctionOf(db, t).value, e.action.user.id, e.action.amount, e.now))
            && FloorOf(after, t) == FloorOf(db, t)
            && after.bids == Record(db.bids, t, e.action.user.id, e.action.amount)
            && forall u :: u != t ==> AuctionOf(after, u) == AuctionOf(db, u)
  {
    hide Apply, Serve;
    ApplyCases(cfg, db, e);
    ServedBid(cfg, db.(counters := Apply(cfg, db, e).db.counters), e.action, e.now, t);
  }

  lemma OtherBidUntouched(cfg: Config, db: Db, a: Action, now: Time, t: Target)
    requires AuctionOf(db, t).Some? && (a.BidOnVehicle? || a.BidOnLot?) && !IsBidOn(a, t)
    ensures AuctionOf(Serve(cfg, db, a, now).db, t) == AuctionOf(db, t)
    ensures FloorOf(Serve(cfg, db, a, now).db, t) == FloorOf(db, t)
  {
    hide PlaceOnVehicle, PlaceOnLot;
  }

  lemma ServedUntouched(cfg: Config, db: Db, a: Action, now: Time, t: Target)
    requires AuctionOf(db, t).Some? && !(IsBidOn(a, t) && Serve(cfg, db, a, now).out.Ok?)
    ensures AuctionOf(Serve(cfg, db, a, now).db, t) == AuctionOf(db, t)
    ensures AuctionOf(db, t).value.bidCount > 0 ==> FloorOf(Serve(cfg, db, a, now).db, t) == FloorOf(db, t)
  {
    if IsBidOn(a, t) {
      RefusedBid(cfg, db, a, now, t);
    } else if a.BidOnVehicle? || a.BidOnLot? {
      OtherBidUntouched(cfg, db, a, now, t);
    } else if a.VerifyPayment? {
      hide OrdersSpec.ReadForPayment;
    }
  }

  /** A step that accepts no bid on t leaves t's auction alone. */
  lemma AuctionUntouched(cfg: Config, db: Db, e: Event, t: Target)
    requires AuctionOf(db, t).Some? && !Accepts(cfg, db, e, t)
    ensures AuctionOf(Apply(cfg, db, e).db, t) == AuctionOf(db, t)
    ensures AuctionOf(db, t).value.bidCount > 0 ==> FloorOf(Apply(cfg, db, e).db, t) == FloorOf(db, t)
  {
    hide Apply, Serve;
    ApplyCases(cfg, db, e);
    var counted := db.(counters := Apply(cfg, db, e).db.counters);
    if Apply(cfg, db, e) == Serve(cfg, counted, e.action, e.now) {
      ServedUntouched(cfg, counted, e.action, e.now, t);
    }
  }

  /** Bid rows appear only through accepted bids. */
  lemma BidRowsUntouched(cfg: Config, db: Db, e: Event)
    requires forall t :: !Accepts(cfg, db, e, t)
    ensures Apply(cfg, db, e).db.bids == db.bids
  {
    hide Apply, Serve;
    ApplyCases(cfg, db, e);
    StepFrame(cfg, db, e);
    if e.action.BidOnVehicle? || e.action.BidOnLot? {
      var t := if e.action.BidOnVehicle? then OnVehicle(e.action.vehicle) else OnLot(e.action.lot);
      assert !Accepts(cfg, db, e, t);
      if Apply(cfg, db, e) == Serve(cfg, db.(counters := Apply(cfg, db, e).db.counters), e.action, e.now) {
        RefusedBid(cfg, db.(counters := Apply(cfg, db, e).db.counters), e.action, e.now, t);
      }
    }
  }

  lemma ServedNewAuction(cfg: Config, db: Db, a: Action, now: Time, t: Target)
    requires AuctionOf(db, t).None? && AuctionOf(Serve(cfg, db, a, now).db, t).Some?
    ensures a.CreateLot?
    ensures var s := AuctionOf(Serve(cfg, db, a, now).db, t).value;
            s.currentBid == 0 && s.currentBidder == None && s.bidCount == 0
  {
    hide PlaceOnVehicle, PlaceOnLot, OrdersSpec.ReadForPayment;
  }

  /** A target that did not exist is created without bids. */
  lemma NewAuction(cfg: Config, db: Db, e: Event, t: Target)
    requires AuctionOf(db, t).None? && AuctionOf(Apply(cfg, db, e).db, t).Some?
    ensures forall u :: !Accepts(cfg, db, e, u)
    ensures var a := AuctionOf(Apply(cfg, db, e).db, t).value;
            a.currentBid == 0 && a.currentBidder == None && a.bidCount == 0
  {
    hide Apply, Serve;
    ApplyCases(cfg, db, e);
    var counted := db.(counters := Apply(cfg, db, e).db.counters);
    if Apply(cfg, db, e) == Serve(cfg, counted, e.action, e.now) {
      ServedNewAuction(cfg, counted, e.action, e.now, t);
    }
  }

  // ---- the rows of one target under Record ------------------------------------------

  lemma {:induction false} BidsOnUnmarked(bids: seq<Bid>, t: Target, u: Target)
    ensures BidsOn(Unmark(bids, t), u) == if t == u then Unmark(BidsOn(bids, u), t) else BidsOn(bids, u)
  {
    if bids != [] {
      var init := bids[..|bids| - 1];
      BidsOnUnmarked(init, t, u);
      assert Unmark(bids, t)[..|bids| - 1] == Unmark(init, t);
    }
  }

  lemma BidsOnRecord(bids: seq<Bid>, t: Target, bidder: UserId, amount: int, u: Target)
    ensures BidsOn(Record(bids, t, bidder, amount), u)
         == if t == u then Unmark(BidsOn(bids, u), t) + [Bid(t, bidder, amount, true)] else BidsOn(bids, u)
  {
    var all := Record(bids, t, bidder, amount);
    assert all[..|all| - 1] == Unmark(bids, t);
    BidsOnUnmarked(bids, t, u);
  }

  lemma {:induction false} BidsOnTargets(bids: seq<Bid>, t: Target)
    ensures forall k :: 0 <= k < |BidsOn(bids, t)| ==> BidsOn(bids, t)[k].target == t
    ensures BidsOn(bids, t) != [] ==> exists k :: 0 <= k < |bids| && bids[k].target == t
  {
    if bids != [] {
      BidsOnTargets(bids[..|bids| - 1], t);
    }
  }
}
