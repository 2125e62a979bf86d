/** L1 theorems about bidding, for vehicles and lots alike: the bid ledger, the price
    and time bounds, the anti-snipe guarantee and the frozen result of a closed auction. */
module Auctions {
  import opened Rows
  import opened BidsSpec
  import opened Machine
  import opened AuctionView
  import VehicleView

  // ---- the ledger ----------------------------------------------------------------------

  /** The bid rows of a target tell the same story as the row that summarises them. */
  ghost predicate LedgerAgrees(a: AuctionState, rows: seq<Bid>, increment: int) {
    && a.bidCount == |rows|
    && (forall k :: 0 <= k < |rows| ==> rows[k].amount > 0)
    && (forall j, k :: 0 <= j < k < |rows| ==> rows[j].amount + increment <= rows[k].amount)
    && (forall k :: 0 <= k < |rows| ==> (rows[k].isWinning <==> k == |rows| - 1))
    && (rows == [] ==> a.currentBid == 0 && a.currentBidder == None)
    && (rows != [] ==>
          a.currentBid == rows[|rows| - 1].amount && a.currentBidder == Some(rows[|rows| - 1].bidder))
  }

  predicate PriceCoversCount(a: AuctionState, floor: int, increment: int) {
    a.bidCount > 0 ==> a.currentBid >= floor + (a.bidCount - 1) * increment
  }

  ghost predicate TargetInv(cfg: Config, db: Db, t: Target)
    requires AuctionOf(db, t).Some?
  {
    && LedgerAgrees(AuctionOf(db, t).value, BidsOn(db.bids, t), Increment(cfg, t))
    && PriceCoversCount(AuctionOf(db, t).value, FloorOf(db, t), Increment(cfg, t))
  }

  ghost predicate AuctionInv(cfg: Config, db: Db) {
    && (forall t :: AuctionOf(db, t).Some? ==> TargetInv(cfg, db, t))
    && (forall k :: 0 <= k < |db.bids| ==> AuctionOf(db, db.bids[k].target).Some?)
  }

  lemma LedgerExtends(a: AuctionState, rows: seq<Bid>, increment: int, t: Target, bidder: UserId, amount: int,
                      b: AuctionState)
    requires LedgerAgrees(a, rows, increment) && increment > 0
    requires forall k :: 0 <= k < |rows| ==> rows[k].target == t
    requires amount > 0 && (a.currentBid > 0 ==> amount >= a.currentBid + increment)
    requires b.currentBid == amount && b.currentBidder == Some(bidder) && b.bidCount == a.bidCount + 1
    ensures LedgerAgrees(b, Unmark(rows, t) + [Bid(t, bidder, amount, true)], increment)
  {
    var longer := Unmark(rows, t) + [Bid(t, bidder, amount, true)];
    forall j, k | 0 <= j < k < |longer| ensures longer[j].amount + increment <= longer[k].amount {
      if k == |rows| && j < |rows| - 1 {
        assert rows[j].amount + increment <= rows[|rows| - 1].amount;
      }
    }
  }

  lemma PriceFollowsCount(a: AuctionState, floor: int, increment: int, amount: int, b: AuctionState)
    requires PriceCoversCount(a, floor, increment) && a.bidCount >= 0 && (a.bidCount == 0 <==> a.currentBid <= 0)
    requires amount >= MinRequired(a, increment, floor)
    requires b.currentBid == amount && b.bidCount == a.bidCount + 1
    ensures PriceCoversCount(b, floor, increment)
  {
    assert a.bidCount * increment == (a.bidCount - 1) * increment + increment;
  }

  lemma BidKeepsTargetInv(cfg: Config, db: Db, e: Event, t: Target)
    requires PositiveIncrements(cfg) && Accepts(cfg, db, e, t)
    requires AuctionOf(db, t).Some? && TargetInv(cfg, db, t)
    ensures AuctionOf(Apply(cfg, db, e).db, t).Some? && TargetInv(cfg, Apply(cfg, db, e).db, t)
  {
    hide Apply, Record, Unmark, BidsOn, PriceCoversCount, FloorOf;
    AcceptedBid(cfg, db, e, t);
    BidsOnRecord(db.bids, t, e.action.user.id, e.action.amount, t);
    BidsOnTargets(db.bids, t);
    var a := AuctionOf(db, t).value;
    var b := AfterBid(cfg, a, e.action.user.id, e.action.amount, e.now);
    LedgerExtends(a, BidsOn(db.bids, t), Increment(cfg, t), t, e.action.user.id, e.action.amount, b);
    PriceFollowsCount(a, FloorOf(db, t), Increment(cfg, t), e.action.amount, b);
  }

  lemma TargetInvStep(cfg: Config, db: Db, e: Event, t: Target)
    requires PositiveIncrements(cfg) && AuctionInv(cfg, db) && AuctionOf(Apply(cfg, db, e).db, t).Some?
    ensures TargetInv(cfg, Apply(cfg, db, e).db, t)
  {
    hide Apply, Record;
    if Accepts(cfg, db, e, t) {
      AcceptedBid(cfg, db, e, t);
      BidKeepsTargetInv(cfg, db, e, t);
    } else if AuctionOf(db, t).None? {
      NewAuction(cfg, db, e, t);
      BidRowsUntouched(cfg, db, e);
      BidsOnTargets(db.bids, t);
    } else {
      AuctionUntouched(cfg, db, e, t);
      if u :| Accepts(cfg, db, e, u) {
        AcceptedBid(cfg, db, e, u);
        BidsOnRecord(db.bids, u, e.action.user.id, e.action.amount, t);
      } else {
        BidRowsUntouched(cfg, db, e);
      }
    }
  }

  lemma AuctionPersists(cfg: Config, db: Db, e: Event, t: Target)
    requires AuctionOf(db, t).Some?
    ensures AuctionOf(Apply(cfg, db, e).db, t).Some?
  {
    hide Apply;
    if Accepts(cfg, db, e, t) {
      AcceptedBid(cfg, db, e, t);
    } else {
      AuctionUntouched(cfg, db, e, t);
    }
  }

  lemma BidRowsHaveTargets(cfg: Config, db: Db, e: Event)
    requires AuctionInv(cfg, db)
    ensures var after := Apply(cfg, db, e).db;
            forall k :: 0 <= k < |after.bids| ==> AuctionOf(after, after.bids[k].target).Some?
  {
    hide Apply;
    var after := Apply(cfg, db, e).db;
    if u :| Accepts(cfg, db, e, u) {
      AcceptedBid(cfg, db, e, u);
    } else {
      BidRowsUntouched(cfg, db, e);
    }
    forall k | 0 <= k < |after.bids| ensures AuctionOf(after, after.bids[k].target).Some? {
      if k < |db.bids| {
        AuctionPersists(cfg, db, e, db.bids[k].target);
      }
    }
  }

  lemma AuctionInvStep(cfg: Config, db: Db, e: Event)
    requires PositiveIncrements(cfg) && AuctionInv(cfg, db)
    ensures AuctionInv(cfg, Apply(cfg, db, e).db)
  {
    hide Apply, TargetInv;
    forall t | AuctionOf(Apply(cfg, db, e).db, t).Some? ensures TargetInv(cfg, Apply(cfg, db, e).db, t) {
      TargetInvStep(cfg, db, e, t);
    }
    BidRowsHaveTargets(cfg, db, e);
  }

  /** In every reachable state the bid rows of each vehicle and lot agree with its row. */
  lemma {:induction false} LedgerAgreesInEveryState(cfg: Config, start: Db, es: seq<Event>, n: nat)
    requires PositiveIncrements(cfg) && AuctionInv(cfg, start) && n <= |es|
    ensures AuctionInv(cfg, StateAt(cfg, start, es, n))
  {
    hide Apply, AuctionInv;
    if n > 0 {
      LedgerAgreesInEveryState(cfg, start, es, n - 1);
      AuctionInvStep(cfg, StateAt(cfg, start, es, n - 1), es[n - 1]);
    }
  }

  // ---- one target over a run ------------------------------------------------------------

  lemma {:induction false} AuctionPresent(cfg: Config, start: Db, es: seq<Event>, n: nat, t: Target)
    requires n <= |es| && AuctionOf(start, t).Some?
    ensures AuctionOf(StateAt(cfg, start, es, n), t).Some?
  {
    hide Apply;
    if n > 0 {
      AuctionPresent(cfg, start, es, n - 1, t);
      AuctionPersists(cfg, StateAt(cfg, start, es, n - 1), es[n - 1], t);
    }
  }

  ghost function AuctionAt(cfg: Config, start: Db, es: seq<Event>, n: nat, t: Target): AuctionState
    requires n <= |es| && AuctionOf(start, t).Some?
  {
    AuctionPresent(cfg, start, es, n, t);
    AuctionOf(StateAt(cfg, start, es, n), t).value
  }

  ghost function FloorAt(cfg: Config, start: Db, es: seq<Event>, n: nat, t: Target): int
    requires n <= |es| && AuctionOf(start, t).Some?
  {
    AuctionPresent(cfg, start, es, n, t);
    FloorOf(StateAt(cfg, start, es, n), t)
  }

  /** Event k is an accepted bid on t. */
  ghost predicate AcceptsAt(cfg: Config, start: Db, es: seq<Event>, k: nat, t: Target) {
    k < |es| && Accepts(cfg, StateAt(cfg, start, es, k), es[k], t)
  }

  ghost function AcceptCount(cfg: Config, start: Db, es: seq<Event>, n: nat, t: Target): nat
    requires n <= |es|
  {
    if n == 0 then 0 else AcceptCount(cfg, start, es, n - 1, t) + if AcceptsAt(cfg, start, es, n - 1, t) then 1 else 0
  }

  /** How one event moves t's auction, as the run sees it. */
  lemma AuctionMoves(cfg: Config, start: Db, es: seq<Event>, n: nat, t: Target)
    requires n < |es| && AuctionOf(start, t).Some?
    ensures var a, b := AuctionAt(cfg, start, es, n, t), AuctionAt(cfg, start, es, n + 1, t);
            if AcceptsAt(cfg, start, es, n, t) then
              !Ended(a, es[n].now) && b == AfterBid(cfg, a, es[n].action.user.id, es[n].action.amount, es[n].now)
            else b == a
    ensures AuctionAt(cfg, start, es, n, t).bidCount > 0 ==>
        FloorAt(cfg, start, es, n + 1, t) == FloorAt(cfg, start, es, n, t)
  {
    hide Apply;
    AuctionPresent(cfg, start, es, n, t);
    AuctionPresent(cfg, start, es, n + 1, t);
    var db := StateAt(cfg, start, es, n);
    if AcceptsAt(cfg, start, es, n, t) {
      AcceptedBid(cfg, db, es[n], t);
    } else {
      AuctionUntouched(cfg, db, es[n], t);
    }
  }

  // ---- price and time ----------------------------------------------------------------------

  /** Each accepted bid pushes the end by at most the extension. */
  lemma {:induction false} EndBoundedByCount(cfg: Config, start: Db, es: seq<Event>, n: nat, t: Target)
    requires n <= |es| && AuctionOf(start, t).Some? && cfg.snipeExtension >= 0
    ensures var a, b := AuctionOf(start, t).value, AuctionAt(cfg, start, es, n, t);
            && b.bidCount == a.bidCount + AcceptCount(cfg, start, es, n, t)
            && (a.endAt.None? <==> b.endAt.None?)
            && (a.endAt.Some? ==>
               b.endAt.value <= a.endAt.value + cfg.snipeExtension * AcceptCount(cfg, start, es, n, t))
  {
    hide Apply, Accepts, AuctionOf;
    if n > 0 {
      EndBoundedByCount(cfg, start, es, n - 1, t);
      AuctionMoves(cfg, start, es, n - 1, t);
      var c := AcceptCount(cfg, start, es, n - 1, t);
      assert cfg.snipeExtension * (c + 1) == cfg.snipeExtension * c + cfg.snipeExtension;
    }
  }

  lemma ProductMonotone(a: int, b: int, k: int)
    requires k >= 0
    ensures a <= b ==> a * k <= b * k
  {
    if a <= b {
      assert (b - a) * k >= 0;
    }
  }

  lemma DivisionBound(count: int, spread: int, increment: int)
    requires increment > 0 && spread >= (count - 1) * increment
    ensures count <= 1 + spread / increment
  {
    var q := spread / increment;
    assert spread < (q + 1) * increment;
    ProductMonotone(q + 1, count - 1, increment);
  }

  lemma PriceCapsExtension(moved: int, extension: int, count: int, spread: int, increment: int)
    requires extension >= 0 && increment > 0 && spread >= (count - 1) * increment && moved <= extension * count
    ensures moved <= extension * (1 + spread / increment)
  {
    DivisionBound(count, spread, increment);
    ProductMonotone(count, 1 + spread / increment, extension);
    assert count * extension == extension * count;
    assert (1 + spread / increment) * extension == extension * (1 + spread / increment);
  }

  /** After n >= 1 accepted bids the price has climbed with the count, and the price reached bounds how
      far anti-snipe has moved the end: what anyone will pay caps how long the auction can run. */
  lemma PriceAndTimeBound(cfg: Config, start: Db, es: seq<Event>, n: nat, t: Target)
    requires PositiveIncrements(cfg) && cfg.snipeExtension >= 0 && AuctionInv(cfg, start) && n <= |es|
    requires AuctionOf(start, t).Some? && AuctionOf(start, t).value.bidCount == 0
    requires AcceptCount(cfg, start, es, n, t) >= 1
    ensures var a := AuctionAt(cfg, start, es, n, t);
            var floor := FloorAt(cfg, start, es, n, t);
            && a.bidCount == AcceptCount(cfg, start, es, n, t)
            && a.currentBid >= floor + (a.bidCount - 1) * Increment(cfg, t)
            && (AuctionOf(start, t).value.endAt.Some? ==>
                  && a.endAt.Some?
                  && a.endAt.value <= AuctionOf(start, t).value.endAt.value
                                      + cfg.snipeExtension * (1 + (a.currentBid - floor) / Increment(cfg, t)))
  {
    hide Apply, Accepts, LedgerAgrees, AcceptCount;
    LedgerAgreesInEveryState(cfg, start, es, n);
    EndBoundedByCount(cfg, start, es, n, t);
    AuctionPresent(cfg, start, es, n, t);
    var db := StateAt(cfg, start, es, n);
    assert TargetInv(cfg, db, t);
    var a, floor, end := AuctionAt(cfg, start, es, n, t), FloorAt(cfg, start, es, n, t),
        AuctionOf(start, t).value.endAt;
    if end.Some? {
      PriceCapsExtension(a.endAt.value - end.value, cfg.snipeExtension, a.bidCount, a.currentBid - floor,
          Increment(cfg, t));
    }
  }

  /** Once a bid stands, the floor it was measured against never moves again. */
  lemma {:induction false} FloorFrozen(cfg: Config, start: Db, es: seq<Event>, m: nat, n: nat, t: Target)
    requires m <= n <= |es| && AuctionOf(start, t).Some? && AuctionAt(cfg, start, es, m, t).bidCount > 0
    ensures FloorAt(cfg, start, es, n, t) == FloorAt(cfg, start, es, m, t)
    ensures AuctionAt(cfg, start, es, n, t).bidCount > 0
    decreases n
  {
    hide Apply, Accepts, AuctionOf, FloorOf;
    if m < n {
      FloorFrozen(cfg, start, es, m, n - 1, t);
      AuctionMoves(cfg, start, es, n - 1, t);
    }
  }

  /** A vehicle's extension counter never outruns its bid counter. */
  lemma {:induction false} ExtensionsWithinBids(cfg: Config, start: Db, es: seq<Event>, n: nat, v: VehicleId)
    requires n <= |es| && v in start.vehicles && start.vehicles[v].autoExtendCount <= start.vehicles[v].auction.bidCount
    ensures v in StateAt(cfg, start, es, n).vehicles
    ensures var row := StateAt(cfg, start, es, n).vehicles[v]; row.autoExtendCount <= row.auction.bidCount
  {
    hide Apply;
    if n > 0 {
      ExtensionsWithinBids(cfg, start, es, n - 1, v);
      VehicleView.VehicleStep(cfg, StateAt(cfg, start, es, n - 1), es[n - 1], v);
    }
  }

  // ---- anti-snipe -----------------------------------------------------------------------------

  function Min(a: int, b: int): int {
    if a < b then a else b
  }

  /** A bid accepted before the end then in force leaves everyone min(window, extension) to answer,
      whatever happens afterwards. */
  lemma {:induction false} TimeToAnswer(cfg: Config, start: Db, es: seq<Event>, i: nat, n: nat, t: Target)
    requires Ordered(es) && i < n <= |es| && AuctionOf(start, t).Some? && AcceptsAt(cfg, start, es, i, t)
    requires AuctionAt(cfg, start, es, i, t).endAt.Some? && es[i].now < AuctionAt(cfg, start, es, i, t).endAt.value
    ensures AuctionAt(cfg, start, es, n, t).endAt.Some?
    ensures AuctionAt(cfg, start, es, n, t).endAt.value >= es[i].now + Min(cfg.snipeWindow, cfg.snipeExtension)
    decreases n
  {
    hide Apply, Accepts, AuctionOf;
    AuctionMoves(cfg, start, es, n - 1, t);
    if i + 1 < n {
      TimeToAnswer(cfg, start, es, i, n - 1, t);
    }
  }

  /** With an extension no shorter than the window, the end never moves earlier. */
  lemma {:induction false} EndNeverMovesEarlier(cfg: Config, start: Db, es: seq<Event>, m: nat, n: nat, t: Target)
    requires cfg.snipeExtension >= cfg.snipeWindow && m <= n <= |es| && AuctionOf(start, t).Some?
    requires AuctionAt(cfg, start, es, m, t).endAt.Some?
    ensures AuctionAt(cfg, start, es, n, t).endAt.Some?
    ensures AuctionAt(cfg, start, es, m, t).endAt.value <= AuctionAt(cfg, start, es, n, t).endAt.value
    decreases n
  {
    hide Apply, Accepts, AuctionOf;
    if m < n {
      EndNeverMovesEarlier(cfg, start, es, m, n - 1, t);
      AuctionMoves(cfg, start, es, n - 1, t);
    }
  }

  /** With a shorter extension a bid placed late in the window moves the end earlier. */
  lemma ShortExtensionCutsTheEnd(cfg: Config, start: Db, e: Event, t: Target)
    requires Accepts(cfg, start, e, t)
    ensures AuctionOf(start, t).Some? && AuctionOf(Apply(cfg, start, e).db, t).Some?
    ensures var end, end' := AuctionOf(start, t).value.endAt, AuctionOf(Apply(cfg, start, e).db, t).value.endAt;
            end.Some? ==> (end'.Some? && (end'.value < end.value <==>
              0 < end.value - e.now < cfg.snipeWindow && cfg.snipeExtension < end.value - e.now))
  {
    hide Apply;
    AcceptedBid(cfg, start, e, t);
  }

  // ---- the result of a closed auction ------------------------------------------------------------

  /** Once the clock has passed the end, the auction row never changes again. */
  lemma {:induction false} FrozenOnceOver(cfg: Config, start: Db, es: seq<Event>, m: nat, n: nat, t: Target)
    requires Ordered(es) && m <= n <= |es| && m < |es| && AuctionOf(start, t).Some?
    requires Ended(AuctionAt(cfg, start, es, m, t), es[m].now)
    ensures AuctionAt(cfg, start, es, n, t) == AuctionAt(cfg, start, es, m, t)
    decreases n
  {
    hide Apply, Accepts, AuctionOf;
    if m < n {
      FrozenOnceOver(cfg, start, es, m, n - 1, t);
      AuctionMoves(cfg, start, es, n - 1, t);
    }
  }
}
