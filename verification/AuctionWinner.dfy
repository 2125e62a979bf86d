/** L1 theorem: who may check an auction vehicle out, and at what price, is settled by the clock. */
module AuctionWinner {
  import opened Rows
  import opened AttemptGate
  import opened BidsSpec
  import opened OrdersSpec
  import opened Machine
  import opened AuctionView
  import opened Auctions
  import opened OrderView
  import opened VehicleView
  import opened SalesTheory
  import opened SalesRuns
  import SweepTransparency

  /** Event i checks vehicle v out while it is an AUCTION listing, creating order o. */
  ghost predicate AuctionCheckoutAt(cfg: Config, start: Db, es: seq<Event>, i: nat, v: VehicleId, o: OrderId) {
    && i < |es|
    && ChecksOut(es[i].action, OutcomeAt(cfg, start, es, i), o)
    && es[i].action.vehicle == v
    && v in StateAt(cfg, start, es, i).vehicles
    && StateAt(cfg, start, es, i).vehicles[v].saleType == SaleType.Auction
  }

  /** The clock has passed the end, not merely reached it. */
  ghost predicate PastTheEnd(cfg: Config, start: Db, es: seq<Event>, i: nat, v: VehicleId) {
    i < |es| && v in StateAt(cfg, start, es, i).vehicles
        && Ended(StateAt(cfg, start, es, i).vehicles[v].auction, es[i].now)
  }

  /** The order takes the auction row's bidder and price. */
  lemma OrderTakesTheRow(cfg: Config, start: Db, es: seq<Event>, i: nat, v: VehicleId, o: OrderId)
    requires AuctionCheckoutAt(cfg, start, es, i, v, o)
    ensures var a := StateAt(cfg, start, es, i).vehicles[v].auction;
            && o in StateAt(cfg, start, es, i + 1).sales.orders
            && var row := StateAt(cfg, start, es, i + 1).sales.orders[o];
               a.currentBidder == Some(row.buyer) && row.base == a.currentBid
  {
    hide Apply;
    CheckoutStep(cfg, StateAt(cfg, start, es, i), es[i], o);
  }

  lemma WinnerOfRow(a: AuctionState, rows: seq<Bid>, increment: int)
    requires LedgerAgrees(a, rows, increment) && increment > 0 && a.currentBidder.Some?
    ensures rows != []
    ensures var best := rows[|rows| - 1];
            && a.currentBidder == Some(best.bidder) && a.currentBid == best.amount && best.isWinning
            && forall k :: 0 <= k < |rows| - 1 ==> rows[k].amount < best.amount
  {
  }

  lemma TargetInvHolds(cfg: Config, db: Db, t: Target)
    requires AuctionInv(cfg, db) && AuctionOf(db, t).Some?
    ensures LedgerAgrees(AuctionOf(db, t).value, BidsOn(db.bids, t), Increment(cfg, t))
  {
  }

  /** A checkout past the end, seen at any later moment n: the order still names the bidder and the amount of the
      highest bid ever accepted on the vehicle, and no bid accepted later can change that. */
  lemma WinnerSettledByClock(cfg: Config, start: Db, es: seq<Event>, i: nat, n: nat, v: VehicleId, o: OrderId)
    requires PositiveIncrements(cfg) && AuctionInv(cfg, start) && SalesInv(start.sales) && Ordered(es)
    requires v in start.vehicles && i < n <= |es|
    requires AuctionCheckoutAt(cfg, start, es, i, v, o) && PastTheEnd(cfg, start, es, i, v)
    ensures o in StateAt(cfg, start, es, n).sales.orders
    ensures var row := StateAt(cfg, start, es, n).sales.orders[o];
            var rows := BidsOn(StateAt(cfg, start, es, n).bids, OnVehicle(v));
            && AuctionAt(cfg, start, es, n, OnVehicle(v)).currentBidder == Some(row.buyer)
            && AuctionAt(cfg, start, es, n, OnVehicle(v)).currentBid == row.base
            && rows != [] && rows[|rows| - 1].bidder == row.buyer && rows[|rows| - 1].amount == row.base
            && forall k :: 0 <= k < |rows| - 1 ==> rows[k].amount < row.base
  {
    hide Apply, SalesInv, SoundMove, AuctionInv, LedgerAgrees;
    var t := OnVehicle(v);
    OrderTakesTheRow(cfg, start, es, i, v, o);
    FrozenOnceOver(cfg, start, es, i, n, t);
    SalesInvAlways(cfg, start, es, i + 1);
    SalesStretch(cfg, start, es, i + 1, n);
    SoundMoveGives(StateAt(cfg, start, es, i + 1).sales, StateAt(cfg, start, es, n).sales);
    LedgerAgreesInEveryState(cfg, start, es, n);
    AuctionPresent(cfg, start, es, n, t);
    TargetInvHolds(cfg, StateAt(cfg, start, es, n), t);
    WinnerOfRow(AuctionAt(cfg, start, es, n, t), BidsOn(StateAt(cfg, start, es, n).bids, t), Increment(cfg, t));
  }

  /** So any two such orders have the same buyer and the same base price. */
  lemma OneWinnerOnePrice(cfg: Config, start: Db, es: seq<Event>, i: nat, j: nat, v: VehicleId, o: OrderId, q: OrderId)
    requires PositiveIncrements(cfg) && AuctionInv(cfg, start) && SalesInv(start.sales) && Ordered(es)
    requires v in start.vehicles
    requires AuctionCheckoutAt(cfg, start, es, i, v, o) && PastTheEnd(cfg, start, es, i, v)
    requires AuctionCheckoutAt(cfg, start, es, j, v, q) && PastTheEnd(cfg, start, es, j, v)
    ensures o in StateAt(cfg, start, es, |es|).sales.orders && q in StateAt(cfg, start, es, |es|).sales.orders
    ensures StateAt(cfg, start, es, |es|).sales.orders[o].buyer == StateAt(cfg, start, es, |es|).sales.orders[q].buyer
    ensures StateAt(cfg, start, es, |es|).sales.orders[o].base == StateAt(cfg, start, es, |es|).sales.orders[q].base
  {
    hide Apply, SalesInv, AuctionInv;
    WinnerSettledByClock(cfg, start, es, i, |es|, v, o);
    WinnerSettledByClock(cfg, start, es, j, |es|, v, q);
  }

  lemma DeadlineBidGoesThrough(cfg: Config, db: Db, user: User, v: VehicleId, amount: int, end: Time)
    requires v in db.vehicles && PassesGate(cfg, db.counters, BidGate(user.id), end) && amount > 0
    requires var row := db.vehicles[v];
             && row.saleType == SaleType.Auction && row.status == Live && row.auction.endAt == Some(end)
             && 0 < row.auction.currentBid && amount == row.auction.currentBid + cfg.vehicleIncrement
             && !IsOwnStaff(user, row.bankId)
    ensures var after := Apply(cfg, db, Event(Action.BidOnVehicle(user, v, amount), end)).db;
            && after.sales == db.sales && v in after.vehicles
            && after.vehicles[v] == db.vehicles[v].(auction := Placed(db.vehicles[v].auction, user.id, amount))
  {
  }

  /** At the very millisecond of the end both a checkout and a bid go through: the bidder who is overtaken
      after checking out and the one who overtakes both get an order, at different prices. */
  lemma TwoWinnersAtTheDeadline(cfg: Config, start: Db, v: VehicleId, first: User, second: User, amount: int,
                                ids: FreshIds, ids': FreshIds, end: Time, feeBp: int, gstBp: int)
    requires v in start.vehicles && PositiveIncrements(cfg)
    requires var row := start.vehicles[v];
             && row.saleType == SaleType.Auction && row.status == Live && row.auction.endAt == Some(end)
             && row.auction.currentBidder == Some(first.id) && 0 < row.auction.currentBid
             && amount == row.auction.currentBid + cfg.vehicleIncrement
             && !IsOwnStaff(second, row.bankId)
    requires first.id != second.id && PassesGate(cfg, start.counters, BidGate(second.id), end)
    requires !HasOpenOrder(start.sales.orders, v, first.id) && !HasOpenOrder(start.sales.orders, v, second.id)
    requires IdsFree(start.sales.orders, start.sales.payments, ids)
    requires IdsFree(start.sales.orders, start.sales.payments, ids')
    requires ids.rzOrder.Some? && ids'.rzOrder.Some? && ids.order != ids'.order && ids.payment != ids'.payment
    requires ids.pass != ids'.pass && ids.rzOrder != ids'.rzOrder
    ensures var es := [Event(StartCheckout(first, v, ids, feeBp, gstBp), end),
                       Event(Action.BidOnVehicle(second, v, amount), end),
                       Event(StartCheckout(second, v, ids', feeBp, gstBp), end)];
            && Ordered(es)
            && AuctionCheckoutAt(cfg, start, es, 0, v, ids.order) && AuctionCheckoutAt(cfg, start, es, 2, v, ids'.order)
            && var orders := StateAt(cfg, start, es, 3).sales.orders;
               && ids.order in orders && ids'.order in orders
               && orders[ids.order].buyer == first.id && orders[ids'.order].buyer == second.id
               && orders[ids.order].base < orders[ids'.order].base
  {
    hide Apply, CheckedOutRow;
    var e0 := Event(StartCheckout(first, v, ids, feeBp, gstBp), end);
    var e1 := Event(Action.BidOnVehicle(second, v, amount), end);
    var e2 := Event(StartCheckout(second, v, ids', feeBp, gstBp), end);
    var es := [e0, e1, e2];
    var s1, s2, s3 := StateAt(cfg, start, es, 1), StateAt(cfg, start, es, 2), StateAt(cfg, start, es, 3);
    assert s1 == Apply(cfg, start, es[0]).db && s2 == Apply(cfg, s1, es[1]).db && s3 == Apply(cfg, s2, es[2]).db by {
      assert StateAt(cfg, start, es, 0) == start;
    }
    CheckoutGoesThrough(cfg, start, first, v, ids, feeBp, gstBp, end);
    DeadlineBidGoesThrough(cfg, s1, second, v, amount, end);
    NotBlockedByOthers(start.sales.orders, s1.sales.orders, ids, ids', start.sales.payments, s1.sales.payments, v,
        second.id);
    CheckoutGoesThrough(cfg, s2, second, v, ids', feeBp, gstBp, end);
  }

  // ---- the exact condition ---------------------------------------------------------------------------

  predicate OrderedAs(orders: Orders, o: OrderId, buyer: UserId, base: int) {
    o in orders && orders[o].buyer == buyer && orders[o].base == base
  }

  /** In every continuation all auction checkouts of v go to this buyer at this base price. */
  ghost predicate OneWinnerFrom(cfg: Config, db: Db, v: VehicleId, buyer: UserId, base: int, since: Time) {
    forall es: seq<Event>, i: nat, o ::
      Ordered(es) && i < |es| && since <= es[0].now && AuctionCheckoutAt(cfg, db, es, i, v, o)
      ==> OrderedAs(StateAt(cfg, db, es, i + 1).sales.orders, o, buyer, base)
  }

  /** No bid can be placed on the row: it is closed for good, or was never open at this reading. */
  predicate Closed(row: Vehicle, now: Time) {
    Ended(row.auction, now) || row.status != Live
  }

  /** A row that takes no bids, and that no modelled call makes LIVE. */
  predicate StaysClosed(row: Vehicle) {
    row.saleType == LotSale || (row.saleType == SaleType.Auction && row.status != Live && row.status != OnHold)
  }

  lemma {:induction false} ClosedStaysClosed(cfg: Config, start: Db, es: seq<Event>, n: nat, v: VehicleId)
    requires n <= |es| && v in start.vehicles && StaysClosed(start.vehicles[v])
    ensures v in StateAt(cfg, start, es, n).vehicles && StaysClosed(StateAt(cfg, start, es, n).vehicles[v])
    ensures StateAt(cfg, start, es, n).vehicles[v].auction == start.vehicles[v].auction
  {
    hide Apply;
    if n > 0 {
      ClosedStaysClosed(cfg, start, es, n - 1, v);
      VehicleStep(cfg, StateAt(cfg, start, es, n - 1), es[n - 1], v);
    }
  }

  lemma AuctionRowKept(cfg: Config, db: Db, es: seq<Event>, i: nat, v: VehicleId, since: Time)
    requires Ordered(es) && i < |es| && since <= es[0].now && v in db.vehicles
    requires Closed(db.vehicles[v], since) && SweepTransparency.Unheld(db.vehicles[v])
    requires db.vehicles[v].saleType == SaleType.Auction
    ensures v in StateAt(cfg, db, es, i).vehicles
    ensures StateAt(cfg, db, es, i).vehicles[v].auction == db.vehicles[v].auction
  {
    hide Apply;
    if Ended(db.vehicles[v].auction, since) {
      FrozenOnceOver(cfg, db, es, 0, i, OnVehicle(v));
      AuctionPresent(cfg, db, es, i, OnVehicle(v));
    } else {
      ClosedStaysClosed(cfg, db, es, i, v);
    }
  }

  lemma CheckoutInRange(cfg: Config, start: Db, es: seq<Event>, i: nat, v: VehicleId, o: OrderId)
    requires AuctionCheckoutAt(cfg, start, es, i, v, o)
    ensures i < |es| && v in StateAt(cfg, start, es, i).vehicles
  {
  }

  lemma ClosedHasOneWinner(cfg: Config, db: Db, v: VehicleId, buyer: UserId, since: Time)
    requires v in db.vehicles && db.vehicles[v].saleType == SaleType.Auction && SweepTransparency.Unheld(db.vehicles[v])
    requires Closed(db.vehicles[v], since) && db.vehicles[v].auction.currentBidder == Some(buyer)
    ensures OneWinnerFrom(cfg, db, v, buyer, db.vehicles[v].auction.currentBid, since)
  {
    hide Apply, AuctionCheckoutAt;
    forall es: seq<Event>, i: nat, o
      | Ordered(es) && i < |es| && since <= es[0].now && AuctionCheckoutAt(cfg, db, es, i, v, o)
      ensures OrderedAs(StateAt(cfg, db, es, i + 1).sales.orders, o, buyer, db.vehicles[v].auction.currentBid)
    {
      CheckoutInRange(cfg, db, es, i, v, o);
      AuctionRowKept(cfg, db, es, i, v, since);
      OrderTakesTheRow(cfg, db, es, i, v, o);
    }
  }

  /** At the deadline of a LIVE listing another bidder can still overtake and check out. */
  lemma OvertakenAtTheDeadline(cfg: Config, db: Db, v: VehicleId, buyer: UserId, second: User, ids: FreshIds,
                               feeBp: int, gstBp: int, end: Time)
    requires v in db.vehicles && PositiveIncrements(cfg) && second.id != buyer
    requires var row := db.vehicles[v];
             && row.saleType == SaleType.Auction && row.status == Live && row.auction.endAt == Some(end)
             && row.auction.currentBidder == Some(buyer) && 0 < row.auction.currentBid
                && !IsOwnStaff(second, row.bankId)
    requires PassesGate(cfg, db.counters, BidGate(second.id), end)
    requires !HasOpenOrder(db.sales.orders, v, second.id) && IdsFree(db.sales.orders, db.sales.payments, ids)
    requires ids.rzOrder.Some?
    ensures !OneWinnerFrom(cfg, db, v, buyer, db.vehicles[v].auction.currentBid, end)
  {
    hide Apply, HasOpenOrder, IdsFree, PassesGate;
    var amount := db.vehicles[v].auction.currentBid + cfg.vehicleIncrement;
    var es := [Event(Action.BidOnVehicle(second, v, amount), end),
        Event(StartCheckout(second, v, ids, feeBp, gstBp), end)];
    assert StateAt(cfg, db, es, 0) == db;
    DeadlineBidGoesThrough(cfg, db, second, v, amount, end);
    var s1 := StateAt(cfg, db, es, 1);
    assert s1 == Apply(cfg, db, es[0]).db;
    CheckoutGoesThrough(cfg, s1, second, v, ids, feeBp, gstBp, end);
    assert StateAt(cfg, db, es, 2) == Apply(cfg, s1, es[1]).db;
    assert AuctionCheckoutAt(cfg, db, es, 1, v, ids.order);
    assert !OrderedAs(StateAt(cfg, db, es, 2).sales.orders, ids.order, buyer, db.vehicles[v].auction.currentBid);
  }

  lemma AcceptedCheckout(cfg: Config, db: Db, user: User, v: VehicleId, ids: FreshIds, feeBp: int, gstBp: int,
                         now: Time)
    requires var s := Apply(cfg, db, Event(StartCheckout(user, v, ids, feeBp, gstBp), now)); s.out.Ok?
    ensures var after := Apply(cfg, db, Event(StartCheckout(user, v, ids, feeBp, gstBp), now)).db;
            && v in db.vehicles && Entitlement(db.vehicles[v], user.id, now).Success?
            && !HasOpenOrder(db.sales.orders, v, user.id) && IdsFree(db.sales.orders, db.sales.payments, ids)
               && ids.rzOrder.Some?
            && after.vehicles == db.vehicles && after.counters == db.counters && after.bids == db.bids
  {
    hide Entitlement, HasOpenOrder, OrderIdsFree, PaymentIdsFree;
  }

  lemma BidderMeansPrice(cfg: Config, db: Db, v: VehicleId)
    requires PositiveIncrements(cfg) && AuctionInv(cfg, db) && v in db.vehicles
    requires db.vehicles[v].auction.currentBidder.Some?
    ensures db.vehicles[v].auction.currentBid > 0
  {
    TargetInvHolds(cfg, db, OnVehicle(v));
  }

  /** The exact condition, for an accepted auction checkout and another bidder who passes the gate: every later
      auction checkout of the vehicle has the same buyer and base price if and only if the clock is past the end
      or the listing is not LIVE. */
  lemma OneWinnerIffClosed(cfg: Config, db: Db, user: User, v: VehicleId, ids: FreshIds, feeBp: int, gstBp: int,
                           now: Time,
                           second: User, ids': FreshIds)
    requires PositiveIncrements(cfg) && AuctionInv(cfg, db)
    requires v in db.vehicles && db.vehicles[v].saleType == SaleType.Auction && SweepTransparency.Unheld(db.vehicles[v])
    requires Apply(cfg, db, Event(StartCheckout(user, v, ids, feeBp, gstBp), now)).out.Ok?
    requires second.id != user.id && !IsOwnStaff(second, db.vehicles[v].bankId)
    requires PassesGate(cfg, db.counters, BidGate(second.id), now) && !HasOpenOrder(db.sales.orders, v, second.id)
    requires IdsFree(db.sales.orders, db.sales.payments, ids') && ids'.rzOrder.Some?
    requires ids.order != ids'.order && ids.payment != ids'.payment && ids.pass != ids'.pass
    requires ids.rzOrder != ids'.rzOrder
    ensures var after := Apply(cfg, db, Event(StartCheckout(user, v, ids, feeBp, gstBp), now)).db;
            Closed(db.vehicles[v], now) <==>
              OneWinnerFrom(cfg, after, v, user.id, db.vehicles[v].auction.currentBid, now)
  {
    hide Apply, AuctionInv, HasOpenOrder, IdsFree, PassesGate, OneWinnerFrom;
    var after := Apply(cfg, db, Event(StartCheckout(user, v, ids, feeBp, gstBp), now)).db;
    AcceptedCheckout(cfg, db, user, v, ids, feeBp, gstBp, now);
    if Closed(db.vehicles[v], now) {
      ClosedHasOneWinner(cfg, after, v, user.id, now);
    } else {
      BidderMeansPrice(cfg, db, v);
      CheckoutGoesThrough(cfg, db, user, v, ids, feeBp, gstBp, now);
      NotBlockedByOthers(db.sales.orders, after.sales.orders, ids, ids', db.sales.payments, after.sales.payments, v,
          second.id);
      OvertakenAtTheDeadline(cfg, after, v, user.id, second, ids', feeBp, gstBp, now);
    }
  }
}
