/** L1 theorems about second checkouts: a vehicle of any sale type is sold at most once exactly when no checkout is
    accepted while an order on it can still be paid or has been. */
module RepeatCheckouts {
  import opened Rows
  import opened OrdersSpec
  import opened Machine
  import opened AuctionView
  import opened Auctions
  import opened AuctionWinner
  import opened SalesTheory
  import opened SalesRuns
  import opened OrderView
  import opened VehicleView
  import opened Lifecycle
  import opened NoDoubleSale

  /** The order can still be paid, or has been. */
  ghost predicate Claims(s: Sales, o: OrderId, v: VehicleId) {
    Payable(s, o, v) || SettledOn(s, o, v)
  }

  ghost predicate Unclaimed(s: Sales, v: VehicleId) {
    forall o :: !Claims(s, o, v)
  }

  ghost predicate OneClaim(s: Sales, v: VehicleId) {
    forall o, q :: Claims(s, o, v) && Claims(s, q, v) ==> o == q
  }

  predicate ChecksOutVehicle(a: Action, out: Outcome, v: VehicleId) {
    a.StartCheckout? && a.vehicle == v && out.Ok?
  }

  /** A checkout of v accepted at this step finds the vehicle unclaimed. */
  ghost predicate CleanCheckout(cfg: Config, db: Db, e: Event, v: VehicleId) {
    ChecksOutVehicle(e.action, Apply(cfg, db, e).out, v) ==> Unclaimed(db.sales, v)
  }

  /** Unless it is created by this step, an order that claims the vehicle claimed it before. */
  lemma ClaimBefore(cfg: Config, db: Db, e: Event, o: OrderId, v: VehicleId)
    requires SalesInv(db.sales) && Claims(Apply(cfg, db, e).db.sales, o, v)
    ensures if o in db.sales.orders then Claims(db.sales, o, v)
            else ChecksOutVehicle(e.action, Apply(cfg, db, e).out, v) && e.action.ids.order == o
  {
    hide Apply, SalesInv, HasPendingPayment;
    if Payable(Apply(cfg, db, e).db.sales, o, v) {
      PayableBefore(cfg, db, e, o, v);
    } else {
      SettledBefore(cfg, db, e, o, v);
    }
  }

  lemma OneClaimStep(cfg: Config, db: Db, e: Event, v: VehicleId)
    requires SalesInv(db.sales) && OneClaim(db.sales, v) && CleanCheckout(cfg, db, e, v)
    ensures OneClaim(Apply(cfg, db, e).db.sales, v)
  {
    hide Apply, SalesInv, Claims;
    var t := Apply(cfg, db, e).db.sales;
    forall o, q | Claims(t, o, v) && Claims(t, q, v) ensures o == q {
      ClaimBefore(cfg, db, e, o, v);
      ClaimBefore(cfg, db, e, q, v);
    }
  }

  // ---- over a run --------------------------------------------------------------------------------------

  ghost predicate CleanCheckouts(cfg: Config, start: Db, es: seq<Event>, v: VehicleId) {
    forall i: nat :: i < |es| ==> CleanCheckout(cfg, StateAt(cfg, start, es, i), es[i], v)
  }

  lemma {:induction false} OneClaimAlways(cfg: Config, start: Db, es: seq<Event>, n: nat, v: VehicleId)
    requires SalesInv(start.sales) && OneClaim(start.sales, v) && CleanCheckouts(cfg, start, es, v) && n <= |es|
    ensures OneClaim(StateAt(cfg, start, es, n).sales, v)
  {
    hide Apply, SalesInv, OneClaim, CleanCheckout;
    if n > 0 {
      OneClaimAlways(cfg, start, es, n - 1, v);
      SalesInvAlways(cfg, start, es, n - 1);
      OneClaimStep(cfg, StateAt(cfg, start, es, n - 1), es[n - 1], v);
    }
  }

  lemma SaleInRange(cfg: Config, start: Db, es: seq<Event>, i: nat, o: OrderId, v: VehicleId)
    requires SellsAt(cfg, start, es, i, o, v)
    ensures i < |es|
  {
  }

  lemma PayableNotSettled(s: Sales, o: OrderId, v: VehicleId)
    requires Payable(s, o, v)
    ensures !SettledOn(s, o, v)
  {
  }

  /** In a run whose checkouts of the vehicle are clean it is sold at most once, whatever its sale type. */
  lemma SoldOnceIfCheckedOutClean(cfg: Config, start: Db, es: seq<Event>, v: VehicleId,
                                  i: nat, j: nat, o: OrderId, q: OrderId)
    requires SalesInv(start.sales) && OneClaim(start.sales, v) && CleanCheckouts(cfg, start, es, v)
    requires SellsAt(cfg, start, es, i, o, v) && SellsAt(cfg, start, es, j, q, v)
    ensures i == j && o == q
  {
    hide Apply, SalesInv, CleanCheckouts, Payable, SellsAt;
    SellsWhatIsPayable(cfg, start, es, i, o, v);
    SellsWhatIsPayable(cfg, start, es, j, q, v);
    SaleInRange(cfg, start, es, i, o, v);
    SaleInRange(cfg, start, es, j, q, v);
    var last := if i < j then j else i;
    OneClaimAlways(cfg, start, es, last, v);
    var s := StateAt(cfg, start, es, last).sales;
    if i < j {
      SettledStays(cfg, start, es, i + 1, j, o, v);
    } else if j < i {
      SettledStays(cfg, start, es, j + 1, i, q, v);
    }
    assert Claims(s, o, v) && Claims(s, q, v);
    PayableNotSettled(s, if i < j then q else o, v);
  }

  // ---- the exact condition at a checkout -----------------------------------------------------------------

  ghost predicate OneSettled(s: Sales, v: VehicleId) {
    forall o, q :: SettledOn(s, o, v) && SettledOn(s, q, v) ==> o == q
  }

  /** No continuation with clean checkouts ever shows two settled orders on the vehicle. */
  ghost predicate NeverSoldAgain(cfg: Config, db: Db, v: VehicleId, since: Time) {
    forall es: seq<Event> :: Ordered(es) && (es != [] ==> since <= es[0].now) && CleanCheckouts(cfg, db, es, v)
      ==> OneSettled(StateAt(cfg, db, es, |es|).sales, v)
  }

  lemma OneClaimGives(s: Sales, v: VehicleId)
    requires OneClaim(s, v)
    ensures OneSettled(s, v)
  {
    hide Payable, SettledOn;
    forall o, q | SettledOn(s, o, v) && SettledOn(s, q, v) ensures o == q {
      assert Claims(s, o, v) && Claims(s, q, v);
    }
  }

  lemma UnclaimedIsOneClaim(s: Sales, v: VehicleId)
    requires Unclaimed(s, v)
    ensures OneClaim(s, v)
  {
    hide Claims;
  }

  lemma CleanCheckoutIsSafe(cfg: Config, db: Db, e: Event, v: VehicleId)
    requires SalesInv(db.sales) && OneClaim(db.sales, v) && CleanCheckout(cfg, db, e, v)
    ensures NeverSoldAgain(cfg, Apply(cfg, db, e).db, v, e.now)
  {
    hide Apply, SalesInv, OneClaim, OneSettled, CleanCheckout, SoundMove, CleanCheckouts;
    var after := Apply(cfg, db, e).db;
    SalesStep(cfg, db, e);
    SoundMoveGives(db.sales, after.sales);
    OneClaimStep(cfg, db, e, v);
    forall es: seq<Event> | CleanCheckouts(cfg, after, es, v)
      ensures OneSettled(StateAt(cfg, after, es, |es|).sales, v)
    {
      OneClaimAlways(cfg, after, es, |es|, v);
      OneClaimGives(StateAt(cfg, after, es, |es|).sales, v);
    }
  }

  /** The values two payments draw are free, and the rows they update exist. */
  ghost predicate PaymentsFree(db: Db, v: VehicleId, q: OrderId, rzFirst: string, rzSecond: string, year: int) {
    && v in db.vehicles && q in db.sales.orders && rzFirst != rzSecond && NumbersOwn(db.sales, year)
    && (forall p | p in db.sales.payments ::
          db.sales.payments[p].rzPaymentId != Some(rzFirst) && db.sales.payments[p].rzPaymentId != Some(rzSecond))
    && (forall o :: OrderOn(db.sales.orders, o, v) ==> db.sales.orders[o].bankId in db.sales.banks)
    && (forall o :: OrderOn(db.sales.orders, o, v) && o != q ==>
          db.sales.orders[o].pass.last != db.sales.orders[q].pass.last)
  }

  function Checkout(user: User, v: VehicleId, ids: FreshIds, feeBp: int, gstBp: int, now: Time): Event {
    Event(StartCheckout(user, v, ids, feeBp, gstBp), now)
  }

  /** An accepted checkout leaves its own order payable, and every claim there was. */
  lemma ClaimsAfterCheckout(cfg: Config, db: Db, user: User, v: VehicleId, ids: FreshIds, feeBp: int, gstBp: int,
                            now: Time)
    requires Apply(cfg, db, Checkout(user, v, ids, feeBp, gstBp, now)).out.Ok? && Truthy(ids.rzOrder)
    ensures var t := Apply(cfg, db, Checkout(user, v, ids, feeBp, gstBp, now)).db.sales;
            && ids.order !in db.sales.orders && Payable(t, ids.order, v) && t.orders[ids.order].buyer == user.id
            && (forall o :: Payable(db.sales, o, v) ==> Payable(t, o, v) && t.orders[o] == db.sales.orders[o])
            && (forall o :: SettledOn(db.sales, o, v) ==> SettledOn(t, o, v))
  {
    hide Apply, Entitlement, HasOpenOrder;
    AcceptedCheckout(cfg, db, user, v, ids, feeBp, gstBp, now);
    CheckoutGoesThrough(cfg, db, user, v, ids, feeBp, gstBp, now);
    var t := Apply(cfg, db, Checkout(user, v, ids, feeBp, gstBp, now)).db.sales;
    assert IsPendingFor(t.payments, ids.payment, ids.order);
    forall o | Payable(db.sales, o, v) ensures Payable(t, o, v) && t.orders[o] == db.sales.orders[o] {
      NewOrderPayable(db.sales, t, o, v, ids);
    }
  }

  lemma NoCheckoutIsClean(cfg: Config, db: Db, e: Event, v: VehicleId)
    requires e.action.VerifyPayment?
    ensures CleanCheckout(cfg, db, e, v)
  {
    hide Apply;
  }

  lemma PaysNow(cfg: Config, db: Db, v: VehicleId, q: OrderId, rzPayment: string, year: int, now: Time)
    requires SalesInv(db.sales) && v in db.vehicles && Payable(db.sales, q, v)
    requires db.sales.orders[q].bankId in db.sales.banks
    requires forall p | p in db.sales.payments :: db.sales.payments[p].rzPaymentId != Some(rzPayment)
    requires forall i | 0 <= i < |db.sales.invoices| ::
               db.sales.invoices[i].number != NumberFor(db.sales.orders[q], year)
    ensures Apply(cfg, db,
        Event(Action.VerifyPayment(User(db.sales.orders[q].buyer, Buyer, None), q, rzPayment, true, year), now)).out
         == Ok(Settled)
  {
    hide SalesInv, HasPendingPayment, OrdersSpec.VerifyPayment;
    SettlesIffPayable(db, db.sales.orders[q].buyer, q, rzPayment, year, now);
  }

  lemma FirstState(cfg: Config, db: Db, es: seq<Event>)
    ensures StateAt(cfg, db, es, 0) == db
    ensures |es| > 0 ==> StateAt(cfg, db, es, 1) == Apply(cfg, db, es[0]).db
    ensures |es| > 1 ==> StateAt(cfg, db, es, 2) == Apply(cfg, StateAt(cfg, db, es, 1), es[1]).db
  {
    hide Apply;
  }

  /** With a settled order beside it, one payment makes two. */
  lemma OnePaymentMakesTwo(cfg: Config, db: Db, v: VehicleId, o: OrderId, q: OrderId,
                           rzFirst: string, rzSecond: string, year: int, now: Time)
    requires SalesInv(db.sales) && PaymentsFree(db, v, q, rzFirst, rzSecond, year)
    requires SettledOn(db.sales, o, v) && Payable(db.sales, q, v)
    ensures !NeverSoldAgain(cfg, db, v, now)
  {
    hide Apply, SalesInv, HasPendingPayment, CleanCheckout, StateAt;
    var es := [Event(Action.VerifyPayment(User(db.sales.orders[q].buyer, Buyer, None), q, rzSecond, true, year), now)];
    NumberIsFree(db.sales, q, year);
    PaysNow(cfg, db, v, q, rzSecond, year, now);
    FirstState(cfg, db, es);
    NoCheckoutIsClean(cfg, db, es[0], v);
    SellsWhatIsPayable(cfg, db, es, 0, q, v);
    SettledStays(cfg, db, es, 0, 1, o, v);
    PayableNotSettled(db.sales, q, v);
    assert !OneSettled(StateAt(cfg, db, es, 1).sales, v);
  }

  /** With another payable order beside it, two payments make two. */
  lemma TwoPaymentsMakeTwo(cfg: Config, db: Db, v: VehicleId, o: OrderId, q: OrderId,
                           rzFirst: string, rzSecond: string, year: int, now: Time)
    requires SalesInv(db.sales) && PaymentsFree(db, v, q, rzFirst, rzSecond, year)
    requires Payable(db.sales, o, v) && Payable(db.sales, q, v) && o != q
    ensures !NeverSoldAgain(cfg, db, v, now)
  {
    hide Apply, SalesInv, HasPendingPayment, CleanCheckout, StateAt;
    var first, second := User(db.sales.orders[o].buyer, Buyer, None), User(db.sales.orders[q].buyer, Buyer, None);
    var es := [Event(Action.VerifyPayment(first, o, rzFirst, true, year), now),
               Event(Action.VerifyPayment(second, q, rzSecond, true, year), now)];
    NumberIsFree(db.sales, o, year);
    NumberIsFree(db.sales, q, year);
    BothCanPay(cfg, db, v, o, q, first, second, rzFirst, rzSecond, year, now);
    FirstState(cfg, db, es);
    forall i: nat | i < |es| ensures CleanCheckout(cfg, StateAt(cfg, db, es, i), es[i], v) {
      NoCheckoutIsClean(cfg, StateAt(cfg, db, es, i), es[i], v);
    }
    SellsWhatIsPayable(cfg, db, es, 0, o, v);
    SellsWhatIsPayable(cfg, db, es, 1, q, v);
    SettledStays(cfg, db, es, 1, 2, o, v);
    assert !OneSettled(StateAt(cfg, db, es, 2).sales, v);
  }

  lemma FoundUnclaimed(cfg: Config, db: Db, e: Event, v: VehicleId)
    requires Unclaimed(db.sales, v)
    ensures CleanCheckout(cfg, db, e, v)
  {
    hide Apply;
  }

  lemma ClaimantExists(s: Sales, o: OrderId, v: VehicleId)
    requires Claims(s, o, v)
    ensures OrderOn(s.orders, o, v)
  {
  }

  /** The exact condition, for any sale type: an accepted checkout can never lead to a second sale if and only if,
      when it is accepted, no order on the vehicle can still be paid or has been. */
  lemma CheckoutIsSafeIffUnclaimed(cfg: Config, db: Db, user: User, v: VehicleId, ids: FreshIds, feeBp: int, gstBp: int,
                                   now: Time, rzFirst: string, rzSecond: string, year: int)
    requires SalesInv(db.sales)
    requires Apply(cfg, db, Checkout(user, v, ids, feeBp, gstBp, now)).out.Ok? && Truthy(ids.rzOrder)
    requires PaymentsFree(Apply(cfg, db, Checkout(user, v, ids, feeBp, gstBp, now)).db, v, ids.order, rzFirst,
        rzSecond, year)
    ensures NeverSoldAgain(cfg, Apply(cfg, db, Checkout(user, v, ids, feeBp, gstBp, now)).db, v, now)
       <==> Unclaimed(db.sales, v)
  {
    hide Apply, SalesInv, Payable, SettledOn, CleanCheckout, NeverSoldAgain, PaymentsFree, SoundMove;
    var e := Checkout(user, v, ids, feeBp, gstBp, now);
    var after := Apply(cfg, db, e).db;
    if Unclaimed(db.sales, v) {
      UnclaimedIsOneClaim(db.sales, v);
      FoundUnclaimed(cfg, db, e, v);
      CleanCheckoutIsSafe(cfg, db, e, v);
    } else {
      ClaimsAfterCheckout(cfg, db, user, v, ids, feeBp, gstBp, now);
      SalesStep(cfg, db, e);
      SoundMoveGives(db.sales, after.sales);
      var o :| Claims(db.sales, o, v);
      ClaimantExists(db.sales, o, v);
      if Payable(db.sales, o, v) {
        TwoPaymentsMakeTwo(cfg, after, v, o, ids.order, rzFirst, rzSecond, year, now);
      } else {
        OnePaymentMakesTwo(cfg, after, v, o, ids.order, rzFirst, rzSecond, year, now);
      }
    }
  }

  // ---- the winner of an auction ----------------------------------------------------------------------------

  lemma OutcomeIs(cfg: Config, start: Db, es: seq<Event>, n: nat)
    requires n < |es|
    ensures OutcomeAt(cfg, start, es, n) == Apply(cfg, StateAt(cfg, start, es, n), es[n]).out
  {
    hide Apply;
  }

  /** An order of the run on v was checked out by one of its events. */
  lemma {:induction false} OrderWasCheckedOut(cfg: Config, start: Db, es: seq<Event>, n: nat, v: VehicleId, o: OrderId)
    requires SalesInv(start.sales) && n <= |es|
    requires o !in start.sales.orders && OrderOn(StateAt(cfg, start, es, n).sales.orders, o, v)
    ensures exists i: nat ::
              i < n && ChecksOut(es[i].action, OutcomeAt(cfg, start, es, i), o) && es[i].action.vehicle == v
  {
    hide Apply, SalesInv, SoundMove, OutcomeAt;
    var db := StateAt(cfg, start, es, n - 1);
    SalesInvAlways(cfg, start, es, n - 1);
    SalesStep(cfg, db, es[n - 1]);
    SoundMoveGives(db.sales, StateAt(cfg, start, es, n).sales);
    if o in db.sales.orders {
      OrderWasCheckedOut(cfg, start, es, n - 1, v, o);
    } else {
      NewOrderStep(cfg, db, es[n - 1], o);
      OutcomeIs(cfg, start, es, n - 1);
    }
  }

  lemma {:induction false} AuctionBefore(cfg: Config, start: Db, es: seq<Event>, i: nat, n: nat, v: VehicleId)
    requires i <= n <= |es| && v in start.vehicles
    requires v in StateAt(cfg, start, es, n).vehicles
    requires StateAt(cfg, start, es, n).vehicles[v].saleType == SaleType.Auction
    ensures v in StateAt(cfg, start, es, i).vehicles
    ensures StateAt(cfg, start, es, i).vehicles[v].saleType == SaleType.Auction
    decreases n
  {
    hide Apply;
    if i < n {
      AuctionPresent(cfg, start, es, n - 1, OnVehicle(v));
      VehicleStep(cfg, StateAt(cfg, start, es, n - 1), es[n - 1], v);
      AuctionBefore(cfg, start, es, i, n - 1, v);
    }
  }

  /** So far the vehicle has only been checked out after its auction had ended. */
  ghost predicate CheckedOutPastTheEnd(cfg: Config, start: Db, es: seq<Event>, n: nat, v: VehicleId) {
    forall i: nat :: i < n && i < |es| && ChecksOutVehicle(es[i].action, OutcomeAt(cfg, start, es, i), v) ==>
      PastTheEnd(cfg, start, es, i, v)
  }

  lemma OldOrdersElsewhere(cfg: Config, start: Db, es: seq<Event>, n: nat, v: VehicleId, o: OrderId)
    requires SalesInv(start.sales) && n <= |es| && (forall q :: !OrderOn(start.sales.orders, q, v))
    requires OrderOn(StateAt(cfg, start, es, n).sales.orders, o, v)
    ensures o !in start.sales.orders
  {
    hide Apply, SalesInv, SoundMove;
    SalesStretch(cfg, start, es, 0, n);
    FirstState(cfg, start, es);
    SoundMoveGives(start.sales, StateAt(cfg, start, es, n).sales);
    assert !OrderOn(start.sales.orders, o, v);
  }

  /** Then every order on it is its winner's. */
  lemma OrdersAreTheWinners(cfg: Config, start: Db, es: seq<Event>, n: nat, v: VehicleId, o: OrderId)
    requires PositiveIncrements(cfg) && AuctionInv(cfg, start) && SalesInv(start.sales) && Ordered(es)
    requires v in start.vehicles && n <= |es| && (forall q :: !OrderOn(start.sales.orders, q, v))
    requires v in StateAt(cfg, start, es, n).vehicles
    requires StateAt(cfg, start, es, n).vehicles[v].saleType == SaleType.Auction
    requires CheckedOutPastTheEnd(cfg, start, es, n, v) && OrderOn(StateAt(cfg, start, es, n).sales.orders, o, v)
    ensures StateAt(cfg, start, es, n).vehicles[v].auction.currentBidder
         == Some(StateAt(cfg, start, es, n).sales.orders[o].buyer)
  {
    hide Apply, SalesInv, AuctionInv, OutcomeAt, SoundMove, PastTheEnd;
    OldOrdersElsewhere(cfg, start, es, n, v, o);
    OrderWasCheckedOut(cfg, start, es, n, v, o);
    var i: nat :| i < n && ChecksOut(es[i].action, OutcomeAt(cfg, start, es, i), o) && es[i].action.vehicle == v;
    AuctionBefore(cfg, start, es, i, n, v);
    WinnerSettledByClock(cfg, start, es, i, n, v, o);
    AuctionPresent(cfg, start, es, n, OnVehicle(v));
  }

  /** A settled order the duplicate check of a checkout no longer sees. */
  predicate HandedOn(orders: Orders, o: OrderId, v: VehicleId) {
    OrderOn(orders, o, v) && (orders[o].status == PickupInProgress || orders[o].status == Collected)
  }

  /** When every order on the vehicle is the buyer's, only an order already in pickup can escape the duplicate check. */
  lemma OwnClaimsInPickup(s: Sales, v: VehicleId, user: UserId)
    requires SalesInv(s) && !HasOpenOrder(s.orders, v, user)
    requires forall o :: OrderOn(s.orders, o, v) ==> s.orders[o].buyer == user
    ensures Unclaimed(s, v) <==> forall o :: !HandedOn(s.orders, o, v)
  {
    hide PaymentRowsOk, NothingPendingOnceSettled, InvoicesMatch;
    forall o | OrderOn(s.orders, o, v) ensures Claims(s, o, v) <==> HandedOn(s.orders, o, v) {
      assert !BlocksCheckout(s.orders[o].status);
    }
  }

  /** After its end, an auction whose winner checks out again can never be sold a second time if and only if no
      earlier order of theirs has left READY_FOR_PICKUP. */
  lemma WinnerSoldAgainIff(cfg: Config, start: Db, es: seq<Event>, n: nat, user: User, v: VehicleId, ids: FreshIds,
                           feeBp: int, gstBp: int, now: Time, rzFirst: string, rzSecond: string, year: int)
    requires PositiveIncrements(cfg) && AuctionInv(cfg, start) && SalesInv(start.sales) && Ordered(es)
    requires v in start.vehicles && n < |es| && (forall q :: !OrderOn(start.sales.orders, q, v))
    requires v in StateAt(cfg, start, es, n).vehicles
    requires StateAt(cfg, start, es, n).vehicles[v].saleType == SaleType.Auction
    requires CheckedOutPastTheEnd(cfg, start, es, n, v)
    requires es[n] == Checkout(user, v, ids, feeBp, gstBp, now) && OutcomeAt(cfg, start, es, n).Ok?
    requires Truthy(ids.rzOrder)
    requires PaymentsFree(StateAt(cfg, start, es, n + 1), v, ids.order, rzFirst, rzSecond, year)
    ensures NeverSoldAgain(cfg, StateAt(cfg, start, es, n + 1), v, now)
       <==> forall o :: !HandedOn(StateAt(cfg, start, es, n).sales.orders, o, v)
  {
    hide Apply, SalesInv, AuctionInv, HasOpenOrder, Unclaimed, NeverSoldAgain, PaymentsFree, CheckedOutPastTheEnd;
    var db := StateAt(cfg, start, es, n);
    SalesInvAlways(cfg, start, es, n);
    AcceptedCheckout(cfg, db, user, v, ids, feeBp, gstBp, now);
    forall o | OrderOn(db.sales.orders, o, v) ensures db.sales.orders[o].buyer == user.id {
      OrdersAreTheWinners(cfg, start, es, n, v, o);
    }
    CheckoutIsSafeIffUnclaimed(cfg, db, user, v, ids, feeBp, gstBp, now, rzFirst, rzSecond, year);
    OwnClaimsInPickup(db.sales, v, user.id);
  }
}
