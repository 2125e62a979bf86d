/** L2: the second-checkout theorem with payments in flight. A vehicle of any sale type is sold at most once exactly
    when no checkout is accepted while something is owed on it. */
module CheckoutsInFlight {
  import opened Rows
  import opened OrdersSpec
  import opened SalesTheory
  import opened SalesRuns
  import opened OrderView
  import opened Interleaved
  import opened SysView
  import opened SettlementOnce
  import opened LifecycleInFlight
  import opened NoDoubleSale
  import opened SalesInFlight
  import opened StaleSales
  import RepeatCheckouts
  import AuctionWinner
  import Machine

  ghost predicate ClaimsOn(sys: Sys, o: OrderId, v: VehicleId) {
    CanBePaidOn(sys, o, v) || SettledOn(sys.db.sales, o, v)
  }

  ghost predicate OneClaimOn(sys: Sys, v: VehicleId) {
    forall o, q :: ClaimsOn(sys, o, v) && ClaimsOn(sys, q, v) ==> o == q
  }

  /** The move is an accepted checkout of v. */
  ghost predicate ChecksOutOn(cfg: Config, sys: Sys, m: Move, now: Time, v: VehicleId) {
    && m.Atomic? && m.action.StartCheckout? && m.action.vehicle == v
    && Advance(cfg, sys, m, now).out.Some? && Advance(cfg, sys, m, now).out.value.Ok?
  }

  ghost predicate CleanCheckoutMove(cfg: Config, sys: Sys, m: Move, now: Time, v: VehicleId) {
    ChecksOutOn(cfg, sys, m, now, v) ==> NothingOwed(sys, v)
  }

  lemma ClaimOnBefore(cfg: Config, sys: Sys, m: Move, now: Time, o: OrderId, v: VehicleId)
    requires SysInv(sys) && ClaimsOn(Advance(cfg, sys, m, now).sys, o, v)
    ensures if o in sys.db.sales.orders then ClaimsOn(sys, o, v)
            else ChecksOutOn(cfg, sys, m, now, v) && m.action.ids.order == o
  {
    hide Advance, SysInv, CanBePaid, SettlesOn;
    if CanBePaidOn(Advance(cfg, sys, m, now).sys, o, v) {
      PaidOrderExists(Advance(cfg, sys, m, now).sys, o);
      CanBePaidOnBefore(cfg, sys, m, now, o, v);
    } else {
      SettledOnBefore(cfg, sys, m, now, o, v);
    }
  }

  lemma OneClaimOnStep(cfg: Config, sys: Sys, m: Move, now: Time, v: VehicleId)
    requires SysInv(sys) && OneClaimOn(sys, v) && CleanCheckoutMove(cfg, sys, m, now, v)
    ensures OneClaimOn(Advance(cfg, sys, m, now).sys, v)
  {
    hide Advance, SysInv, CanBePaidOn, SettledOn, ChecksOutOn;
    var next := Advance(cfg, sys, m, now).sys;
    forall o, q | ClaimsOn(next, o, v) && ClaimsOn(next, q, v) ensures o == q {
      ClaimOnBefore(cfg, sys, m, now, o, v);
      ClaimOnBefore(cfg, sys, m, now, q, v);
    }
  }

  // ---- runs --------------------------------------------------------------------------------------------

  ghost predicate CleanCheckoutMoves(cfg: Config, start: Sys, ts: seq<Tick>, v: VehicleId) {
    forall k: nat :: k < |ts| ==> CleanCheckoutMove(cfg, SysAt(cfg, start, ts, k), ts[k].move, ts[k].now, v)
  }

  lemma CleanCheckoutAt(cfg: Config, start: Sys, ts: seq<Tick>, k: nat, v: VehicleId)
    requires CleanCheckoutMoves(cfg, start, ts, v) && k < |ts|
    ensures CleanCheckoutMove(cfg, SysAt(cfg, start, ts, k), ts[k].move, ts[k].now, v)
  {
    hide Advance, CleanCheckoutMove;
  }

  lemma {:induction false} OneClaimOnAlways(cfg: Config, start: Sys, ts: seq<Tick>, n: nat, v: VehicleId)
    requires SysInv(start) && OneClaimOn(start, v) && CleanCheckoutMoves(cfg, start, ts, v) && n <= |ts|
    ensures OneClaimOn(SysAt(cfg, start, ts, n), v)
  {
    hide Advance, SysInv, OneClaimOn, CleanCheckoutMove, CleanCheckoutMoves, SysAt;
    if n == 0 {
      FirstSys(cfg, start, ts);
    } else {
      OneClaimOnAlways(cfg, start, ts, n - 1, v);
      SysInvAlways(cfg, start, ts, n - 1);
      CleanCheckoutAt(cfg, start, ts, n - 1, v);
      NextSys(cfg, start, ts, n - 1);
      OneClaimOnStep(cfg, SysAt(cfg, start, ts, n - 1), ts[n - 1].move, ts[n - 1].now, v);
    }
  }

  lemma OneClaimOnGives(sys: Sys, v: VehicleId)
    requires OneClaimOn(sys, v)
    ensures SoldOnceAtMost(sys.db.sales, v)
  {
    hide CanBePaidOn, SettledOn;
    forall o, q | SettledOn(sys.db.sales, o, v) && SettledOn(sys.db.sales, q, v) ensures o == q {
      assert ClaimsOn(sys, o, v) && ClaimsOn(sys, q, v);
    }
  }

  /** In every interleaving whose checkouts of the vehicle find nothing owed, no state shows two settled orders on it.
      */
  lemma SoldOnceIfCheckedOutClean(cfg: Config, start: Sys, ts: seq<Tick>, n: nat, v: VehicleId)
    requires SysInv(start) && OneClaimOn(start, v) && CleanCheckoutMoves(cfg, start, ts, v) && n <= |ts|
    ensures SoldOnceAtMost(SysAt(cfg, start, ts, n).db.sales, v)
  {
    hide Advance, SysInv, OneClaimOn, CleanCheckoutMoves, SoldOnceAtMost;
    OneClaimOnAlways(cfg, start, ts, n, v);
    OneClaimOnGives(SysAt(cfg, start, ts, n), v);
  }

  // ---- the exact condition at a checkout -------------------------------------------------------------------

  ghost predicate NeverSoldAgain(cfg: Config, sys: Sys, v: VehicleId, since: Time) {
    forall ts: seq<Tick> :: After(ts, since) && CleanCheckoutMoves(cfg, sys, ts, v)
      ==> SoldOnceAtMost(SysAt(cfg, sys, ts, |ts|).db.sales, v)
  }

  lemma CleanCheckoutIsSafe(cfg: Config, sys: Sys, m: Move, now: Time, v: VehicleId)
    requires SysInv(sys) && NothingOwed(sys, v)
    ensures NeverSoldAgain(cfg, Advance(cfg, sys, m, now).sys, v, now)
  {
    hide Advance, SysInv, CanBePaidOn, SettledOn, SoundMove, CleanCheckoutMoves, SoldOnceAtMost;
    var next := Advance(cfg, sys, m, now).sys;
    AdvanceSound(cfg, sys, m, now);
    OneClaimOnStep(cfg, sys, m, now, v);
    forall ts: seq<Tick> | CleanCheckoutMoves(cfg, next, ts, v)
        ensures SoldOnceAtMost(SysAt(cfg, next, ts, |ts|).db.sales, v) {
      SoldOnceIfCheckedOutClean(cfg, next, ts, |ts|, v);
    }
  }

  lemma NoCheckoutIsClean(cfg: Config, sys: Sys, m: Move, now: Time, v: VehicleId)
    requires !(m.Atomic? && m.action.StartCheckout?)
    ensures CleanCheckoutMove(cfg, sys, m, now, v)
  {
    hide Advance;
  }

  lemma RoomFor(db: Db, v: VehicleId, q: OrderId, o: OrderId, rzFirst: string, rzSecond: string, year: int)
    requires SalesInv(db.sales) && RepeatCheckouts.PaymentsFree(db, v, q, rzFirst, rzSecond, year)
    requires OrderOn(db.sales.orders, o, v) && !SettledStatus(db.sales.orders[o].status)
    ensures RoomToSettle(db, o, rzFirst, year) && RoomToSettle(db, o, rzSecond, year)
  {
    hide SalesInv;
    NumberIsFree(db.sales, o, year);
  }

  lemma PaidOnIsOn(sys: Sys, o: OrderId, v: VehicleId)
    requires CanBePaidOn(sys, o, v)
    ensures OrderOn(sys.db.sales.orders, o, v) && !SettledStatus(sys.db.sales.orders[o].status) && CanBePaid(sys, o)
  {
  }

  /** Two orders that can be paid can both be settled. */
  lemma TwoPayableMakeTwo(cfg: Config, sys: Sys, v: VehicleId, o: OrderId, q: OrderId,
                          rzFirst: string, rzSecond: string, year: int, now: Time)
    requires SysInv(sys) && RepeatCheckouts.PaymentsFree(sys.db, v, q, rzFirst, rzSecond, year)
    requires CanBePaidOn(sys, o, v) && CanBePaidOn(sys, q, v) && o != q
    ensures !NeverSoldAgain(cfg, sys, v, now)
  {
    hide Advance, SalesInv, CallsSound, SysAt, SettlesOn, CleanCheckoutMove, CanBePaid, RoomToSettle, SoundMove;
    PaidOnIsOn(sys, o, v);
    PaidOnIsOn(sys, q, v);
    RoomFor(sys.db, v, q, o, rzFirst, rzSecond, year);
    RoomFor(sys.db, v, q, q, rzFirst, rzSecond, year);
    var m0 := SettlingMove(sys, o, rzFirst, year);
    var s1 := Advance(cfg, sys, m0, now).sys;
    CanBePaidSettles(cfg, sys, o, rzFirst, year, now);
    SettlingMovePays(sys, o, rzFirst, year);
    OtherStaysPayable(cfg, sys, m0, now, o, q, rzFirst, rzSecond, year);
    AdvanceSound(cfg, sys, m0, now);
    var m1 := SettlingMove(s1, q, rzSecond, year);
    CanBePaidSettles(cfg, s1, q, rzSecond, year, now);
    SettlingMovePays(s1, q, rzSecond, year);
    PaidOrderExists(s1, q);
    var ts := [Tick(m0, now), Tick(m1, now)];
    Ticks(cfg, sys, ts);
    forall k: nat | k < |ts| ensures CleanCheckoutMove(cfg, SysAt(cfg, sys, ts, k), ts[k].move, ts[k].now, v) {
      NoCheckoutIsClean(cfg, SysAt(cfg, sys, ts, k), ts[k].move, ts[k].now, v);
    }
    SettledFromThenOn(cfg, sys, ts, 0, 2, o, v);
    SettledFromThenOn(cfg, sys, ts, 1, 2, q, v);
    assert !SoldOnceAtMost(SysAt(cfg, sys, ts, 2).db.sales, v);
  }

  lemma SettledAndPayableMakeTwo(cfg: Config, sys: Sys, v: VehicleId, o: OrderId, q: OrderId,
                                 rzFirst: string, rzSecond: string, year: int, now: Time)
    requires SysInv(sys) && RepeatCheckouts.PaymentsFree(sys.db, v, q, rzFirst, rzSecond, year)
    requires SettledOn(sys.db.sales, o, v) && CanBePaidOn(sys, q, v)
    ensures !NeverSoldAgain(cfg, sys, v, now)
  {
    hide Advance, SalesInv, CallsSound, SysAt, SettlesOn, CleanCheckoutMove, CanBePaid, RoomToSettle, SoundMove;
    PaidOnIsOn(sys, q, v);
    RoomFor(sys.db, v, q, q, rzFirst, rzSecond, year);
    var m0 := SettlingMove(sys, q, rzSecond, year);
    CanBePaidSettles(cfg, sys, q, rzSecond, year, now);
    SettlingMovePays(sys, q, rzSecond, year);
    var ts := [Tick(m0, now)];
    Ticks(cfg, sys, ts);
    NoCheckoutIsClean(cfg, sys, m0, now, v);
    SettledFromThenOn(cfg, sys, ts, 0, 1, q, v);
    SettledStaysInFlight(cfg, sys, ts, 0, 1, o, v);
    assert !SoldOnceAtMost(SysAt(cfg, sys, ts, 1).db.sales, v);
  }

  /** An accepted checkout leaves its own order payable, and everything that was owed. */
  lemma OwedAfterCheckout(cfg: Config, sys: Sys, a: Machine.Action, now: Time, v: VehicleId)
    requires ChecksOutOn(cfg, sys, Atomic(a), now, v) && Truthy(a.ids.rzOrder)
    ensures var next := Advance(cfg, sys, Atomic(a), now).sys;
            && a.ids.order !in sys.db.sales.orders && CanBePaidOn(next, a.ids.order, v)
            && (forall o :: CanBePaidOn(sys, o, v) ==> CanBePaidOn(next, o, v))
            && (forall o :: SettledOn(sys.db.sales, o, v) ==> SettledOn(next.db.sales, o, v))
  {
    hide Machine.Apply, Entitlement, HasOpenOrder, HasPendingPayment;
    var next := Advance(cfg, sys, Atomic(a), now).sys;
    RepeatCheckouts.ClaimsAfterCheckout(cfg, sys.db, a.user, v, a.ids, a.feeBp, a.gstBp, now);
    AuctionWinner.AcceptedCheckout(cfg, sys.db, a.user, v, a.ids, a.feeBp, a.gstBp, now);
    CheckoutGoesThrough(cfg, sys.db, a.user, v, a.ids, a.feeBp, a.gstBp, now);
    forall o | CanBePaidOn(sys, o, v) ensures CanBePaidOn(next, o, v) {
      assert sys.db.sales.orders[o].status == Held && HasPendingPayment(sys.db.sales.payments, o) ==>
          Payable(sys.db.sales, o, v);
    }
  }

  lemma NothingOwedIsOneClaim(sys: Sys, v: VehicleId)
    requires NothingOwed(sys, v)
    ensures OneClaimOn(sys, v)
  {
    hide CanBePaidOn, SettledOn;
  }

  lemma ClaimantOnExists(sys: Sys, o: OrderId, v: VehicleId)
    requires CanBePaidOn(sys, o, v) || SettledOn(sys.db.sales, o, v)
    ensures OrderOn(sys.db.sales.orders, o, v)
  {
  }

  /** The exact condition at L2, for any sale type: an accepted checkout can never lead to a second sale if and only
      if, when it is accepted, no order on the vehicle can still be paid, by a new payment or one in flight, or has
      been. */
  lemma CheckoutIsSafeIffNothingOwed(cfg: Config, sys: Sys, a: Machine.Action, now: Time, v: VehicleId,
                                     rzFirst: string, rzSecond: string, year: int)
    requires SysInv(sys) && a.StartCheckout? && ChecksOutOn(cfg, sys, Atomic(a), now, v) && Truthy(a.ids.rzOrder)
    requires RepeatCheckouts.PaymentsFree(Advance(cfg, sys, Atomic(a), now).sys.db, v, a.ids.order, rzFirst, rzSecond,
        year)
    ensures NeverSoldAgain(cfg, Advance(cfg, sys, Atomic(a), now).sys, v, now) <==> NothingOwed(sys, v)
  {
    hide Advance, SysInv, ChecksOutOn, NeverSoldAgain, CanBePaidOn, SettledOn, SoundMove;
    hide RepeatCheckouts.PaymentsFree;
    var next := Advance(cfg, sys, Atomic(a), now).sys;
    if NothingOwed(sys, v) {
      NothingOwedIsOneClaim(sys, v);
      CleanCheckoutIsSafe(cfg, sys, Atomic(a), now, v);
    } else {
      OwedAfterCheckout(cfg, sys, a, now, v);
      AdvanceSound(cfg, sys, Atomic(a), now);
      var o :| CanBePaidOn(sys, o, v) || SettledOn(sys.db.sales, o, v);
      ClaimantOnExists(sys, o, v);
      if SettledOn(sys.db.sales, o, v) {
        SettledAndPayableMakeTwo(cfg, next, v, o, a.ids.order, rzFirst, rzSecond, year, now);
      } else {
        TwoPayableMakeTwo(cfg, next, v, o, a.ids.order, rzFirst, rzSecond, year, now);
      }
    }
  }

  /** When every order on the vehicle is the buyer's, a checkout that is accepted finds nothing owed if and only if
      none of their orders has left READY_FOR_PICKUP and none that expired has a payment in flight. */
  lemma OwnClaimsInFlight(sys: Sys, v: VehicleId, user: UserId)
    requires SysInv(sys) && !HasOpenOrder(sys.db.sales.orders, v, user)
    requires forall o :: OrderOn(sys.db.sales.orders, o, v) ==> sys.db.sales.orders[o].buyer == user
    ensures NothingOwed(sys, v)
       <==> forall o :: OrderOn(sys.db.sales.orders, o, v) ==>
              && !RepeatCheckouts.HandedOn(sys.db.sales.orders, o, v)
              && !(sys.db.sales.orders[o].status == Expired && InFlight(sys.calls, o))
  {
    hide PaymentRowsOk, NothingPendingOnceSettled, InvoicesMatch, CallsSound, HasPendingPayment, InFlight;
    var orders := sys.db.sales.orders;
    forall o | OrderOn(orders, o, v)
      ensures CanBePaidOn(sys, o, v) || SettledOn(sys.db.sales, o, v)
         <==> RepeatCheckouts.HandedOn(orders, o, v) || (orders[o].status == Expired && InFlight(sys.calls, o))
    {
      assert !BlocksCheckout(orders[o].status);
    }
  }
}
