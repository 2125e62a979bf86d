/** L1 theorem: the exact condition under which a hold is safe, for every holder. An open order of the holder's own
    blocks their checkout for as long as an overdue rival can pay. */
module BlockedHolder {
  import opened Rows
  import opened OrdersSpec
  import opened Machine
  import opened SalesTheory
  import opened SalesRuns
  import opened OrderView
  import opened VehicleView
  import opened Lifecycle
  import opened NoDoubleSale
  import opened ExpireFirst
  import Frames

  /** Every order on v that can be paid is past its deadline. */
  ghost predicate PayableOverdue(s: Sales, v: VehicleId, now: Time) {
    forall o :: Payable(s, o, v) ==> s.orders[o].heldUntil.Some? && s.orders[o].heldUntil.value < now
  }

  ghost predicate OnePayable(s: Sales, v: VehicleId) {
    forall o, q :: Payable(s, o, v) && Payable(s, q, v) ==> o == q
  }

  /** The holder has a rival, but also an open order, which no longer can be paid; nothing is settled yet. */
  ghost predicate Blocked(db: Db, v: VehicleId, now: Time) {
    && v in db.vehicles && db.vehicles[v].saleType != SaleType.Auction
    && db.vehicles[v].heldBy.Some? && HasOpenOrder(db.sales.orders, v, db.vehicles[v].heldBy.value)
    && OnePayable(db.sales, v) && !NoRival(db.sales, v, db.vehicles[v].heldBy.value)
    && PayableOverdue(db.sales, v, now)
    && forall o :: !SettledOn(db.sales, o, v)
  }

  /** A vehicle with at most one payable order and no settled one, whose holder has no rival. */
  lemma NothingSoldYet(db: Db, v: VehicleId)
    requires v in db.vehicles && db.vehicles[v].saleType != SaleType.Auction && OnePayable(db.sales, v)
    requires forall o :: !SettledOn(db.sales, o, v)
    requires db.vehicles[v].heldBy.Some? ==> NoRival(db.sales, v, db.vehicles[v].heldBy.value)
    ensures SaleInv(db, v)
  {
  }

  /** While the holder is blocked, no order on v becomes payable. */
  lemma BlockedPayableBefore(cfg: Config, db: Db, e: Event, o: OrderId, v: VehicleId)
    requires SalesInv(db.sales) && Blocked(db, v, e.now) && Payable(Apply(cfg, db, e).db.sales, o, v)
    ensures Payable(db.sales, o, v)
    ensures SameDeal(db.sales.orders[o], Apply(cfg, db, e).db.sales.orders[o])
  {
    hide Apply, SalesInv, HasPendingPayment, CheckedOutRow, SoundMove, HasOpenOrder;
    PayableBefore(cfg, db, e, o, v);
    if o !in db.sales.orders {
      NewRowIsHeld(cfg, db, e.action, e.now, Apply(cfg, db, e).db);
    } else {
      SalesStep(cfg, db, e);
      SoundMoveGives(db.sales, Apply(cfg, db, e).db.sales);
    }
  }

  lemma PayableExists(s: Sales, o: OrderId, v: VehicleId)
    requires Payable(s, o, v)
    ensures OrderOn(s.orders, o, v) && s.orders[o].status == Held
  {
  }

  lemma BlockedPayables(cfg: Config, db: Db, e: Event, v: VehicleId)
    requires SalesInv(db.sales) && Blocked(db, v, e.now)
    ensures OnePayable(Apply(cfg, db, e).db.sales, v) && PayableOverdue(Apply(cfg, db, e).db.sales, v, e.now)
  {
    hide Apply, SalesInv, Payable, HasOpenOrder;
    var t := Apply(cfg, db, e).db.sales;
    forall o | Payable(t, o, v)
      ensures Payable(db.sales, o, v) && o in t.orders && o in db.sales.orders
      ensures t.orders[o].heldUntil == db.sales.orders[o].heldUntil
    {
      BlockedPayableBefore(cfg, db, e, o, v);
      PayableExists(t, o, v);
      PayableExists(db.sales, o, v);
    }
  }

  lemma SettledIsNotPayable(s: Sales, o: OrderId, v: VehicleId)
    requires SettledOn(s, o, v)
    ensures !Payable(s, o, v)
  {
  }

  /** A settlement on v makes its one payable order the one settled. */
  lemma BlockedSold(cfg: Config, db: Db, e: Event, o: OrderId, v: VehicleId)
    requires SalesInv(db.sales) && Blocked(db, v, e.now) && SettledOn(Apply(cfg, db, e).db.sales, o, v)
    ensures SaleInv(Apply(cfg, db, e).db, v)
  {
    hide Apply, SalesInv, Payable, HasOpenOrder, SettledOn, PayableOverdue;
    var after := Apply(cfg, db, e).db;
    SettledBefore(cfg, db, e, o, v);
    assert Payable(db.sales, o, v) && Settles(e.action, Apply(cfg, db, e).out, o);
    PayableExists(db.sales, o, v);
    SettlementSells(cfg, db, e, o, v);
    VehicleStep(cfg, db, e, v);
    forall q ensures !Payable(after.sales, q, v) && (SettledOn(after.sales, q, v) ==> q == o) {
      if Payable(after.sales, q, v) {
        BlockedPayableBefore(cfg, db, e, q, v);
        assert q == o;
        SettledIsNotPayable(after.sales, o, v);
      }
      if SettledOn(after.sales, q, v) {
        SettledBefore(cfg, db, e, q, v);
      }
    }
  }

  /** The open order stays open, unless the order expiry runs, and that takes the rival too. */
  lemma BlockedStaysOpen(cfg: Config, db: Db, e: Event, v: VehicleId, user: UserId)
    requires SalesInv(db.sales) && Blocked(db, v, e.now) && db.vehicles[v].heldBy == Some(user)
    requires forall o :: !SettledOn(Apply(cfg, db, e).db.sales, o, v)
    ensures HasOpenOrder(Apply(cfg, db, e).db.sales.orders, v, user)
         || forall o :: !Payable(Apply(cfg, db, e).db.sales, o, v)
  {
    hide Apply, SalesInv, HasPendingPayment, SoundMove;
    var t := Apply(cfg, db, e).db.sales;
    OrderRowsOfInv(db.sales);
    var q :| q in db.sales.orders && db.sales.orders[q].vehicleId == Some(v) && db.sales.orders[q].buyer == user
             && BlocksCheckout(db.sales.orders[q].status);
    StatusStep(cfg, db, e, q);
    SalesStep(cfg, db, e);
    SoundMoveGives(db.sales, t);
    assert !SettledOn(t, q, v) && !SettledOn(db.sales, q, v);
    if !BlocksCheckout(t.orders[q].status) {
      OrderStep(cfg, db, e, q);
      forall o ensures !Payable(t, o, v) {
        if Payable(t, o, v) {
          BlockedPayableBefore(cfg, db, e, o, v);
          OrderStep(cfg, db, e, o);
        }
      }
    }
  }

  /** Whoever holds v next has no rival. */
  lemma NewHolder(cfg: Config, db: Db, e: Event, v: VehicleId)
    requires SalesInv(db.sales) && Blocked(db, v, e.now) && CleanStep(cfg, db, e, v)
    requires v in Apply(cfg, db, e).db.vehicles && Apply(cfg, db, e).db.vehicles[v].heldBy != db.vehicles[v].heldBy
    ensures var after := Apply(cfg, db, e).db;
            after.vehicles[v].heldBy.Some? ==> NoRival(after.sales, v, after.vehicles[v].heldBy.value)
  {
    hide Apply, SalesInv, Payable, HasOpenOrder, SettledOn;
    var after := Apply(cfg, db, e).db;
    VehicleStep(cfg, db, e, v);
    if after.vehicles[v].heldBy.Some? {
      var holder := after.vehicles[v].heldBy.value;
      forall o ensures !IsRival(after.sales, o, v, holder) {
        if Payable(after.sales, o, v) {
          BlockedPayableBefore(cfg, db, e, o, v);
          assert !IsRival(db.sales, o, v, holder);
        }
      }
    }
  }

  lemma BlockedStep(cfg: Config, db: Db, e: Event, v: VehicleId, later: Time)
    requires SalesInv(db.sales) && Blocked(db, v, e.now) && CleanStep(cfg, db, e, v) && e.now <= later
    ensures SaleInv(Apply(cfg, db, e).db, v) || Blocked(Apply(cfg, db, e).db, v, later)
  {
    hide Apply, SalesInv, Payable, HasOpenOrder, SettledOn;
    var after := Apply(cfg, db, e).db;
    VehicleStep(cfg, db, e, v);
    BlockedPayables(cfg, db, e, v);
    if o :| SettledOn(after.sales, o, v) {
      BlockedSold(cfg, db, e, o, v);
    } else if after.vehicles[v].heldBy == db.vehicles[v].heldBy {
      BlockedStaysOpen(cfg, db, e, v, db.vehicles[v].heldBy.value);
      if NoRival(after.sales, v, db.vehicles[v].heldBy.value) {
        NothingSoldYet(after, v);
      } else {
        assert HasOpenOrder(after.sales.orders, v, db.vehicles[v].heldBy.value);
      }
    } else {
      NewHolder(cfg, db, e, v);
      NothingSoldYet(after, v);
    }
  }

  // ---- over a run ------------------------------------------------------------------------------------------

  lemma BlockedLater(db: Db, v: VehicleId, now: Time, later: Time)
    requires Blocked(db, v, now) && now <= later
    ensures Blocked(db, v, later)
  {
    hide Payable, HasOpenOrder;
    forall o | Payable(db.sales, o, v)
      ensures o in db.sales.orders && db.sales.orders[o].heldUntil.Some? && db.sales.orders[o].heldUntil.value < later
    {
      PayableExists(db.sales, o, v);
    }
  }

  lemma {:induction false} SafeAlways(cfg: Config, start: Db, es: seq<Event>, n: nat, v: VehicleId, now: Time)
    requires SalesInv(start.sales) && CleanRun(cfg, start, es, v) && Ordered(es) && n <= |es|
    requires forall i :: 0 <= i < |es| ==> now <= es[i].now
    requires SaleInv(start, v) || Blocked(start, v, now)
    ensures SaleInv(StateAt(cfg, start, es, n), v)
         || Blocked(StateAt(cfg, start, es, n), v, if n == 0 then now else es[n - 1].now)
  {
    hide Apply, SalesInv, SaleInv, CleanStep, Blocked;
    if n > 0 {
      var db, e := StateAt(cfg, start, es, n - 1), es[n - 1];
      SafeAlways(cfg, start, es, n - 1, v, now);
      SalesInvAlways(cfg, start, es, n - 1);
      if SaleInv(db, v) {
        SaleInvStep(cfg, db, e, v);
      } else {
        BlockedLater(db, v, if n == 1 then now else es[n - 2].now, e.now);
        BlockedStep(cfg, db, e, v, e.now);
      }
    }
  }

  /** Where an order is settled nothing else on the vehicle can be paid, in either case. */
  lemma SettledEndsSale(db: Db, v: VehicleId, now: Time, o: OrderId, q: OrderId)
    requires SaleInv(db, v) || Blocked(db, v, now)
    requires SettledOn(db.sales, o, v)
    ensures !Payable(db.sales, q, v)
  {
    hide Payable, HasOpenOrder;
  }

  lemma SellsOnce(cfg: Config, db: Db, es: seq<Event>, i: nat, j: nat, o: OrderId, q: OrderId, v: VehicleId, now: Time)
    requires SalesInv(db.sales) && Blocked(db, v, now) && CleanRun(cfg, db, es, v) && Ordered(es)
    requires forall k :: 0 <= k < |es| ==> now <= es[k].now
    requires SellsAt(cfg, db, es, i, o, v) && SellsAt(cfg, db, es, j, q, v)
    ensures i == j
  {
    hide Apply, SalesInv, SaleInv, CleanStep, CleanRun, Blocked, Payable, SettledOn, Ordered;
    SellsWhatIsPayable(cfg, db, es, i, o, v);
    SellsWhatIsPayable(cfg, db, es, j, q, v);
    if i < j {
      SettledStays(cfg, db, es, i + 1, j, o, v);
      SafeAlways(cfg, db, es, j, v, now);
      SettledEndsSale(StateAt(cfg, db, es, j), v, es[j - 1].now, o, q);
    } else if j < i {
      SettledStays(cfg, db, es, j + 1, i, q, v);
      SafeAlways(cfg, db, es, i, v, now);
      SettledEndsSale(StateAt(cfg, db, es, i), v, es[i - 1].now, q, o);
    }
  }

  lemma BlockedIsSafe(cfg: Config, db: Db, v: VehicleId, now: Time)
    requires SalesInv(db.sales) && Blocked(db, v, now)
    ensures NeverSoldTwice(cfg, db, v, now)
  {
    hide Apply, SalesInv, SaleInv, CleanStep, CleanRun, Blocked, SellsAt;
    forall es: seq<Event> | Ordered(es) && (forall i :: 0 <= i < |es| ==> now <= es[i].now) && CleanRun(cfg, db, es, v)
      ensures SoldAtMostOnceIn(cfg, db, es, v)
    {
      forall i: nat, j: nat, o, q | SellsAt(cfg, db, es, i, o, v) && SellsAt(cfg, db, es, j, q, v) ensures i == j {
        SellsOnce(cfg, db, es, i, j, o, q, v, now);
      }
    }
  }

  // ---- the exact condition ------------------------------------------------------------------------------------

  /** A hold granted over a rival to a buyer with an open order starts blocked: the deadline of every payable order
      has passed. */
  lemma HoldStartsBlocked(cfg: Config, db: Db, user: User, v: VehicleId, now: Time)
    requires SalesInv(db.sales) && SaleInv(db, v) && DeadlineInv(db, v, now)
    requires Apply(cfg, db, Event(Action.Hold(user, v), now)).out.Ok?
    requires HasOpenOrder(db.sales.orders, v, user.id) && !NoRival(db.sales, v, user.id)
    ensures Blocked(Apply(cfg, db, Event(Action.Hold(user, v), now)).db, v, now)
  {
    hide Apply, SalesInv, Payable, HasOpenOrder, SettledOn;
    var e := Event(Action.Hold(user, v), now);
    VehicleStep(cfg, db, e, v);
    Frames.StepFrame(cfg, db, e);
    var o :| IsRival(db.sales, o, v, user.id);
    assert Payable(db.sales, o, v);
    forall q | Payable(db.sales, q, v)
      ensures q in db.sales.orders && db.sales.orders[q].heldUntil.Some? && db.sales.orders[q].heldUntil.value < now
    {
      PayableExists(db.sales, q, v);
      assert DeadlineKept(db.sales.orders[q], db.vehicles[v], now);
    }
  }

  lemma HoldIsClean(cfg: Config, db: Db, user: User, v: VehicleId, now: Time)
    requires NoRival(db.sales, v, user.id)
    ensures CleanStep(cfg, db, Event(Action.Hold(user, v), now), v)
  {
    hide Apply;
  }

  /** The exact condition for every holder, in any state where orders keep the deadline of their hold: a granted hold
      can never lead to a double sale if and only if nobody else has an order on the vehicle that can still be paid,
      or the holder has an open order of their own. */
  lemma HoldIsSafeIff(cfg: Config, db: Db, user: User, v: VehicleId, now: Time, d: Draws)
    requires SalesInv(db.sales) && SaleInv(db, v) && DeadlineInv(db, v, now) && cfg.holdMs >= 0
    requires Apply(cfg, db, Event(Action.Hold(user, v), now)).out.Ok?
    requires db.vehicles[v].buyNowPrice.Some? && db.vehicles[v].buyNowPrice.value != 0 && DrawsFree(db, d)
    ensures NeverSoldTwice(cfg, Apply(cfg, db, Event(Action.Hold(user, v), now)).db, v, now)
       <==> NoRival(db.sales, v, user.id) || HasOpenOrder(db.sales.orders, v, user.id)
  {
    hide Apply, SalesInv, SaleInv, HasOpenOrder, DrawsFree, NoRival, NeverSoldTwice, CleanRun, Blocked, DeadlineInv;
    hide SoundMove;
    var e := Event(Action.Hold(user, v), now);
    if !HasOpenOrder(db.sales.orders, v, user.id) {
      HoldIsSafeIffNoRival(cfg, db, user, v, now, d);
    } else if NoRival(db.sales, v, user.id) {
      HoldIsClean(cfg, db, user, v, now);
      CleanHoldIsSafe(cfg, db, e, v);
    } else {
      SalesStep(cfg, db, e);
      SoundMoveGives(db.sales, Apply(cfg, db, e).db.sales);
      HoldStartsBlocked(cfg, db, user, v, now);
      BlockedIsSafe(cfg, Apply(cfg, db, e).db, v, now);
    }
  }
}
