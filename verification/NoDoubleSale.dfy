/** L1 theorem: a buy-now vehicle is sold at most once, exactly when no hold is granted over an order that another
    buyer can still pay. */
module NoDoubleSale {
  import opened Rows
  import opened OrdersSpec
  import opened Machine
  import opened Frames
  import opened SalesTheory
  import opened SalesRuns
  import opened OrderView
  import opened VehicleView
  import opened Lifecycle

  predicate OrderOn(orders: Orders, o: OrderId, v: VehicleId) {
    o in orders && orders[o].vehicleId == Some(v)
  }

  /** verifyPayment could still settle this order. */
  ghost predicate Payable(s: Sales, o: OrderId, v: VehicleId) {
    OrderOn(s.orders, o, v) && s.orders[o].status == Held && HasPendingPayment(s.payments, o)
  }

  predicate SettledOn(s: Sales, o: OrderId, v: VehicleId) {
    OrderOn(s.orders, o, v) && SettledStatus(s.orders[o].status)
  }

  /** An order on the vehicle that someone else can still pay. */
  ghost predicate IsRival(s: Sales, o: OrderId, v: VehicleId, user: UserId) {
    Payable(s, o, v) && s.orders[o].buyer != user
  }

  ghost predicate NoRival(s: Sales, v: VehicleId, user: UserId) {
    forall o :: !IsRival(s, o, v, user)
  }

  ghost predicate SaleInv(db: Db, v: VehicleId) {
    && v in db.vehicles
    && db.vehicles[v].saleType != SaleType.Auction
    && (forall o, q :: Payable(db.sales, o, v) && Payable(db.sales, q, v) ==> o == q)
    && (db.vehicles[v].heldBy.Some? ==> NoRival(db.sales, v, db.vehicles[v].heldBy.value))
    && (forall o :: SettledOn(db.sales, o, v) ==>
          && db.vehicles[v].status == Sold && db.vehicles[v].heldBy == None
          && (forall q :: !Payable(db.sales, q, v))
          && (forall q :: SettledOn(db.sales, q, v) ==> q == o))
  }

  /** A hold granted at this step leaves no rival able to pay. */
  ghost predicate CleanStep(cfg: Config, db: Db, e: Event, v: VehicleId) {
    e.action.Hold? && e.action.vehicle == v && Apply(cfg, db, e).out.Ok? ==> NoRival(db.sales, v, e.action.user.id)
  }

  // ---- how a step moves the payable and the settled orders of v ----------------------------------

  /** Unless it is created by this step, a payable order was payable before. */
  lemma PayableBefore(cfg: Config, db: Db, e: Event, o: OrderId, v: VehicleId)
    requires SalesInv(db.sales) && Payable(Apply(cfg, db, e).db.sales, o, v)
    ensures if o in db.sales.orders then
              Payable(db.sales, o, v) && Apply(cfg, db, e).db.sales.orders[o].buyer == db.sales.orders[o].buyer
            else
              && ChecksOut(e.action, Apply(cfg, db, e).out, o)
              && CheckedOutRow(cfg, db, e.action, e.now, Apply(cfg, db, e).db)
  {
    hide Apply, SalesInv, HasPendingPayment, CheckedOutRow, SoundMove;
    SalesStep(cfg, db, e);
    SoundMoveGives(db.sales, Apply(cfg, db, e).db.sales);
    if o in db.sales.orders {
      StatusStep(cfg, db, e, o);
      if !HasPendingPayment(db.sales.payments, o) {
        NoPendingPaymentPersists(db.sales, Apply(cfg, db, e).db.sales, o);
      }
    } else {
      NewOrderStep(cfg, db, e, o);
    }
  }

  lemma NewRowIsHeld(cfg: Config, db: Db, a: Action, now: Time, after: Db)
    requires a.StartCheckout? && CheckedOutRow(cfg, db, a, now, after)
    ensures a.ids.order in after.sales.orders && after.sales.orders[a.ids.order].status == Held
    ensures after.sales.orders[a.ids.order].buyer == a.user.id
    ensures after.sales.orders[a.ids.order].vehicleId == Some(a.vehicle)
    ensures a.vehicle in db.vehicles && Entitlement(db.vehicles[a.vehicle], a.user.id, now).Success?
    ensures !HasOpenOrder(db.sales.orders, a.vehicle, a.user.id)
  {
  }

  /** A settled order was settled before, or this step settles it and it was payable. */
  lemma SettledBefore(cfg: Config, db: Db, e: Event, o: OrderId, v: VehicleId)
    requires SalesInv(db.sales) && SettledOn(Apply(cfg, db, e).db.sales, o, v)
    ensures o in db.sales.orders
    ensures SettledOn(db.sales, o, v) || (Payable(db.sales, o, v) && Settles(e.action, Apply(cfg, db, e).out, o))
  {
    hide Apply, SalesInv, HasPendingPayment, SoundMove;
    SalesStep(cfg, db, e);
    SoundMoveGives(db.sales, Apply(cfg, db, e).db.sales);
    if o in db.sales.orders {
      StatusStep(cfg, db, e, o);
    } else {
      hide CheckedOutRow;
      NewOrderStep(cfg, db, e, o);
      NewRowIsHeld(cfg, db, e.action, e.now, Apply(cfg, db, e).db);
    }
  }

  /** The order this step settles is settled afterwards, and its vehicle sold. */
  lemma SettlementSells(cfg: Config, db: Db, e: Event, o: OrderId, v: VehicleId)
    requires SalesInv(db.sales) && v in db.vehicles && Settles(e.action, Apply(cfg, db, e).out, o)
    requires OrderOn(db.sales.orders, o, v)
    ensures v in Apply(cfg, db, e).db.vehicles
    ensures Apply(cfg, db, e).db.vehicles[v].status == Sold && Apply(cfg, db, e).db.vehicles[v].heldBy == None
  {
    hide Apply, SalesInv;
    VehicleStep(cfg, db, e, v);
  }

  // ---- the invariant ----------------------------------------------------------------------------------

  /** A new payable order of v belongs to its holder, who had none before. */
  lemma CheckoutByHolder(cfg: Config, db: Db, e: Event, o: OrderId, v: VehicleId)
    requires SalesInv(db.sales) && SaleInv(db, v)
    requires o !in db.sales.orders && Payable(Apply(cfg, db, e).db.sales, o, v)
    ensures db.vehicles[v].heldBy == Some(Apply(cfg, db, e).db.sales.orders[o].buyer)
    ensures forall q :: !Payable(db.sales, q, v)
  {
    hide Apply, SalesInv, CheckedOutRow, HasPendingPayment;
    PayableBefore(cfg, db, e, o, v);
    NewRowIsHeld(cfg, db, e.action, e.now, Apply(cfg, db, e).db);
    forall q ensures !Payable(db.sales, q, v) {
      assert !IsRival(db.sales, q, v, db.vehicles[v].heldBy.value);
    }
  }

  lemma AtMostOnePayable(cfg: Config, db: Db, e: Event, o: OrderId, q: OrderId, v: VehicleId)
    requires SalesInv(db.sales) && SaleInv(db, v)
    requires Payable(Apply(cfg, db, e).db.sales, o, v) && Payable(Apply(cfg, db, e).db.sales, q, v)
    ensures o == q
  {
    hide Apply, SalesInv, HasPendingPayment, CheckedOutRow;
    PayableBefore(cfg, db, e, o, v);
    PayableBefore(cfg, db, e, q, v);
    if o !in db.sales.orders {
      CheckoutByHolder(cfg, db, e, o, v);
    }
    if q !in db.sales.orders {
      CheckoutByHolder(cfg, db, e, q, v);
    }
  }

  lemma HolderHasNoRival(cfg: Config, db: Db, e: Event, v: VehicleId)
    requires SalesInv(db.sales) && SaleInv(db, v) && CleanStep(cfg, db, e, v)
    ensures v in Apply(cfg, db, e).db.vehicles
    ensures var row := Apply(cfg, db, e).db.vehicles[v];
            row.heldBy.Some? ==> NoRival(Apply(cfg, db, e).db.sales, v, row.heldBy.value)
  {
    hide Apply, SalesInv, HasPendingPayment, CheckedOutRow;
    VehicleStep(cfg, db, e, v);
    var after := Apply(cfg, db, e).db;
    forall o | after.vehicles[v].heldBy.Some? && Payable(after.sales, o, v)
      ensures !IsRival(after.sales, o, v, after.vehicles[v].heldBy.value)
    {
      PayableBefore(cfg, db, e, o, v);
      var holder := after.vehicles[v].heldBy.value;
      if o in db.sales.orders {
        assert NoRival(db.sales, v, holder);
        assert !IsRival(db.sales, o, v, holder);
      } else {
        CheckoutByHolder(cfg, db, e, o, v);
      }
    }
  }

  lemma SettledMeansSold(cfg: Config, db: Db, e: Event, o: OrderId, v: VehicleId)
    requires SalesInv(db.sales) && SaleInv(db, v) && SettledOn(Apply(cfg, db, e).db.sales, o, v)
    ensures v in Apply(cfg, db, e).db.vehicles
    ensures Apply(cfg, db, e).db.vehicles[v].status == Sold && Apply(cfg, db, e).db.vehicles[v].heldBy == None
  {
    hide Apply, SalesInv, HasPendingPayment;
    SettledBefore(cfg, db, e, o, v);
    if SettledOn(db.sales, o, v) {
      VehicleStep(cfg, db, e, v);
    } else {
      SettlementSells(cfg, db, e, o, v);
    }
  }

  lemma NothingElsePayable(cfg: Config, db: Db, e: Event, o: OrderId, q: OrderId, v: VehicleId)
    requires SalesInv(db.sales) && SaleInv(db, v) && SettledOn(Apply(cfg, db, e).db.sales, o, v)
    ensures !Payable(Apply(cfg, db, e).db.sales, q, v)
    ensures SettledOn(Apply(cfg, db, e).db.sales, q, v) ==> q == o
  {
    hide Apply, SalesInv, HasPendingPayment, CheckedOutRow;
    SettledBefore(cfg, db, e, o, v);
    if Payable(Apply(cfg, db, e).db.sales, q, v) {
      PayableBefore(cfg, db, e, q, v);
      if q !in db.sales.orders {
        CheckoutByHolder(cfg, db, e, q, v);
      }
    }
    if SettledOn(Apply(cfg, db, e).db.sales, q, v) {
      SettledBefore(cfg, db, e, q, v);
    }
  }

  lemma SaleInvStep(cfg: Config, db: Db, e: Event, v: VehicleId)
    requires SalesInv(db.sales) && SaleInv(db, v) && CleanStep(cfg, db, e, v)
    ensures SaleInv(Apply(cfg, db, e).db, v)
  {
    hide Apply, SalesInv, Payable, SettledOn, NoRival, CleanStep;
    var after := Apply(cfg, db, e).db;
    VehicleStep(cfg, db, e, v);
    forall o, q | Payable(after.sales, o, v) && Payable(after.sales, q, v) ensures o == q {
      AtMostOnePayable(cfg, db, e, o, q, v);
    }
    HolderHasNoRival(cfg, db, e, v);
    forall o | SettledOn(after.sales, o, v)
      ensures after.vehicles[v].status == Sold && after.vehicles[v].heldBy == None
      ensures forall q :: !Payable(after.sales, q, v)
      ensures forall q :: SettledOn(after.sales, q, v) ==> q == o
    {
      SettledMeansSold(cfg, db, e, o, v);
      forall q ensures !Payable(after.sales, q, v) && (SettledOn(after.sales, q, v) ==> q == o) {
        NothingElsePayable(cfg, db, e, o, q, v);
      }
    }
  }

  // ---- over a run ---------------------------------------------------------------------------------------

  ghost predicate CleanRun(cfg: Config, start: Db, es: seq<Event>, v: VehicleId) {
    forall i: nat :: i < |es| ==> CleanStep(cfg, StateAt(cfg, start, es, i), es[i], v)
  }

  /** Event i settles order o, which is for vehicle v. */
  ghost predicate SellsAt(cfg: Config, start: Db, es: seq<Event>, i: nat, o: OrderId, v: VehicleId) {
    i < |es| && Settles(es[i].action, OutcomeAt(cfg, start, es, i), o)
        && OrderOn(StateAt(cfg, start, es, i).sales.orders, o, v)
  }

  lemma {:induction false} SaleInvAlways(cfg: Config, start: Db, es: seq<Event>, n: nat, v: VehicleId)
    requires SalesInv(start.sales) && SaleInv(start, v) && CleanRun(cfg, start, es, v) && n <= |es|
    ensures SaleInv(StateAt(cfg, start, es, n), v)
  {
    hide Apply, SalesInv, SaleInv, CleanStep;
    if n > 0 {
      SaleInvAlways(cfg, start, es, n - 1, v);
      SalesInvAlways(cfg, start, es, n - 1);
      SaleInvStep(cfg, StateAt(cfg, start, es, n - 1), es[n - 1], v);
    }
  }

  lemma SettledStays(cfg: Config, start: Db, es: seq<Event>, m: nat, n: nat, o: OrderId, v: VehicleId)
    requires SalesInv(start.sales) && m <= n <= |es| && SettledOn(StateAt(cfg, start, es, m).sales, o, v)
    ensures SettledOn(StateAt(cfg, start, es, n).sales, o, v)
  {
    hide Apply, SalesInv, SoundMove;
    NeverGoesBack(cfg, start, es, o, m, n);
    SalesStretch(cfg, start, es, m, n);
    SoundMoveGives(StateAt(cfg, start, es, m).sales, StateAt(cfg, start, es, n).sales);
  }

  /** Once one of its orders is settled, a vehicle stays sold, unheld and without payable orders. */
  lemma SoldForGood(cfg: Config, start: Db, es: seq<Event>, m: nat, n: nat, o: OrderId, v: VehicleId)
    requires SalesInv(start.sales) && SaleInv(start, v) && CleanRun(cfg, start, es, v) && m <= n <= |es|
    requires SettledOn(StateAt(cfg, start, es, m).sales, o, v)
    ensures var db := StateAt(cfg, start, es, n);
            && v in db.vehicles && db.vehicles[v].status == Sold && db.vehicles[v].heldBy == None
            && (forall q :: !Payable(db.sales, q, v))
            && (forall q :: SettledOn(db.sales, q, v) ==> q == o)
  {
    hide Apply, SalesInv, CleanStep;
    SaleInvAlways(cfg, start, es, n, v);
    SettledStays(cfg, start, es, m, n, o, v);
  }

  lemma SellsWhatIsPayable(cfg: Config, start: Db, es: seq<Event>, i: nat, o: OrderId, v: VehicleId)
    requires SalesInv(start.sales) && SellsAt(cfg, start, es, i, o, v)
    ensures Payable(StateAt(cfg, start, es, i).sales, o, v)
    ensures SettledOn(StateAt(cfg, start, es, i + 1).sales, o, v)
  {
    hide Apply, SalesInv, HasPendingPayment;
    SalesInvAlways(cfg, start, es, i);
    StatusStep(cfg, StateAt(cfg, start, es, i), es[i], o);
    OrderRowsOfInv(StateAt(cfg, start, es, i).sales);
    OrderStep(cfg, StateAt(cfg, start, es, i), es[i], o);
  }

  /** The vehicle is never sold twice in a run whose holds are clean. */
  lemma SoldAtMostOnce(cfg: Config, start: Db, es: seq<Event>, v: VehicleId, i: nat, j: nat, o: OrderId, q: OrderId)
    requires SalesInv(start.sales) && SaleInv(start, v) && CleanRun(cfg, start, es, v)
    requires SellsAt(cfg, start, es, i, o, v) && SellsAt(cfg, start, es, j, q, v)
    ensures i == j && o == q
  {
    hide Apply, SalesInv, SaleInv, CleanStep, Payable, SettledOn;
    SellsWhatIsPayable(cfg, start, es, i, o, v);
    SellsWhatIsPayable(cfg, start, es, j, q, v);
    if i < j {
      SoldForGood(cfg, start, es, i + 1, j, o, v);
    } else if j < i {
      SoldForGood(cfg, start, es, j + 1, i, q, v);
    }
  }

  // ---- the exact condition ----------------------------------------------------------------------------------

  ghost predicate SoldAtMostOnceIn(cfg: Config, start: Db, es: seq<Event>, v: VehicleId) {
    forall i: nat, j: nat, o, q :: SellsAt(cfg, start, es, i, o, v) && SellsAt(cfg, start, es, j, q, v) ==> i == j
  }

  /** No continuation with clean holds sells the vehicle twice. */
  ghost predicate NeverSoldTwice(cfg: Config, db: Db, v: VehicleId, since: Time) {
    forall es: seq<Event> :: Ordered(es) && (forall i :: 0 <= i < |es| ==> since <= es[i].now)
        && CleanRun(cfg, db, es, v)
      ==> SoldAtMostOnceIn(cfg, db, es, v)
  }

  lemma CleanHoldIsSafe(cfg: Config, db: Db, e: Event, v: VehicleId)
    requires SalesInv(db.sales) && SaleInv(db, v) && CleanStep(cfg, db, e, v)
    ensures NeverSoldTwice(cfg, Apply(cfg, db, e).db, v, e.now)
  {
    hide Apply, SalesInv, SaleInv, CleanStep, SoundMove, SellsAt, CleanRun;
    var after := Apply(cfg, db, e).db;
    SalesStep(cfg, db, e);
    SoundMoveGives(db.sales, after.sales);
    SaleInvStep(cfg, db, e, v);
    forall es: seq<Event> | CleanRun(cfg, after, es, v) ensures SoldAtMostOnceIn(cfg, after, es, v) {
      forall i: nat, j: nat, o, q | SellsAt(cfg, after, es, i, o, v) && SellsAt(cfg, after, es, j, q, v)
          ensures i == j {
        SoldAtMostOnce(cfg, after, es, v, i, j, o, q);
      }
    }
  }

  /** The choices a second buyer's checkout and the two payments make. */
  datatype Draws = Draws(ids: FreshIds, feeBp: int, gstBp: int, rzFirst: string, rzSecond: string, year: int)

  /** No invoice carries the number another order would get. */
  ghost predicate NumbersOwn(s: Sales, year: int) {
    forall i, o :: 0 <= i < |s.invoices| && o in s.orders && s.invoices[i].number == NumberFor(s.orders[o], year)
      ==> s.invoices[i].orderId == o
  }

  lemma NumberIsFree(s: Sales, o: OrderId, year: int)
    requires SalesInv(s) && NumbersOwn(s, year) && o in s.orders && !SettledStatus(s.orders[o].status)
    ensures forall i | 0 <= i < |s.invoices| :: s.invoices[i].number != NumberFor(s.orders[o], year)
  {
    assert !HasInvoice(s.invoices, o);
  }

  /** The draws clash with no row, and every row the payments touch exists. */
  ghost predicate DrawsFree(db: Db, d: Draws) {
    && IdsFree(db.sales.orders, db.sales.payments, d.ids) && Truthy(d.ids.rzOrder)
    && (forall o | o in db.sales.orders :: db.sales.orders[o].pass.last != d.ids.pass.last)
    && d.rzFirst != d.rzSecond
    && (forall p | p in db.sales.payments ::
          db.sales.payments[p].rzPaymentId != Some(d.rzFirst) && db.sales.payments[p].rzPaymentId != Some(d.rzSecond))
    && NumbersOwn(db.sales, d.year)
    && (forall i | 0 <= i < |db.sales.invoices| ::
       db.sales.invoices[i].number != InvoiceNumber(d.year, d.ids.pass.last))
    && (forall o | o in db.sales.orders :: db.sales.orders[o].bankId in db.sales.banks)
    && (forall v | v in db.vehicles :: db.vehicles[v].bankId in db.sales.banks)
  }

  function DoubleSale(user: User, rival: User, v: VehicleId, o: OrderId, d: Draws, now: Time): seq<Event> {
    [Event(Action.StartCheckout(user, v, d.ids, d.feeBp, d.gstBp), now),
     Event(Action.VerifyPayment(rival, o, d.rzFirst, true, d.year), now),
     Event(Action.VerifyPayment(user, d.ids.order, d.rzSecond, true, d.year), now)]
  }

  lemma SettledRows(db: Db, user: UserId, o: OrderId, rzPayment: string, year: int, now: Time) returns (p: PaymentId)
    requires OrdersSpec.VerifyPayment(db.sales, db.vehicles, user, o, rzPayment, true, year, now).out == Ok(Settled)
    ensures o in db.sales.orders && IsPendingFor(db.sales.payments, p, o)
    ensures var t := OrdersSpec.VerifyPayment(db.sales, db.vehicles, user, o, rzPayment, true, year, now).rows.0;
            && t.orders == db.sales.orders[o := PaidRow(db.sales.orders[o], now)]
            && t.payments == db.sales.payments[p := CapturedRow(db.sales.payments[p], rzPayment, now)]
            && t.invoices == db.sales.invoices + [Invoice(o, NumberFor(db.sales.orders[o], year))]
            && (var order := db.sales.orders[o];
                t.banks == if order.vehicleId.None? || order.bankId !in db.sales.banks then db.sales.banks
                           else db.sales.banks[order.bankId := Credited(db.sales.banks[order.bankId], order.base)])
            && t.banks.Keys == db.sales.banks.Keys
    ensures OrdersSpec.VerifyPayment(db.sales, db.vehicles, user, o, rzPayment, true, year, now).rows.1.Keys
        == db.vehicles.Keys
  {
    p := ReadForPayment(db.sales.orders, db.sales.payments, user, o).value.paymentId;
  }

  lemma PendingElsewhere(payments: Payments, later: Payments, p: PaymentId, o: OrderId, q: OrderId)
    requires p in payments && payments[p].orderId == o && o != q && HasPendingPayment(payments, q)
    requires p in later && later == payments[p := later[p]]
    ensures HasPendingPayment(later, q)
  {
    var r :| IsPendingFor(payments, r, q);
    assert IsPendingFor(later, r, q);
  }

  /** Two payable orders of one vehicle, belonging to different buyers, can both be settled. */
  lemma BothCanPay(cfg: Config, db: Db, v: VehicleId, o: OrderId, q: OrderId, first: User, second: User,
                   rzFirst: string, rzSecond: string, year: int, now: Time)
    requires SalesInv(db.sales) && v in db.vehicles && o != q
    requires Payable(db.sales, o, v) && Payable(db.sales, q, v)
    requires db.sales.orders[o].buyer == first.id && db.sales.orders[q].buyer == second.id
    requires db.sales.orders[o].bankId in db.sales.banks && db.sales.orders[q].bankId in db.sales.banks
    requires db.sales.orders[o].pass.last != db.sales.orders[q].pass.last && rzFirst != rzSecond
    requires forall p | p in db.sales.payments ::
               db.sales.payments[p].rzPaymentId != Some(rzFirst) && db.sales.payments[p].rzPaymentId != Some(rzSecond)
    requires forall i | 0 <= i < |db.sales.invoices| ::
               && db.sales.invoices[i].number != NumberFor(db.sales.orders[o], year)
               && db.sales.invoices[i].number != NumberFor(db.sales.orders[q], year)
    ensures var e := Event(Action.VerifyPayment(first, o, rzFirst, true, year), now);
            var e' := Event(Action.VerifyPayment(second, q, rzSecond, true, year), now);
            && Apply(cfg, db, e).out == Ok(Settled)
            && OrderOn(Apply(cfg, db, e).db.sales.orders, q, v)
            && Apply(cfg, Apply(cfg, db, e).db, e').out == Ok(Settled)
  {
    hide SalesInv, SoundMove, OrdersSpec.VerifyPayment, HasPendingPayment;
    var e := Event(Action.VerifyPayment(first, o, rzFirst, true, year), now);
    SettlesIffPayable(db, first.id, o, rzFirst, year, now);
    var p := SettledRows(db, first.id, o, rzFirst, year, now);
    var after := Apply(cfg, db, e).db;
    SalesStep(cfg, db, e);
    SoundMoveGives(db.sales, after.sales);
    PendingElsewhere(db.sales.payments, after.sales.payments, p, o, q);
    SettlesIffPayable(after, second.id, q, rzSecond, year, now);
  }

  lemma ThreeSteps(cfg: Config, start: Db, es: seq<Event>)
    requires |es| == 3
    ensures StateAt(cfg, start, es, 0) == start && StateAt(cfg, start, es, 1) == Apply(cfg, start, es[0]).db
    ensures StateAt(cfg, start, es, 2) == Apply(cfg, StateAt(cfg, start, es, 1), es[1]).db
  {
    hide Apply;
  }

  lemma HolderEntitled(v: Vehicle, user: UserId, now: Time)
    requires v.saleType == BuyNow || v.saleType == Hybrid
    requires v.heldBy == Some(user) && v.heldUntil.Some? && now <= v.heldUntil.value
    requires v.buyNowPrice.Some? && v.buyNowPrice.value != 0
    ensures Entitlement(v, user, now).Success?
  {
  }

  lemma NewOrderPayable(s: Sales, t: Sales, o: OrderId, v: VehicleId, ids: FreshIds)
    requires Payable(s, o, v) && IdsFree(s.orders, s.payments, ids) && Truthy(ids.rzOrder)
    requires ids.order in t.orders && t.orders == s.orders[ids.order := t.orders[ids.order]]
    requires t.orders[ids.order].vehicleId == Some(v) && t.orders[ids.order].status == Held
    requires ids.payment in t.payments && t.payments == s.payments[ids.payment := t.payments[ids.payment]]
    requires t.payments[ids.payment] == NewPayment(ids.order, t.orders[ids.order].total, ids.rzOrder)
    ensures Payable(t, o, v) && Payable(t, ids.order, v)
  {
    var p :| IsPendingFor(s.payments, p, o);
    assert IsPendingFor(t.payments, p, o);
    assert IsPendingFor(t.payments, ids.payment, ids.order);
  }

  /** If a rival can still pay when a hold is granted, three more calls sell the vehicle twice. */
  lemma RivalMakesDoubleSale(cfg: Config, db: Db, user: User, rival: User, v: VehicleId, now: Time, o: OrderId,
                             d: Draws)
    requires SalesInv(db.sales) && v in db.vehicles && cfg.holdMs >= 0
    requires Apply(cfg, db, Event(Action.Hold(user, v), now)).out.Ok?
    requires db.vehicles[v].buyNowPrice.Some? && db.vehicles[v].buyNowPrice.value != 0
    requires !HasOpenOrder(db.sales.orders, v, user.id) && DrawsFree(db, d)
    requires IsRival(db.sales, o, v, user.id) && rival.id == db.sales.orders[o].buyer
    ensures var after := Apply(cfg, db, Event(Action.Hold(user, v), now)).db;
            var es := DoubleSale(user, rival, v, o, d, now);
            Ordered(es) && CleanRun(cfg, after, es, v) && SellsAt(cfg, after, es, 1, o, v)
                && SellsAt(cfg, after, es, 2, d.ids.order, v)
  {
    hide SalesInv, SoundMove, Apply, HasPendingPayment, HasOpenOrder;
    var held := Apply(cfg, db, Event(Action.Hold(user, v), now)).db;
    var es := DoubleSale(user, rival, v, o, d, now);
    VehicleStep(cfg, db, Event(Action.Hold(user, v), now), v);
    Frames.StepFrame(cfg, db, Event(Action.Hold(user, v), now));
    HolderEntitled(held.vehicles[v], user.id, now);
    CheckoutGoesThrough(cfg, held, user, v, d.ids, d.feeBp, d.gstBp, now);
    var s1 := Apply(cfg, held, es[0]).db;
    SalesStep(cfg, held, es[0]);
    SoundMoveGives(held.sales, s1.sales);
    NewOrderPayable(held.sales, s1.sales, o, v, d.ids);
    NumberIsFree(db.sales, o, d.year);
    BothCanPay(cfg, s1, v, o, d.ids.order, rival, user, d.rzFirst, d.rzSecond, d.year, now);
    ThreeSteps(cfg, held, es);
  }

  lemma RivalExists(s: Sales, o: OrderId, v: VehicleId, user: UserId)
    requires IsRival(s, o, v, user)
    ensures o in s.orders
  {
  }

  lemma VehicleOfInv(db: Db, v: VehicleId)
    requires SaleInv(db, v)
    ensures v in db.vehicles
  {
  }

  /** The exact condition: a hold granted to a user without an open order of their own can never lead to a double sale
      if and only if, when it is granted, nobody else has an order on the vehicle that can still be paid. */
  lemma HoldIsSafeIffNoRival(cfg: Config, db: Db, user: User, v: VehicleId, now: Time, d: Draws)
    requires SalesInv(db.sales) && SaleInv(db, v) && cfg.holdMs >= 0
    requires Apply(cfg, db, Event(Action.Hold(user, v), now)).out.Ok?
    requires db.vehicles[v].buyNowPrice.Some? && db.vehicles[v].buyNowPrice.value != 0
    requires !HasOpenOrder(db.sales.orders, v, user.id) && DrawsFree(db, d)
    ensures NeverSoldTwice(cfg, Apply(cfg, db, Event(Action.Hold(user, v), now)).db, v, now)
       <==> NoRival(db.sales, v, user.id)
  {
    hide SalesInv, SaleInv, Apply, HasOpenOrder, DrawsFree, Payable, SellsAt, CleanRun;
    var e := Event(Action.Hold(user, v), now);
    if NoRival(db.sales, v, user.id) {
      CleanHoldIsSafe(cfg, db, e, v);
    } else {
      var o :| IsRival(db.sales, o, v, user.id);
      VehicleOfInv(db, v);
      RivalExists(db.sales, o, v, user.id);
      var rival := User(db.sales.orders[o].buyer, Buyer, None);
      RivalMakesDoubleSale(cfg, db, user, rival, v, now, o, d);
      var es := DoubleSale(user, rival, v, o, d, now);
      assert !SoldAtMostOnceIn(cfg, Apply(cfg, db, e).db, es, v);
    }
  }
}
