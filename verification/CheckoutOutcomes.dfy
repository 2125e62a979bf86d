/** When a checkout is accepted, what rows it writes and how it is refused, in row columns; and that every order of a
    run carries the price of its listing and the rates of its checkout. */
module CheckoutOutcomes {
  import opened Rows
  import opened Machine
  import opened Columns
  import opened SalesTheory
  import opened SalesRuns
  import OrdersSpec
  import Money
  import OrderView
  import Interleaved
  import SysView
  import SettlementOnce

  function CheckoutEvent(user: User, v: VehicleId, ids: OrdersSpec.FreshIds, feeBp: int, gstBp: int, now: Time): Event {
    Event(Action.StartCheckout(user, v, ids, feeBp, gstBp), now)
  }

  /** Sold at a fixed price, rather than to the highest bidder. */
  predicate FixedPrice(v: Vehicle) {
    v.saleType == BuyNow || v.saleType == Hybrid
  }

  /** The user holds the vehicle, or has won it. */
  predicate MayBuy(v: Vehicle, user: UserId, now: Time) {
    if FixedPrice(v) then
      && v.heldBy == Some(user) && !Over(v.heldUntil, now)
      && v.buyNowPrice.Some? && v.buyNowPrice.value != 0
    else
      && v.saleType == SaleType.Auction && v.auction.endAt.Some? && v.auction.endAt.value <= now
      && v.auction.currentBidder == Some(user)
  }

  /** An order of the user on v that is HELD, PAYMENT_PENDING, PAID or READY_FOR_PICKUP. */
  ghost predicate InProgress(orders: Orders, v: VehicleId, user: UserId) {
    exists o :: o in orders && orders[o].vehicleId == Some(v) && orders[o].buyer == user
                && orders[o].status in {Held, PaymentPending, Paid, ReadyForPickup}
  }

  /** No unique column of the new order row is taken. */
  ghost predicate OrderUnused(orders: Orders, ids: OrdersSpec.FreshIds) {
    ids.order !in orders && forall o :: o in orders ==> orders[o].pass != ids.pass
  }

  /** No unique column of the new payment row is taken. */
  ghost predicate PaymentUnused(payments: Payments, ids: OrdersSpec.FreshIds) {
    ids.payment !in payments && forall p :: p in payments ==> payments[p].rzOrderId != ids.rzOrder
  }

  lemma OpenOrderColumns(orders: Orders, v: VehicleId, user: UserId)
    ensures OrdersSpec.HasOpenOrder(orders, v, user) <==> InProgress(orders, v, user)
  {
    if o :| o in orders && orders[o].vehicleId == Some(v) && orders[o].buyer == user
            && orders[o].status in {Held, PaymentPending, Paid, ReadyForPickup} {
      assert OrdersSpec.BlocksCheckout(orders[o].status);
    }
    if OrdersSpec.HasOpenOrder(orders, v, user) {
      var o :| o in orders && orders[o].vehicleId == Some(v) && orders[o].buyer == user
               && OrdersSpec.BlocksCheckout(orders[o].status);
    }
  }

  lemma CheckoutAcceptedIff(cfg: Config, db: Db, user: User, v: VehicleId, ids: OrdersSpec.FreshIds, feeBp: int,
                            gstBp: int,
                            now: Time)
    ensures Apply(cfg, db, CheckoutEvent(user, v, ids, feeBp, gstBp, now)).out.Ok? <==>
              && v in db.vehicles && MayBuy(db.vehicles[v], user.id, now)
              && !InProgress(db.sales.orders, v, user.id)
              && OrderUnused(db.sales.orders, ids) && ids.rzOrder.Some? && PaymentUnused(db.sales.payments, ids)
  {
    hide Money.ComputeOrderTotals, InProgress, OrdersSpec.HasOpenOrder;
    OpenOrderColumns(db.sales.orders, v, user.id);
  }

  lemma RoundColumns(x: int)
    ensures CutOff(Money.Round(x), x)
  {
  }

  /** The rounding of one share, for amounts and rates of any sign. */
  lemma ShareColumns(amount: int, bp: int)
    ensures CutOff(Money.Share(amount, bp), amount * bp)
  {
    RoundColumns(amount * bp);
  }

  /** The base price, and the fee and GST of these rates on it. */
  predicate Billed(row: Order, feeBp: int, gstBp: int) {
    && CutOff(row.fee, row.base * feeBp) && CutOff(row.gst, row.fee * gstBp)
    && row.total == row.base + row.fee + row.gst
  }

  /** Fee and GST lie within half a paisa of their exact shares. */
  predicate BilledToTheNearest(row: Order, feeBp: int, gstBp: int) {
    && NearestHalfUp(row.fee, row.base * feeBp) && NearestHalfUp(row.gst, row.fee * gstBp)
    && row.total == row.base + row.fee + row.gst
  }

  /** Cutting off towards zero is rounding to the nearest exactly where it does not cut a negative fraction. */
  lemma NearestIff(rounded: int, x: int)
    requires CutOff(rounded, x)
    ensures NearestHalfUp(rounded, x) <==> x >= -5000 || (x + 5000) % 10000 == 0
  {
  }

  /** Where nothing is negative, cutting off is rounding to the nearest. */
  lemma BilledNearest(row: Order, feeBp: int, gstBp: int)
    requires Billed(row, feeBp, gstBp) && row.base >= 0 && feeBp >= 0 && gstBp >= 0
    ensures BilledToTheNearest(row, feeBp, gstBp)
  {
    Money.ProductNonNegative(row.base, feeBp);
    Money.ProductNonNegative(row.fee, gstBp);
  }

  lemma AcceptedCheckoutWrites(cfg: Config, db: Db, user: User, v: VehicleId, ids: OrdersSpec.FreshIds, feeBp: int,
                               gstBp: int, now: Time)
    requires Apply(cfg, db, CheckoutEvent(user, v, ids, feeBp, gstBp, now)).out.Ok?
    ensures v in db.vehicles
    ensures var w, listing := Apply(cfg, db, CheckoutEvent(user, v, ids, feeBp, gstBp, now)), db.vehicles[v];
            && ids.order in w.db.sales.orders && ids.payment in w.db.sales.payments
            && var row := w.db.sales.orders[ids.order];
               && row.base == (if FixedPrice(listing) then listing.buyNowPrice.value else listing.auction.currentBid)
               && Billed(row, feeBp, gstBp)
               && row == Order(user.id, listing.bankId, Some(v), listing.saleType, row.base, row.fee, row.gst,
                  row.total,
                    ids.pass, Held,
                    Some(if listing.heldUntil.Some? then listing.heldUntil.value else now + cfg.holdMs),
                    None, None, None, None, None, None)
               && w.db == db.(sales := db.sales.(
                    orders := db.sales.orders[ids.order := row],
                    payments := db.sales.payments[ids.payment :=
                        Payment(ids.order, row.total, ids.rzOrder, None, Initiated, None, None, None)]))
               && w.out == Ok(CheckedOut(ids.order, row.total))
  {
    hide OrdersSpec.HasOpenOrder, OrdersSpec.OrderIdsFree, OrdersSpec.PaymentIdsFree, Money.Share, CutOff;
    var listing := db.vehicles[v];
    var base := if FixedPrice(listing) then listing.buyNowPrice.value else listing.auction.currentBid;
    ShareColumns(base, feeBp);
    ShareColumns(Money.Share(base, feeBp), gstBp);
  }

  /** A refusal writes nothing, and names the first guard that fails. */
  lemma RefusedCheckout(cfg: Config, db: Db, user: User, v: VehicleId, ids: OrdersSpec.FreshIds, feeBp: int, gstBp: int,
                        now: Time)
    requires Apply(cfg, db, CheckoutEvent(user, v, ids, feeBp, gstBp, now)).out.Err?
    ensures var w := Apply(cfg, db, CheckoutEvent(user, v, ids, feeBp, gstBp, now));
            && w.db == db
            && (w.out == Err(NotFound) <==> v !in db.vehicles)
            && (v in db.vehicles && FixedPrice(db.vehicles[v]) ==>
                  var listing := db.vehicles[v];
                  && (w.out == Err(Forbidden) <==> listing.heldBy != Some(user.id))
                  && (w.out == Err(Gone) <==> listing.heldBy == Some(user.id) && Over(listing.heldUntil, now))
                  && (w.out == Err(BadRequest) <==>
                        && listing.heldBy == Some(user.id) && !Over(listing.heldUntil, now)
                        && (listing.buyNowPrice.None? || listing.buyNowPrice.value == 0)))
            && (v in db.vehicles && db.vehicles[v].saleType == SaleType.Auction ==>
                  var auction := db.vehicles[v].auction;
                  && (w.out == Err(BadRequest) <==> auction.endAt.None? || auction.endAt.value > now)
                  && (w.out == Err(Forbidden) <==>
                        auction.endAt.Some? && auction.endAt.value <= now && auction.currentBidder != Some(user.id)))
            && (v in db.vehicles && db.vehicles[v].saleType == LotSale ==> w.out == Err(BadRequest))
            && (v in db.vehicles && MayBuy(db.vehicles[v], user.id, now) ==>
                  && (w.out == Err(Conflict) <==> InProgress(db.sales.orders, v, user.id))
                  && (w.out == Err(GatewayDown) <==>
                        && !InProgress(db.sales.orders, v, user.id) && OrderUnused(db.sales.orders, ids)
                        && ids.rzOrder.None?)
                  && (w.out == Err(UniqueViolation) <==>
                        && !InProgress(db.sales.orders, v, user.id)
                        && (!OrderUnused(db.sales.orders, ids)
                            || (ids.rzOrder.Some? && !PaymentUnused(db.sales.payments, ids)))))
  {
    hide Money.ComputeOrderTotals, InProgress, OrdersSpec.HasOpenOrder;
    OpenOrderColumns(db.sales.orders, v, user.id);
  }

  // ---- runs ----------------------------------------------------------------------------------------------------

  /** The row of order o, and its payment, say what this checkout at these prices asks for. */
  ghost predicate PricedBy(vehicles: Vehicles, a: Action, s: Sales, o: OrderId) {
    && a.StartCheckout? && a.ids.order == o && o in s.orders && a.vehicle in vehicles
    && var listing, row := vehicles[a.vehicle], s.orders[o];
       && row.vehicleId == Some(a.vehicle) && row.buyer == a.user.id && row.bankId == listing.bankId
       && (FixedPrice(listing) ==> listing.buyNowPrice == Some(row.base))
       && (!FixedPrice(listing) ==> listing.saleType == SaleType.Auction && listing.auction.currentBid == row.base)
       && Billed(row, a.feeBp, a.gstBp)
       && a.ids.payment in s.payments && s.payments[a.ids.payment].orderId == o
       && s.payments[a.ids.payment].amount == row.base + row.fee + row.gst
  }

  lemma PricedByCheckout(cfg: Config, db: Db, a: Action, now: Time)
    requires a.StartCheckout? && Apply(cfg, db, Event(a, now)).out.Ok?
    ensures PricedBy(db.vehicles, a, Apply(cfg, db, Event(a, now)).db.sales, a.ids.order)
  {
    hide Apply, CutOff, InProgress, OrderUnused, PaymentUnused;
    CheckoutAcceptedIff(cfg, db, a.user, a.vehicle, a.ids, a.feeBp, a.gstBp, now);
    AcceptedCheckoutWrites(cfg, db, a.user, a.vehicle, a.ids, a.feeBp, a.gstBp, now);
  }

  lemma PriceStays(vehicles: Vehicles, a: Action, s: Sales, t: Sales, o: OrderId)
    requires PricedBy(vehicles, a, s, o) && Evolves(s, t)
    ensures PricedBy(vehicles, a, t, o)
  {
    hide CutOff;
    assert SameDeal(s.orders[o], t.orders[o]) && SameBill(s.payments[a.ids.payment], t.payments[a.ids.payment]);
  }

  /** Event i is the accepted checkout of order o, whose rows at step n carry its prices. */
  ghost predicate PricedAt(cfg: Config, start: Db, es: seq<Event>, i: nat, n: nat, o: OrderId) {
    && i < n <= |es| && es[i].action.StartCheckout? && OutcomeAt(cfg, start, es, i).Ok?
    && PricedBy(StateAt(cfg, start, es, i).vehicles, es[i].action, StateAt(cfg, start, es, n).sales, o)
  }

  lemma OutcomeIs(cfg: Config, start: Db, es: seq<Event>, n: nat)
    requires n < |es|
    ensures OutcomeAt(cfg, start, es, n) == Apply(cfg, StateAt(cfg, start, es, n), es[n]).out
    ensures StateAt(cfg, start, es, n + 1) == Apply(cfg, StateAt(cfg, start, es, n), es[n]).db
  {
    hide Apply;
  }

  /** In every state of a run, an order checked out in it bills the price of its listing at the checkout, the fee and
      GST of the checkout's rates, and its payment bills their sum. */
  lemma {:induction false} OrdersCarryTheirRates(cfg: Config, start: Db, es: seq<Event>, n: nat, o: OrderId)
    requires SalesInv(start.sales) && o !in start.sales.orders
    requires n <= |es| && o in StateAt(cfg, start, es, n).sales.orders
    ensures exists i: nat :: PricedAt(cfg, start, es, i, n, o)
  {
    hide Apply, SalesInv, SoundMove, Evolves, PricedBy, StateAt, OutcomeAt;
    StartState(cfg, start, es);
    OutcomeIs(cfg, start, es, n - 1);
    var db, e := StateAt(cfg, start, es, n - 1), es[n - 1];
    if o in db.sales.orders {
      OrdersCarryTheirRates(cfg, start, es, n - 1, o);
      var i: nat :| PricedAt(cfg, start, es, i, n - 1, o);
      SalesInvAlways(cfg, start, es, n - 1);
      SalesStep(cfg, db, e);
      SoundMoveGives(db.sales, StateAt(cfg, start, es, n).sales);
      PriceStays(StateAt(cfg, start, es, i).vehicles, es[i].action, db.sales, StateAt(cfg, start, es, n).sales, o);
      assert PricedAt(cfg, start, es, i, n, o);
    } else {
      OrderView.NewOrderStep(cfg, db, e, o);
      PricedByCheckout(cfg, db, e.action, e.now);
      assert PricedAt(cfg, start, es, n - 1, n, o);
    }
  }

  /** Move i is the accepted checkout of order o, whose rows after n moves carry its prices. */
  ghost predicate PricedInFlight(cfg: Config, start: Interleaved.Sys, ts: seq<Interleaved.Tick>, i: nat, n: nat,
                                 o: OrderId)
  {
    && i < n <= |ts| && ts[i].move.Atomic? && ts[i].move.action.StartCheckout?
    && Interleaved.AnswerAt(cfg, start, ts, i).Some? && Interleaved.AnswerAt(cfg, start, ts, i).value.Ok?
    && PricedBy(Interleaved.SysAt(cfg, start, ts, i).db.vehicles, ts[i].move.action,
                Interleaved.SysAt(cfg, start, ts, n).db.sales, o)
  }

  lemma WholeMove(cfg: Config, sys: Interleaved.Sys, a: Action, now: Time)
    ensures var w, whole := Interleaved.Advance(cfg, sys, Interleaved.Atomic(a), now),
        Apply(cfg, sys.db, Event(a, now));
            w.out == Some(whole.out) && w.sys.db == whole.db && w.sys.calls == sys.calls
  {
    hide Apply;
  }

  lemma PricedByMove(cfg: Config, sys: Interleaved.Sys, m: Interleaved.Move, now: Time, o: OrderId)
    requires o !in sys.db.sales.orders && o in Interleaved.Advance(cfg, sys, m, now).sys.db.sales.orders
    ensures var w := Interleaved.Advance(cfg, sys, m, now);
            && m.Atomic? && m.action.StartCheckout? && w.out.Some? && w.out.value.Ok?
            && PricedBy(sys.db.vehicles, m.action, w.sys.db.sales, o)
  {
    hide Interleaved.Advance, PricedBy, OrderView.CheckedOutRow;
    SysView.SysNewOrder(cfg, sys, m, now, o);
    WholeMove(cfg, sys, m.action, now);
    PricedByCheckout(cfg, sys.db, m.action, now);
  }

  /** The same in every state of every interleaving. */
  lemma {:induction false} OrdersCarryTheirRatesInFlight(cfg: Config, start: Interleaved.Sys, ts: seq<Interleaved.Tick>,
                                                         n: nat, o: OrderId)
    requires SettlementOnce.SysInv(start) && o !in start.db.sales.orders
    requires n <= |ts| && o in Interleaved.SysAt(cfg, start, ts, n).db.sales.orders
    ensures exists i: nat :: PricedInFlight(cfg, start, ts, i, n, o)
  {
    hide Interleaved.Advance, SettlementOnce.SysInv, SoundMove, Evolves, PricedBy, SalesInv;
    var sys, m, now := Interleaved.SysAt(cfg, start, ts, n - 1), ts[n - 1].move, ts[n - 1].now;
    if o in sys.db.sales.orders {
      OrdersCarryTheirRatesInFlight(cfg, start, ts, n - 1, o);
      var i: nat :| PricedInFlight(cfg, start, ts, i, n - 1, o);
      SettlementOnce.SysInvAlways(cfg, start, ts, n - 1);
      SettlementOnce.AdvanceSound(cfg, sys, m, now);
      SoundMoveGives(sys.db.sales, Interleaved.SysAt(cfg, start, ts, n).db.sales);
      PriceStays(Interleaved.SysAt(cfg, start, ts, i).db.vehicles, ts[i].move.action, sys.db.sales,
                 Interleaved.SysAt(cfg, start, ts, n).db.sales, o);
      assert PricedInFlight(cfg, start, ts, i, n, o);
    } else {
      PricedByMove(cfg, sys, m, now, o);
      assert PricedInFlight(cfg, start, ts, n - 1, n, o);
    }
  }
}
