/** L1 theorem: hold sweeps change no answer and no row outside the vehicle table, exactly when no bid
    depends on one. */
module SweepTransparency {
  import opened Rows
  import opened VehiclesSpec
  import opened OrdersSpec
  import opened LotsSpec
  import opened Machine
  import opened AttemptGate
  import BidsSpec
  import PickupSpec
  import WebhookSpec
  import VehicleView

  /** A vehicle as a sweep at this moment would leave it. */
  function AfterSweep(v: Vehicle, now: Time): Vehicle {
    if HoldLapsed(v, now) then Released(v) else v
  }

  /** Equal databases, up to a sweep. */
  ghost predicate Alike(a: Db, b: Db, now: Time) {
    && a.vehicles.Keys == b.vehicles.Keys
    && (forall id :: id in a.vehicles ==> AfterSweep(a.vehicles[id], now) == AfterSweep(b.vehicles[id], now))
    && a == b.(vehicles := a.vehicles)
  }

  /** Row b is row a, swept or not. */
  predicate BehindRow(a: Vehicle, b: Vehicle, now: Time) {
    b == a || (HoldLapsed(a, now) && b == Released(a))
  }

  ghost predicate BehindRows(a: Vehicles, b: Vehicles, now: Time) {
    a.Keys == b.Keys && forall id :: id in a ==> BehindRow(a[id], b[id], now)
  }

  /** Database b is database a with some lapsed holds released. */
  ghost predicate Behind(a: Db, b: Db, now: Time) {
    BehindRows(a.vehicles, b.vehicles, now) && a == b.(vehicles := a.vehicles)
  }

  /** Auction listings are never on hold: `hold` refuses them. */
  predicate Unheld(v: Vehicle) {
    v.saleType == SaleType.Auction ==> v.status != OnHold && v.heldUntil == None
  }

  ghost predicate AuctionsUnheld(vehicles: Vehicles) {
    forall id :: id in vehicles ==> Unheld(vehicles[id])
  }

  predicate Agree(a: Outcome, b: Outcome) {
    a.Ok? == b.Ok? && (a.Ok? ==> a == b)
  }

  // ---- bids that depend on a sweep -------------------------------------------------------------------

  /** A HYBRID listing whose hold has lapsed, and a bid that meets every guard but the status. */
  predicate RevealedBySweep(cfg: Config, vehicles: Vehicles, user: User, id: VehicleId, amount: int, now: Time) {
    && id in vehicles && vehicles[id].saleType == Hybrid && HoldLapsed(vehicles[id], now)
    && BidsSpec.VehicleBidRefusal(cfg, Released(vehicles[id]), user, amount, now) == None
  }

  /** A sweep changes whether a bid succeeds if and only if it is such a bid: refused before, accepted after. */
  lemma BidSeesSweepIff(cfg: Config, vehicles: Vehicles, bids: seq<Bid>, user: User, id: VehicleId, amount: int,
                        now: Time)
    requires id in vehicles ==> Unheld(vehicles[id])
    ensures var before := BidsSpec.BidOnVehicle(cfg, vehicles, bids, user, id, amount, now).out;
            var after := BidsSpec.BidOnVehicle(cfg, VehiclesSpec.ReleaseExpiredHolds(vehicles, now).rows, bids, user,
                id, amount, now).out;
            && (before.Ok? != after.Ok? <==> RevealedBySweep(cfg, vehicles, user, id, amount, now))
            && (before.Ok? != after.Ok? ==> before == Err(Conflict))
  {
    hide BidsSpec.Record;
    var swept := VehiclesSpec.ReleaseExpiredHolds(vehicles, now).rows;
    assert id in swept <==> id in vehicles;
    assert id in vehicles ==> swept[id] == AfterSweep(vehicles[id], now);
  }

  /** The call is such a bid, and reaches the lock. */
  predicate SeesTheSweep(cfg: Config, db: Db, e: Event) {
    && e.action.BidOnVehicle? && e.action.amount > 0
    && PassesGate(cfg, db.counters, BidGate(e.action.user.id), e.now)
    && RevealedBySweep(cfg, db.vehicles, e.action.user, e.action.vehicle, e.action.amount, e.now)
  }

  /** The row of v is not the same in both tables. */
  predicate Differs(a: Vehicles, b: Vehicles, v: VehicleId) {
    v in a && v in b && a[v] != b[v]
  }

  /** The call is such a bid, on a row that a sweep has changed. */
  predicate TellsApart(cfg: Config, a: Db, b: Db, e: Event) {
    SeesTheSweep(cfg, a, e) && Differs(a.vehicles, b.vehicles, e.action.vehicle)
  }

  // ---- calls on a table and the same table partly swept ----------------------------------------------------

  lemma HoldAgrees(cfg: Config, a: Vehicles, b: Vehicles, user: UserId, id: VehicleId, now: Time)
    requires BehindRows(a, b, now)
    ensures var x, y := VehiclesSpec.Hold(cfg, a, user, id, now), VehiclesSpec.Hold(cfg, b, user, id, now);
            Agree(x.out, y.out) && BehindRows(x.rows, y.rows, now)
  {
    if id in a {
      assert BehindRow(a[id], b[id], now);
    }
  }

  lemma UpdateAgrees(a: Vehicles, b: Vehicles, user: User, id: VehicleId, reserve: Option<int>, buyNow: Option<int>,
                     now: Time)
    requires BehindRows(a, b, now)
    ensures var x := VehiclesSpec.UpdatePrices(a, user, id, reserve, buyNow);
            var y := VehiclesSpec.UpdatePrices(b, user, id, reserve, buyNow);
            Agree(x.out, y.out) && BehindRows(x.rows, y.rows, now)
  {
    if id in a {
      assert BehindRow(a[id], b[id], now);
    }
  }

  lemma SameEntitlement(a: Vehicle, b: Vehicle, user: UserId, now: Time)
    requires BehindRow(a, b, now) && Unheld(a)
    ensures Entitlement(a, user, now).Success? <==> Entitlement(b, user, now).Success?
    ensures Entitlement(a, user, now).Success? ==> a == b
  {
  }

  lemma CheckoutAgrees(cfg: Config, a: Vehicles, b: Vehicles, orders: Orders, payments: Payments,
                       user: UserId, id: VehicleId, ids: FreshIds, feeBp: int, gstBp: int, now: Time)
    requires BehindRows(a, b, now) && AuctionsUnheld(a)
    ensures var x := OrdersSpec.StartCheckout(cfg, a, orders, payments, user, id, ids, feeBp, gstBp, now);
            var y := OrdersSpec.StartCheckout(cfg, b, orders, payments, user, id, ids, feeBp, gstBp, now);
            Agree(x.out, y.out) && x.rows == y.rows
  {
    hide Entitlement, HasOpenOrder, OrderIdsFree, PaymentIdsFree;
    if id in a {
      assert BehindRow(a[id], b[id], now);
      SameEntitlement(a[id], b[id], user, now);
    }
  }

  lemma SettleAgrees(a: Vehicles, b: Vehicles, sales: Sales, ticket: Ticket, user: UserId, rzPayment: string,
                     year: int, now: Time)
    requires BehindRows(a, b, now) && ticket.PayDue?
    ensures var x := Settle(sales, a, ticket, user, rzPayment, year, now);
            var y := Settle(sales, b, ticket, user, rzPayment, year, now);
            x.out == y.out && x.rows.0 == y.rows.0 && BehindRows(x.rows.1, y.rows.1, now)
  {
    match ticket.order.vehicleId
    case Some(v) =>
      if v in a {
        assert BehindRow(a[v], b[v], now);
      }
    case None =>
  }

  lemma VerifyAgrees(a: Vehicles, b: Vehicles, sales: Sales, user: UserId, id: OrderId,
                     rzPayment: string, signatureOk: bool, year: int, now: Time)
    requires BehindRows(a, b, now)
    ensures var x := OrdersSpec.VerifyPayment(sales, a, user, id, rzPayment, signatureOk, year, now);
            var y := OrdersSpec.VerifyPayment(sales, b, user, id, rzPayment, signatureOk, year, now);
            x.out == y.out && x.rows.0 == y.rows.0 && BehindRows(x.rows.1, y.rows.1, now)
  {
    hide Settle, BehindRows;
    var read := ReadForPayment(sales.orders, sales.payments, user, id);
    if read.Success? && read.value.PayDue? {
      SettleAgrees(a, b, sales, read.value, user, rzPayment, year, now);
    }
  }

  lemma SameEligible(a: Vehicles, b: Vehicles, ids: seq<VehicleId>, bankId: BankId, now: Time)
    requires BehindRows(a, b, now)
    ensures EligibleIds(a, ids, bankId) == EligibleIds(b, ids, bankId)
  {
    forall id | id in a ensures Eligible(a[id], bankId) <==> Eligible(b[id], bankId) {
      assert BehindRow(a[id], b[id], now);
    }
  }

  lemma CreateLotAgrees(a: Vehicles, b: Vehicles, lots: Lots, user: User, req: NewLot, now: Time)
    requires BehindRows(a, b, now)
    ensures var x, y := LotsSpec.CreateLot(a, lots, user, req), LotsSpec.CreateLot(b, lots, user, req);
            x.out == y.out && x.rows.1 == y.rows.1 && BehindRows(x.rows.0, y.rows.0, now)
  {
    hide EligibleIds, LotIdFree;
    if user.bankId.Some? {
      SameEligible(a, b, req.vehicleIds, user.bankId.value, now);
    }
  }

  lemma BidAgrees(cfg: Config, a: Vehicles, b: Vehicles, bids: seq<Bid>, user: User, id: VehicleId, amount: int,
                  now: Time)
    requires BehindRows(a, b, now) && AuctionsUnheld(a)
    requires RevealedBySweep(cfg, a, user, id, amount, now) ==> !Differs(a, b, id)
    ensures var x := BidsSpec.BidOnVehicle(cfg, a, bids, user, id, amount, now);
            var y := BidsSpec.BidOnVehicle(cfg, b, bids, user, id, amount, now);
            Agree(x.out, y.out) && x.rows.1 == y.rows.1 && BehindRows(x.rows.0, y.rows.0, now)
  {
    hide BidsSpec.Record;
    if id in a {
      assert BehindRow(a[id], b[id], now);
      if a[id] == b[id] {
        hide BidsSpec.PlaceOnVehicle;
        assert BehindRows(a, b, now);
      }
    }
  }

  // ---- one step on a database and the same one partly swept ---------------------------------------------------

  lemma ServedBehind(cfg: Config, a: Db, b: Db, act: Action, now: Time)
    requires Behind(a, b, now) && AuctionsUnheld(a.vehicles) && !act.ReleaseExpiredHolds?
    requires act.BidOnVehicle? && act.amount > 0
      && RevealedBySweep(cfg, a.vehicles, act.user, act.vehicle, act.amount, now)
      ==> !Differs(a.vehicles, b.vehicles, act.vehicle)
    ensures Agree(Serve(cfg, a, act, now).out, Serve(cfg, b, act, now).out)
    ensures Behind(Serve(cfg, a, act, now).db, Serve(cfg, b, act, now).db, now)
  {
    hide BehindRows, AuctionsUnheld, RevealedBySweep;
    hide BidsSpec.BidOnVehicle, BidsSpec.BidOnLot, VehiclesSpec.Hold, VehiclesSpec.UpdatePrices;
    hide OrdersSpec.StartCheckout, OrdersSpec.VerifyPayment, OrdersSpec.ExpireOverdueOrders;
    hide PickupSpec.Scan, PickupSpec.Complete, WebhookSpec.Webhook, LotsSpec.CreateLot, LotsSpec.ApproveBidder;
    match act
    case BidOnVehicle(user, id, amount) =>
      if amount > 0 {
        BidAgrees(cfg, a.vehicles, b.vehicles, a.bids, user, id, amount, now);
      }
    case Hold(user, id) => HoldAgrees(cfg, a.vehicles, b.vehicles, user.id, id, now);
    case UpdatePrices(user, id, reserve, buyNow) => UpdateAgrees(a.vehicles, b.vehicles, user, id, reserve, buyNow,
        now);
    case StartCheckout(user, id, ids, feeBp, gstBp) =>
      CheckoutAgrees(cfg, a.vehicles, b.vehicles, a.sales.orders, a.sales.payments, user.id, id, ids, feeBp, gstBp,
          now);
    case VerifyPayment(user, id, rzPayment, signatureOk, year) =>
      VerifyAgrees(a.vehicles, b.vehicles, a.sales, user.id, id, rzPayment, signatureOk, year, now);
    case CreateLot(user, request) => CreateLotAgrees(a.vehicles, b.vehicles, a.lots, user, request, now);
    case _ =>
  }

  lemma StepBehind(cfg: Config, a: Db, b: Db, e: Event)
    requires Behind(a, b, e.now) && AuctionsUnheld(a.vehicles) && !e.action.ReleaseExpiredHolds?
    requires !TellsApart(cfg, a, b, e)
    ensures Agree(Apply(cfg, a, e).out, Apply(cfg, b, e).out)
    ensures Behind(Apply(cfg, a, e).db, Apply(cfg, b, e).db, e.now)
  {
    hide Serve, BehindRows, AuctionsUnheld, RevealedBySweep;
    match GateOf(e.action)
    case None => ServedBehind(cfg, a, b, e.action, e.now);
    case Some(key) =>
      var counters := Attempt(a.counters, key, e.now);
      if PassesGate(cfg, a.counters, key, e.now) {
        ServedBehind(cfg, a.(counters := counters), b.(counters := counters), e.action, e.now);
      }
  }

  /** A sweep leaves the database as it was, up to a sweep. */
  lemma SweepBehind(cfg: Config, a: Db, b: Db, e: Event)
    requires Behind(a, b, e.now) && e.action.ReleaseExpiredHolds?
    ensures Behind(a, Apply(cfg, b, e).db, e.now)
  {
  }

  lemma BehindLater(a: Db, b: Db, now: Time, later: Time)
    requires Behind(a, b, now) && now <= later
    ensures Behind(a, b, later)
  {
    forall id | id in a.vehicles ensures BehindRow(a.vehicles[id], b.vehicles[id], later) {
      assert BehindRow(a.vehicles[id], b.vehicles[id], now);
    }
  }

  lemma BehindJoin(a: Db, b: Db, c: Db, now: Time)
    requires Behind(a, b, now) && Behind(a, c, now)
    ensures Alike(b, c, now)
  {
    forall id | id in b.vehicles ensures AfterSweep(b.vehicles[id], now) == AfterSweep(c.vehicles[id], now) {
      assert BehindRow(a.vehicles[id], b.vehicles[id], now) && BehindRow(a.vehicles[id], c.vehicles[id], now);
    }
  }

  // ---- runs ------------------------------------------------------------------------------------------

  predicate IsSweep(e: Event) {
    e.action.ReleaseExpiredHolds?
  }

  /** The run without its sweeps. */
  function Strip(es: seq<Event>): seq<Event> {
    if es == [] then []
    else
      var last := es[|es| - 1];
      Strip(es[..|es| - 1]) + if IsSweep(last) then [] else [last]
  }

  ghost function Final(cfg: Config, start: Db, es: seq<Event>): Db {
    StateAt(cfg, start, es, |es|)
  }

  /** The answers of all calls but the sweeps, in order. */
  ghost function Answers(cfg: Config, start: Db, es: seq<Event>): seq<Outcome> {
    if es == [] then []
    else
      var init, last := es[..|es| - 1], es[|es| - 1];
      Answers(cfg, start, init) + if IsSweep(last) then [] else [Apply(cfg, Final(cfg, start, init), last).out]
  }

  ghost predicate AgreeAll(xs: seq<Outcome>, ys: seq<Outcome>) {
    |xs| == |ys| && forall k :: 0 <= k < |xs| ==> Agree(xs[k], ys[k])
  }

  /** No bid of the run depends on a sweep. */
  ghost predicate BlindToSweeps(cfg: Config, start: Db, es: seq<Event>) {
    forall k: nat :: k < |es| ==> !SeesTheSweep(cfg, StateAt(cfg, start, es, k), es[k])
  }

  lemma FinalSnoc(cfg: Config, start: Db, es: seq<Event>, e: Event)
    ensures Final(cfg, start, es + [e]) == Apply(cfg, Final(cfg, start, es), e).db
    ensures Answers(cfg, start, es + [e])
         == Answers(cfg, start, es) + if IsSweep(e) then [] else [Apply(cfg, Final(cfg, start, es), e).out]
  {
    hide Apply;
    var longer := es + [e];
    assert longer[..|es|] == es;
    SamePrefix(cfg, start, longer[..|es|], longer, |es|);
  }

  lemma StripSnoc(es: seq<Event>, e: Event)
    ensures Strip(es + [e]) == Strip(es) + if IsSweep(e) then [] else [e]
  {
    assert (es + [e])[..|es|] == es;
  }

  lemma BlindSnoc(cfg: Config, start: Db, es: seq<Event>, e: Event)
    requires BlindToSweeps(cfg, start, es + [e])
    ensures BlindToSweeps(cfg, start, es) && !SeesTheSweep(cfg, Final(cfg, start, es), e)
  {
    hide Apply, SeesTheSweep;
    var longer := es + [e];
    assert longer[..|es|] == es;
    forall k: nat | k < |es| ensures !SeesTheSweep(cfg, StateAt(cfg, start, es, k), es[k]) {
      SamePrefix(cfg, start, longer[..|es|], longer, k);
      assert !SeesTheSweep(cfg, StateAt(cfg, start, longer, k), longer[k]);
    }
    SamePrefix(cfg, start, longer[..|es|], longer, |es|);
    assert !SeesTheSweep(cfg, StateAt(cfg, start, longer, |es|), longer[|es|]);
  }

  lemma UnheldStep(cfg: Config, db: Db, e: Event)
    requires AuctionsUnheld(db.vehicles)
    ensures AuctionsUnheld(Apply(cfg, db, e).db.vehicles)
  {
    hide Apply;
    VehicleView.VehiclesStay(cfg, db, e);
    forall id | id in db.vehicles ensures Unheld(Apply(cfg, db, e).db.vehicles[id]) {
      VehicleView.VehicleStep(cfg, db, e, id);
      assert Unheld(db.vehicles[id]);
    }
  }

  lemma {:induction false} UnheldAlways(cfg: Config, start: Db, es: seq<Event>, n: nat)
    requires AuctionsUnheld(start.vehicles) && n <= |es|
    ensures AuctionsUnheld(StateAt(cfg, start, es, n).vehicles)
  {
    hide Apply, AuctionsUnheld;
    if n > 0 {
      UnheldAlways(cfg, start, es, n - 1);
      UnheldStep(cfg, StateAt(cfg, start, es, n - 1), es[n - 1]);
    }
  }

  /** One more call on both sides. */
  lemma SameCall(cfg: Config, start: Db, xs: seq<Event>, ys: seq<Event>, e: Event)
    requires AuctionsUnheld(start.vehicles) && !IsSweep(e) && !SeesTheSweep(cfg, Final(cfg, start, xs), e)
    requires AgreeAll(Answers(cfg, start, xs), Answers(cfg, start, ys))
    requires Behind(Final(cfg, start, xs), Final(cfg, start, ys), e.now)
    ensures AgreeAll(Answers(cfg, start, xs + [e]), Answers(cfg, start, ys + [e]))
    ensures Behind(Final(cfg, start, xs + [e]), Final(cfg, start, ys + [e]), e.now)
  {
    hide Apply, Behind, AuctionsUnheld, SeesTheSweep, Agree, Answers;
    FinalSnoc(cfg, start, xs, e);
    FinalSnoc(cfg, start, ys, e);
    UnheldAlways(cfg, start, xs, |xs|);
    StepBehind(cfg, Final(cfg, start, xs), Final(cfg, start, ys), e);
  }

  /** One more sweep on the right. */
  lemma ExtraSweep(cfg: Config, start: Db, xs: seq<Event>, ys: seq<Event>, e: Event)
    requires IsSweep(e) && Behind(Final(cfg, start, xs), Final(cfg, start, ys), e.now)
    ensures Answers(cfg, start, ys + [e]) == Answers(cfg, start, ys)
    ensures Behind(Final(cfg, start, xs), Final(cfg, start, ys + [e]), e.now)
  {
    hide Apply, Behind, Answers;
    FinalSnoc(cfg, start, ys, e);
    SweepBehind(cfg, Final(cfg, start, xs), Final(cfg, start, ys), e);
  }

  lemma StripNothing()
    ensures Strip([]) == []
  {
  }

  lemma AgreeSelf(xs: seq<Outcome>)
    ensures AgreeAll(xs, xs)
  {
  }

  lemma BehindItself(db: Db, now: Time)
    ensures Behind(db, db, now)
  {
    assert db == db.(vehicles := db.vehicles);
  }

  lemma {:induction false} StrippedRun(cfg: Config, start: Db, es: seq<Event>, now: Time)
    requires Ordered(es) && AuctionsUnheld(start.vehicles) && BlindToSweeps(cfg, start, Strip(es))
    requires es != [] ==> es[|es| - 1].now <= now
    ensures AgreeAll(Answers(cfg, start, Strip(es)), Answers(cfg, start, es))
    ensures Behind(Final(cfg, start, Strip(es)), Final(cfg, start, es), now)
  {
    hide Apply, Behind, AuctionsUnheld, SeesTheSweep, BlindToSweeps, Agree, Final, Answers, StateAt, Strip;
    if es == [] {
      assert Strip(es) == es by { StripNothing(); }
      BehindItself(Final(cfg, start, es), now);
      AgreeSelf(Answers(cfg, start, es));
    } else {
      var init, last := es[..|es| - 1], es[|es| - 1];
      assert es == init + [last];
      StripSnoc(init, last);
      if IsSweep(last) {
        assert Strip(es) == Strip(init);
        StrippedRun(cfg, start, init, last.now);
        ExtraSweep(cfg, start, Strip(init), init, last);
      } else {
        BlindSnoc(cfg, start, Strip(init), last);
        StrippedRun(cfg, start, init, last.now);
        SameCall(cfg, start, Strip(init), init, last);
      }
      BehindLater(Final(cfg, start, Strip(es)), Final(cfg, start, es), last.now, now);
    }
  }

  lemma AnswersJoin(xs: seq<Outcome>, ys: seq<Outcome>, zs: seq<Outcome>)
    requires AgreeAll(zs, xs) && AgreeAll(zs, ys)
    ensures AgreeAll(xs, ys)
  {
    forall k | 0 <= k < |xs| ensures Agree(xs[k], ys[k]) {
      assert Agree(zs[k], xs[k]) && Agree(zs[k], ys[k]);
    }
  }

  /** Two runs that differ only in their sweeps give the same answers, fail at the same calls and end with the same
      orders, payments, invoices, banks, bids, lots, events and counters; each vehicle ends the same up to one sweep. */
  lemma SweepsAreTransparent(cfg: Config, start: Db, xs: seq<Event>, ys: seq<Event>, now: Time)
    requires AuctionsUnheld(start.vehicles) && Strip(xs) == Strip(ys) && BlindToSweeps(cfg, start, Strip(xs))
    requires Ordered(xs) && (xs != [] ==> xs[|xs| - 1].now <= now)
    requires Ordered(ys) && (ys != [] ==> ys[|ys| - 1].now <= now)
    ensures AgreeAll(Answers(cfg, start, xs), Answers(cfg, start, ys))
    ensures Alike(Final(cfg, start, xs), Final(cfg, start, ys), now)
  {
    hide Apply, Alike, Behind, AuctionsUnheld, BlindToSweeps, Answers;
    StrippedRun(cfg, start, xs, now);
    StrippedRun(cfg, start, ys, now);
    BehindJoin(Final(cfg, start, Strip(xs)), Final(cfg, start, xs), Final(cfg, start, ys), now);
    AnswersJoin(Answers(cfg, start, xs), Answers(cfg, start, ys), Answers(cfg, start, Strip(xs)));
  }

  // ---- the exact condition ---------------------------------------------------------------------------

  /** No run that only adds sweeps answers any call differently. */
  ghost predicate SweepsUnseen(cfg: Config, start: Db, zs: seq<Event>) {
    forall xs: seq<Event> :: Ordered(xs) && Strip(xs) == zs ==>
        AgreeAll(Answers(cfg, start, zs), Answers(cfg, start, xs))
  }

  lemma {:induction false} StripPlain(zs: seq<Event>)
    requires forall k :: 0 <= k < |zs| ==> !IsSweep(zs[k])
    ensures Strip(zs) == zs
  {
    if zs != [] {
      StripPlain(zs[..|zs| - 1]);
      assert zs == zs[..|zs| - 1] + [zs[|zs| - 1]];
    }
  }

  lemma {:induction false} StripJoin(xs: seq<Event>, ys: seq<Event>)
    ensures Strip(xs + ys) == Strip(xs) + Strip(ys)
  {
    if ys == [] {
      assert xs + ys == xs;
    } else {
      var init := ys[..|ys| - 1];
      assert xs + ys == (xs + init) + [ys[|ys| - 1]] && ys == init + [ys[|ys| - 1]];
      StripJoin(xs, init);
      StripSnoc(xs + init, ys[|ys| - 1]);
      StripSnoc(init, ys[|ys| - 1]);
    }
  }

  /** The answers so far are a prefix of the answers of the whole run. */
  lemma {:induction false} AnswersPrefix(cfg: Config, start: Db, xs: seq<Event>, ys: seq<Event>)
    ensures Answers(cfg, start, xs) <= Answers(cfg, start, xs + ys)
  {
    hide Apply;
    if ys == [] {
      assert xs + ys == xs;
    } else {
      var init := ys[..|ys| - 1];
      assert xs + ys == (xs + init) + [ys[|ys| - 1]];
      AnswersPrefix(cfg, start, xs, init);
      FinalSnoc(cfg, start, xs + init, ys[|ys| - 1]);
    }
  }

  lemma {:induction false} AnswerCount(cfg: Config, start: Db, es: seq<Event>)
    ensures |Answers(cfg, start, es)| == |Strip(es)|
  {
    hide Apply;
    if es != [] {
      AnswerCount(cfg, start, es[..|es| - 1]);
    }
  }

  /** What the sweep in front of a call changes about its answer. */
  lemma SweepChangesAnswer(cfg: Config, db: Db, e: Event)
    requires AuctionsUnheld(db.vehicles) && SeesTheSweep(cfg, db, e)
    ensures Apply(cfg, db, e).out.Err?
    ensures Apply(cfg, Apply(cfg, db, Event(Action.ReleaseExpiredHolds, e.now)).db, e).out.Ok?
  {
    hide BidsSpec.BidOnVehicle, VehiclesSpec.ReleaseExpiredHolds;
    assert e.action.vehicle in db.vehicles ==> Unheld(db.vehicles[e.action.vehicle]);
    BidSeesSweepIff(cfg, db.vehicles, db.bids, e.action.user, e.action.vehicle, e.action.amount, e.now);
  }

  lemma FinalIs(cfg: Config, start: Db, es: seq<Event>)
    ensures Final(cfg, start, es) == StateAt(cfg, start, es, |es|)
  {
    hide Apply;
  }

  /** The run with one more sweep, right before call k. */
  function WithSweep(zs: seq<Event>, k: nat): seq<Event>
    requires k < |zs|
  {
    zs[..k] + [Event(Action.ReleaseExpiredHolds, zs[k].now)] + [zs[k]] + zs[k + 1..]
  }

  lemma WithSweepStrips(zs: seq<Event>, k: nat)
    requires Ordered(zs) && (forall j :: 0 <= j < |zs| ==> !IsSweep(zs[j])) && k < |zs|
    ensures Ordered(WithSweep(zs, k)) && Strip(WithSweep(zs, k)) == zs
  {
    hide Strip;
    var head, tail, e := zs[..k], zs[k + 1..], zs[k];
    var sweep := Event(Action.ReleaseExpiredHolds, e.now);
    StripSnoc(head, sweep);
    StripSnoc(head + [sweep], e);
    StripPlain(head);
    StripPlain(tail);
    StripJoin(head + [sweep] + [e], tail);
    assert zs == (head + [e]) + tail;
  }

  /** A sweep inserted in front of such a bid is seen. */
  lemma InsertedSweepIsSeen(cfg: Config, start: Db, zs: seq<Event>, k: nat)
    requires AuctionsUnheld(start.vehicles) && Ordered(zs) && (forall j :: 0 <= j < |zs| ==> !IsSweep(zs[j]))
    requires k < |zs| && SeesTheSweep(cfg, StateAt(cfg, start, zs, k), zs[k])
    ensures !SweepsUnseen(cfg, start, zs)
  {
    hide Apply, SeesTheSweep, AuctionsUnheld, Answers, Final, Strip, StateAt, Ordered;
    var head, tail, e := zs[..k], zs[k + 1..], zs[k];
    var sweep := Event(Action.ReleaseExpiredHolds, e.now);
    var xs := WithSweep(zs, k);
    assert zs == (head + [e]) + tail;
    WithSweepStrips(zs, k);
    SamePrefix(cfg, start, head, zs, k);
    FinalIs(cfg, start, head);
    UnheldAlways(cfg, start, zs, k);
    SweepChangesAnswer(cfg, StateAt(cfg, start, zs, k), e);
    FinalSnoc(cfg, start, head, e);
    FinalSnoc(cfg, start, head, sweep);
    FinalSnoc(cfg, start, head + [sweep], e);
    AnswersPrefix(cfg, start, head + [e], tail);
    AnswersPrefix(cfg, start, head + [sweep] + [e], tail);
    StripPlain(head);
    AnswerCount(cfg, start, head);
    assert Answers(cfg, start, zs)[k].Err? && Answers(cfg, start, xs)[k].Ok?;
    assert !AgreeAll(Answers(cfg, start, zs), Answers(cfg, start, xs));
  }

  /** Sweeps can be inserted anywhere without being seen if and only if, in the run without them, no bid meets a
      HYBRID listing with a lapsed hold and every other guard. */
  lemma SweepsUnseenIffBlind(cfg: Config, start: Db, zs: seq<Event>)
    requires AuctionsUnheld(start.vehicles) && Ordered(zs) && (forall k :: 0 <= k < |zs| ==> !IsSweep(zs[k]))
    ensures SweepsUnseen(cfg, start, zs) <==> BlindToSweeps(cfg, start, zs)
  {
    hide Apply, SeesTheSweep, Answers, Behind, AuctionsUnheld;
    if BlindToSweeps(cfg, start, zs) {
      forall xs: seq<Event> | Ordered(xs) && Strip(xs) == zs
        ensures AgreeAll(Answers(cfg, start, zs), Answers(cfg, start, xs))
      {
        StrippedRun(cfg, start, xs, if xs == [] then 0 else xs[|xs| - 1].now);
      }
    } else {
      var k: nat :| k < |zs| && SeesTheSweep(cfg, StateAt(cfg, start, zs, k), zs[k]);
      InsertedSweepIsSeen(cfg, start, zs, k);
    }
  }
}
