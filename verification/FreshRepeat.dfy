/** L1: from a fresh database the winner of an auction buys the vehicle twice, and the bank is credited twice. */
module FreshRepeat {
  import opened Rows
  import opened AttemptGate
  import opened BidsSpec
  import opened OrdersSpec
  import opened PickupSpec
  import opened Machine
  import opened SalesTheory
  import opened SalesRuns
  import opened OrderView
  import opened VehicleView
  import opened Lifecycle
  import opened NoDoubleSale
  import opened FreshStart
  import LedgerNeedsLock
  import UniqueColumns

  /** What the two rounds draw: checkout, payment, and the code of the scan between them. */
  datatype Rounds = Rounds(first: FreshIds, second: FreshIds, rzFirst: string, rzSecond: string, feeBp: int,
      gstBp: int, year: int, otp: int)

  /** The end of the auction once the bid at t0 has been placed. */
  function EndAfter(cfg: Config, end: Time, t0: Time): Time {
    EndAfterBid(Some(end), cfg, t0).value
  }

  /** A fresh database with an auction, a bidder who bids before its end and comes back after it, and staff of the
      bank. */
  ghost predicate Scene(cfg: Config, db: Db, winner: User, staff: User, v: VehicleId, amount: int, end: Time,
                        r: Rounds, t0: Time, t1: Time) {
    && Fresh(db) && v in db.vehicles
    && (var row := db.vehicles[v];
        && row.saleType == SaleType.Auction && row.status == Live && row.auction.endAt == Some(end)
        && amount > 0 && amount >= Floor(row) && !IsOwnStaff(winner, row.bankId)
        && staff.bankId == Some(row.bankId) && row.bankId in db.sales.banks)
    && t0 <= end && t0 <= t1 && EndAfter(cfg, end, t0) < t1
    && PassesGate(cfg, db.counters, BidGate(winner.id), t0)
    && Truthy(r.first.rzOrder) && Truthy(r.second.rzOrder) && r.first.rzOrder != r.second.rzOrder
    && r.first.order != r.second.order && r.first.payment != r.second.payment
    && r.first.pass.last != r.second.pass.last && r.rzFirst != r.rzSecond
  }

  function BuyTwice(winner: User, staff: User, v: VehicleId, amount: int, r: Rounds, t0: Time, t1: Time): seq<Event> {
    [Event(Action.BidOnVehicle(winner, v, amount), t0),
     Event(StartCheckout(winner, v, r.first, r.feeBp, r.gstBp), t1),
     Event(Action.VerifyPayment(winner, r.first.order, r.rzFirst, true, r.year), t1),
     Event(Action.Scan(staff, r.first.pass, r.otp), t1),
     Event(StartCheckout(winner, v, r.second, r.feeBp, r.gstBp), t1),
     Event(Action.VerifyPayment(winner, r.second.order, r.rzSecond, true, r.year), t1)]
  }

  /** The listing as the winner finds it, sold or not. */
  predicate WonBy(db: Db, v: VehicleId, winner: UserId, bankId: BankId, amount: int, now: Time) {
    && v in db.vehicles && db.vehicles[v].saleType == SaleType.Auction && db.vehicles[v].bankId == bankId
    && db.vehicles[v].auction.endAt.Some? && db.vehicles[v].auction.endAt.value < now
    && db.vehicles[v].auction.currentBidder == Some(winner) && db.vehicles[v].auction.currentBid == amount
    && bankId in db.sales.banks
  }

  lemma BidWins(cfg: Config, db: Db, winner: User, staff: User, v: VehicleId, amount: int, end: Time, r: Rounds,
                t0: Time, t1: Time)
    requires Scene(cfg, db, winner, staff, v, amount, end, r, t0, t1)
    ensures var after := Apply(cfg, db, Event(Action.BidOnVehicle(winner, v, amount), t0)).db;
            after.sales == db.sales && WonBy(after, v, winner.id, db.vehicles[v].bankId, amount, t1)
  {
    hide PassesGate;
    LedgerNeedsLock.WholeBid(cfg, db, winner, v, amount, t0);
  }

  lemma WinnerEntitled(v: Vehicle, user: UserId, now: Time)
    requires v.saleType == SaleType.Auction && v.auction.endAt.Some? && v.auction.endAt.value < now
    requires v.auction.currentBidder == Some(user)
    ensures Entitlement(v, user, now) == Success(v.auction.currentBid)
  {
  }

  lemma OnlyPayment(s: Sales, p: PaymentId, q: PaymentId)
    requires SalesInv(s) && p in s.payments && q in s.payments && s.payments[p].orderId == s.payments[q].orderId
    ensures p == q
  {
  }

  lemma PaymentStep(cfg: Config, db: Db, a: Action, now: Time)
    requires a.VerifyPayment?
    ensures var w :=
        OrdersSpec.VerifyPayment(db.sales, db.vehicles, a.user.id, a.order, a.rzPayment, a.signatureOk, a.year, now);
            Apply(cfg, db, Event(a, now)) == Step(db.(sales := w.rows.0, vehicles := w.rows.1), w.out)
  {
    hide OrdersSpec.VerifyPayment;
  }

  /** The winner's payment of a HELD order settles it and credits the bank. */
  lemma PaymentRound(cfg: Config, db: Db, winner: User, v: VehicleId, bankId: BankId, amount: int, o: OrderId,
                     p: PaymentId,
                     rzPayment: string, year: int, now: Time)
    requires SalesInv(db.sales) && WonBy(db, v, winner.id, bankId, amount, now) && IsPendingFor(db.sales.payments, p, o)
    requires OrderOn(db.sales.orders, o, v) && db.sales.orders[o].status == Held
    requires db.sales.orders[o].buyer == winner.id
    requires db.sales.orders[o].bankId == bankId && db.sales.orders[o].base == amount
    requires forall q | q in db.sales.payments :: db.sales.payments[q].rzPaymentId != Some(rzPayment)
    requires forall i | 0 <= i < |db.sales.invoices| ::
               db.sales.invoices[i].number != NumberFor(db.sales.orders[o], year)
    ensures var paid := Apply(cfg, db, Event(Action.VerifyPayment(winner, o, rzPayment, true, year), now));
            && paid.out == Ok(Settled)
            && WonBy(paid.db, v, winner.id, bankId, amount, now)
            && paid.db.sales.orders == db.sales.orders[o := PaidRow(db.sales.orders[o], now)]
            && paid.db.sales.payments == db.sales.payments[p := CapturedRow(db.sales.payments[p], rzPayment, now)]
            && paid.db.sales.invoices == db.sales.invoices + [Invoice(o, NumberFor(db.sales.orders[o], year))]
            && paid.db.sales.banks == db.sales.banks[bankId := Credited(db.sales.banks[bankId], amount)]
  {
    hide Apply, SalesInv, OrdersSpec.VerifyPayment, CapturedRow, PaidRow, Credited;
    var e := Event(Action.VerifyPayment(winner, o, rzPayment, true, year), now);
    SettlesIffPayable(db, winner.id, o, rzPayment, year, now);
    var q := SettledRows(db, winner.id, o, rzPayment, year, now);
    OnlyPayment(db.sales, p, q);
    PaymentStep(cfg, db, e.action, now);
    VehicleStep(cfg, db, e, v);
  }

  /** One round: an accepted checkout and its payment add one settled order and credit the bank. */
  lemma OneRound(cfg: Config, db: Db, winner: User, v: VehicleId, bankId: BankId, amount: int, ids: FreshIds,
                 rzPayment: string, feeBp: int, gstBp: int, year: int, now: Time)
    requires SalesInv(db.sales) && WonBy(db, v, winner.id, bankId, amount, now)
    requires !HasOpenOrder(db.sales.orders, v, winner.id) && IdsFree(db.sales.orders, db.sales.payments, ids)
    requires Truthy(ids.rzOrder)
    requires forall p | p in db.sales.payments :: db.sales.payments[p].rzPaymentId != Some(rzPayment)
    requires forall i | 0 <= i < |db.sales.invoices| ::
        db.sales.invoices[i].number != InvoiceNumber(year, ids.pass.last)
    ensures var checked := Apply(cfg, db, Event(StartCheckout(winner, v, ids, feeBp, gstBp), now));
            var paid := Apply(cfg, checked.db,
                Event(Action.VerifyPayment(winner, ids.order, rzPayment, true, year), now));
            && checked.out.Ok? && paid.out == Ok(Settled) && OrderOn(checked.db.sales.orders, ids.order, v)
            && WonBy(paid.db, v, winner.id, bankId, amount, now)
            && ids.order in paid.db.sales.orders
            && paid.db.sales.orders == db.sales.orders[ids.order := paid.db.sales.orders[ids.order]]
            && (var row := paid.db.sales.orders[ids.order];
                && row.buyer == winner.id && row.vehicleId == Some(v) && row.bankId == bankId && row.pass == ids.pass
                && row.status == ReadyForPickup && row.base == amount)
            && ids.payment in paid.db.sales.payments
            && paid.db.sales.payments == db.sales.payments[ids.payment := paid.db.sales.payments[ids.payment]]
            && paid.db.sales.payments[ids.payment].rzPaymentId == Some(rzPayment)
            && paid.db.sales.payments[ids.payment].rzOrderId == ids.rzOrder
            && paid.db.sales.invoices == db.sales.invoices + [Invoice(ids.order, InvoiceNumber(year, ids.pass.last))]
            && paid.db.sales.banks == db.sales.banks[bankId := Credited(db.sales.banks[bankId], amount)]
  {
    hide Apply, Entitlement, HasOpenOrder, SalesInv, SoundMove, Credited;
    var e := Event(StartCheckout(winner, v, ids, feeBp, gstBp), now);
    var checked := Apply(cfg, db, e).db;
    WinnerEntitled(db.vehicles[v], winner.id, now);
    CheckoutGoesThrough(cfg, db, winner, v, ids, feeBp, gstBp, now);
    SalesStep(cfg, db, e);
    SoundMoveGives(db.sales, checked.sales);
    PaymentRound(cfg, checked, winner, v, bankId, amount, ids.order, ids.payment, rzPayment, year, now);
  }

  /** The scan takes the only order out of READY_FOR_PICKUP. */
  lemma ScanHandsOn(cfg: Config, db: Db, staff: User, o: OrderId, otp: int, now: Time)
    requires db.sales.orders.Keys == {o} && db.sales.orders[o].status == ReadyForPickup
    requires staff.bankId == Some(db.sales.orders[o].bankId)
    ensures Apply(cfg, db, Event(Action.Scan(staff, db.sales.orders[o].pass, otp), now)).db
         == db.(sales := db.sales.(orders := db.sales.orders[o := ScannedRow(db.sales.orders[o], otp, now)]))
  {
    assert HasPass(db.sales.orders, o, db.sales.orders[o].pass);
  }

  lemma NothingOpen(orders: Orders, v: VehicleId, user: UserId)
    requires forall o | o in orders :: orders[o].status == PickupInProgress
    ensures !HasOpenOrder(orders, v, user)
  {
  }

  lemma StillWon(db: Db, later: Db, v: VehicleId, winner: UserId, bankId: BankId, amount: int, now: Time)
    requires WonBy(db, v, winner, bankId, amount, now)
    requires later.vehicles == db.vehicles && later.sales.banks == db.sales.banks
    ensures WonBy(later, v, winner, bankId, amount, now)
  {
  }

  lemma States(cfg: Config, db: Db, es: seq<Event>)
    requires |es| == 6
    ensures StateAt(cfg, db, es, 0) == db
    ensures StateAt(cfg, db, es, 1) == Apply(cfg, db, es[0]).db
    ensures StateAt(cfg, db, es, 2) == Apply(cfg, StateAt(cfg, db, es, 1), es[1]).db
    ensures StateAt(cfg, db, es, 3) == Apply(cfg, StateAt(cfg, db, es, 2), es[2]).db
    ensures StateAt(cfg, db, es, 4) == Apply(cfg, StateAt(cfg, db, es, 3), es[3]).db
    ensures StateAt(cfg, db, es, 5) == Apply(cfg, StateAt(cfg, db, es, 4), es[4]).db
    ensures StateAt(cfg, db, es, 6) == Apply(cfg, StateAt(cfg, db, es, 5), es[5]).db
  {
    hide Apply;
  }

  /** One order on the vehicle, settled and in pickup; its payment, its invoice and its credit to the bank. */
  ghost predicate OnceBought(db: Db, after: Db, v: VehicleId, winner: UserId, amount: int, ids: FreshIds, rz: string,
                             year: int, now: Time)
    requires v in db.vehicles && db.vehicles[v].bankId in db.sales.banks
  {
    var bankId := db.vehicles[v].bankId;
    && WonBy(after, v, winner, bankId, amount, now)
    && after.sales.orders.Keys == {ids.order} && after.sales.orders[ids.order].pass == ids.pass
    && after.sales.orders[ids.order].status == PickupInProgress
    && after.sales.payments.Keys == {ids.payment} && after.sales.payments[ids.payment].rzPaymentId == Some(rz)
    && after.sales.payments[ids.payment].rzOrderId == ids.rzOrder
    && after.sales.invoices == [Invoice(ids.order, InvoiceNumber(year, ids.pass.last))]
    && after.sales.banks == db.sales.banks[bankId := Credited(db.sales.banks[bankId], amount)]
  }

  lemma FirstRound(cfg: Config, db: Db, winner: User, staff: User, v: VehicleId, amount: int, end: Time, r: Rounds,
                   t0: Time, t1: Time)
    requires Scene(cfg, db, winner, staff, v, amount, end, r, t0, t1)
    ensures var es := BuyTwice(winner, staff, v, amount, r, t0, t1);
            && SellsAt(cfg, db, es, 2, r.first.order, v) && SalesInv(StateAt(cfg, db, es, 4).sales)
            && OnceBought(db, StateAt(cfg, db, es, 4), v, winner.id, amount, r.first, r.rzFirst, r.year, t1)
  {
    hide Apply, SalesInv, HasOpenOrder, StateAt, WonBy, PassesGate, Credited;
    var es, bankId := BuyTwice(winner, staff, v, amount, r, t0, t1), db.vehicles[v].bankId;
    States(cfg, db, es);
    BidWins(cfg, db, winner, staff, v, amount, end, r, t0, t1);
    FreshDatabaseIsSound(cfg, db, v, t0);
    UniqueColumns.SalesOfRows(db.sales);
    SalesInvAlways(cfg, db, es, 1);
    SalesInvAlways(cfg, db, es, 4);
    var s1, s3, s4 := StateAt(cfg, db, es, 1), StateAt(cfg, db, es, 3), StateAt(cfg, db, es, 4);
    NothingOpen(s1.sales.orders, v, winner.id);
    OneRound(cfg, s1, winner, v, bankId, amount, r.first, r.rzFirst, r.feeBp, r.gstBp, r.year, t1);
    ScanHandsOn(cfg, s3, staff, r.first.order, r.otp, t1);
    StillWon(s3, s4, v, winner.id, bankId, amount, t1);
  }

  lemma BothSettled(cfg: Config, db: Db, es: seq<Event>, r: Rounds, v: VehicleId, now: Time)
    requires Fresh(db) && |es| == 6
    requires SellsAt(cfg, db, es, 2, r.first.order, v) && SellsAt(cfg, db, es, 5, r.second.order, v)
    ensures SettledOn(StateAt(cfg, db, es, 6).sales, r.first.order, v)
    ensures SettledOn(StateAt(cfg, db, es, 6).sales, r.second.order, v)
  {
    hide Apply, SalesInv, StateAt, SellsAt, SettledOn;
    FreshDatabaseIsSound(cfg, db, v, now);
    UniqueColumns.SalesOfRows(db.sales);
    SellsWhatIsPayable(cfg, db, es, 2, r.first.order, v);
    SellsWhatIsPayable(cfg, db, es, 5, r.second.order, v);
    SettledStays(cfg, db, es, 3, 6, r.first.order, v);
  }

  /** The auction vehicle is settled twice, at the bid both times, and the bank's counters have moved by two sales. */
  lemma WinnerBuysTwice(cfg: Config, db: Db, winner: User, staff: User, v: VehicleId, amount: int, end: Time,
                        r: Rounds, t0: Time, t1: Time)
    requires Scene(cfg, db, winner, staff, v, amount, end, r, t0, t1)
    ensures var es := BuyTwice(winner, staff, v, amount, r, t0, t1);
            && Ordered(es)
            && SellsAt(cfg, db, es, 2, r.first.order, v) && SellsAt(cfg, db, es, 5, r.second.order, v)
            && (var s, bankId := StateAt(cfg, db, es, 6).sales, db.vehicles[v].bankId;
                && SettledOn(s, r.first.order, v) && SettledOn(s, r.second.order, v)
                && bankId in s.banks && s.banks[bankId] == Credited(Credited(db.sales.banks[bankId], amount), amount))
  {
    hide Apply, SalesInv, HasOpenOrder, StateAt, WonBy, PassesGate, Credited, Fresh, SettledOn;
    var es, bankId := BuyTwice(winner, staff, v, amount, r, t0, t1), db.vehicles[v].bankId;
    States(cfg, db, es);
    FirstRound(cfg, db, winner, staff, v, amount, end, r, t0, t1);
    var s4 := StateAt(cfg, db, es, 4);
    NothingOpen(s4.sales.orders, v, winner.id);
    OneRound(cfg, s4, winner, v, bankId, amount, r.second, r.rzSecond, r.feeBp, r.gstBp, r.year, t1);
    BothSettled(cfg, db, es, r, v, t0);
  }
}
