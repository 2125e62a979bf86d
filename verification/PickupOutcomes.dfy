/** L1: when a scan and a completion go through, what they and the order expiry write, in row columns. */
module PickupOutcomes {
  import opened Rows
  import opened Machine
  import opened SalesTheory
  import OrdersSpec
  import PickupSpec
  import PickupInFlight

  /** The pass of order o is scanned: accepted from staff of its bank while it waits for pickup or is in it. */
  lemma ScanWrites(cfg: Config, db: Db, user: User, o: OrderId, otp: int, now: Time)
    requires OrderRowsOk(db.sales.orders) && o in db.sales.orders
    ensures var w, row := Apply(cfg, db, Event(Action.Scan(user, db.sales.orders[o].pass, otp), now)),
        db.sales.orders[o];
            if user.bankId != Some(row.bankId) then w == Step(db, Err(Forbidden))
            else if row.status != ReadyForPickup && row.status != PickupInProgress then w == Step(db, Err(BadRequest))
            else w == Step(db.(sales := db.sales.(orders := db.sales.orders[o := row.(
                               status := PickupInProgress, otpHash := Some(OtpHash(otp)),
                               otpExpiresAt := Some(now + 600000))])),
                           Ok(OtpIssued(now + 600000)))
  {
    PickupInFlight.FindsOwnPass(db.sales.orders, o);
    hide PickupSpec.FindByPass, OrderRowsOk;
    assert db == db.(sales := db.sales.(orders := db.sales.orders));
  }

  lemma UnknownPass(cfg: Config, db: Db, user: User, pass: Pass, otp: int, now: Time)
    requires forall o :: o in db.sales.orders ==> db.sales.orders[o].pass != pass
    ensures Apply(cfg, db, Event(Action.Scan(user, pass, otp), now))
         == Step(db, Err(if user.bankId.None? then Forbidden else NotFound))
  {
    assert forall o :: !PickupSpec.HasPass(db.sales.orders, o, pass);
    assert db == db.(sales := db.sales.(orders := db.sales.orders));
  }

  /** The goods go out to staff of the order's bank who give the current code in time. */
  lemma CompletionAcceptedIff(cfg: Config, db: Db, user: User, o: OrderId, otp: int, now: Time)
    ensures Apply(cfg, db, Event(Action.Complete(user, o, otp), now)).out.Ok? <==>
              && o in db.sales.orders
              && var row := db.sales.orders[o];
                 && user.bankId == Some(row.bankId) && row.status == PickupInProgress
                 && row.otpHash == Some(OtpHash(otp))
                 && row.otpExpiresAt.Some? && now <= row.otpExpiresAt.value
  {
  }

  lemma AcceptedCompletionWrites(cfg: Config, db: Db, user: User, o: OrderId, otp: int, now: Time)
    requires Apply(cfg, db, Event(Action.Complete(user, o, otp), now)).out.Ok?
    ensures o in db.sales.orders
    ensures Apply(cfg, db, Event(Action.Complete(user, o, otp), now))
         == Step(db.(sales := db.sales.(orders := db.sales.orders[o := db.sales.orders[o].(
                     status := Collected, collectedAt := Some(now), verifiedBy := Some(user.id), otpHash := None,
                     otpExpiresAt := None)])),
                 Ok(HandedOver))
  {
  }

  lemma RefusedCompletion(cfg: Config, db: Db, user: User, o: OrderId, otp: int, now: Time)
    requires Apply(cfg, db, Event(Action.Complete(user, o, otp), now)).out.Err?
    ensures var w := Apply(cfg, db, Event(Action.Complete(user, o, otp), now));
            && w.db == db
            && (w.out == Err(NotFound) <==> user.bankId.Some? && o !in db.sales.orders)
            && (o in db.sales.orders ==>
                  var row := db.sales.orders[o];
                  && (w.out == Err(Forbidden) <==> user.bankId != Some(row.bankId))
                  && (w.out == Err(Gone) <==>
                        && user.bankId == Some(row.bankId) && row.status == PickupInProgress && row.otpHash.Some?
                        && (row.otpExpiresAt.None? || row.otpExpiresAt.value < now))
                  && w.out in {Err(Forbidden), Err(Gone), Err(BadRequest)})
            && (o !in db.sales.orders && user.bankId.None? ==> w.out == Err(Forbidden))
  {
    assert db == db.(sales := db.sales.(orders := db.sales.orders));
  }

  /** The code of a scan opens the order for ten minutes, and for no millisecond longer. */
  lemma CodeLastsTenMinutes(cfg: Config, db: Db, staff: User, o: OrderId, otp: int, t0: Time, t1: Time)
    requires OrderRowsOk(db.sales.orders) && o in db.sales.orders
    requires staff.bankId == Some(db.sales.orders[o].bankId) && db.sales.orders[o].status == ReadyForPickup
    ensures var es :=
        [Event(Action.Scan(staff, db.sales.orders[o].pass, otp), t0), Event(Action.Complete(staff, o, otp), t1)];
            OutcomeAt(cfg, db, es, 1) == Ok(HandedOver) <==> t1 <= t0 + 600000
  {
    hide Apply, OrderRowsOk;
    var es := [Event(Action.Scan(staff, db.sales.orders[o].pass, otp), t0), Event(Action.Complete(staff, o, otp), t1)];
    assert StateAt(cfg, db, es, 0) == db;
    ScanWrites(cfg, db, staff, o, otp, t0);
    var scanned := StateAt(cfg, db, es, 1);
    CompletionAcceptedIff(cfg, scanned, staff, o, otp, t1);
    if OutcomeAt(cfg, db, es, 1).Ok? {
      AcceptedCompletionWrites(cfg, scanned, staff, o, otp, t1);
    }
  }

  /** Unpaid with a deadline before now. */
  predicate Late(o: Order, now: Time) {
    (o.status == Held || o.status == PaymentPending) && o.heldUntil.Some? && o.heldUntil.value < now
  }

  function LateOrders(orders: Orders, now: Time): set<OrderId> {
    set o | o in orders && Late(orders[o], now)
  }

  lemma LateIsOverdue(orders: Orders, now: Time)
    ensures (set o | o in orders && OrdersSpec.Overdue(orders[o], now)) == LateOrders(orders, now)
    ensures OrdersSpec.ExpireOverdueOrders(orders, now).out == Ok(Swept(|LateOrders(orders, now)|))
  {
    forall o | o in orders ensures OrdersSpec.Overdue(orders[o], now) <==> Late(orders[o], now) {
    }
    assert (set o | o in orders && OrdersSpec.Overdue(orders[o], now)) == LateOrders(orders, now);
  }

  /** The order expiry closes exactly the late orders, and answers how many. */
  lemma ExpiryWrites(cfg: Config, db: Db, now: Time)
    ensures var w, orders := Apply(cfg, db, Event(Action.ExpireOverdueOrders, now)), db.sales.orders;
            && w.out == Ok(Swept(|LateOrders(orders, now)|))
            && w.db == db.(sales := db.sales.(orders := w.db.sales.orders)) && w.db.sales.orders.Keys == orders.Keys
            && forall o :: o in orders ==>
                 w.db.sales.orders[o] == if Late(orders[o], now)
                                         then orders[o].(status := Expired, expiredAt := Some(now)) else orders[o]
  {
    LateIsOverdue(db.sales.orders, now);
  }
}
