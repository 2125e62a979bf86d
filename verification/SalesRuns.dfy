/** The order, payment, invoice and bank rows over whole L1 runs. */
module SalesRuns {
  import opened Rows
  import opened Machine
  import opened Frames
  import opened SalesTheory
  import opened Accounts
  import OrdersSpec
  import PickupSpec
  import WebhookSpec

  /** What every step keeps, from one state of the rows to the next. */
  ghost predicate SoundMove(s: Sales, t: Sales) {
    SalesInv(t) && Evolves(s, t) && CountersFollow(s, t)
  }

  lemma QuietMove(s: Sales, t: Sales)
    requires SalesInv(s) && SalesInv(t) && Evolves(s, t) && t.invoices == s.invoices && t.banks == s.banks
    ensures SoundMove(s, t)
  {
    hide SalesInv, Evolves;
    CountersFollowQuietStep(s, t);
  }

  lemma PaymentMove(s: Sales, vehicles: Vehicles, user: UserId, id: OrderId, rzPayment: string, signatureOk: bool,
                    year: int, now: Time)
    requires SalesInv(s)
    ensures SoundMove(s, OrdersSpec.VerifyPayment(s, vehicles, user, id, rzPayment, signatureOk, year, now).rows.0)
  {
    hide SalesInv, Evolves, CountersFollow, OrdersSpec.ReadForPayment, OrdersSpec.FinishPayment, TicketOk;
    var read := OrdersSpec.ReadForPayment(s.orders, s.payments, user, id);
    if read.Success? {
      TicketFresh(s, user, id);
      FinishKeeps(s, vehicles, read.value, user, rzPayment, signatureOk, year, now);
      CountersFollowPayment(s, vehicles, read.value, user, rzPayment, signatureOk, year, now);
    } else {
      NoChange(s);
      QuietMove(s, s);
    }
  }

  lemma ServedSales(cfg: Config, db: Db, a: Action, now: Time)
    requires SalesInv(db.sales)
    ensures SoundMove(db.sales, Serve(cfg, db, a, now).db.sales)
  {
    hide SalesInv, Evolves, CountersFollow, SoundMove;
    hide OrdersSpec.StartCheckout, OrdersSpec.VerifyPayment, OrdersSpec.ExpireOverdueOrders;
    hide PickupSpec.Scan, PickupSpec.Complete, WebhookSpec.Webhook;
    var s, t := db.sales, Serve(cfg, db, a, now).db.sales;
    ServeFrame(cfg, db, a, now);
    match a
    case StartCheckout(user, id, ids, feeBp, gstBp) =>
      CheckoutKeeps(cfg, db.vehicles, s, user.id, id, ids, feeBp, gstBp, now);
      QuietMove(s, t);
    case VerifyPayment(user, id, rzPayment, signatureOk, year) =>
      PaymentMove(s, db.vehicles, user.id, id, rzPayment, signatureOk, year, now);
    case ExpireOverdueOrders =>
      ExpiryKeeps(s, now);
      QuietMove(s, t);
    case Scan(user, pass, otp) =>
      ScanKeeps(s, user, pass, otp, now);
      QuietMove(s, t);
    case Complete(user, id, otp) =>
      CompleteKeeps(s, user, id, otp, now);
      QuietMove(s, t);
    case Webhook(delivery) =>
      WebhookKeeps(s, db.events, delivery, now);
      QuietMove(s, t);
    case _ =>
      assert t == s;
      NoChange(s);
      QuietMove(s, t);
  }

  lemma SalesStep(cfg: Config, db: Db, e: Event)
    requires SalesInv(db.sales)
    ensures SoundMove(db.sales, Apply(cfg, db, e).db.sales)
  {
    hide Apply, Serve, SoundMove, SalesInv;
    ApplyCases(cfg, db, e);
    var counted := db.(counters := Apply(cfg, db, e).db.counters);
    if Apply(cfg, db, e) == Serve(cfg, counted, e.action, e.now) {
      ServedSales(cfg, counted, e.action, e.now);
    } else {
      NoChange(db.sales);
      QuietMove(db.sales, db.sales);
    }
  }

  lemma SoundMovesCompose(a: Sales, b: Sales, c: Sales)
    requires SoundMove(a, b) && SoundMove(b, c)
    ensures SoundMove(a, c)
  {
    hide SalesInv, Evolves, CountersFollow;
    EvolvesTransitive(a, b, c);
    CountersFollowTransitive(a, b, c);
  }

  lemma SoundMoveGives(s: Sales, t: Sales)
    requires SoundMove(s, t)
    ensures SalesInv(t) && Evolves(s, t) && CountersFollow(s, t)
  {
  }

  lemma {:induction false} SalesInvAlways(cfg: Config, start: Db, es: seq<Event>, n: nat)
    requires SalesInv(start.sales) && n <= |es|
    ensures SalesInv(StateAt(cfg, start, es, n).sales)
  {
    hide Apply, SalesInv, SoundMove;
    if n > 0 {
      SalesInvAlways(cfg, start, es, n - 1);
      SalesStep(cfg, StateAt(cfg, start, es, n - 1), es[n - 1]);
      SoundMoveGives(StateAt(cfg, start, es, n - 1).sales, StateAt(cfg, start, es, n).sales);
    }
  }

  /** Over any stretch of any run. */
  lemma {:induction false} SalesStretch(cfg: Config, start: Db, es: seq<Event>, m: nat, n: nat)
    requires SalesInv(start.sales) && m <= n <= |es|
    ensures SoundMove(StateAt(cfg, start, es, m).sales, StateAt(cfg, start, es, n).sales)
    decreases n
  {
    hide Apply, SoundMove, SalesInv;
    var s, t := StateAt(cfg, start, es, m).sales, StateAt(cfg, start, es, n).sales;
    if m == n {
      SalesInvAlways(cfg, start, es, n);
      NoChange(s);
      QuietMove(s, s);
    } else {
      var r := StateAt(cfg, start, es, n - 1).sales;
      SalesStretch(cfg, start, es, m, n - 1);
      SalesInvAlways(cfg, start, es, n - 1);
      SalesStep(cfg, StateAt(cfg, start, es, n - 1), es[n - 1]);
      SoundMovesCompose(s, r, t);
    }
  }

  lemma StartState(cfg: Config, start: Db, es: seq<Event>)
    ensures StateAt(cfg, start, es, 0) == start
  {
    hide Apply;
  }

  /** Money conservation over any stretch of any run, for one bank, all banks, or any others. */
  lemma MoneyConservedOverRun(cfg: Config, start: Db, es: seq<Event>, m: nat, n: nat, bs: set<BankId>)
    requires SalesInv(start.sales) && bs <= start.sales.banks.Keys && m <= n <= |es|
    ensures var s, t := StateAt(cfg, start, es, m).sales, StateAt(cfg, start, es, n).sales;
            bs <= s.banks.Keys && bs <= t.banks.Keys && Conserved(s, t, bs)
  {
    hide Apply, SoundMove, SalesInv, CountersFollow, Conserved, StateAt;
    SalesStretch(cfg, start, es, 0, m);
    SalesStretch(cfg, start, es, m, n);
    StartState(cfg, start, es);
    SoundMoveGives(start.sales, StateAt(cfg, start, es, m).sales);
    SoundMoveGives(StateAt(cfg, start, es, m).sales, StateAt(cfg, start, es, n).sales);
    MoneyConserved(StateAt(cfg, start, es, m).sales, StateAt(cfg, start, es, n).sales, bs);
  }
}
