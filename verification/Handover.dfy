/** L1 theorem: how every collected order came to be collected. */
module Handover {
  import opened Rows
  import opened SalesTheory
  import opened SalesRuns
  import opened OrderView
  import opened Lifecycle
  import opened Machine
  import opened PickupSpec

  ghost predicate SettledAt(cfg: Config, start: Db, es: seq<Event>, i: nat, o: OrderId) {
    i < |es| && Settles(es[i].action, OutcomeAt(cfg, start, es, i), o)
  }

  /** Staff of the order's bank scan its pass at step j. */
  ghost predicate ScannedAt(cfg: Config, start: Db, es: seq<Event>, j: nat, o: OrderId) {
    && j < |es|
    && o in StateAt(cfg, start, es, j).sales.orders
    && ScansOrder(es[j].action, OutcomeAt(cfg, start, es, j), StateAt(cfg, start, es, j).sales.orders[o])
    && es[j].action.user.bankId == Some(StateAt(cfg, start, es, j).sales.orders[o].bankId)
  }

  /** No later scan of the order succeeds before step n. */
  ghost predicate LastScan(cfg: Config, start: Db, es: seq<Event>, j: nat, n: nat, o: OrderId) {
    && ScannedAt(cfg, start, es, j, o)
    && j < n
    && forall k: nat :: j < k < n ==> !ScannedAt(cfg, start, es, k, o)
  }

  ghost predicate CompletedAt(cfg: Config, start: Db, es: seq<Event>, k: nat, o: OrderId) {
    && k < |es|
    && o in StateAt(cfg, start, es, k).sales.orders
    && HandsOver(es[k].action, OutcomeAt(cfg, start, es, k), o)
    && es[k].action.user.bankId == Some(StateAt(cfg, start, es, k).sales.orders[o].bankId)
  }

  /** The steps an order has been through so far. */
  datatype Trail = Unpaid | PaidFor(settled: nat) | Scanned(settled: nat, scan: nat)
      | Done(settled: nat, scan: nat, done: nat)

  /** The trail is true of the run, and explains the row as it stands after n events. */
  ghost predicate Explains(cfg: Config, start: Db, es: seq<Event>, n: nat, o: OrderId, h: Trail)
  {
    && n <= |es|
    && o in StateAt(cfg, start, es, n).sales.orders
    && var row := StateAt(cfg, start, es, n).sales.orders[o];
    match h
    case Unpaid => !SettledStatus(row.status)
    case PaidFor(i) => i < n && SettledAt(cfg, start, es, i, o) && row.status == ReadyForPickup
    case Scanned(i, j) =>
      && i < j && SettledAt(cfg, start, es, i, o) && LastScan(cfg, start, es, j, n, o)
      && row.status == PickupInProgress
      && row.otpHash == Some(OtpHash(es[j].action.otp)) && row.otpExpiresAt == Some(es[j].now + OTP_LIFETIME_MS)
    case Done(i, j, k) =>
      && i < j && k < n && SettledAt(cfg, start, es, i, o) && LastScan(cfg, start, es, j, k, o)
         && CompletedAt(cfg, start, es, k, o)
      && es[k].action.otp == es[j].action.otp && es[k].now <= es[j].now + 600000
      && row.status == Collected
  }

  /** The trail one step later. */
  ghost function Extended(cfg: Config, start: Db, es: seq<Event>, n: nat, o: OrderId, h: Trail): Trail
    requires n < |es| && o in StateAt(cfg, start, es, n).sales.orders
  {
    if SettledAt(cfg, start, es, n, o) then PaidFor(n)
    else if ScansOrder(es[n].action, OutcomeAt(cfg, start, es, n), StateAt(cfg, start, es, n).sales.orders[o])
        && h != Unpaid then Scanned(h.settled, n)
    else if HandsOver(es[n].action, OutcomeAt(cfg, start, es, n), o) && h.Scanned? then Done(h.settled, h.scan, n)
    else h
  }

  lemma ExplainsStep(cfg: Config, start: Db, es: seq<Event>, n: nat, o: OrderId, h: Trail)
    requires SalesInv(start.sales) && n < |es| && o in StateAt(cfg, start, es, n).sales.orders
    requires Explains(cfg, start, es, n, o, h)
    ensures Explains(cfg, start, es, n + 1, o, Extended(cfg, start, es, n, o, h))
  {
    hide Apply, SalesInv;
    var db := StateAt(cfg, start, es, n);
    SalesInvAlways(cfg, start, es, n);
    StatusStep(cfg, db, es[n], o);
    OrderRowsOfInv(db.sales);
    OrderStep(cfg, db, es[n], o);
  }

  lemma FreshOrderUnpaid(cfg: Config, start: Db, es: seq<Event>, n: nat, o: OrderId)
    requires 0 < n <= |es| && o !in StateAt(cfg, start, es, n - 1).sales.orders
    requires o in StateAt(cfg, start, es, n).sales.orders
    ensures Explains(cfg, start, es, n, o, Unpaid)
  {
    hide Apply;
    NewOrderStep(cfg, StateAt(cfg, start, es, n - 1), es[n - 1], o);
  }

  lemma {:induction false} TrailExists(cfg: Config, start: Db, es: seq<Event>, n: nat, o: OrderId)
    requires SalesInv(start.sales) && o !in start.sales.orders
    requires n <= |es| && o in StateAt(cfg, start, es, n).sales.orders
    ensures exists h :: Explains(cfg, start, es, n, o, h)
  {
    hide Apply, SalesInv, Explains, Extended;
    var before := StateAt(cfg, start, es, n - 1);
    if o in before.sales.orders {
      TrailExists(cfg, start, es, n - 1, o);
      var h :| Explains(cfg, start, es, n - 1, o, h);
      ExplainsStep(cfg, start, es, n - 1, o, h);
    } else {
      FreshOrderUnpaid(cfg, start, es, n, o);
    }
  }

  /** An order checked out during the run and now COLLECTED was settled, then scanned, then completed, by staff
      of its own bank both times, with the code of the last scan and at most ten minutes after it. */
  lemma CollectedOrderHistory(cfg: Config, start: Db, es: seq<Event>, n: nat, o: OrderId)
    requires SalesInv(start.sales) && o !in start.sales.orders
    requires n <= |es| && o in StateAt(cfg, start, es, n).sales.orders
    requires StateAt(cfg, start, es, n).sales.orders[o].status == Collected
    ensures exists i: nat, j: nat, k: nat ::
              && i < j && k < n
              && SettledAt(cfg, start, es, i, o) && LastScan(cfg, start, es, j, k, o)
                 && CompletedAt(cfg, start, es, k, o)
              && es[k].action.otp == es[j].action.otp && es[k].now <= es[j].now + 600000
  {
    hide Apply, SalesInv;
    TrailExists(cfg, start, es, n, o);
    var h :| Explains(cfg, start, es, n, o, h);
    assert h.Done?;
  }
}
