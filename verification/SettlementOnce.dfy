/** L2 theorems: however payments interleave with everything else, an order settles at most once, the bank counters
    follow the invoices, and an order has an invoice exactly when it is settled. */
module SettlementOnce {
  import opened Rows
  import opened OrdersSpec
  import opened SalesTheory
  import opened Accounts
  import opened SalesRuns
  import opened Interleaved
  import opened SysView
  import Machine
  import VehiclesSpec
  import BidsSpec
  import AttemptGate
  import PickupSpec
  import LotsSpec

  ghost predicate SysInv(sys: Sys) {
    SalesInv(sys.db.sales) && CallsSound(sys.db.sales, sys.calls)
  }

  lemma InvoicesStay(s: Sales, t: Sales, o: OrderId)
    requires Evolves(s, t) && HasInvoice(s.invoices, o)
    ensures HasInvoice(t.invoices, o)
  {
    var i :| 0 <= i < |s.invoices| && s.invoices[i].orderId == o;
    assert t.invoices[i].orderId == o;
  }

  lemma CallStaysSound(s: Sales, t: Sales, call: Call)
    requires CallSound(s, call) && Evolves(s, t)
    ensures CallSound(t, call)
  {
    match call
    case Paying(_, ticket) => TicketStaysOk(s, t, ticket);
    case Scanning(o) => InvoicesStay(s, t, o);
    case Completing(_, o) => InvoicesStay(s, t, o);
    case _ =>
  }

  lemma CallsStaySound(s: Sales, t: Sales, calls: map<CallId, Call>, later: map<CallId, Call>)
    requires CallsSound(s, calls) && Evolves(s, t)
    requires forall c :: c in later && WritesSales(later[c]) ==> c in calls && calls[c] == later[c]
    ensures CallsSound(t, later)
  {
    hide Evolves;
    forall c | c in later ensures CallSound(t, later[c]) {
      if WritesSales(later[c]) {
        CallStaysSound(s, t, calls[c]);
      }
    }
  }

  /** Moves that touch no sales row and start no call that will. */
  lemma QuietAdvance(sys: Sys, next: Sys)
    requires SysInv(sys) && next.db.sales == sys.db.sales
    requires forall c :: c in next.calls && WritesSales(next.calls[c]) ==>
        c in sys.calls && sys.calls[c] == next.calls[c]
    ensures SysInv(next) && SoundMove(sys.db.sales, next.db.sales)
  {
    hide SalesInv, Evolves, SoundMove, CallsSound;
    NoChange(sys.db.sales);
    QuietMove(sys.db.sales, sys.db.sales);
    CallsStaySound(sys.db.sales, sys.db.sales, sys.calls, next.calls);
  }

  lemma WholeCallSound(cfg: Config, sys: Sys, a: Machine.Action, now: Time)
    requires SysInv(sys)
    ensures SysInv(WholeCall(cfg, sys, a, now).sys) && SoundMove(sys.db.sales, WholeCall(cfg, sys, a, now).sys.db.sales)
  {
    hide SalesInv, SoundMove, CallsSound, Machine.Apply;
    var next := WholeCall(cfg, sys, a, now).sys;
    SalesStep(cfg, sys.db, Machine.Event(a, now));
    SoundMoveGives(sys.db.sales, next.db.sales);
    CallsStaySound(sys.db.sales, next.db.sales, sys.calls, next.calls);
  }

  lemma BeginPaymentSound(sys: Sys, c: CallId, user: UserId, order: OrderId)
    requires SysInv(sys) && c !in sys.calls
    ensures SysInv(BeginPayment(sys, c, user, order).sys)
    ensures SoundMove(sys.db.sales, BeginPayment(sys, c, user, order).sys.db.sales)
  {
    hide SalesInv, SoundMove, ReadForPayment, TicketOk, Invoiced;
    NoChange(sys.db.sales);
    QuietMove(sys.db.sales, sys.db.sales);
    if ReadForPayment(sys.db.sales.orders, sys.db.sales.payments, user, order).Success? {
      TicketFresh(sys.db.sales, user, order);
    }
  }

  lemma CommitSound(sys: Sys, c: CallId, rzPayment: string, signatureOk: bool, year: int, now: Time)
    requires SysInv(sys) && c in sys.calls
    ensures var next := Commit(sys, c, rzPayment, signatureOk, year, now).sys;
            SysInv(next) && SoundMove(sys.db.sales, next.db.sales)
  {
    var next := Commit(sys, c, rzPayment, signatureOk, year, now).sys;
    if sys.calls[c].Paying? {
      hide SalesInv, CountersFollow, TicketOk, FinishPayment;
      var ticket := sys.calls[c].ticket;
      FinishKeeps(sys.db.sales, sys.db.vehicles, ticket, sys.calls[c].user, rzPayment, signatureOk, year, now);
      CountersFollowPayment(sys.db.sales, sys.db.vehicles, ticket, sys.calls[c].user, rzPayment, signatureOk, year,
          now);
      CallsStaySound(sys.db.sales, next.db.sales, sys.calls, next.calls);
    } else {
      QuietAdvance(sys, next);
    }
  }

  lemma SettledIsInvoiced(s: Sales, o: OrderId)
    requires SalesInv(s) && o in s.orders
    ensures Invoiced(s, o) <==> SettledStatus(s.orders[o].status)
  {
  }

  lemma BeginScanSound(sys: Sys, c: CallId, user: User, pass: Pass)
    requires SysInv(sys) && c !in sys.calls
    ensures SysInv(BeginScan(sys, c, user, pass).sys)
    ensures SoundMove(sys.db.sales, BeginScan(sys, c, user, pass).sys.db.sales)
  {
    hide SalesInv, SoundMove, TicketOk, Invoiced;
    NoChange(sys.db.sales);
    QuietMove(sys.db.sales, sys.db.sales);
    var read := PickupSpec.ReadForScan(sys.db.sales.orders, user, pass);
    if read.Success? {
      SettledIsInvoiced(sys.db.sales, read.value);
    }
  }

  lemma BeginCompleteSound(sys: Sys, c: CallId, user: User, o: OrderId, otp: int, now: Time)
    requires SysInv(sys) && c !in sys.calls
    ensures SysInv(BeginComplete(sys, c, user, o, otp, now).sys)
    ensures SoundMove(sys.db.sales, BeginComplete(sys, c, user, o, otp, now).sys.db.sales)
  {
    hide SalesInv, SoundMove, TicketOk, Invoiced;
    NoChange(sys.db.sales);
    QuietMove(sys.db.sales, sys.db.sales);
    if PickupSpec.CompleteRefusal(sys.db.sales.orders, user, o, otp, now).None? {
      SettledIsInvoiced(sys.db.sales, o);
    }
  }

  lemma SoundAt(sys: Sys, c: CallId)
    requires SysInv(sys) && c in sys.calls
    ensures CallSound(sys.db.sales, sys.calls[c])
  {
  }

  lemma InvoicedExists(s: Sales, o: OrderId)
    requires Invoiced(s, o)
    ensures o in s.orders
  {
  }

  lemma StatusesOfInv(s: Sales)
    requires SalesInv(s)
    ensures forall o :: o in s.orders ==> LifecycleStatus(s.orders[o].status)
  {
  }

  /** The write of a pickup moves a settled order to another settled status. */
  lemma PickupWriteSound(sys: Sys, c: CallId, next: Sys, o: OrderId, row: Order)
    requires SysInv(sys) && c in sys.calls && (sys.calls[c].Scanning? || sys.calls[c].Completing?)
    requires o == if sys.calls[c].Scanning? then sys.calls[c].scanned else sys.calls[c].completed
    requires o in sys.db.sales.orders && SameDeal(sys.db.sales.orders[o], row) && SettledStatus(row.status)
    requires next == Sys(WithOrder(sys, o, row), sys.calls - {c})
    ensures SysInv(next) && SoundMove(sys.db.sales, next.db.sales)
  {
    hide SalesInv, SoundMove, CallsSound, Invoiced;
    assert CallSound(sys.db.sales, sys.calls[c]) by { SoundAt(sys, c); }
    InvoicedExists(sys.db.sales, o);
    SettledIsInvoiced(sys.db.sales, o);
    StatusesOfInv(sys.db.sales);
    OrderWritesKeep(sys.db.sales, sys.db.sales.orders[o := row]);
    QuietMove(sys.db.sales, next.db.sales);
    CallsStaySound(sys.db.sales, next.db.sales, sys.calls, next.calls);
  }

  lemma ScanWriteSound(sys: Sys, c: CallId, otp: int, now: Time)
    requires SysInv(sys) && c in sys.calls
    ensures var next := FinishScan(sys, c, otp, now).sys;
            SysInv(next) && SoundMove(sys.db.sales, next.db.sales)
  {
    hide SysInv, SoundMove;
    var next := FinishScan(sys, c, otp, now).sys;
    if sys.calls[c].Scanning? {
      var o := sys.calls[c].scanned;
      if o in sys.db.sales.orders {
        PickupWriteSound(sys, c, next, o, PickupSpec.ScannedRow(sys.db.sales.orders[o], otp, now));
      } else {
        QuietAdvance(sys, next);
      }
    } else {
      QuietAdvance(sys, next);
    }
  }

  lemma CompleteWriteSound(sys: Sys, c: CallId, now: Time)
    requires SysInv(sys) && c in sys.calls
    ensures var next := FinishComplete(sys, c, now).sys;
            SysInv(next) && SoundMove(sys.db.sales, next.db.sales)
  {
    hide SysInv, SoundMove;
    var next := FinishComplete(sys, c, now).sys;
    if sys.calls[c].Completing? {
      var o := sys.calls[c].completed;
      if o in sys.db.sales.orders {
        PickupWriteSound(sys, c, next, o, PickupSpec.CollectedRow(sys.db.sales.orders[o], sys.calls[c].user, now));
      } else {
        QuietAdvance(sys, next);
      }
    } else {
      QuietAdvance(sys, next);
    }
  }

  /** Moves of calls that touch no sales row. */
  predicate IsQuiet(m: Move) {
    || m.ReadSweep? || m.WriteSweep? || m.ReadVehicleBid? || m.ReadLotBid? || m.SwapBid? || m.RecordBid?
    || m.ExtendBid? || m.ReadUpdate? || m.WriteUpdate? || m.ReadLot? || m.WriteLot?
  }

  lemma QuietCalls(cfg: Config, sys: Sys, m: Move, now: Time)
    requires IsQuiet(m)
    ensures var next := Advance(cfg, sys, m, now).sys;
            forall c :: c in next.calls && WritesSales(next.calls[c]) ==>
                c in sys.calls && sys.calls[c] == next.calls[c]
  {
    hide WholeCall, BeginPayment, Commit, BeginScan, BeginComplete, FinishScan, FinishComplete;
    hide BidsSpec.VehicleBidRefusal, BidsSpec.LotBidRefusal, BidsSpec.SwapVehicle, BidsSpec.SwapLot;
    hide BidsSpec.ExtendVehicle, BidsSpec.ExtendLot, BidsSpec.Record, BidsSpec.EndAfterBid, AttemptGate.Attempt;
    hide LotsSpec.LotRefusal, LotsSpec.InsertLot, VehiclesSpec.LapsedHolds, VehiclesSpec.Release;
    hide VehiclesSpec.PricesWritten, VehiclesSpec.MayEdit;
  }

  lemma AdvanceSound(cfg: Config, sys: Sys, m: Move, now: Time)
    requires SysInv(sys)
    ensures SysInv(Advance(cfg, sys, m, now).sys) && SoundMove(sys.db.sales, Advance(cfg, sys, m, now).sys.db.sales)
  {
    hide SysInv, SoundMove, WholeCall, BeginPayment, Commit, BeginScan, BeginComplete, FinishScan, FinishComplete;
    hide FinishSweep, BeginVehicleBid, BeginLotBid, Swap, RecordRow, Extend, BeginUpdate, FinishUpdate, BeginLot;
    hide FinishLot, VehiclesSpec.LapsedHolds;
    var next := Advance(cfg, sys, m, now).sys;
    if (Begins(m) && m.call in sys.calls) || (Continues(m) && m.call !in sys.calls) {
      QuietAdvance(sys, next);
    } else if IsQuiet(m) {
      OtherMovesKeepSales(cfg, sys, m, now);
      QuietCalls(cfg, sys, m, now);
      QuietAdvance(sys, next);
    } else {
      match m
      case Atomic(a) => WholeCallSound(cfg, sys, a, now);
      case ReadPayment(c, user, order) => BeginPaymentSound(sys, c, user.id, order);
      case CommitPayment(c, rzPayment, signatureOk, year) => CommitSound(sys, c, rzPayment, signatureOk, year, now);
      case ReadScan(c, user, pass) => BeginScanSound(sys, c, user, pass);
      case ReadComplete(c, user, order, code) => BeginCompleteSound(sys, c, user, order, code, now);
      case WriteScan(c, otp) => ScanWriteSound(sys, c, otp, now);
      case WriteComplete(c) => CompleteWriteSound(sys, c, now);
    }
  }

  // ---- over a run -------------------------------------------------------------------------------------

  lemma SysInvGives(sys: Sys)
    requires SysInv(sys)
    ensures SalesInv(sys.db.sales)
  {
  }

  lemma {:induction false} SysInvAlways(cfg: Config, start: Sys, ts: seq<Tick>, n: nat)
    requires SysInv(start) && n <= |ts|
    ensures SysInv(SysAt(cfg, start, ts, n))
  {
    hide Advance, SysInv;
    if n > 0 {
      SysInvAlways(cfg, start, ts, n - 1);
      AdvanceSound(cfg, SysAt(cfg, start, ts, n - 1), ts[n - 1].move, ts[n - 1].now);
    }
  }

  lemma {:induction false} SysStretch(cfg: Config, start: Sys, ts: seq<Tick>, m: nat, n: nat)
    requires SysInv(start) && m <= n <= |ts|
    ensures SoundMove(SysAt(cfg, start, ts, m).db.sales, SysAt(cfg, start, ts, n).db.sales)
    decreases n
  {
    hide Advance, SysInv, SoundMove, SalesInv;
    var s := SysAt(cfg, start, ts, m).db.sales;
    if m == n {
      SysInvAlways(cfg, start, ts, n);
      SysInvGives(SysAt(cfg, start, ts, n));
      NoChange(s);
      QuietMove(s, s);
    } else {
      var before := SysAt(cfg, start, ts, n - 1);
      SysStretch(cfg, start, ts, m, n - 1);
      SysInvAlways(cfg, start, ts, n - 1);
      AdvanceSound(cfg, before, ts[n - 1].move, ts[n - 1].now);
      SoundMovesCompose(s, before.db.sales, SysAt(cfg, start, ts, n).db.sales);
    }
  }

  /** Move n settles order o. */
  ghost predicate SettlesAt(cfg: Config, start: Sys, ts: seq<Tick>, n: nat, o: OrderId) {
    n < |ts| && SettlesOn(cfg, SysAt(cfg, start, ts, n), ts[n].move, ts[n].now, o)
  }

  lemma WholeVerifySettlesOnce(cfg: Config, db: Db, a: Machine.Action, now: Time)
    requires a.VerifyPayment? && Machine.Apply(cfg, db, Machine.Event(a, now)).out == Ok(Settled)
    ensures !HasInvoice(db.sales.invoices, a.order)
    ensures HasInvoice(Machine.Apply(cfg, db, Machine.Event(a, now)).db.sales.invoices, a.order)
  {
    hide FinishPayment;
    var read := ReadForPayment(db.sales.orders, db.sales.payments, a.user.id, a.order);
    SettleOnce(db.sales, db.vehicles, read.value, a.user.id, a.rzPayment, a.signatureOk, a.year, now);
  }

  lemma SettlesAtOnce(cfg: Config, start: Sys, ts: seq<Tick>, n: nat, o: OrderId)
    requires SettlesAt(cfg, start, ts, n, o)
    ensures !HasInvoice(SysAt(cfg, start, ts, n).db.sales.invoices, o)
    ensures HasInvoice(SysAt(cfg, start, ts, n + 1).db.sales.invoices, o)
  {
    var sys, m := SysAt(cfg, start, ts, n), ts[n].move;
    hide HasInvoice, Machine.Apply, FinishPayment;
    if m.Atomic? {
      WholeVerifySettlesOnce(cfg, sys.db, m.action, ts[n].now);
    } else {
      SettleOnce(sys.db.sales, sys.db.vehicles, sys.calls[m.call].ticket, sys.calls[m.call].user, m.rzPayment,
          m.signatureOk, m.year, ts[n].now);
    }
  }

  lemma MovesInRange(cfg: Config, start: Sys, ts: seq<Tick>, n: nat, o: OrderId)
    requires SettlesAt(cfg, start, ts, n, o)
    ensures n < |ts|
  {
  }

  /** Whatever interleaving: one order, at most one settlement. */
  lemma SettledAtMostOnce(cfg: Config, start: Sys, ts: seq<Tick>, i: nat, j: nat, o: OrderId)
    requires SysInv(start) && SettlesAt(cfg, start, ts, i, o) && SettlesAt(cfg, start, ts, j, o)
    ensures i == j
  {
    hide Advance, SysInv, SoundMove, SalesInv, Evolves, HasInvoice, SettlesAt;
    MovesInRange(cfg, start, ts, i, o);
    MovesInRange(cfg, start, ts, j, o);
    SettlesAtOnce(cfg, start, ts, i, o);
    SettlesAtOnce(cfg, start, ts, j, o);
    var first, second := if i < j then i else j, if i < j then j else i;
    if first < second {
      SysStretch(cfg, start, ts, first + 1, second);
      SoundMoveGives(SysAt(cfg, start, ts, first + 1).db.sales, SysAt(cfg, start, ts, second).db.sales);
      InvoicesStay(SysAt(cfg, start, ts, first + 1).db.sales, SysAt(cfg, start, ts, second).db.sales, o);
    }
  }

  /** Over any stretch of any interleaving, for one bank, all banks or any others: the counters move by the count and
      the base sum of the orders invoiced in between, and no paisa billed on those is lost. */
  lemma MoneyConservedInFlight(cfg: Config, start: Sys, ts: seq<Tick>, m: nat, n: nat, bs: set<BankId>)
    requires SysInv(start) && bs <= start.db.sales.banks.Keys && m <= n <= |ts|
    ensures var s, t := SysAt(cfg, start, ts, m).db.sales, SysAt(cfg, start, ts, n).db.sales;
            bs <= s.banks.Keys && bs <= t.banks.Keys && Conserved(s, t, bs)
  {
    hide Advance, SysInv, SoundMove, SalesInv, CountersFollow, Conserved, SysAt;
    var s, t := SysAt(cfg, start, ts, m).db.sales, SysAt(cfg, start, ts, n).db.sales;
    SysStretch(cfg, start, ts, 0, m);
    SysStretch(cfg, start, ts, m, n);
    FirstSys(cfg, start, ts);
    SoundMoveGives(start.db.sales, s);
    SoundMoveGives(s, t);
    MoneyConserved(s, t, bs);
  }

  /** In every state of every interleaving an order has an invoice exactly when it is settled. */
  lemma InvoicedIffSettled(cfg: Config, start: Sys, ts: seq<Tick>, n: nat, o: OrderId)
    requires SysInv(start) && n <= |ts| && o in SysAt(cfg, start, ts, n).db.sales.orders
    ensures var s := SysAt(cfg, start, ts, n).db.sales;
            HasInvoice(s.invoices, o) <==> SettledStatus(s.orders[o].status)
  {
    hide Advance;
    SysInvAlways(cfg, start, ts, n);
  }

  // ---- what the L1 assumption on the sweep is worth --------------------------------------------------------

  lemma SweepReads(cfg: Config, sys: Sys, c: CallId, now: Time)
    requires c !in sys.calls
    ensures Advance(cfg, sys, ReadSweep(c), now).sys
         == Sys(sys.db, sys.calls[c := Sweeping(VehiclesSpec.LapsedHolds(sys.db.vehicles, now))])
  {
    hide WholeCall, VehiclesSpec.LapsedHolds;
  }

  lemma SweepWrites(cfg: Config, sys: Sys, c: CallId, now: Time)
    requires c in sys.calls && sys.calls[c].Sweeping?
    ensures Advance(cfg, sys, WriteSweep(c), now).sys
         == Sys(sys.db.(vehicles := VehiclesSpec.Release(sys.db.vehicles, sys.calls[c].ids)), sys.calls - {c})
  {
    hide WholeCall, VehiclesSpec.Release;
  }

  lemma WholeMove(cfg: Config, sys: Sys, a: Machine.Action, now: Time)
    ensures Advance(cfg, sys, Atomic(a), now).sys
         == Sys(Machine.Apply(cfg, sys.db, Machine.Event(a, now)).db, sys.calls)
  {
    hide Machine.Apply;
  }

  lemma LapsedIsListed(vehicles: Vehicles, v: VehicleId, now: Time)
    requires v in vehicles && VehiclesSpec.HoldLapsed(vehicles[v], now)
    ensures v in VehiclesSpec.LapsedHolds(vehicles, now)
  {
  }

  lemma FinishKeepsVehicles(s: Sales, vehicles: Vehicles, ticket: Ticket, user: UserId, rzPayment: string,
                            signatureOk: bool, year: int, now: Time)
    ensures FinishPayment(s, vehicles, ticket, user, rzPayment, signatureOk, year, now).rows.1.Keys == vehicles.Keys
  {
  }

  lemma SellsKeepsRow(cfg: Config, db: Db, a: Machine.Action, now: Time, v: VehicleId)
    requires a.VerifyPayment? && v in db.vehicles
    ensures v in Machine.Apply(cfg, db, Machine.Event(a, now)).db.vehicles
  {
    hide FinishPayment;
    var read := ReadForPayment(db.sales.orders, db.sales.payments, a.user.id, a.order);
    if read.Success? {
      FinishKeepsVehicles(db.sales, db.vehicles, read.value, a.user.id, a.rzPayment, a.signatureOk, a.year, now);
    }
  }

  /** With the sweep cut in two, a payment between its read and its write is undone on the vehicle row: the vehicle is
      LIVE again although its order is settled. */
  lemma SplitSweepRevivesSoldVehicle(cfg: Config, sys: Sys, c: CallId, a: Machine.Action, now: Time, v: VehicleId)
    requires c !in sys.calls && v in sys.db.vehicles && VehiclesSpec.HoldLapsed(sys.db.vehicles[v], now)
    requires a.VerifyPayment? && a.order in sys.db.sales.orders && sys.db.sales.orders[a.order].vehicleId == Some(v)
    requires Machine.Apply(cfg, sys.db, Machine.Event(a, now)).out == Ok(Settled)
    ensures var ts := [Tick(ReadSweep(c), now), Tick(Atomic(a), now), Tick(WriteSweep(c), now)];
            var last := SysAt(cfg, sys, ts, 3);
            v in last.db.vehicles && last.db.vehicles[v].status == Live && HasInvoice(last.db.sales.invoices, a.order)
  {
    hide Advance, Machine.Apply, HasInvoice, VehiclesSpec.HoldLapsed, VehiclesSpec.LapsedHolds;
    var ts := [Tick(ReadSweep(c), now), Tick(Atomic(a), now), Tick(WriteSweep(c), now)];
    Ticks(cfg, sys, ts);
    WholeVerifySettlesOnce(cfg, sys.db, a, now);
    LapsedIsListed(sys.db.vehicles, v, now);
    SweepReads(cfg, sys, c, now);
    SellsKeepsRow(cfg, sys.db, a, now, v);
    WholeMove(cfg, SysAt(cfg, sys, ts, 1), a, now);
    SweepWrites(cfg, SysAt(cfg, sys, ts, 2), c, now);
  }
}
