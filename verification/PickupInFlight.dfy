/** L2 theorems about pickup when a scan and a completion are cut into their read and their write: when a handed over
    order stays handed over, and how it came to be. */
module PickupInFlight {
  import opened Rows
  import opened PickupSpec
  import opened SalesTheory
  import opened OrderView
  import opened Interleaved
  import opened SysView
  import opened SettlementOnce
  import opened LifecycleInFlight
  import Machine
  import AttemptGate
  import BidsSpec
  import OrdersSpec
  import VehiclesSpec
  import LotsSpec

  /** Call c will write the pickup columns of order o. */
  predicate IsPickupOf(calls: map<CallId, Call>, c: CallId, o: OrderId) {
    c in calls && (calls[c] == Scanning(o) || (calls[c].Completing? && calls[c].completed == o))
  }

  ghost predicate InPickup(calls: map<CallId, Call>, o: OrderId) {
    exists c :: IsPickupOf(calls, c, o)
  }

  /** The move hands the goods of order o over, as a whole call or as the write of one in flight. */
  ghost predicate HandsOverOn(cfg: Config, sys: Sys, m: Move, now: Time, o: OrderId) {
    && Advance(cfg, sys, m, now).out == Some(Ok(HandedOver))
    && ((m.Atomic? && m.action.Complete? && m.action.order == o) || CompletesOn(sys, m, o))
  }

  // ---- one move ------------------------------------------------------------------------------------------

  /** A pickup call in flight after a move was in flight before, or has just passed its guards. */
  lemma PickupBefore(cfg: Config, sys: Sys, m: Move, now: Time, c: CallId, o: OrderId)
    requires IsPickupOf(Advance(cfg, sys, m, now).sys.calls, c, o)
    ensures var next := Advance(cfg, sys, m, now).sys;
            || (IsPickupOf(sys.calls, c, o) && next.calls[c] == sys.calls[c])
            || (m.ReadScan? && m.call == c && c !in sys.calls && next.calls[c] == Scanning(o)
                && ReadForScan(sys.db.sales.orders, m.user, m.pass) == Success(o))
            || (m.ReadComplete? && m.call == c && c !in sys.calls && m.order == o
                && next.calls[c] == Completing(m.user.id, o)
                && CompleteRefusal(sys.db.sales.orders, m.user, o, m.code, now) == None)
  {
    hide Machine.Apply, OrdersSpec.FinishPayment, OrdersSpec.ReadForPayment, BidsSpec.VehicleBidRefusal;
    hide BidsSpec.LotBidRefusal, BidsSpec.SwapVehicle, BidsSpec.SwapLot, BidsSpec.Record, BidsSpec.ExtendVehicle;
    hide BidsSpec.ExtendLot, ReadForScan, CompleteRefusal, LotsSpec.LotRefusal, LotsSpec.InsertLot, ScannedRow;
    hide CollectedRow, VehiclesSpec.Release, VehiclesSpec.PricesWritten, VehiclesSpec.LapsedHolds, AttemptGate.Attempt;
  }

  /** What a pickup call has found in the row it read. */
  lemma ReadInPickup(cfg: Config, sys: Sys, m: Move, now: Time, c: CallId, o: OrderId)
    requires IsPickupOf(Advance(cfg, sys, m, now).sys.calls, c, o) && !IsPickupOf(sys.calls, c, o)
    ensures o in sys.db.sales.orders
    ensures sys.db.sales.orders[o].status == ReadyForPickup || sys.db.sales.orders[o].status == PickupInProgress
  {
    hide Advance;
    PickupBefore(cfg, sys, m, now, c, o);
  }

  lemma WholeHandover(cfg: Config, sys: Sys, a: Machine.Action, now: Time, o: OrderId)
    requires SysInv(sys) && o in sys.db.sales.orders && HandsOverOn(cfg, sys, Atomic(a), now, o)
    ensures sys.db.sales.orders[o].status == PickupInProgress
  {
    hide Machine.Apply, SalesInv, OrdersSpec.HasPendingPayment;
    OrderRowsOfInv(sys.db.sales);
    OrderStep(cfg, sys.db, Machine.Event(a, now), o);
  }

  // ---- COLLECTED for good ----------------------------------------------------------------------------------

  ghost predicate HandsOverAt(cfg: Config, start: Sys, ts: seq<Tick>, k: nat, o: OrderId) {
    k < |ts| && HandsOverOn(cfg, SysAt(cfg, start, ts, k), ts[k].move, ts[k].now, o)
  }

  /** Along the run the order stays COLLECTED and is not handed over again. */
  ghost predicate StaysHandedOver(cfg: Config, start: Sys, ts: seq<Tick>, o: OrderId) {
    && o in SysAt(cfg, start, ts, |ts|).db.sales.orders && StatusAt(cfg, start, ts, |ts|, o) == Collected
    && forall k: nat :: k < |ts| ==> !HandsOverAt(cfg, start, ts, k, o)
  }

  lemma NoPickupWrite(sys: Sys, m: Move, o: OrderId)
    requires !InPickup(sys.calls, o)
    ensures !ScansOn(sys, m, o) && !CompletesOn(sys, m, o)
  {
    assert m.Atomic? || !IsPickupOf(sys.calls, m.call, o);
  }

  lemma HandoverShape(cfg: Config, sys: Sys, m: Move, now: Time, o: OrderId)
    requires HandsOverOn(cfg, sys, m, now, o)
    ensures (m.Atomic? && m.action.Complete? && m.action.order == o) || CompletesOn(sys, m, o)
  {
    hide Advance;
  }

  lemma {:induction false} CollectedStays(cfg: Config, start: Sys, ts: seq<Tick>, n: nat, o: OrderId)
    requires SysInv(start) && n <= |ts| && o in start.db.sales.orders && start.db.sales.orders[o].status == Collected
    requires !InPickup(start.calls, o)
    ensures o in SysAt(cfg, start, ts, n).db.sales.orders && StatusAt(cfg, start, ts, n, o) == Collected
    ensures !InPickup(SysAt(cfg, start, ts, n).calls, o)
    ensures forall k: nat :: k < n ==> !HandsOverAt(cfg, start, ts, k, o)
  {
    hide Advance, SysInv, SettlesOn, HandsOverOn;
    if n > 0 {
      var sys, m, now := SysAt(cfg, start, ts, n - 1), ts[n - 1].move, ts[n - 1].now;
      CollectedStays(cfg, start, ts, n - 1, o);
      SysInvAlways(cfg, start, ts, n - 1);
      NoPickupWrite(sys, m, o);
      SysStatusStep(cfg, sys, m, now, o);
      if c :| IsPickupOf(SysAt(cfg, start, ts, n).calls, c, o) {
        ReadInPickup(cfg, sys, m, now, c, o);
      }
      if HandsOverOn(cfg, sys, m, now, o) {
        HandoverShape(cfg, sys, m, now, o);
        WholeHandover(cfg, sys, m.action, now, o);
      }
    }
  }

  lemma WriteHandsOver(cfg: Config, sys: Sys, m: Move, now: Time, o: OrderId)
    requires CompletesOn(sys, m, o) && o in sys.db.sales.orders
    ensures HandsOverOn(cfg, sys, m, now, o)
  {
    hide WholeCall, CollectedRow;
  }

  ghost predicate HandedOverForGood(cfg: Config, start: Sys, o: OrderId) {
    forall ts: seq<Tick> :: StaysHandedOver(cfg, start, ts, o)
  }

  /** An order once COLLECTED stays so and is never handed over again, in every continuation, if and only if no scan
      or completion of it is in flight. */
  lemma HandedOverForGoodIff(cfg: Config, start: Sys, o: OrderId, otp: int, now: Time)
    requires SysInv(start) && o in start.db.sales.orders && start.db.sales.orders[o].status == Collected
    ensures HandedOverForGood(cfg, start, o) <==> !InPickup(start.calls, o)
  {
    hide Advance, SysInv, SettlesOn, HandsOverOn;
    if c :| IsPickupOf(start.calls, c, o) {
      var m := if start.calls[c].Scanning? then WriteScan(c, otp) else WriteComplete(c);
      var ts := [Tick(m, now)];
      FirstSys(cfg, start, ts);
      if start.calls[c].Scanning? {
        NextSys(cfg, start, ts, 0);
        SysStatusStep(cfg, start, m, now, o);
        assert ScansOn(start, m, o);
      } else {
        WriteHandsOver(cfg, start, m, now, o);
        assert HandsOverAt(cfg, start, ts, 0, o);
      }
      assert !StaysHandedOver(cfg, start, ts, o);
    } else {
      forall ts: seq<Tick> ensures StaysHandedOver(cfg, start, ts, o) {
        CollectedStays(cfg, start, ts, |ts|, o);
      }
    }
  }

  /** Staff of the order's bank, at a pickup in progress, hold its current code. */
  predicate ReadyToHandOver(orders: Orders, user: User, o: OrderId, code: int, now: Time) {
    && o in orders && user.bankId == Some(orders[o].bankId) && CompleteRefusal(orders, user, o, code, now) == None
  }

  lemma FindsOwnPass(orders: Orders, o: OrderId)
    requires OrderRowsOk(orders) && o in orders
    ensures FindByPass(orders, orders[o].pass) == Some(o)
  {
    assert HasPass(orders, o, orders[o].pass);
  }

  lemma ReopeningReads(sys: Sys, c: CallId, user: User, o: OrderId, code: int, now: Time)
    requires OrderRowsOk(sys.db.sales.orders) && c !in sys.calls
    requires ReadyToHandOver(sys.db.sales.orders, user, o, code, now)
    ensures BeginScan(sys, c, user, sys.db.sales.orders[o].pass) == Begun(sys, c, Scanning(o))
  {
    FindsOwnPass(sys.db.sales.orders, o);
  }

  lemma WholeCompletion(cfg: Config, sys: Sys, user: User, o: OrderId, code: int, now: Time)
    requires ReadyToHandOver(sys.db.sales.orders, user, o, code, now)
    ensures WholeCall(cfg, sys, Machine.Complete(user, o, code), now)
         == Advanced(sys.(db := WithOrder(sys, o, CollectedRow(sys.db.sales.orders[o], user.id, now))),
             Some(Ok(HandedOver)))
  {
    hide CompleteRefusal, CollectedRow;
  }

  lemma RescannedCode(row: Order, user: User, otp: int, now: Time, orders: Orders, o: OrderId)
    requires user.bankId == Some(row.bankId) && o in orders && orders[o] == ScannedRow(row, otp, now)
    ensures ReadyToHandOver(orders, user, o, otp, now)
  {
  }

  /** A scan that read the order before it was handed over reopens it: the goods are handed over twice. */
  lemma StaleScanHandsOverTwice(cfg: Config, sys: Sys, c: CallId, user: User, o: OrderId, code: int, otp: int,
                                now: Time)
    requires OrderRowsOk(sys.db.sales.orders) && c !in sys.calls
    requires ReadyToHandOver(sys.db.sales.orders, user, o, code, now)
    ensures var ts := [Tick(ReadScan(c, user, sys.db.sales.orders[o].pass), now),
                       Tick(Atomic(Machine.Complete(user, o, code)), now), Tick(WriteScan(c, otp), now),
                       Tick(Atomic(Machine.Complete(user, o, otp)), now)];
            && HandsOverAt(cfg, sys, ts, 1, o) && HandsOverAt(cfg, sys, ts, 3, o)
            && o in SysAt(cfg, sys, ts, 3).db.sales.orders && StatusAt(cfg, sys, ts, 3, o) == PickupInProgress
  {
    hide WholeCall, BeginScan, CompleteRefusal, OrderRowsOk, Commit, BeginPayment, FinishSweep, FindByPass;
    hide BeginVehicleBid, BeginLotBid, Swap, RecordRow, Extend, BeginComplete, FinishComplete, BeginUpdate;
    hide FinishUpdate, BeginLot, FinishLot;
    var ts := [Tick(ReadScan(c, user, sys.db.sales.orders[o].pass), now),
               Tick(Atomic(Machine.Complete(user, o, code)), now), Tick(WriteScan(c, otp), now),
               Tick(Atomic(Machine.Complete(user, o, otp)), now)];
    var row := sys.db.sales.orders[o];
    assert SysAt(cfg, sys, ts, 0) == sys;
    ReopeningReads(sys, c, user, o, code, now);
    var s1, s2, s3 := SysAt(cfg, sys, ts, 1), SysAt(cfg, sys, ts, 2), SysAt(cfg, sys, ts, 3);
    assert s1 == Begun(sys, c, Scanning(o)).sys;
    WholeCompletion(cfg, s1, user, o, code, now);
    assert s2.calls == s1.calls && s2.db == WithOrder(s1, o, CollectedRow(row, user.id, now));
    assert s3.db == WithOrder(s2, o, ScannedRow(CollectedRow(row, user.id, now), otp, now));
    RescannedCode(CollectedRow(row, user.id, now), user, otp, now, s3.db.sales.orders, o);
    WholeCompletion(cfg, s3, user, o, otp, now);
  }
}
