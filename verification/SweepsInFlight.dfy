/** L2 theorem: when the moves of the hold sweep can be taken out of an interleaving without any call succeeding or
    failing differently. */
module SweepsInFlight {
  import opened Rows
  import opened AttemptGate
  import opened VehiclesSpec
  import opened SweepTransparency
  import opened Interleaved
  import opened SysView
  import opened SettlementOnce
  import Machine
  import BidsSpec
  import OrdersSpec
  import PickupSpec
  import LotsSpec
  import VehicleView
  import HoldsInFlight

  predicate IsSweepMove(m: Move) {
    m.ReadSweep? || m.WriteSweep? || (m.Atomic? && m.action.ReleaseExpiredHolds?)
  }

  /** The numbers under which the sweeps of the run are in flight. */
  function SweepNumbers(ts: seq<Tick>): set<CallId> {
    set k | 0 <= k < |ts| && IsSweepMove(ts[k].move) && !ts[k].move.Atomic? :: ts[k].move.call
  }

  /** No other call uses such a number. */
  predicate NumbersApart(ts: seq<Tick>) {
    forall k :: 0 <= k < |ts| && !IsSweepMove(ts[k].move) && !ts[k].move.Atomic? ==>
        ts[k].move.call !in SweepNumbers(ts)
  }

  // ---- a system and the same one partly swept ---------------------------------------------------------------

  /** The same calls in flight, sweeps aside. */
  ghost predicate SameCalls(a: map<CallId, Call>, b: map<CallId, Call>, sweeps: set<CallId>) {
    forall c :: c !in sweeps ==> (c in a <==> c in b) && (c in a ==> a[c] == b[c])
  }

  /** System b is system a with some lapsed holds released, and sweeps in flight. */
  ghost predicate SysBehind(a: Sys, b: Sys, sweeps: set<CallId>, now: Time) {
    Behind(a.db, b.db, now) && SameCalls(a.calls, b.calls, sweeps)
  }

  predicate AgreeIfAny(x: Option<Outcome>, y: Option<Outcome>) {
    x.Some? == y.Some? && (x.Some? ==> Agree(x.value, y.value))
  }

  /** The two systems answer alike and stay alike. */
  ghost predicate InStep(x: Advanced, y: Advanced, sweeps: set<CallId>, now: Time) {
    AgreeIfAny(x.out, y.out) && SysBehind(x.sys, y.sys, sweeps, now)
  }

  /** The read of a bid that meets every guard only because a sweep released the lapsed hold. */
  predicate BidReadTells(cfg: Config, a: Sys, b: Sys, m: Move, now: Time)
    requires m.ReadVehicleBid?
  {
    && m.call !in a.calls && m.amount > 0 && PassesGate(cfg, a.db.counters, BidGate(m.user.id), now)
    && RevealedBySweep(cfg, a.db.vehicles, m.user, m.vehicle, m.amount, now)
    && Differs(a.db.vehicles, b.db.vehicles, m.vehicle)
  }

  /** The compare-and-set of a bid that finds the price it read and, because of a sweep, a LIVE row. */
  predicate SwapTells(a: Sys, b: Sys, c: CallId) {
    && c in a.calls && a.calls[c].BiddingOnVehicle? && a.calls[c].phase == ToSwap
    && Differs(a.db.vehicles, b.db.vehicles, a.calls[c].vehicle)
    && a.db.vehicles[a.calls[c].vehicle].auction.currentBid == a.calls[c].seenVehicle.auction.currentBid
  }

  /** The write of a sweep on a row that is neither the lapsed hold it read nor released already. */
  ghost predicate Overwrites(b: Sys, c: CallId, now: Time) {
    && c in b.calls && b.calls[c].Sweeping?
    && exists v :: v in b.calls[c].ids && v in b.db.vehicles
           && !HoldLapsed(b.db.vehicles[v], now) && Released(b.db.vehicles[v]) != b.db.vehicles[v]
  }

  /** The move shows that sweeps have run: a is the system without them, b the one with them. */
  ghost predicate Tells(cfg: Config, a: Sys, b: Sys, m: Move, now: Time) {
    match m
    case Atomic(act) => TellsApart(cfg, a.db, b.db, Machine.Event(act, now))
    case ReadVehicleBid(_, _, _, _) => BidReadTells(cfg, a, b, m, now)
    case SwapBid(c) => SwapTells(a, b, c)
    case WriteSweep(c) => Overwrites(b, c, now)
    case _ => false
  }

  // ---- one move, phase by phase ------------------------------------------------------------------------------

  lemma WholeCallsAgree(cfg: Config, a: Sys, b: Sys, act: Machine.Action, sweeps: set<CallId>, now: Time)
    requires SysBehind(a, b, sweeps, now) && AuctionsUnheld(a.db.vehicles) && !act.ReleaseExpiredHolds?
    requires !TellsApart(cfg, a.db, b.db, Machine.Event(act, now))
    ensures InStep(WholeCall(cfg, a, act, now), WholeCall(cfg, b, act, now), sweeps, now)
  {
    hide Machine.Apply, Behind, AuctionsUnheld, TellsApart, SameCalls, Agree;
    StepBehind(cfg, a.db, b.db, Machine.Event(act, now));
  }

  lemma BegunAgree(a: Sys, b: Sys, c: CallId, call: Call, sweeps: set<CallId>, now: Time)
    requires SysBehind(a, b, sweeps, now)
    ensures InStep(Begun(a, c, call), Begun(b, c, call), sweeps, now)
  {
    hide Behind;
  }

  lemma EndedAgree(a: Sys, b: Sys, c: CallId, dbA: Db, dbB: Db, x: Outcome, y: Outcome, sweeps: set<CallId>, now: Time)
    requires SysBehind(a, b, sweeps, now) && Behind(dbA, dbB, now) && Agree(x, y)
    ensures InStep(EndedCall(a, c, dbA, x), EndedCall(b, c, dbB, y), sweeps, now)
  {
    hide Behind, Agree;
  }

  lemma CommitsAgree(a: Sys, b: Sys, c: CallId, rzPayment: string, signatureOk: bool, year: int, sweeps: set<CallId>,
                     now: Time)
    requires SysBehind(a, b, sweeps, now) && c in a.calls && c !in sweeps
    ensures c in b.calls
    ensures InStep(Commit(a, c, rzPayment, signatureOk, year, now), Commit(b, c, rzPayment, signatureOk, year, now),
                   sweeps, now)
  {
    hide BehindRows, OrdersSpec.Settle;
    assert b.calls[c] == a.calls[c];
    if a.calls[c].Paying? {
      var ticket, user := a.calls[c].ticket, a.calls[c].user;
      if ticket.PayDue? {
        SettleAgrees(a.db.vehicles, b.db.vehicles, a.db.sales, ticket, user, rzPayment, year, now);
      }
      var x := OrdersSpec.FinishPayment(a.db.sales, a.db.vehicles, ticket, user, rzPayment, signatureOk, year, now);
      var y := OrdersSpec.FinishPayment(b.db.sales, b.db.vehicles, ticket, user, rzPayment, signatureOk, year, now);
      EndedAgree(a, b, c, a.db.(sales := x.rows.0, vehicles := x.rows.1),
          b.db.(sales := y.rows.0, vehicles := y.rows.1),
          x.out, y.out, sweeps, now);
    }
  }

  /** A row and the same row swept: the guards of a bid agree, except where the sweep reveals the bid. */
  lemma BlindRead(cfg: Config, x: Vehicle, y: Vehicle, user: User, amount: int, now: Time)
    requires BehindRow(x, y, now) && Unheld(x)
    ensures var p, q := BidsSpec.VehicleBidRefusal(cfg, x, user, amount, now),
                        BidsSpec.VehicleBidRefusal(cfg, y, user, amount, now);
            if x == y then p == q
            else HoldLapsed(x, now) && y == Released(x) && p.Some? && (q.None? ==> x.saleType == Hybrid)
  {
  }

  lemma VehicleBidReadsAgree(cfg: Config, a: Sys, b: Sys, m: Move, sweeps: set<CallId>, now: Time)
    requires SysBehind(a, b, sweeps, now) && AuctionsUnheld(a.db.vehicles)
    requires m.ReadVehicleBid? && m.call !in a.calls && m.call !in b.calls && !BidReadTells(cfg, a, b, m, now)
    ensures InStep(BeginVehicleBid(cfg, a, m.call, m.user, m.vehicle, m.amount, now),
                   BeginVehicleBid(cfg, b, m.call, m.user, m.vehicle, m.amount, now), sweeps, now)
  {
    var v := m.vehicle;
    if v in a.db.vehicles {
      assert BehindRow(a.db.vehicles[v], b.db.vehicles[v], now);
      assert Unheld(a.db.vehicles[v]);
      BlindRead(cfg, a.db.vehicles[v], b.db.vehicles[v], m.user, m.amount, now);
    }
    hide AuctionsUnheld, BehindRows, Attempt, BidsSpec.VehicleBidRefusal, BehindRow;
  }

  lemma SwapsAgree(a: Sys, b: Sys, c: CallId, sweeps: set<CallId>, now: Time)
    requires SysBehind(a, b, sweeps, now) && c in a.calls && c !in sweeps && !SwapTells(a, b, c)
    ensures c in b.calls && InStep(Swap(a, c), Swap(b, c), sweeps, now)
  {
    assert b.calls[c] == a.calls[c];
    if a.calls[c].BiddingOnVehicle? && a.calls[c].vehicle in a.db.vehicles {
      assert BehindRow(a.db.vehicles[a.calls[c].vehicle], b.db.vehicles[a.calls[c].vehicle], now);
    }
    hide BidsSpec.Placed, BidsSpec.SwapLot;
  }

  lemma ExtensionsAgree(cfg: Config, a: Sys, b: Sys, c: CallId, sweeps: set<CallId>, now: Time)
    requires SysBehind(a, b, sweeps, now) && c in a.calls && c !in sweeps
    ensures c in b.calls && InStep(Extend(cfg, a, c, now), Extend(cfg, b, c, now), sweeps, now)
  {
    hide BidsSpec.EndAfterBid, BidsSpec.ExtendLot, BidsSpec.Sniped;
    assert b.calls[c] == a.calls[c];
    if a.calls[c].BiddingOnVehicle? && a.calls[c].vehicle in a.db.vehicles {
      assert BehindRow(a.db.vehicles[a.calls[c].vehicle], b.db.vehicles[a.calls[c].vehicle], now);
    }
  }

  lemma UpdatesAgree(a: Sys, b: Sys, c: CallId, sweeps: set<CallId>, now: Time)
    requires SysBehind(a, b, sweeps, now) && c in a.calls && c !in sweeps
    ensures c in b.calls && InStep(FinishUpdate(a, c), FinishUpdate(b, c), sweeps, now)
  {
    hide Edits;
    assert b.calls[c] == a.calls[c];
    if a.calls[c].Updating? && a.calls[c].vehicle in a.db.vehicles {
      assert BehindRow(a.db.vehicles[a.calls[c].vehicle], b.db.vehicles[a.calls[c].vehicle], now);
    }
  }

  lemma UpdateReadsAgree(a: Sys, b: Sys, c: CallId, user: User, v: VehicleId, reserve: Option<int>, buyNow: Option<int>,
                         sweeps: set<CallId>, now: Time)
    requires SysBehind(a, b, sweeps, now) && c !in a.calls && c !in sweeps
    ensures InStep(BeginUpdate(a, c, user, v, reserve, buyNow), BeginUpdate(b, c, user, v, reserve, buyNow), sweeps,
        now)
  {
    if v in a.db.vehicles {
      assert BehindRow(a.db.vehicles[v], b.db.vehicles[v], now);
    }
    hide BehindRows, MayEdit;
  }

  lemma LotReadsAgree(a: Sys, b: Sys, c: CallId, user: User, req: LotsSpec.NewLot, sweeps: set<CallId>, now: Time)
    requires SysBehind(a, b, sweeps, now) && c !in a.calls && c !in sweeps
    ensures InStep(BeginLot(a, c, user, req), BeginLot(b, c, user, req), sweeps, now)
  {
    hide BehindRows, LotsSpec.EligibleIds;
    if user.bankId.Some? {
      SameEligible(a.db.vehicles, b.db.vehicles, req.vehicleIds, user.bankId.value, now);
    }
  }

  lemma InsertsAgree(a: Vehicles, b: Vehicles, lots: Lots, bankId: BankId, req: LotsSpec.NewLot, now: Time)
    requires BehindRows(a, b, now)
    ensures var x, y := LotsSpec.InsertLot(a, lots, bankId, req), LotsSpec.InsertLot(b, lots, bankId, req);
            x.out == y.out && x.rows.1 == y.rows.1 && BehindRows(x.rows.0, y.rows.0, now)
  {
    hide LotsSpec.LotIdFree;
  }

  lemma LotWritesAgree(a: Sys, b: Sys, c: CallId, sweeps: set<CallId>, now: Time)
    requires SysBehind(a, b, sweeps, now) && c in a.calls && c !in sweeps
    ensures c in b.calls && InStep(FinishLot(a, c), FinishLot(b, c), sweeps, now)
  {
    hide BehindRows, LotsSpec.InsertLot;
    assert b.calls[c] == a.calls[c];
    if a.calls[c].CreatingLot? {
      InsertsAgree(a.db.vehicles, b.db.vehicles, a.db.lots, a.calls[c].bankId, a.calls[c].request, now);
    }
  }

  /** Reads that see no vehicle. */
  lemma OtherReadsAgree(cfg: Config, a: Sys, b: Sys, m: Move, sweeps: set<CallId>, now: Time)
    requires SysBehind(a, b, sweeps, now) && (m.ReadPayment? || m.ReadLotBid? || m.ReadScan? || m.ReadComplete?)
    requires m.call !in sweeps
    ensures InStep(Advance(cfg, a, m, now), Advance(cfg, b, m, now), sweeps, now)
  {
    hide BehindRows, WholeCall, OrdersSpec.ReadForPayment, BidsSpec.LotBidRefusal, PickupSpec.ReadForScan;
    hide PickupSpec.CompleteRefusal;
  }

  /** Writes that touch no vehicle. */
  lemma OtherWritesAgree(cfg: Config, a: Sys, b: Sys, m: Move, sweeps: set<CallId>, now: Time)
    requires SysBehind(a, b, sweeps, now) && (m.RecordBid? || m.WriteScan? || m.WriteComplete?)
    requires m.call !in sweeps
    ensures InStep(Advance(cfg, a, m, now), Advance(cfg, b, m, now), sweeps, now)
  {
    hide BehindRows, WholeCall, BidsSpec.Record, PickupSpec.ScannedRow, PickupSpec.CollectedRow;
    if m.call in a.calls {
      assert b.calls[m.call] == a.calls[m.call];
    }
  }

  lemma NothingAgrees(a: Sys, b: Sys, sweeps: set<CallId>, now: Time)
    requires SysBehind(a, b, sweeps, now)
    ensures InStep(Advanced(a, None), Advanced(b, None), sweeps, now)
  {
  }

  /** A move that does not tell the systems apart keeps them alike. */
  lemma MovesAgree(cfg: Config, a: Sys, b: Sys, m: Move, sweeps: set<CallId>, now: Time)
    requires SysBehind(a, b, sweeps, now) && AuctionsUnheld(a.db.vehicles) && !IsSweepMove(m)
    requires (!m.Atomic? ==> m.call !in sweeps) && !Tells(cfg, a, b, m, now)
    ensures InStep(Advance(cfg, a, m, now), Advance(cfg, b, m, now), sweeps, now)
  {
    hide WholeCall, Commit, BeginPayment, FinishSweep, BeginVehicleBid, BeginLotBid, Swap, RecordRow, Extend;
    hide BeginScan, BeginComplete, BeginUpdate, BeginLot, FinishScan, FinishComplete, FinishUpdate, FinishLot;
    hide Behind, AuctionsUnheld, TellsApart, BidReadTells, SwapTells, Overwrites, InStep, LapsedHolds;
    if (Begins(m) && m.call in a.calls) || (Continues(m) && m.call !in a.calls) {
      NothingAgrees(a, b, sweeps, now);
    } else {
      match m
      case Atomic(act) => WholeCallsAgree(cfg, a, b, act, sweeps, now);
      case CommitPayment(c, rzPayment, signatureOk, year) =>
        CommitsAgree(a, b, c, rzPayment, signatureOk, year, sweeps, now);
      case ReadVehicleBid(_, _, _, _) => VehicleBidReadsAgree(cfg, a, b, m, sweeps, now);
      case SwapBid(c) => SwapsAgree(a, b, c, sweeps, now);
      case ExtendBid(c) => ExtensionsAgree(cfg, a, b, c, sweeps, now);
      case ReadUpdate(c, user, v, reserve, buyNow) => UpdateReadsAgree(a, b, c, user, v, reserve, buyNow, sweeps, now);
      case WriteUpdate(c) => UpdatesAgree(a, b, c, sweeps, now);
      case ReadLot(c, user, req) => LotReadsAgree(a, b, c, user, req, sweeps, now);
      case WriteLot(c) => LotWritesAgree(a, b, c, sweeps, now);
      case ReadPayment(_, _, _) => OtherReadsAgree(cfg, a, b, m, sweeps, now);
      case ReadLotBid(_, _, _, _) => OtherReadsAgree(cfg, a, b, m, sweeps, now);
      case ReadScan(_, _, _) => OtherReadsAgree(cfg, a, b, m, sweeps, now);
      case ReadComplete(_, _, _, _) => OtherReadsAgree(cfg, a, b, m, sweeps, now);
      case RecordBid(_) => OtherWritesAgree(cfg, a, b, m, sweeps, now);
      case WriteScan(_, _) => OtherWritesAgree(cfg, a, b, m, sweeps, now);
      case WriteComplete(_) => OtherWritesAgree(cfg, a, b, m, sweeps, now);
    }
  }

  // ---- the moves of the sweep ----------------------------------------------------------------------------------

  lemma SweepWriteBehind(a: Sys, b: Sys, c: CallId, sweeps: set<CallId>, now: Time)
    requires SysBehind(a, b, sweeps, now) && c in b.calls && c in sweeps && !Overwrites(b, c, now)
    ensures SysBehind(a, FinishSweep(b, c).sys, sweeps, now)
  {
    if b.calls[c].Sweeping? {
      var rows := Release(b.db.vehicles, b.calls[c].ids);
      forall v | v in a.db.vehicles ensures BehindRow(a.db.vehicles[v], rows[v], now) {
        assert BehindRow(a.db.vehicles[v], b.db.vehicles[v], now);
      }
    }
  }

  lemma WholeSweepBehind(cfg: Config, a: Sys, b: Sys, m: Move, sweeps: set<CallId>, now: Time)
    requires SysBehind(a, b, sweeps, now) && m.Atomic? && m.action.ReleaseExpiredHolds?
    ensures SysBehind(a, Advance(cfg, b, m, now).sys, sweeps, now)
  {
    hide Machine.Apply, Behind;
    SweepBehind(cfg, a.db, b.db, Machine.Event(m.action, now));
  }

  lemma SweepMoveBehind(cfg: Config, a: Sys, b: Sys, m: Move, sweeps: set<CallId>, now: Time)
    requires SysBehind(a, b, sweeps, now) && IsSweepMove(m) && (!m.Atomic? ==> m.call in sweeps)
    requires !Tells(cfg, a, b, m, now)
    ensures SysBehind(a, Advance(cfg, b, m, now).sys, sweeps, now)
  {
    hide Behind, Overwrites, FinishSweep, WholeCall, LapsedHolds;
    if m.Atomic? {
      WholeSweepBehind(cfg, a, b, m, sweeps, now);
    } else if m.WriteSweep? && m.call in b.calls {
      SweepWriteBehind(a, b, m.call, sweeps, now);
    }
  }

  // ---- what tells them apart shows ------------------------------------------------------------------------------

  lemma OverwriteShows(cfg: Config, a: Sys, b: Sys, c: CallId, sweeps: set<CallId>, now: Time)
    requires SysBehind(a, b, sweeps, now) && Overwrites(b, c, now)
    ensures !Alike(a.db, Advance(cfg, b, WriteSweep(c), now).sys.db, now)
  {
    hide WholeCall;
    var v :| v in b.calls[c].ids && v in b.db.vehicles && !HoldLapsed(b.db.vehicles[v], now)
             && Released(b.db.vehicles[v]) != b.db.vehicles[v];
    assert BehindRow(a.db.vehicles[v], b.db.vehicles[v], now);
    var next := Advance(cfg, b, WriteSweep(c), now).sys;
    assert next.db.vehicles[v] == Released(b.db.vehicles[v]);
    assert AfterSweep(next.db.vehicles[v], now) != AfterSweep(a.db.vehicles[v], now);
  }

  lemma WholeBidShows(cfg: Config, a: Sys, b: Sys, act: Machine.Action, sweeps: set<CallId>, now: Time)
    requires SysBehind(a, b, sweeps, now) && TellsApart(cfg, a.db, b.db, Machine.Event(act, now))
    ensures !AgreeIfAny(WholeCall(cfg, a, act, now).out, WholeCall(cfg, b, act, now).out)
  {
    hide BidsSpec.Record;
    assert BehindRow(a.db.vehicles[act.vehicle], b.db.vehicles[act.vehicle], now);
    assert a.db.counters == b.db.counters;
  }

  lemma BidReadShows(cfg: Config, a: Sys, b: Sys, m: Move, sweeps: set<CallId>, now: Time)
    requires SysBehind(a, b, sweeps, now) && m.ReadVehicleBid? && BidReadTells(cfg, a, b, m, now)
    requires m.call !in sweeps
    ensures !AgreeIfAny(Advance(cfg, a, m, now).out, Advance(cfg, b, m, now).out)
  {
    hide WholeCall;
    assert BehindRow(a.db.vehicles[m.vehicle], b.db.vehicles[m.vehicle], now);
    assert a.db.counters == b.db.counters;
  }

  lemma SwapShows(cfg: Config, a: Sys, b: Sys, c: CallId, sweeps: set<CallId>, now: Time)
    requires SysBehind(a, b, sweeps, now) && SwapTells(a, b, c) && c !in sweeps
    ensures !AgreeIfAny(Advance(cfg, a, SwapBid(c), now).out, Advance(cfg, b, SwapBid(c), now).out)
  {
    hide WholeCall;
    var v := a.calls[c].vehicle;
    assert BehindRow(a.db.vehicles[v], b.db.vehicles[v], now) && b.calls[c] == a.calls[c];
  }

  lemma AuctionBidOnly(cfg: Config, a: Db, b: Db, act: Machine.Action, now: Time)
    requires TellsApart(cfg, a, b, Machine.Event(act, now))
    ensures act.BidOnVehicle?
  {
  }

  /** A move that tells them apart is answered differently, or is a sweep's write and leaves a row different. */
  lemma TellingShows(cfg: Config, a: Sys, b: Sys, m: Move, sweeps: set<CallId>, now: Time)
    requires SysBehind(a, b, sweeps, now) && Tells(cfg, a, b, m, now)
    requires !IsSweepMove(m) && !m.Atomic? ==> m.call !in sweeps
    ensures if IsSweepMove(m) then !Alike(a.db, Advance(cfg, b, m, now).sys.db, now)
            else !AgreeIfAny(Advance(cfg, a, m, now).out, Advance(cfg, b, m, now).out)
  {
    hide SysBehind, TellsApart, BidReadTells, SwapTells, Overwrites, Alike, AgreeIfAny;
    match m
    case Atomic(act) =>
      AuctionBidOnly(cfg, a.db, b.db, act, now);
      WholeBidShows(cfg, a, b, act, sweeps, now);
    case ReadVehicleBid(_, _, _, _) => BidReadShows(cfg, a, b, m, sweeps, now);
    case SwapBid(c) => SwapShows(cfg, a, b, c, sweeps, now);
    case WriteSweep(c) => OverwriteShows(cfg, a, b, c, sweeps, now);
  }

  // ---- runs --------------------------------------------------------------------------------------------------------

  /** The system after the first n moves, had no sweep run. */
  ghost function Without(cfg: Config, start: Sys, ts: seq<Tick>, n: nat): Sys
    requires n <= |ts|
  {
    if n == 0 then start
    else
      var before := Without(cfg, start, ts, n - 1);
      if IsSweepMove(ts[n - 1].move) then before else Advance(cfg, before, ts[n - 1].move, ts[n - 1].now).sys
  }

  lemma SysUnheldStep(cfg: Config, sys: Sys, m: Move, now: Time)
    requires SysInv(sys) && AuctionsUnheld(sys.db.vehicles)
    ensures AuctionsUnheld(Advance(cfg, sys, m, now).sys.db.vehicles)
  {
    hide Advance, SysInv, SellsOn;
    HoldsInFlight.CallsOfInv(sys);
    SysVehiclesStay(cfg, sys, m, now);
    forall v | v in sys.db.vehicles ensures Unheld(Advance(cfg, sys, m, now).sys.db.vehicles[v]) {
      SysVehicleStep(cfg, sys, m, now, v);
      assert Unheld(sys.db.vehicles[v]);
    }
  }

  lemma {:induction false} WithoutInv(cfg: Config, start: Sys, ts: seq<Tick>, n: nat)
    requires SysInv(start) && AuctionsUnheld(start.db.vehicles) && n <= |ts|
    ensures SysInv(Without(cfg, start, ts, n)) && AuctionsUnheld(Without(cfg, start, ts, n).db.vehicles)
  {
    hide Advance, SysInv, AuctionsUnheld;
    if n > 0 {
      WithoutInv(cfg, start, ts, n - 1);
      if !IsSweepMove(ts[n - 1].move) {
        var before := Without(cfg, start, ts, n - 1);
        AdvanceSound(cfg, before, ts[n - 1].move, ts[n - 1].now);
        SysUnheldStep(cfg, before, ts[n - 1].move, ts[n - 1].now);
      }
    }
  }

  ghost predicate TellsAt(cfg: Config, start: Sys, ts: seq<Tick>, k: nat) {
    k < |ts| && Tells(cfg, Without(cfg, start, ts, k), SysAt(cfg, start, ts, k), ts[k].move, ts[k].now)
  }

  lemma SysBehindLater(a: Sys, b: Sys, sweeps: set<CallId>, now: Time, later: Time)
    requires SysBehind(a, b, sweeps, now) && now <= later
    ensures SysBehind(a, b, sweeps, later)
  {
    hide Behind;
    BehindLater(a.db, b.db, now, later);
  }

  lemma BehindStart(start: Sys, sweeps: set<CallId>, now: Time)
    ensures SysBehind(start, start, sweeps, now)
  {
    hide Behind;
    BehindItself(start.db, now);
  }

  lemma NumberOf(ts: seq<Tick>, k: nat)
    requires NumbersApart(ts) && k < |ts| && !ts[k].move.Atomic?
    ensures ts[k].move.call in SweepNumbers(ts) <==> IsSweepMove(ts[k].move)
  {
  }

  /** As long as no move tells, the run stays behind the run without sweeps. */
  lemma {:induction false} StaysBehind(cfg: Config, start: Sys, ts: seq<Tick>, n: nat, now: Time)
    requires SysInv(start) && AuctionsUnheld(start.db.vehicles) && InTimeOrder(ts) && NumbersApart(ts) && n <= |ts|
    requires forall k: nat :: k < n ==> !TellsAt(cfg, start, ts, k)
    requires n > 0 ==> ts[n - 1].now <= now
    ensures SysBehind(Without(cfg, start, ts, n), SysAt(cfg, start, ts, n), SweepNumbers(ts), now)
  {
    hide Advance, SysInv, AuctionsUnheld, SysBehind, Tells, NumbersApart, SweepNumbers;
    if n == 0 {
      BehindStart(start, SweepNumbers(ts), now);
    } else {
      var a, b := Without(cfg, start, ts, n - 1), SysAt(cfg, start, ts, n - 1);
      var m, when := ts[n - 1].move, ts[n - 1].now;
      StaysBehind(cfg, start, ts, n - 1, when);
      WithoutInv(cfg, start, ts, n - 1);
      if !m.Atomic? {
        NumberOf(ts, n - 1);
      }
      assert !TellsAt(cfg, start, ts, n - 1);
      if IsSweepMove(m) {
        SweepMoveBehind(cfg, a, b, m, SweepNumbers(ts), when);
      } else {
        MovesAgree(cfg, a, b, m, SweepNumbers(ts), when);
      }
      SysBehindLater(Without(cfg, start, ts, n), SysAt(cfg, start, ts, n), SweepNumbers(ts), when, now);
    }
  }

  /** Move k is answered as it would be without the sweeps, and leaves every row as it would be, up to one sweep. */
  ghost predicate UnchangedAt(cfg: Config, start: Sys, ts: seq<Tick>, k: nat)
    requires k < |ts|
  {
    && (!IsSweepMove(ts[k].move) ==>
          AgreeIfAny(Advance(cfg, Without(cfg, start, ts, k), ts[k].move, ts[k].now).out, AnswerAt(cfg, start, ts, k)))
    && Alike(Without(cfg, start, ts, k + 1).db, SysAt(cfg, start, ts, k + 1).db, ts[k].now)
  }

  ghost predicate SweepsChangeNothing(cfg: Config, start: Sys, ts: seq<Tick>) {
    forall k: nat :: k < |ts| ==> UnchangedAt(cfg, start, ts, k)
  }

  lemma BehindIsAlike(a: Sys, b: Sys, sweeps: set<CallId>, now: Time)
    requires SysBehind(a, b, sweeps, now)
    ensures Alike(a.db, b.db, now)
  {
    BehindItself(a.db, now);
    BehindJoin(a.db, a.db, b.db, now);
  }

  /** The first move that tells is seen. */
  lemma {:induction false} NoMoveTells(cfg: Config, start: Sys, ts: seq<Tick>, n: nat)
    requires SysInv(start) && AuctionsUnheld(start.db.vehicles) && InTimeOrder(ts) && NumbersApart(ts) && n <= |ts|
    requires SweepsChangeNothing(cfg, start, ts)
    ensures forall k: nat :: k < n ==> !TellsAt(cfg, start, ts, k)
  {
    hide Advance, SysInv, AuctionsUnheld, SysBehind, Tells, NumbersApart, SweepNumbers, AgreeIfAny, Alike;
    if n > 0 {
      NoMoveTells(cfg, start, ts, n - 1);
      StaysBehind(cfg, start, ts, n - 1, ts[n - 1].now);
      if !ts[n - 1].move.Atomic? {
        NumberOf(ts, n - 1);
      }
      assert UnchangedAt(cfg, start, ts, n - 1);
      if TellsAt(cfg, start, ts, n - 1) {
        TellingShows(cfg, Without(cfg, start, ts, n - 1), SysAt(cfg, start, ts, n - 1), ts[n - 1].move,
            SweepNumbers(ts),
            ts[n - 1].now);
      }
    }
  }

  lemma SilentMove(cfg: Config, start: Sys, ts: seq<Tick>, k: nat)
    requires SysInv(start) && AuctionsUnheld(start.db.vehicles) && InTimeOrder(ts) && NumbersApart(ts) && k < |ts|
    requires forall j: nat :: j < |ts| ==> !TellsAt(cfg, start, ts, j)
    ensures UnchangedAt(cfg, start, ts, k)
  {
    hide Advance, SysInv, AuctionsUnheld, SysBehind, Tells, NumbersApart, SweepNumbers, AgreeIfAny, Alike;
    StaysBehind(cfg, start, ts, k, ts[k].now);
    StaysBehind(cfg, start, ts, k + 1, ts[k].now);
    BehindIsAlike(Without(cfg, start, ts, k + 1), SysAt(cfg, start, ts, k + 1), SweepNumbers(ts), ts[k].now);
    WithoutInv(cfg, start, ts, k);
    if !IsSweepMove(ts[k].move) {
      if !ts[k].move.Atomic? {
        NumberOf(ts, k);
      }
      assert !TellsAt(cfg, start, ts, k);
      MovesAgree(cfg, Without(cfg, start, ts, k), SysAt(cfg, start, ts, k), ts[k].move, SweepNumbers(ts), ts[k].now);
    }
  }

  /** The moves of the sweep can be taken out of a run without any call succeeding or failing differently, and without
      any row ending different beyond one sweep, if and only if no move of the run tells: no bid reads, or swaps on, a
      row that is LIVE only because of a sweep and meets every other guard, and no sweep writes over a row that is
      neither the lapsed hold it read nor released already. */
  lemma SweepsChangeNothingIff(cfg: Config, start: Sys, ts: seq<Tick>)
    requires SysInv(start) && AuctionsUnheld(start.db.vehicles) && InTimeOrder(ts) && NumbersApart(ts)
    ensures SweepsChangeNothing(cfg, start, ts) <==> forall k: nat :: k < |ts| ==> !TellsAt(cfg, start, ts, k)
  {
    hide Advance, SysInv, AuctionsUnheld, NumbersApart, UnchangedAt, TellsAt;
    if SweepsChangeNothing(cfg, start, ts) {
      NoMoveTells(cfg, start, ts, |ts|);
    } else if forall k: nat :: k < |ts| ==> !TellsAt(cfg, start, ts, k) {
      forall k: nat | k < |ts| ensures UnchangedAt(cfg, start, ts, k) {
        SilentMove(cfg, start, ts, k);
      }
    }
  }

  // ---- the run without its sweeps ------------------------------------------------------------------------------

  function Plain(ts: seq<Tick>): seq<Tick> {
    if ts == [] then []
    else
      var last := ts[|ts| - 1];
      Plain(ts[..|ts| - 1]) + if IsSweepMove(last.move) then [] else [last]
  }

  lemma PlainSnoc(ts: seq<Tick>, n: nat)
    requires n < |ts|
    ensures Plain(ts[..n + 1]) == Plain(ts[..n]) + if IsSweepMove(ts[n].move) then [] else [ts[n]]
  {
    assert ts[..n + 1][..n] == ts[..n];
  }

  lemma {:induction false} PlainPrefix(ts: seq<Tick>, n: nat)
    requires n <= |ts|
    ensures Plain(ts[..n]) <= Plain(ts)
    ensures n < |ts| && !IsSweepMove(ts[n].move) ==>
              |Plain(ts[..n])| < |Plain(ts)| && Plain(ts)[|Plain(ts[..n])|] == ts[n]
    decreases |ts| - n
  {
    if n == |ts| {
      assert ts[..n] == ts;
    } else {
      PlainPrefix(ts, n + 1);
      PlainSnoc(ts, n);
    }
  }

  /** It is a run of its own: the run of the other moves. */
  lemma {:induction false} WithoutIsPlainRun(cfg: Config, start: Sys, ts: seq<Tick>, n: nat)
    requires n <= |ts|
    ensures Without(cfg, start, ts, n) == SysAt(cfg, start, Plain(ts[..n]), |Plain(ts[..n])|)
    ensures Plain(ts[..n]) <= Plain(ts) && SysAt(cfg, start, Plain(ts), |Plain(ts[..n])|) == Without(cfg, start, ts, n)
    ensures n < |ts| && !IsSweepMove(ts[n].move) ==>
              |Plain(ts[..n])| < |Plain(ts)| && Plain(ts)[|Plain(ts[..n])|] == ts[n]
  {
    hide Advance, IsSweepMove;
    if n > 0 {
      WithoutIsPlainRun(cfg, start, ts, n - 1);
      PlainSnoc(ts, n - 1);
      var xs, ys := Plain(ts[..n - 1]), Plain(ts[..n]);
      SameMoves(cfg, start, xs, ys, |xs|);
    }
    PlainPrefix(ts, n);
    var ys := Plain(ts[..n]);
    SameMoves(cfg, start, ys, Plain(ts), |ys|);
  }

  // ---- a sweep that is seen ----------------------------------------------------------------------------------------

  lemma SecondHoldRefused(cfg: Config, db: Db, first: User, second: User, v: VehicleId, now: Time)
    requires v in db.vehicles && first.id != second.id && cfg.holdMs >= 0
    requires db.vehicles[v].saleType == BuyNow || db.vehicles[v].saleType == Hybrid
    requires HoldLapsed(db.vehicles[v], now)
    requires PassesGate(cfg, db.counters, HoldGate(first.id), now)
    requires PassesGate(cfg, db.counters, HoldGate(second.id), now)
    ensures var e, e' := Machine.Event(Machine.Hold(first, v), now), Machine.Event(Machine.Hold(second, v), now);
            && Machine.Apply(cfg, db, e).out == Ok(HoldPlaced(now + cfg.holdMs))
            && Machine.Apply(cfg, Machine.Apply(cfg, db, e).db, e').out == Err(Conflict)
  {
    VehicleView.HoldGoesThrough(cfg, db, first, v, now);
  }

  lemma TwoWholeCalls(cfg: Config, sys: Sys, a: Machine.Action, b: Machine.Action, now: Time)
    ensures var ts := [Tick(Atomic(a), now), Tick(Atomic(b), now)];
            var first := Machine.Apply(cfg, sys.db, Machine.Event(a, now));
            && AnswerAt(cfg, sys, ts, 0) == Some(first.out)
            && AnswerAt(cfg, sys, ts, 1) == Some(Machine.Apply(cfg, first.db, Machine.Event(b, now)).out)
  {
    hide Machine.Apply;
    var ts := [Tick(Atomic(a), now), Tick(Atomic(b), now)];
    assert SysAt(cfg, sys, ts, 0) == sys;
  }

  /** No bid at all, and still seen: a sweep that releases a fresh hold lets a second buyer in, who is refused without
      it. */
  lemma SplitSweepIsSeen(cfg: Config, sys: Sys, c: CallId, first: User, second: User, v: VehicleId, now: Time)
    requires c !in sys.calls && v in sys.db.vehicles && first.id != second.id && cfg.holdMs >= 0
    requires sys.db.vehicles[v].saleType == BuyNow || sys.db.vehicles[v].saleType == Hybrid
    requires HoldLapsed(sys.db.vehicles[v], now)
    requires PassesGate(cfg, sys.db.counters, HoldGate(first.id), now)
    requires PassesGate(cfg, sys.db.counters, HoldGate(second.id), now)
    ensures var a, b := Atomic(Machine.Hold(first, v)), Atomic(Machine.Hold(second, v));
            var swept := [Tick(ReadSweep(c), now), Tick(a, now), Tick(WriteSweep(c), now), Tick(b, now)];
            var plain := [Tick(a, now), Tick(b, now)];
            && AnswerAt(cfg, sys, swept, 1) == AnswerAt(cfg, sys, plain, 0) == Some(Ok(HoldPlaced(now + cfg.holdMs)))
            && AnswerAt(cfg, sys, swept, 3) == Some(Ok(HoldPlaced(now + cfg.holdMs)))
            && AnswerAt(cfg, sys, plain, 1) == Some(Err(Conflict))
  {
    hide Machine.Apply, LapsedHolds, PassesGate, HoldLapsed, Advance, SysAt;
    HoldsInFlight.SplitSweepGrantsTwoHolds(cfg, sys, c, first, second, v, now);
    SecondHoldRefused(cfg, sys.db, first, second, v, now);
    TwoWholeCalls(cfg, sys, Machine.Hold(first, v), Machine.Hold(second, v), now);
  }
}
