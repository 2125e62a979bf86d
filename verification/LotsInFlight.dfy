/** L2 theorems about lots when `create` is cut into its eligibility read and its transaction: exactly when lots and
    vehicles still agree. */
module LotsInFlight {
  import opened Rows
  import opened LotsSpec
  import opened LotMembership
  import opened Interleaved
  import opened SysView
  import Machine
  import BidsSpec
  import OrdersSpec
  import PickupSpec
  import VehiclesSpec
  import VehicleView
  import AttemptGate
  import Frames

  // ---- the calls in flight -------------------------------------------------------------------------------

  predicate NoRepeats(ids: seq<VehicleId>) {
    forall i, j :: 0 <= i < j < |ids| ==> ids[i] != ids[j]
  }

  /** What a creation in flight has found: distinct vehicles of its bank. */
  predicate LotCallOk(vehicles: Vehicles, call: Call) {
    call.CreatingLot? ==>
      && NoRepeats(call.request.vehicleIds)
      && forall id | id in call.request.vehicleIds :: id in vehicles && vehicles[id].bankId == call.bankId
  }

  ghost predicate LotCallsOk(sys: Sys) {
    forall c | c in sys.calls :: LotCallOk(sys.db.vehicles, sys.calls[c])
  }

  lemma ReadListsItsOwn(vehicles: Vehicles, user: User, req: NewLot)
    requires LotRefusal(vehicles, user, req).None?
    ensures LotCallOk(vehicles, CreatingLot(user.bankId.value, req))
    ensures forall id :: id in req.vehicleIds ==> vehicles[id].lotId == None
  {
    VehicleView.AllFound(req.vehicleIds, EligibleIds(vehicles, req.vehicleIds, user.bankId.value));
  }

  // ---- the write -------------------------------------------------------------------------------------------

  /** The write of a creation that lists v. */
  predicate Relists(sys: Sys, m: Move, v: VehicleId) {
    && m.WriteLot? && m.call in sys.calls && sys.calls[m.call].CreatingLot?
    && LotIdFree(sys.db.lots, sys.calls[m.call].request) && v in sys.calls[m.call].request.vehicleIds
  }

  /** The write takes no vehicle out of another lot. */
  predicate TakesFromNone(sys: Sys, m: Move) {
    forall v | v in sys.db.vehicles && Relists(sys, m, v) :: sys.db.vehicles[v].lotId == None
  }

  lemma {:induction false} DistinctCount(ids: seq<VehicleId>)
    requires NoRepeats(ids)
    ensures |(set id | id in ids)| == |ids|
  {
    if ids == [] {
      assert (set id | id in ids) == {};
    } else {
      var init, last := ids[..|ids| - 1], ids[|ids| - 1];
      DistinctCount(init);
      assert ids == init + [last];
      assert (set id | id in ids) == (set id | id in init) + {last};
    }
  }

  lemma FewerMembers(a: set<VehicleId>, b: set<VehicleId>, id: VehicleId)
    requires b <= a && id in a && id !in b
    ensures |b| < |a|
  {
    assert a == b + (a - b) && id in a - b;
  }

  lemma InsertKeeps(db: Db, bankId: BankId, req: NewLot)
    requires LotsInv(db) && LotIdFree(db.lots, req) && LotCallOk(db.vehicles, CreatingLot(bankId, req))
    requires forall id :: id in req.vehicleIds ==> db.vehicles[id].lotId == None
    ensures var w := InsertLot(db.vehicles, db.lots, bankId, req); LotsInv(db.(vehicles := w.rows.0, lots := w.rows.1))
  {
    var w := InsertLot(db.vehicles, db.lots, bankId, req);
    DistinctCount(req.vehicleIds);
    forall l | l in w.rows.1 ensures w.rows.1[l].vehicleCount == |Members(w.rows.0, l)| {
      MembersAfterAssign(db.vehicles, req.vehicleIds, req.id, l);
    }
  }

  lemma InsertBreaks(db: Db, bankId: BankId, req: NewLot, id: VehicleId)
    requires LotsInv(db) && LotIdFree(db.lots, req) && LotCallOk(db.vehicles, CreatingLot(bankId, req))
    requires id in req.vehicleIds && db.vehicles[id].lotId.Some?
    ensures var w := InsertLot(db.vehicles, db.lots, bankId, req); !LotsInv(db.(vehicles := w.rows.0, lots := w.rows.1))
  {
    var w := InsertLot(db.vehicles, db.lots, bankId, req);
    var l := db.vehicles[id].lotId.value;
    assert l in db.lots && l in w.rows.1;
    FewerMembers(Members(db.vehicles, l), Members(w.rows.0, l), id);
  }

  lemma RefusedInsert(db: Db, bankId: BankId, req: NewLot)
    requires !LotIdFree(db.lots, req)
    ensures var w := InsertLot(db.vehicles, db.lots, bankId, req); db.(vehicles := w.rows.0, lots := w.rows.1) == db
  {
    assert db == db.(vehicles := db.vehicles, lots := db.lots);
  }

  lemma LotWriteKeepsIff(sys: Sys, c: CallId)
    requires LotsInv(sys.db) && LotCallsOk(sys) && c in sys.calls
    ensures LotsInv(FinishLot(sys, c).sys.db) <==> TakesFromNone(sys, WriteLot(c))
  {
    hide LotsInv, LotIdFree, InsertLot;
    if sys.calls[c].CreatingLot? {
      var bankId, req := sys.calls[c].bankId, sys.calls[c].request;
      assert LotCallOk(sys.db.vehicles, sys.calls[c]);
      if LotIdFree(sys.db.lots, req) {
        if id :| id in req.vehicleIds && sys.db.vehicles[id].lotId.Some? {
          assert Relists(sys, WriteLot(c), id);
          InsertBreaks(sys.db, bankId, req, id);
        } else {
          forall id | id in req.vehicleIds ensures sys.db.vehicles[id].lotId == None {
            assert Relists(sys, WriteLot(c), id);
          }
          InsertKeeps(sys.db, bankId, req);
        }
      } else {
        RefusedInsert(sys.db, bankId, req);
      }
    }
  }

  // ---- the other moves ---------------------------------------------------------------------------------------

  /** No vehicle changes its lot, no lot its count. */
  ghost predicate LotsKept(a: Db, b: Db) {
    && b.vehicles.Keys == a.vehicles.Keys
       && (forall id :: id in a.vehicles ==> SameMembership(a.vehicles[id], b.vehicles[id]))
    && b.lots.Keys == a.lots.Keys && (forall l :: l in a.lots ==> SameLot(a.lots[l], b.lots[l]))
  }

  lemma SwapKeepsLots(sys: Sys, c: CallId)
    requires c in sys.calls
    ensures LotsKept(sys.db, Swap(sys, c).sys.db)
  {
    hide BidsSpec.Placed;
  }

  lemma ExtensionKeepsLots(cfg: Config, sys: Sys, c: CallId, now: Time)
    requires c in sys.calls
    ensures LotsKept(sys.db, Extend(cfg, sys, c, now).sys.db)
  {
    hide BidsSpec.EndAfterBid, BidsSpec.Sniped;
  }

  lemma OtherWritesKeepLots(sys: Sys, c: CallId)
    requires c in sys.calls
    ensures LotsKept(sys.db, FinishSweep(sys, c).sys.db) && LotsKept(sys.db, FinishUpdate(sys, c).sys.db)
  {
    hide VehiclesSpec.Edits;
  }

  lemma CommitKeepsLots(sys: Sys, c: CallId, rzPayment: string, signatureOk: bool, year: int, now: Time)
    requires c in sys.calls
    ensures LotsKept(sys.db, Commit(sys, c, rzPayment, signatureOk, year, now).sys.db)
  {
    hide OrdersSpec.SettledSales, OrdersSpec.InvoiceFree, OrdersSpec.RzPaymentFree;
  }

  predicate WritesLots(m: Move) {
    m.Atomic? || m.SwapBid? || m.ExtendBid? || m.WriteLot?
  }

  lemma QuietLots(cfg: Config, sys: Sys, m: Move, now: Time)
    requires !WritesLots(m)
    ensures Advance(cfg, sys, m, now).sys.db.lots == sys.db.lots
  {
    hide Machine.Apply, OrdersSpec.FinishPayment, OrdersSpec.ReadForPayment, BidsSpec.VehicleBidRefusal;
    hide BidsSpec.LotBidRefusal, BidsSpec.Record, LotRefusal, PickupSpec.ReadForScan, PickupSpec.CompleteRefusal;
    hide PickupSpec.ScannedRow, PickupSpec.CollectedRow, VehiclesSpec.LapsedHolds, VehiclesSpec.Release;
  }

  lemma OtherMovesKeepLots(cfg: Config, sys: Sys, m: Move, now: Time)
    requires !m.Atomic? && (m.WriteLot? ==> m.call !in sys.calls)
    ensures LotsKept(sys.db, Advance(cfg, sys, m, now).sys.db)
  {
    hide Commit, BeginPayment, FinishSweep, BeginVehicleBid, BeginLotBid, Swap, RecordRow, Extend, WholeCall;
    hide BeginScan, BeginComplete, BeginUpdate, BeginLot, FinishScan, FinishComplete, FinishUpdate, FinishLot;
    hide VehiclesSpec.LapsedHolds;
    if !WritesVehicle(m) {
      QuietVehicles(cfg, sys, m, now);
      QuietLots(cfg, sys, m, now);
    } else if m.call in sys.calls {
      if m.CommitPayment? {
        CommitKeepsLots(sys, m.call, m.rzPayment, m.signatureOk, m.year, now);
      } else {
        SwapKeepsLots(sys, m.call);
        ExtensionKeepsLots(cfg, sys, m.call, now);
        OtherWritesKeepLots(sys, m.call);
      }
    }
  }

  // ---- the invariant of the calls ----------------------------------------------------------------------------

  /** Vehicles are never deleted and never change bank. */
  ghost predicate BanksKept(a: Vehicles, b: Vehicles) {
    b.Keys == a.Keys && forall id :: id in a ==> b[id].bankId == a[id].bankId
  }

  lemma BankStays(cfg: Config, sys: Sys, m: Move, now: Time, id: VehicleId)
    requires id in sys.db.vehicles
    ensures var next := Advance(cfg, sys, m, now).sys;
            id in next.db.vehicles && next.db.vehicles[id].bankId == sys.db.vehicles[id].bankId
  {
    hide Commit, BeginPayment, FinishSweep, BeginVehicleBid, BeginLotBid, Swap, RecordRow, Extend, Machine.Apply;
    hide BeginScan, BeginComplete, BeginUpdate, BeginLot, FinishScan, FinishComplete, FinishUpdate;
    hide VehiclesSpec.LapsedHolds, BidsSpec.EndAfterBid, LotIdFree;
    if m.Atomic? {
      VehicleView.VehicleStep(cfg, sys.db, Machine.Event(m.action, now), id);
    } else if !m.WriteLot? {
      OtherMovesKeepLots(cfg, sys, m, now);
    }
  }

  lemma BanksStay(cfg: Config, sys: Sys, m: Move, now: Time)
    ensures BanksKept(sys.db.vehicles, Advance(cfg, sys, m, now).sys.db.vehicles)
  {
    hide Advance;
    SysVehiclesStay(cfg, sys, m, now);
    forall id | id in sys.db.vehicles
      ensures Advance(cfg, sys, m, now).sys.db.vehicles[id].bankId == sys.db.vehicles[id].bankId
    {
      BankStays(cfg, sys, m, now, id);
    }
  }

  lemma NewLotCall(cfg: Config, sys: Sys, m: Move, now: Time, c: CallId)
    requires c in Advance(cfg, sys, m, now).sys.calls && Advance(cfg, sys, m, now).sys.calls[c].CreatingLot?
    ensures var call := Advance(cfg, sys, m, now).sys.calls[c];
            || (c in sys.calls && sys.calls[c] == call)
            || LotCallOk(sys.db.vehicles, call)
  {
    hide Machine.Apply, OrdersSpec.FinishPayment, OrdersSpec.ReadForPayment, BidsSpec.VehicleBidRefusal;
    hide BidsSpec.LotBidRefusal, BidsSpec.SwapVehicle, BidsSpec.SwapLot, BidsSpec.Record, BidsSpec.ExtendVehicle;
    hide BidsSpec.ExtendLot, PickupSpec.ReadForScan, PickupSpec.CompleteRefusal, InsertLot, PickupSpec.ScannedRow;
    hide PickupSpec.CollectedRow, VehiclesSpec.Release, VehiclesSpec.PricesWritten, VehiclesSpec.LapsedHolds;
    hide AttemptGate.Attempt, EligibleIds, LotCallOk;
    if m.ReadLot? && LotRefusal(sys.db.vehicles, m.user, m.request).None? {
      ReadListsItsOwn(sys.db.vehicles, m.user, m.request);
    }
  }

  lemma LotCallsStep(cfg: Config, sys: Sys, m: Move, now: Time)
    requires LotCallsOk(sys)
    ensures LotCallsOk(Advance(cfg, sys, m, now).sys)
  {
    hide Advance;
    var next := Advance(cfg, sys, m, now).sys;
    BanksStay(cfg, sys, m, now);
    forall c | c in next.calls ensures LotCallOk(next.db.vehicles, next.calls[c]) {
      if next.calls[c].CreatingLot? {
        NewLotCall(cfg, sys, m, now, c);
        assert c in sys.calls ==> LotCallOk(sys.db.vehicles, sys.calls[c]);
      }
    }
  }

  /** One move keeps lots and vehicles in agreement if and only if it takes no vehicle out of another lot. */
  lemma LotsStepIff(cfg: Config, sys: Sys, m: Move, now: Time)
    requires LotsInv(sys.db) && LotCallsOk(sys)
    ensures LotsInv(Advance(cfg, sys, m, now).sys.db) <==> TakesFromNone(sys, m)
  {
    hide LotsInv, LotCallsOk, Commit, BeginPayment, FinishSweep, BeginVehicleBid, BeginLotBid, Swap, RecordRow, Extend;
    hide BeginScan, BeginComplete, BeginUpdate, BeginLot, FinishScan, FinishComplete, FinishUpdate, FinishLot;
    hide Machine.Apply, VehiclesSpec.LapsedHolds;
    if m.Atomic? {
      LotsInvStep(cfg, sys.db, Machine.Event(m.action, now));
    } else if m.WriteLot? && m.call in sys.calls {
      LotWriteKeepsIff(sys, m.call);
    } else {
      OtherMovesKeepLots(cfg, sys, m, now);
      QuietKeeps(sys.db, Advance(cfg, sys, m, now).sys.db);
    }
  }

  // ---- runs ----------------------------------------------------------------------------------------------------

  lemma {:induction false} LotCallsAlways(cfg: Config, start: Sys, ts: seq<Tick>, n: nat)
    requires LotCallsOk(start) && n <= |ts|
    ensures LotCallsOk(SysAt(cfg, start, ts, n))
  {
    hide Advance, LotCallsOk;
    if n > 0 {
      LotCallsAlways(cfg, start, ts, n - 1);
      LotCallsStep(cfg, SysAt(cfg, start, ts, n - 1), ts[n - 1].move, ts[n - 1].now);
    }
  }

  ghost predicate TakesFromNoneAt(cfg: Config, start: Sys, ts: seq<Tick>, k: nat) {
    k < |ts| ==> TakesFromNone(SysAt(cfg, start, ts, k), ts[k].move)
  }

  ghost predicate LotsAgreeUpTo(cfg: Config, start: Sys, ts: seq<Tick>, n: nat)
    requires n <= |ts|
  {
    forall k: nat :: k <= n ==> LotsInv(SysAt(cfg, start, ts, k).db)
  }

  /** Along a run lots and vehicles agree in every state if and only if no creation writes over the lot of a vehicle
      that another has taken since its read. */
  lemma {:induction false} LotsAgreeIff(cfg: Config, start: Sys, ts: seq<Tick>, n: nat)
    requires LotsInv(start.db) && LotCallsOk(start) && n <= |ts|
    ensures LotsAgreeUpTo(cfg, start, ts, n) <==> forall k: nat :: k < n ==> TakesFromNoneAt(cfg, start, ts, k)
  {
    hide Advance, LotsInv, LotCallsOk, TakesFromNone;
    if n > 0 {
      LotsAgreeIff(cfg, start, ts, n - 1);
      if LotsInv(SysAt(cfg, start, ts, n - 1).db) {
        LotCallsAlways(cfg, start, ts, n - 1);
        LotsStepIff(cfg, SysAt(cfg, start, ts, n - 1), ts[n - 1].move, ts[n - 1].now);
      }
      assert TakesFromNoneAt(cfg, start, ts, n - 1) <==> TakesFromNone(SysAt(cfg, start, ts, n - 1), ts[n - 1].move);
      assert LotsAgreeUpTo(cfg, start, ts, n)
        <==> LotsAgreeUpTo(cfg, start, ts, n - 1) && LotsInv(SysAt(cfg, start, ts, n).db);
    } else {
      FirstSys(cfg, start, ts);
    }
  }

  // ---- the lot of one vehicle ----------------------------------------------------------------------------------

  /** Every pointer leads to a lot. */
  ghost predicate PointersLead(db: Db) {
    forall id :: id in db.vehicles && db.vehicles[id].lotId.Some? ==> db.vehicles[id].lotId.value in db.lots
  }

  lemma LotWriteOn(sys: Sys, c: CallId, v: VehicleId)
    requires c in sys.calls && v in sys.db.vehicles && PointersLead(sys.db)
    ensures var next := FinishLot(sys, c).sys;
            && v in next.db.vehicles && PointersLead(next.db)
            && next.db.vehicles[v].lotId
               == if Relists(sys, WriteLot(c), v) then Some(sys.calls[c].request.id) else sys.db.vehicles[v].lotId
    ensures Relists(sys, WriteLot(c), v) ==> Some(sys.calls[c].request.id) != sys.db.vehicles[v].lotId
  {
  }

  lemma LotsOnlyGrow(cfg: Config, db: Db, e: Machine.Event)
    ensures var s := Machine.Apply(cfg, db, e);
            && db.lots.Keys <= s.db.lots.Keys
            && (e.action.CreateLot? && s.out.Ok? ==> e.action.request.id in s.db.lots)
  {
    hide LotIdFree, EligibleIds;
    if !e.action.CreateLot? {
      hide Machine.Apply, Machine.Serve;
      Frames.ApplyCases(cfg, db, e);
      LotRowsQuiet(cfg, db.(counters := Machine.Apply(cfg, db, e).db.counters), e.action, e.now);
    }
  }

  lemma WholeCallPointers(cfg: Config, sys: Sys, a: Machine.Action, now: Time, v: VehicleId)
    requires v in sys.db.vehicles && PointersLead(sys.db)
    ensures var next := WholeCall(cfg, sys, a, now).sys;
            && v in next.db.vehicles
            && (next.db.vehicles[v].lotId.Some? ==> next.db.vehicles[v].lotId.value in next.db.lots)
            && (sys.db.vehicles[v].lotId.Some? ==> next.db.vehicles[v].lotId == sys.db.vehicles[v].lotId)
  {
    hide Machine.Apply, BidsSpec.EndAfterBid;
    VehicleView.VehicleStep(cfg, sys.db, Machine.Event(a, now), v);
    LotsOnlyGrow(cfg, sys.db, Machine.Event(a, now));
  }

  lemma PointerStep(cfg: Config, sys: Sys, m: Move, now: Time, v: VehicleId)
    requires v in sys.db.vehicles && PointersLead(sys.db) && sys.db.vehicles[v].lotId.Some?
    ensures var next := Advance(cfg, sys, m, now).sys;
            && v in next.db.vehicles && next.db.vehicles[v].lotId.Some?
            && (next.db.vehicles[v].lotId == sys.db.vehicles[v].lotId <==> !Relists(sys, m, v))
  {
    hide PointersLead, Commit, BeginPayment, FinishSweep, BeginVehicleBid, BeginLotBid, Swap, RecordRow, Extend;
    hide BeginScan, BeginComplete, BeginUpdate, BeginLot, FinishScan, FinishComplete, FinishUpdate, FinishLot;
    hide WholeCall, VehiclesSpec.LapsedHolds;
    if m.Atomic? {
      WholeCallPointers(cfg, sys, m.action, now, v);
    } else if m.WriteLot? && m.call in sys.calls {
      LotWriteOn(sys, m.call, v);
    } else {
      OtherMovesKeepLots(cfg, sys, m, now);
    }
  }

  lemma PointerLeads(cfg: Config, sys: Sys, m: Move, now: Time, v: VehicleId)
    requires PointersLead(sys.db) && v in sys.db.vehicles
    ensures var db := Advance(cfg, sys, m, now).sys.db;
            v in db.vehicles && (db.vehicles[v].lotId.Some? ==> db.vehicles[v].lotId.value in db.lots)
  {
    hide Commit, BeginPayment, FinishSweep, BeginVehicleBid, BeginLotBid, Swap, RecordRow, Extend;
    hide BeginScan, BeginComplete, BeginUpdate, BeginLot, FinishScan, FinishComplete, FinishUpdate, FinishLot;
    hide WholeCall, VehiclesSpec.LapsedHolds;
    if m.Atomic? {
      WholeCallPointers(cfg, sys, m.action, now, v);
    } else if m.WriteLot? && m.call in sys.calls {
      LotWriteOn(sys, m.call, v);
    } else {
      OtherMovesKeepLots(cfg, sys, m, now);
      assert sys.db.vehicles[v].lotId.Some? ==> sys.db.vehicles[v].lotId.value in sys.db.lots.Keys;
    }
  }

  lemma PointersStep(cfg: Config, sys: Sys, m: Move, now: Time)
    requires PointersLead(sys.db)
    ensures PointersLead(Advance(cfg, sys, m, now).sys.db)
  {
    var next := Advance(cfg, sys, m, now).sys;
    SysVehiclesStay(cfg, sys, m, now);
    forall v | v in next.db.vehicles && next.db.vehicles[v].lotId.Some?
      ensures next.db.vehicles[v].lotId.value in next.db.lots
    {
      PointerLeads(cfg, sys, m, now, v);
    }
  }

  lemma {:induction false} PointersAlways(cfg: Config, start: Sys, ts: seq<Tick>, n: nat)
    requires PointersLead(start.db) && n <= |ts|
    ensures PointersLead(SysAt(cfg, start, ts, n).db)
  {
    hide Advance, PointersLead;
    if n > 0 {
      PointersAlways(cfg, start, ts, n - 1);
      PointersStep(cfg, SysAt(cfg, start, ts, n - 1), ts[n - 1].move, ts[n - 1].now);
    }
  }

  ghost predicate RelistsAt(cfg: Config, start: Sys, ts: seq<Tick>, k: nat, v: VehicleId) {
    k < |ts| && Relists(SysAt(cfg, start, ts, k), ts[k].move, v)
  }

  /** From move m to move n the vehicle is in the lot it was in at move m. */
  ghost predicate InLotThroughout(cfg: Config, start: Sys, ts: seq<Tick>, m: nat, n: nat, v: VehicleId, l: LotId)
    requires n <= |ts|
  {
    forall k: nat :: m <= k <= n ==>
      var db := SysAt(cfg, start, ts, k).db; v in db.vehicles && db.vehicles[v].lotId == Some(l)
  }

  /** A vehicle in a lot stays in it over a stretch if and only if no creation that listed it writes in the stretch. */
  lemma {:induction false} StaysInLotIff(cfg: Config, start: Sys, ts: seq<Tick>, m: nat, n: nat, v: VehicleId, l: LotId)
    requires PointersLead(start.db) && m <= n <= |ts|
    requires var db := SysAt(cfg, start, ts, m).db; v in db.vehicles && db.vehicles[v].lotId == Some(l)
    ensures InLotThroughout(cfg, start, ts, m, n, v, l)
        <==> forall k: nat :: m <= k < n ==> !RelistsAt(cfg, start, ts, k, v)
    decreases n
  {
    hide Advance, PointersLead, Relists;
    if m < n {
      StaysInLotIff(cfg, start, ts, m, n - 1, v, l);
      if InLotThroughout(cfg, start, ts, m, n - 1, v, l) {
        PointersAlways(cfg, start, ts, n - 1);
        PointerStep(cfg, SysAt(cfg, start, ts, n - 1), ts[n - 1].move, ts[n - 1].now, v);
      }
      assert RelistsAt(cfg, start, ts, n - 1, v) <==> Relists(SysAt(cfg, start, ts, n - 1), ts[n - 1].move, v);
      assert InLotThroughout(cfg, start, ts, m, n, v, l) <==>
             InLotThroughout(cfg, start, ts, m, n - 1, v, l)
             && var db := SysAt(cfg, start, ts, n).db; v in db.vehicles && db.vehicles[v].lotId == Some(l);
    }
  }

  // ---- two creations of the same vehicles ------------------------------------------------------------------------

  lemma ReadOfLot(cfg: Config, sys: Sys, c: CallId, user: User, req: NewLot, now: Time)
    requires c !in sys.calls && LotRefusal(sys.db.vehicles, user, req).None?
    ensures Advance(cfg, sys, ReadLot(c, user, req), now).sys
         == Sys(sys.db, sys.calls[c := CreatingLot(user.bankId.value, req)])
  {
    hide WholeCall, EligibleIds;
  }

  lemma WriteOfLot(cfg: Config, sys: Sys, c: CallId, now: Time)
    requires c in sys.calls && sys.calls[c].CreatingLot? && LotIdFree(sys.db.lots, sys.calls[c].request)
    ensures var bankId, req := sys.calls[c].bankId, sys.calls[c].request;
            Advance(cfg, sys, WriteLot(c), now)
            == Advanced(Sys(sys.db.(vehicles := Assigned(sys.db.vehicles, req.vehicleIds, req.id),
                                    lots := sys.db.lots[req.id := LotsSpec.LotRow(req, bankId, |req.vehicleIds|)]),
                            sys.calls - {c}), Some(Ok(LotCreated)))
  {
    hide WholeCall, LotIdFree, Assigned, LotsSpec.LotRow;
  }

  lemma StillFree(lots: Lots, first: NewLot, second: NewLot, bankId: BankId)
    requires LotIdFree(lots, second) && first.id != second.id && first.lotNumber != second.lotNumber
    ensures LotIdFree(lots[first.id := LotsSpec.LotRow(first, bankId, |first.vehicleIds|)], second)
  {
  }

  lemma SameRefusal(vehicles: Vehicles, user: User, first: NewLot, second: NewLot)
    requires first.vehicleIds == second.vehicleIds
    ensures LotRefusal(vehicles, user, first) == LotRefusal(vehicles, user, second)
  {
  }

  lemma ReadsVehicles(vehicles: Vehicles, user: User, req: NewLot)
    requires LotRefusal(vehicles, user, req).None?
    ensures user.bankId.Some? && forall v :: v in req.vehicleIds ==> v in vehicles
  {
    ReadListsItsOwn(vehicles, user, req);
  }

  /** Two creations that read the same vehicles both succeed: the first lot counts vehicles that are in the second. */
  lemma TwoCreationsBreakTheCount(cfg: Config, sys: Sys, c: CallId, d: CallId, user: User, first: NewLot,
                                  second: NewLot,
                                  now: Time)
    requires c !in sys.calls && d !in sys.calls && c != d && first.vehicleIds == second.vehicleIds != []
    requires LotRefusal(sys.db.vehicles, user, first).None? && first.id != second.id
    requires first.lotNumber != second.lotNumber
    requires LotIdFree(sys.db.lots, first) && LotIdFree(sys.db.lots, second)
    ensures var ts := [Tick(ReadLot(c, user, first), now), Tick(ReadLot(d, user, second), now),
                       Tick(WriteLot(c), now), Tick(WriteLot(d), now)];
            var db := SysAt(cfg, sys, ts, 4).db;
            && AnswerAt(cfg, sys, ts, 2) == Some(Ok(LotCreated)) && AnswerAt(cfg, sys, ts, 3) == Some(Ok(LotCreated))
            && first.id in db.lots && db.lots[first.id].vehicleCount == |first.vehicleIds|
            && forall v :: v in first.vehicleIds ==> v in db.vehicles && db.vehicles[v].lotId == Some(second.id)
  {
    hide Advance, LotRefusal, LotIdFree;
    var ts := [Tick(ReadLot(c, user, first), now), Tick(ReadLot(d, user, second), now),
               Tick(WriteLot(c), now), Tick(WriteLot(d), now)];
    Ticks(cfg, sys, ts);
    var s1, s2, s3 := SysAt(cfg, sys, ts, 1), SysAt(cfg, sys, ts, 2), SysAt(cfg, sys, ts, 3);
    SameRefusal(sys.db.vehicles, user, first, second);
    ReadsVehicles(sys.db.vehicles, user, first);
    ReadOfLot(cfg, sys, c, user, first, now);
    ReadOfLot(cfg, s1, d, user, second, now);
    WriteOfLot(cfg, s2, c, now);
    StillFree(sys.db.lots, first, second, user.bankId.value);
    WriteOfLot(cfg, s3, d, now);
  }
}
