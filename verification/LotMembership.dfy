/** L1 theorems about lots: they partition the vehicles that point at them. */
module LotMembership {
  import opened Rows
  import opened LotsSpec
  import opened Machine
  import opened Frames
  import opened VehicleView
  import BidsSpec
  import AuctionView

  /** The vehicles that point at a lot. */
  function Members(vehicles: Vehicles, l: LotId): set<VehicleId> {
    set id | id in vehicles && vehicles[id].lotId == Some(l)
  }

  /** Every pointer leads to a lot of the same bank, and every lot counts its vehicles right. */
  ghost predicate LotsInv(db: Db) {
    && (forall id :: id in db.vehicles && db.vehicles[id].lotId.Some? ==>
          && db.vehicles[id].lotId.value in db.lots
          && db.lots[db.vehicles[id].lotId.value].bankId == db.vehicles[id].bankId
          && db.vehicles[id].saleType == LotSale)
    && (forall l :: l in db.lots ==> db.lots[l].vehicleCount == |Members(db.vehicles, l)|)
    && (forall l, m :: l in db.lots && m in db.lots && db.lots[l].lotNumber == db.lots[m].lotNumber ==> l == m)
  }

  /** What the length test in `create` really checks: no repeats, nothing missing, everything eligible. */
  lemma LengthTestForcesDistinct(vehicles: Vehicles, lots: Lots, user: User, req: NewLot)
    requires LotsSpec.CreateLot(vehicles, lots, user, req).out.Ok?
    ensures user.bankId.Some? && LotIdFree(lots, req)
    ensures forall i, j :: 0 <= i < j < |req.vehicleIds| ==> req.vehicleIds[i] != req.vehicleIds[j]
    ensures forall id :: id in req.vehicleIds ==> id in vehicles && Eligible(vehicles[id], user.bankId.value)
    ensures EligibleIds(vehicles, req.vehicleIds, user.bankId.value) == (set id | id in req.vehicleIds)
  {
    AllFound(req.vehicleIds, EligibleIds(vehicles, req.vehicleIds, user.bankId.value));
  }

  lemma MembersAfterAssign(vehicles: Vehicles, ids: seq<VehicleId>, lot: LotId, l: LotId)
    requires forall id :: id in ids ==> id in vehicles && vehicles[id].lotId == None
    requires forall id :: id in vehicles ==> vehicles[id].lotId != Some(lot)
    ensures Members(Assigned(vehicles, ids, lot), l) == if l == lot then (set id | id in ids) else Members(vehicles, l)
  {
    var after := Assigned(vehicles, ids, lot);
    forall id ensures id in Members(after, l) <==> id in if l == lot then (set x | x in ids) else Members(vehicles, l) {
      assert id in after <==> id in vehicles;
    }
  }

  lemma CreateLotKeeps(db: Db, user: User, req: NewLot)
    requires LotsInv(db)
    ensures var w := LotsSpec.CreateLot(db.vehicles, db.lots, user, req);
            LotsInv(db.(vehicles := w.rows.0, lots := w.rows.1))
  {
    var w := LotsSpec.CreateLot(db.vehicles, db.lots, user, req);
    if w.out.Ok? {
      LengthTestForcesDistinct(db.vehicles, db.lots, user, req);
      forall l | l in w.rows.1 ensures w.rows.1[l].vehicleCount == |Members(w.rows.0, l)| {
        MembersAfterAssign(db.vehicles, req.vehicleIds, req.id, l);
      }
    } else {
      assert db == db.(vehicles := db.vehicles, lots := db.lots);
    }
  }

  predicate SameMembership(a: Vehicle, b: Vehicle) {
    a.lotId == b.lotId && a.bankId == b.bankId && a.saleType == b.saleType
  }

  predicate SameLot(a: Lot, b: Lot) {
    a.bankId == b.bankId && a.vehicleCount == b.vehicleCount && a.lotNumber == b.lotNumber
  }

  lemma SameMembers(a: Vehicles, b: Vehicles, l: LotId)
    requires b.Keys == a.Keys && forall id :: id in a ==> SameMembership(a[id], b[id])
    ensures Members(b, l) == Members(a, l)
  {
    forall id ensures id in Members(b, l) <==> id in Members(a, l) {
      assert id in b <==> id in a;
      assert id in a ==> SameMembership(a[id], b[id]);
    }
  }

  lemma QuietKeeps(db: Db, after: Db)
    requires LotsInv(db)
    requires after.vehicles.Keys == db.vehicles.Keys
    requires (forall id :: id in db.vehicles ==> SameMembership(db.vehicles[id], after.vehicles[id]))
    requires after.lots.Keys == db.lots.Keys && (forall l :: l in db.lots ==> SameLot(db.lots[l], after.lots[l]))
    ensures LotsInv(after)
  {
    forall id | id in after.vehicles && after.vehicles[id].lotId.Some?
      ensures after.vehicles[id].lotId.value in after.lots
      ensures after.lots[after.vehicles[id].lotId.value].bankId == after.vehicles[id].bankId
      ensures after.vehicles[id].saleType == LotSale
    {
      assert id in db.vehicles && SameMembership(db.vehicles[id], after.vehicles[id]);
      var l := db.vehicles[id].lotId.value;
      assert l in db.lots && l in after.lots;
      assert SameLot(db.lots[l], after.lots[l]);
    }
    forall l | l in after.lots ensures after.lots[l].vehicleCount == |Members(after.vehicles, l)| {
      SameMembers(db.vehicles, after.vehicles, l);
    }
  }

  lemma BidLotRows(cfg: Config, db: Db, a: Action, now: Time)
    requires a.BidOnLot?
    ensures var after := Serve(cfg, db, a, now).db;
            after.lots.Keys == db.lots.Keys && forall l :: l in db.lots ==> SameLot(db.lots[l], after.lots[l])
  {
    hide BidsSpec.PlaceOnLot;
    var approved := (a.lot, a.user.id) in db.approvals;
    if a.lot in db.lots && BidsSpec.PlaceOnLot(cfg, db.lots[a.lot], approved, a.user, a.amount, now).Success? {
      AuctionView.LotRowAfterBid(cfg, db.lots[a.lot], approved, a.user, a.amount, now);
    }
  }

  /** Outside `create`, lot rows only change in their auction columns. */
  lemma LotRowsQuiet(cfg: Config, db: Db, a: Action, now: Time)
    requires !a.CreateLot?
    ensures var after := Serve(cfg, db, a, now).db;
            after.lots.Keys == db.lots.Keys && forall l :: l in db.lots ==> SameLot(db.lots[l], after.lots[l])
  {
    ServeFrame(cfg, db, a, now);
    hide Serve;
    if a.BidOnLot? {
      BidLotRows(cfg, db, a, now);
    }
  }

  lemma LotsInvServed(cfg: Config, db: Db, a: Action, now: Time)
    requires LotsInv(db)
    ensures LotsInv(Serve(cfg, db, a, now).db)
  {
    hide LotsInv;
    if a.CreateLot? {
      hide LotsSpec.CreateLot;
      CreateLotKeeps(db, a.user, a.request);
    } else {
      hide Serve;
      LotRowsQuiet(cfg, db, a, now);
      ServedKeys(cfg, db, a, now);
      forall id | id in db.vehicles ensures SameMembership(db.vehicles[id], Serve(cfg, db, a, now).db.vehicles[id]) {
        ServedVehicle(cfg, db, a, now, id);
      }
      QuietKeeps(db, Serve(cfg, db, a, now).db);
    }
  }

  lemma LotsInvIgnoresCounters(db: Db, counters: Counters)
    ensures LotsInv(db.(counters := counters)) <==> LotsInv(db)
  {
  }

  lemma LotsInvStep(cfg: Config, db: Db, e: Event)
    requires LotsInv(db)
    ensures LotsInv(Apply(cfg, db, e).db)
  {
    hide Apply, Serve, LotsInv;
    ApplyCases(cfg, db, e);
    var counters := Apply(cfg, db, e).db.counters;
    LotsInvIgnoresCounters(db, counters);
    LotsInvServed(cfg, db.(counters := counters), e.action, e.now);
  }

  /** In every reachable state lots and vehicles agree. */
  lemma {:induction false} LotsPartitionVehicles(cfg: Config, start: Db, es: seq<Event>, n: nat)
    requires LotsInv(start) && n <= |es|
    ensures LotsInv(StateAt(cfg, start, es, n))
  {
    hide Apply, LotsInv;
    if n > 0 {
      LotsPartitionVehicles(cfg, start, es, n - 1);
      LotsInvStep(cfg, StateAt(cfg, start, es, n - 1), es[n - 1]);
    }
  }

  /** A vehicle in a lot never leaves it, nor moves to another. */
  lemma {:induction false} MembershipIsForGood(cfg: Config, start: Db, es: seq<Event>, m: nat, n: nat, id: VehicleId)
    requires m <= n <= |es| && id in StateAt(cfg, start, es, m).vehicles
    requires StateAt(cfg, start, es, m).vehicles[id].lotId.Some?
    ensures id in StateAt(cfg, start, es, n).vehicles
    ensures StateAt(cfg, start, es, n).vehicles[id].lotId == StateAt(cfg, start, es, m).vehicles[id].lotId
    decreases n
  {
    hide Apply;
    if m < n {
      MembershipIsForGood(cfg, start, es, m, n - 1, id);
      VehicleStep(cfg, StateAt(cfg, start, es, n - 1), es[n - 1], id);
    }
  }
}
