/** L1: when a lot is created and what the creation writes, in row columns. */
module LotOutcomes {
  import opened Rows
  import opened Machine
  import LotsSpec
  import LotsInFlight
  import VehicleView

  /** The ids are distinct, and name vehicles of the bank that are neither sold, cancelled nor in a lot. */
  predicate AllEligible(vehicles: Vehicles, ids: seq<VehicleId>, bankId: BankId) {
    && (forall i, j :: 0 <= i < j < |ids| ==> ids[i] != ids[j])
    && forall i :: 0 <= i < |ids| ==>
         && ids[i] in vehicles && vehicles[ids[i]].bankId == bankId && vehicles[ids[i]].lotId == None
         && vehicles[ids[i]].status != Sold && vehicles[ids[i]].status != CancelledListing
  }

  predicate LotUnused(lots: Lots, req: LotsSpec.NewLot) {
    req.id !in lots && forall l | l in lots :: lots[l].lotNumber != req.lotNumber
  }

  /** The count of eligible rows is the length of the list exactly when they are all distinct and eligible. */
  lemma CountMeansAll(vehicles: Vehicles, ids: seq<VehicleId>, bankId: BankId)
    ensures |LotsSpec.EligibleIds(vehicles, ids, bankId)| == |ids| <==> AllEligible(vehicles, ids, bankId)
  {
    var found := LotsSpec.EligibleIds(vehicles, ids, bankId);
    VehicleView.AllFound(ids, found);
    if |found| == |ids| {
      forall i | 0 <= i < |ids| ensures ids[i] in found {
        assert ids[i] in ids;
      }
    }
    if AllEligible(vehicles, ids, bankId) {
      assert found == set id | id in ids;
      LotsInFlight.DistinctCount(ids);
    }
  }

  lemma LotCreatedIff(cfg: Config, db: Db, user: User, req: LotsSpec.NewLot, now: Time)
    ensures var w := Apply(cfg, db, Event(Action.CreateLot(user, req), now));
            && (w.out.Ok? <==>
                  && user.bankId.Some? && AllEligible(db.vehicles, req.vehicleIds, user.bankId.value)
                  && LotUnused(db.lots, req))
            && (w.out.Err? ==>
                  && w.db == db
                  && w.out == Err(if user.bankId.Some? && AllEligible(db.vehicles, req.vehicleIds, user.bankId.value)
                                  then UniqueViolation else BadRequest))
  {
    hide AllEligible, LotsSpec.EligibleIds;
    if user.bankId.Some? {
      CountMeansAll(db.vehicles, req.vehicleIds, user.bankId.value);
    }
    assert db == db.(vehicles := db.vehicles, lots := db.lots);
  }

  /** The lot as requested, without bids, and its vehicles pointing at it. */
  lemma CreatedLotWrites(cfg: Config, db: Db, user: User, req: LotsSpec.NewLot, now: Time)
    requires Apply(cfg, db, Event(Action.CreateLot(user, req), now)).out.Ok?
    ensures user.bankId.Some?
    ensures Apply(cfg, db, Event(Action.CreateLot(user, req), now))
         == Step(db.(lots := db.lots[req.id := Lot(
                         req.lotNumber, user.bankId.value, |req.vehicleIds|, req.reservePrice,
                         AuctionState(0, None, 0, req.endAt), req.isPrivate, if req.isPrivate then Private else Open)],
                     vehicles := map v | v in db.vehicles ::
                         if v in req.vehicleIds then db.vehicles[v].(lotId := Some(req.id), saleType := LotSale)
                         else db.vehicles[v]),
                 Ok(LotCreated))
  {
    hide LotsSpec.EligibleIds, LotsSpec.LotIdFree;
    var w := Apply(cfg, db, Event(Action.CreateLot(user, req), now));
    assert w.db.vehicles == map v | v in db.vehicles ::
      if v in req.vehicleIds then db.vehicles[v].(lotId := Some(req.id), saleType := LotSale) else db.vehicles[v];
  }
}
