/** L2: what each write of a call in flight does to the rows as they are when it runs, in row columns. */
module InFlightOutcomes {
  import opened Rows
  import opened Columns
  import opened Interleaved

  // ---- bids ------------------------------------------------------------------------------------------------

  /** The compare-and-set of a vehicle bid takes effect on a LIVE row that still has the price that was read. */
  lemma VehicleSwapWrites(sys: Sys, c: CallId)
    requires c in sys.calls && sys.calls[c].BiddingOnVehicle? && sys.calls[c].phase == ToSwap
    ensures var call, v, w := sys.calls[c], sys.calls[c].vehicle, Swap(sys, c);
            if v in sys.db.vehicles && sys.db.vehicles[v].status == Live
                && sys.db.vehicles[v].auction.currentBid == call.seenVehicle.auction.currentBid then
              var row := sys.db.vehicles[v];
              w == Advanced(
                Sys(sys.db.(vehicles := sys.db.vehicles[v := row.(auction := AuctionState(
                        call.amount, Some(call.user), row.auction.bidCount + 1, row.auction.endAt))]),
                    sys.calls[c := call.(phase := ToRecord)]), None)
            else w == Advanced(Sys(sys.db, sys.calls - {c}), Some(Err(Conflict)))
  {
  }

  lemma LotSwapWrites(sys: Sys, c: CallId)
    requires c in sys.calls && sys.calls[c].BiddingOnLot? && sys.calls[c].phase == ToSwap
    ensures var call, l := sys.calls[c], sys.calls[c].lot;
            if l in sys.db.lots && sys.db.lots[l].auction.currentBid == call.seenLot.auction.currentBid then
              var row := sys.db.lots[l];
              Swap(sys, c) == Advanced(
                Sys(sys.db.(lots := sys.db.lots[l := row.(auction := AuctionState(
                        call.amount, Some(call.user), row.auction.bidCount + 1, row.auction.endAt))]),
                    sys.calls[c := call.(phase := ToRecord)]), None)
            else Swap(sys, c) == Advanced(Sys(sys.db, sys.calls - {c}), Some(Err(Conflict)))
  {
  }

  lemma LedgerWrites(sys: Sys, c: CallId)
    requires c in sys.calls && (sys.calls[c].BiddingOnVehicle? || sys.calls[c].BiddingOnLot?)
    requires sys.calls[c].phase == ToRecord
    ensures var call, w := sys.calls[c], RecordRow(sys, c);
            var t := if call.BiddingOnVehicle? then OnVehicle(call.vehicle) else OnLot(call.lot);
            && w == Advanced(Sys(sys.db.(bids := w.sys.db.bids), sys.calls[c := call.(phase := ToExtend)]), None)
            && BidAdded(sys.db.bids, w.sys.db.bids, t, call.user, call.amount)
  {
  }

  /** The anti-snipe write goes by the end that was read, and the clock of the write. */
  lemma VehicleExtensionWrites(cfg: Config, sys: Sys, c: CallId, now: Time)
    requires c in sys.calls && sys.calls[c].BiddingOnVehicle? && sys.calls[c].phase == ToExtend
    ensures var call, v := sys.calls[c], sys.calls[c].vehicle;
            var seen := call.seenVehicle.auction.endAt;
            var late := InLastStretch(seen, cfg.snipeWindow, now);
            var endAt := Some(now + cfg.snipeExtension);
            Extend(cfg, sys, c, now)
            == Advanced(
                 Sys(if late && v in sys.db.vehicles then
                       var row := sys.db.vehicles[v];
                       sys.db.(vehicles := sys.db.vehicles[v := row.(auction := row.auction.(endAt := endAt),
                                                                    autoExtendCount := row.autoExtendCount + 1)])
                     else sys.db,
                     sys.calls - {c}),
                 Some(Ok(BidPlaced(call.amount, if late then endAt else seen))))
  {
    var v := sys.calls[c].vehicle;
    assert v in sys.db.vehicles ==> sys.db.vehicles[v := sys.db.vehicles[v]] == sys.db.vehicles;
  }

  lemma LotExtensionWrites(cfg: Config, sys: Sys, c: CallId, now: Time)
    requires c in sys.calls && sys.calls[c].BiddingOnLot? && sys.calls[c].phase == ToExtend
    ensures var call, l := sys.calls[c], sys.calls[c].lot;
            var seen := call.seenLot.auction.endAt;
            var late := InLastStretch(seen, cfg.snipeWindow, now);
            var endAt := Some(now + cfg.snipeExtension);
            Extend(cfg, sys, c, now)
            == Advanced(
                 Sys(if late && l in sys.db.lots then
                       var row := sys.db.lots[l];
                       sys.db.(lots := sys.db.lots[l := row.(auction := row.auction.(endAt := endAt))])
                     else sys.db,
                     sys.calls - {c}),
                 Some(Ok(BidPlaced(call.amount, if late then endAt else seen))))
  {
    var l := sys.calls[c].lot;
    assert l in sys.db.lots ==> sys.db.lots[l := sys.db.lots[l]] == sys.db.lots;
  }

  // ---- the sweep, pickup, price updates and lots -------------------------------------------------------------

  /** The sweep goes by identifier alone, whatever the rows have become. */
  lemma SweepWritesById(sys: Sys, c: CallId)
    requires c in sys.calls && sys.calls[c].Sweeping?
    ensures var ids, w := sys.calls[c].ids, FinishSweep(sys, c);
            && w == Advanced(Sys(sys.db.(vehicles := w.sys.db.vehicles), sys.calls - {c}), Some(Ok(Swept(|ids|))))
            && w.sys.db.vehicles.Keys == sys.db.vehicles.Keys
            && forall v :: v in sys.db.vehicles ==>
                 var row := sys.db.vehicles[v];
                 w.sys.db.vehicles[v] == if v in ids then row.(status := Live, heldBy := None, heldUntil := None)
                     else row
  {
  }

  /** The scan writes whatever status the order has by then. */
  lemma ScanWritesAnyway(sys: Sys, c: CallId, otp: int, now: Time)
    requires c in sys.calls && sys.calls[c].Scanning? && sys.calls[c].scanned in sys.db.sales.orders
    ensures var o, orders := sys.calls[c].scanned, sys.db.sales.orders;
            FinishScan(sys, c, otp, now)
            == Advanced(Sys(sys.db.(sales := sys.db.sales.(orders := orders[o := orders[o].(
                                status := PickupInProgress, otpHash := Some(OtpHash(otp)),
                                otpExpiresAt := Some(now + 600000))])),
                            sys.calls - {c}), Some(Ok(OtpIssued(now + 600000))))
  {
  }

  lemma CompletionWritesAnyway(sys: Sys, c: CallId, now: Time)
    requires c in sys.calls && sys.calls[c].Completing? && sys.calls[c].completed in sys.db.sales.orders
    ensures var o, orders, user := sys.calls[c].completed, sys.db.sales.orders, sys.calls[c].user;
            FinishComplete(sys, c, now)
            == Advanced(Sys(sys.db.(sales := sys.db.sales.(orders := orders[o := orders[o].(
                                status := Collected, collectedAt := Some(now), verifiedBy := Some(user),
                                otpHash := None, otpExpiresAt := None)])),
                            sys.calls - {c}), Some(Ok(HandedOver)))
  {
  }

  /** The price update writes what the request gives, unless a bid stood when it read. */
  lemma UpdateWritesAnyway(sys: Sys, c: CallId)
    requires c in sys.calls && sys.calls[c].Updating? && sys.calls[c].vehicle in sys.db.vehicles
    ensures var call, v := sys.calls[c], sys.calls[c].vehicle;
            var row := sys.db.vehicles[v];
            FinishUpdate(sys, c)
            == Advanced(Sys(sys.db.(vehicles := sys.db.vehicles[v := row.(
                                reservePrice := PriceKept(call.frozen, call.reserve, Some(row.reservePrice)).value,
                                buyNowPrice := PriceKept(call.frozen, call.buyNow, row.buyNowPrice))]),
                            sys.calls - {c}), Some(Ok(Updated)))
  {
  }

  /** The creation points its vehicles at the new lot, whatever lot they are in by then. */
  lemma LotWritesAnyway(sys: Sys, c: CallId)
    requires c in sys.calls && sys.calls[c].CreatingLot?
    ensures var req, w := sys.calls[c].request, FinishLot(sys, c);
            if req.id !in sys.db.lots && forall l :: l in sys.db.lots ==> sys.db.lots[l].lotNumber != req.lotNumber then
              && w == Advanced(Sys(sys.db.(vehicles := w.sys.db.vehicles, lots := sys.db.lots[req.id := Lot(
                   req.lotNumber, sys.calls[c].bankId, |req.vehicleIds|, req.reservePrice,
                   AuctionState(0, None, 0, req.endAt), req.isPrivate, if req.isPrivate then Private else Open)]),
                   sys.calls - {c}), Some(Ok(LotCreated)))
              && w.sys.db.vehicles.Keys == sys.db.vehicles.Keys
              && forall v :: v in sys.db.vehicles ==>
                   var row := sys.db.vehicles[v];
                   w.sys.db.vehicles[v]
                   == if v in req.vehicleIds then row.(lotId := Some(req.id), saleType := LotSale) else row
            else w == Advanced(Sys(sys.db, sys.calls - {c}), Some(Err(UniqueViolation)))
  {
    assert sys.db == sys.db.(vehicles := sys.db.vehicles, lots := sys.db.lots);
  }
}
