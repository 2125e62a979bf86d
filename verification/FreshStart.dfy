/** A database without bids, lots, orders or payments meets every starting condition used by the theorems. */
module FreshStart {
  import opened Rows
  import AuctionView
  import Auctions
  import NoDoubleSale
  import ExpireFirst
  import SweepTransparency
  import LotMembership
  import Interleaved
  import SettlementOnce
  import PriceIntegrity
  import UniqueColumns
  import SalesInFlight
  import LedgerInFlight
  import LotsInFlight
  import RepeatCheckouts
  import CheckoutsInFlight
  import PaymentOutcomes

  /** A listing nobody has touched. */
  predicate Untouched(v: Vehicle) {
    && v.auction.currentBid == 0 && v.auction.currentBidder == None && v.auction.bidCount == 0
    && v.status != OnHold && v.heldBy == None && v.heldUntil == None && v.lotId == None
  }

  predicate Fresh(db: Db) {
    && (forall v :: v in db.vehicles ==> Untouched(db.vehicles[v]))
    && db.lots == map[] && db.bids == []
    && db.sales.orders == map[] && db.sales.payments == map[] && db.sales.invoices == []
  }

  lemma FreshDatabaseIsSound(cfg: Config, db: Db, v: VehicleId, now: Time)
    requires Fresh(db)
    ensures UniqueColumns.RowsValid(db.sales) && Auctions.AuctionInv(cfg, db) && LotMembership.LotsInv(db)
    ensures SweepTransparency.AuctionsUnheld(db.vehicles) && PaymentOutcomes.CapturedOnceSettled(db.sales)
    ensures v in db.vehicles && db.vehicles[v].saleType != SaleType.Auction ==>
              NoDoubleSale.SaleInv(db, v) && ExpireFirst.DeadlineInv(db, v, now)
    ensures var sys := Interleaved.Sys(db, map[]);
            && SettlementOnce.SysInv(sys) && PriceIntegrity.BidsInv(cfg, sys)
            && LotsInFlight.LotCallsOk(sys) && LotsInFlight.PointersLead(db)
            && (v in db.vehicles && db.vehicles[v].saleType != SaleType.Auction ==>
               SalesInFlight.SaleSysInv(sys, v, now))
            && (forall t :: AuctionView.AuctionOf(db, t).Some? ==> LedgerInFlight.LedgerOrDue(cfg, sys, t))
    ensures RepeatCheckouts.OneClaim(db.sales, v) && CheckoutsInFlight.OneClaimOn(Interleaved.Sys(db, map[]), v)
  {
    forall t | AuctionView.AuctionOf(db, t).Some? ensures Auctions.TargetInv(cfg, db, t) {
      assert t.OnVehicle? && Untouched(db.vehicles[t.vehicle]);
    }
  }
}
