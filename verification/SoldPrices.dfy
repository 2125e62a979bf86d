/** L1 theorem: the sale a vehicle row reports is one of its settled orders. */
module SoldPrices {
  import opened Rows
  import opened Machine
  import opened SalesTheory
  import opened SalesRuns
  import opened OrderView
  import opened VehicleView
  import opened NoDoubleSale
  import opened Lifecycle

  ghost predicate SoldAs(s: Sales, o: OrderId, v: VehicleId, row: Vehicle) {
    SettledOn(s, o, v) && row.soldPrice == Some(s.orders[o].base) && row.soldTo == Some(s.orders[o].buyer)
  }

  lemma SoldAsStays(cfg: Config, db: Db, e: Event, o: OrderId, v: VehicleId, row: Vehicle)
    requires SalesInv(db.sales) && SoldAs(db.sales, o, v, row)
    ensures SoldAs(Apply(cfg, db, e).db.sales, o, v, row)
  {
    hide Apply, SalesInv, SoundMove;
    StatusStep(cfg, db, e, o);
    SalesStep(cfg, db, e);
    SoundMoveGives(db.sales, Apply(cfg, db, e).db.sales);
  }

  lemma SoldNow(cfg: Config, db: Db, e: Event, v: VehicleId)
    requires SalesInv(db.sales) && v in db.vehicles && Sells(db, e.action, Apply(cfg, db, e).out, v)
    ensures v in Apply(cfg, db, e).db.vehicles
    ensures SoldAs(Apply(cfg, db, e).db.sales, e.action.order, v, Apply(cfg, db, e).db.vehicles[v])
  {
    hide Apply, SalesInv;
    VehicleStep(cfg, db, e, v);
    OrderRowsOfInv(db.sales);
    OrderStep(cfg, db, e, e.action.order);
  }

  lemma SaleColumnsKept(cfg: Config, db: Db, e: Event, v: VehicleId)
    requires v in db.vehicles && !Sells(db, e.action, Apply(cfg, db, e).out, v)
    ensures v in Apply(cfg, db, e).db.vehicles
    ensures Apply(cfg, db, e).db.vehicles[v].soldPrice == db.vehicles[v].soldPrice
    ensures Apply(cfg, db, e).db.vehicles[v].soldTo == db.vehicles[v].soldTo
  {
    hide Apply;
    VehicleStep(cfg, db, e, v);
  }

  lemma SoldAsColumns(s: Sales, o: OrderId, v: VehicleId, a: Vehicle, b: Vehicle)
    requires SoldAs(s, o, v, a) && b.soldPrice == a.soldPrice && b.soldTo == a.soldTo
    ensures SoldAs(s, o, v, b)
  {
  }

  /** A vehicle sold during the run was sold to the buyer and at the base price of one of its settled orders. */
  lemma {:induction false} SoldPriceIsOrdersBase(cfg: Config, start: Db, es: seq<Event>, n: nat, v: VehicleId)
    requires SalesInv(start.sales) && v in start.vehicles && start.vehicles[v].status != Sold && n <= |es|
    ensures v in StateAt(cfg, start, es, n).vehicles
    ensures StateAt(cfg, start, es, n).vehicles[v].status == Sold ==>
              exists o :: SoldAs(StateAt(cfg, start, es, n).sales, o, v, StateAt(cfg, start, es, n).vehicles[v])
  {
    hide Apply, SalesInv, SoldAs;
    if n > 0 {
      var db, e := StateAt(cfg, start, es, n - 1), es[n - 1];
      SoldPriceIsOrdersBase(cfg, start, es, n - 1, v);
      SalesInvAlways(cfg, start, es, n - 1);
      VehicleStep(cfg, db, e, v);
      if Sells(db, e.action, Apply(cfg, db, e).out, v) {
        SoldNow(cfg, db, e, v);
      } else if db.vehicles[v].status == Sold {
        var o :| SoldAs(db.sales, o, v, db.vehicles[v]);
        SoldAsStays(cfg, db, e, o, v, db.vehicles[v]);
        SaleColumnsKept(cfg, db, e, v);
        SoldAsColumns(Apply(cfg, db, e).db.sales, o, v, db.vehicles[v], Apply(cfg, db, e).db.vehicles[v]);
      }
    }
  }
}
