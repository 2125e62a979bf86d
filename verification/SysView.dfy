/** What one L2 move does to one order row, one vehicle row and the payments in flight. */
module SysView {
  import opened Rows
  import opened OrdersSpec
  import opened SalesTheory
  import opened OrderView
  import opened VehicleView
  import opened Interleaved
  import BidsSpec
  import PickupSpec
  import LotsSpec
  import Machine
  import opened VehiclesSpec

  // ---- payments in flight -----------------------------------------------------------------------

  /** Call c has read order o and not yet committed. */
  predicate IsTicketFor(calls: map<CallId, Call>, c: CallId, o: OrderId) {
    c in calls && calls[c].Paying? && calls[c].ticket.PayDue? && calls[c].ticket.orderId == o
  }

  predicate CommitsTicket(sys: Sys, m: Move, o: OrderId) {
    m.CommitPayment? && IsTicketFor(sys.calls, m.call, o)
  }

  /** The move settles order o, as a whole call or as the commit of one in flight. */
  ghost predicate SettlesOn(cfg: Config, sys: Sys, m: Move, now: Time, o: OrderId) {
    && Advance(cfg, sys, m, now).out == Some(Ok(Settled))
    && ((m.Atomic? && m.action.VerifyPayment? && m.action.order == o) || CommitsTicket(sys, m, o))
  }

  /** A call that will write a sale's rows. */
  predicate WritesSales(call: Call) {
    call.Paying? || call.Scanning? || call.Completing?
  }

  ghost predicate Invoiced(s: Sales, o: OrderId) {
    o in s.orders && HasInvoice(s.invoices, o)
  }

  /** A payment in flight still describes its order and payment; the order of a pickup in flight is settled. */
  ghost predicate CallSound(s: Sales, call: Call) {
    match call
    case Paying(_, ticket) => TicketOk(s, ticket)
    case Scanning(o) => Invoiced(s, o)
    case Completing(_, o) => Invoiced(s, o)
    case _ => true
  }

  ghost predicate CallsSound(s: Sales, calls: map<CallId, Call>) {
    forall c :: c in calls ==> CallSound(s, calls[c])
  }

  lemma TicketNamesOrder(s: Sales, user: UserId, id: OrderId)
    requires ReadForPayment(s.orders, s.payments, user, id).Success?
    ensures var ticket := ReadForPayment(s.orders, s.payments, user, id).value;
            ticket.PayDue? ==> ticket.orderId == id
  {
  }

  /** A ticket in flight after a move was in flight before, or the move has read it. */
  lemma TicketBefore(cfg: Config, sys: Sys, m: Move, now: Time, c: CallId, o: OrderId)
    requires IsTicketFor(Advance(cfg, sys, m, now).sys.calls, c, o)
    ensures var next := Advance(cfg, sys, m, now).sys;
            || (IsTicketFor(sys.calls, c, o) && next.calls[c] == sys.calls[c] && !(m.CommitPayment? && m.call == c))
            || (m.ReadPayment? && m.call == c && m.order == o && c !in sys.calls && next.calls[c].user == m.user.id
                && ReadForPayment(sys.db.sales.orders, sys.db.sales.payments, m.user.id, o)
                   == Success(next.calls[c].ticket))
  {
    hide FinishPayment, ReadForPayment, Machine.Apply, BidsSpec.VehicleBidRefusal, BidsSpec.LotBidRefusal;
    hide BidsSpec.SwapVehicle, BidsSpec.SwapLot;
    if m.ReadPayment? && m.call == c && c !in sys.calls {
      TicketNamesOrder(sys.db.sales, m.user.id, m.order);
    }
  }

  /** A ticket stays in flight until its own commit. */
  lemma TicketStays(cfg: Config, sys: Sys, m: Move, now: Time, c: CallId, o: OrderId)
    requires IsTicketFor(sys.calls, c, o) && !(m.CommitPayment? && m.call == c)
    ensures IsTicketFor(Advance(cfg, sys, m, now).sys.calls, c, o)
    ensures Advance(cfg, sys, m, now).sys.calls[c] == sys.calls[c]
  {
    hide FinishPayment, ReadForPayment, Machine.Apply, BidsSpec.VehicleBidRefusal, BidsSpec.LotBidRefusal;
    hide BidsSpec.SwapVehicle, BidsSpec.SwapLot;
  }

  // ---- one order row -----------------------------------------------------------------------------

  /** The write of a scan of order o. */
  predicate ScansOn(sys: Sys, m: Move, o: OrderId) {
    m.WriteScan? && m.call in sys.calls && sys.calls[m.call] == Scanning(o)
  }

  /** The write of a completion of order o. */
  predicate CompletesOn(sys: Sys, m: Move, o: OrderId) {
    m.WriteComplete? && m.call in sys.calls && sys.calls[m.call].Completing? && sys.calls[m.call].completed == o
  }

  lemma OtherMovesKeepSales(cfg: Config, sys: Sys, m: Move, now: Time)
    requires !m.Atomic? && !m.CommitPayment? && !m.WriteScan? && !m.WriteComplete?
    ensures Advance(cfg, sys, m, now).sys.db.sales == sys.db.sales
  {
    hide FinishPayment, ReadForPayment, Machine.Apply, BidsSpec.VehicleBidRefusal, BidsSpec.LotBidRefusal;
    hide BidsSpec.SwapVehicle, BidsSpec.SwapLot, BidsSpec.Record;
  }

  lemma CommittedOrder(sys: Sys, c: CallId, rzPayment: string, signatureOk: bool, year: int, now: Time, o: OrderId)
    requires c in sys.calls && o in sys.db.sales.orders
    ensures var w := Commit(sys, c, rzPayment, signatureOk, year, now);
            && o in w.sys.db.sales.orders
            && w.sys.db.sales.orders[o]
               == if w.out == Some(Ok(Settled)) && IsTicketFor(sys.calls, c, o)
                   then PaidRow(sys.db.sales.orders[o], now)
                  else sys.db.sales.orders[o]
  {
    hide RzPaymentFree, InvoiceFree;
  }

  lemma CommitKeepsKeys(sys: Sys, c: CallId, rzPayment: string, signatureOk: bool, year: int, now: Time)
    requires c in sys.calls
    ensures var next := Commit(sys, c, rzPayment, signatureOk, year, now).sys;
            && next.db.sales.orders.Keys == sys.db.sales.orders.Keys
            && next.db.vehicles.Keys == sys.db.vehicles.Keys
  {
    hide RzPaymentFree, InvoiceFree;
  }

  lemma ScanWrite(sys: Sys, c: CallId, otp: int, now: Time, o: OrderId)
    requires c in sys.calls && o in sys.db.sales.orders
    ensures var w, a := FinishScan(sys, c, otp, now), sys.db.sales.orders[o];
            && w.out != Some(Ok(Settled)) && w.sys.db.sales.orders.Keys == sys.db.sales.orders.Keys
            && w.sys.db.sales.orders[o]
               == if sys.calls[c] == Scanning(o) then PickupSpec.ScannedRow(a, otp, now) else a
  {
    hide PickupSpec.ScannedRow;
  }

  lemma CompleteWrite(sys: Sys, c: CallId, now: Time, o: OrderId)
    requires c in sys.calls && o in sys.db.sales.orders
    ensures var w, a := FinishComplete(sys, c, now), sys.db.sales.orders[o];
            && w.out != Some(Ok(Settled)) && w.sys.db.sales.orders.Keys == sys.db.sales.orders.Keys
            && w.sys.db.sales.orders[o]
               == if sys.calls[c].Completing? && sys.calls[c].completed == o
                  then PickupSpec.CollectedRow(a, sys.calls[c].user, now) else a
  {
    hide PickupSpec.CollectedRow;
  }

  lemma SysOrderStep(cfg: Config, sys: Sys, m: Move, now: Time, o: OrderId)
    requires OrderRowsOk(sys.db.sales.orders) && o in sys.db.sales.orders
    ensures var w := Advance(cfg, sys, m, now);
            && o in w.sys.db.sales.orders
            && var a, b := sys.db.sales.orders[o], w.sys.db.sales.orders[o];
               if m.Atomic? then w.out.Some? && OrderChanged(sys.db.sales.payments, m.action, now, w.out.value, o, a, b)
               else if ScansOn(sys, m, o) then b == PickupSpec.ScannedRow(a, m.otp, now)
               else if CompletesOn(sys, m, o) then b == PickupSpec.CollectedRow(a, sys.calls[m.call].user, now)
               else b == if SettlesOn(cfg, sys, m, now, o) then PaidRow(a, now) else a
  {
    hide Machine.Apply, OrderRowsOk, OrderChanged, Commit, FinishScan, FinishComplete, BeginScan, BeginComplete;
    hide BeginPayment, FinishSweep, BeginVehicleBid, BeginLotBid, Swap, RecordRow, Extend, BeginUpdate, FinishUpdate;
    hide BeginLot, FinishLot;
    if m.Atomic? {
      OrderStep(cfg, sys.db, Machine.Event(m.action, now), o);
    } else if m.CommitPayment? {
      if m.call in sys.calls {
        CommittedOrder(sys, m.call, m.rzPayment, m.signatureOk, m.year, now, o);
      }
    } else if m.WriteScan? {
      if m.call in sys.calls {
        ScanWrite(sys, m.call, m.otp, now, o);
      }
    } else if m.WriteComplete? {
      if m.call in sys.calls {
        CompleteWrite(sys, m.call, now, o);
      }
    } else {
      OtherMovesKeepSales(cfg, sys, m, now);
    }
  }

  lemma SysNewOrder(cfg: Config, sys: Sys, m: Move, now: Time, o: OrderId)
    requires o !in sys.db.sales.orders && o in Advance(cfg, sys, m, now).sys.db.sales.orders
    ensures var w := Advance(cfg, sys, m, now);
            m.Atomic? && w.out.Some? && ChecksOut(m.action, w.out.value, o)
                && CheckedOutRow(cfg, sys.db, m.action, now, w.sys.db)
  {
    hide Machine.Apply, Commit, CheckedOutRow;
    hide BeginPayment, FinishSweep, BeginVehicleBid, BeginLotBid, Swap, RecordRow, Extend, BeginUpdate, FinishUpdate;
    hide BeginLot, FinishLot, BeginScan, BeginComplete;
    if m.Atomic? {
      NewOrderStep(cfg, sys.db, Machine.Event(m.action, now), o);
    } else if m.CommitPayment? {
      if m.call in sys.calls {
        CommitKeepsKeys(sys, m.call, m.rzPayment, m.signatureOk, m.year, now);
      }
    } else if !m.WriteScan? && !m.WriteComplete? {
      OtherMovesKeepSales(cfg, sys, m, now);
    }
  }

  // ---- one vehicle row ---------------------------------------------------------------------------

  /** The write of a sweep whose snapshot contains v. */
  predicate Releases(sys: Sys, m: Move, v: VehicleId) {
    m.WriteSweep? && m.call in sys.calls && sys.calls[m.call].Sweeping? && v in sys.calls[m.call].ids
  }

  /** The move settles an order on v. */
  ghost predicate SellsOn(cfg: Config, sys: Sys, m: Move, now: Time, v: VehicleId) {
    exists o :: SettlesOn(cfg, sys, m, now, o) && o in sys.db.sales.orders
        && sys.db.sales.orders[o].vehicleId == Some(v)
  }

  /** A hold on v that is granted. */
  ghost predicate HoldsOn(cfg: Config, sys: Sys, m: Move, now: Time, v: VehicleId) {
    && m.Atomic? && m.action.Hold? && m.action.vehicle == v
    && Advance(cfg, sys, m, now).out.Some? && Advance(cfg, sys, m, now).out.value.Ok?
  }

  /** The columns that say whether the vehicle is for sale and for whom. */
  predicate SameHold(a: Vehicle, b: Vehicle) {
    a.status == b.status && a.heldBy == b.heldBy && a.heldUntil == b.heldUntil
  }

  /** How those columns move. */
  ghost predicate HoldColumns(cfg: Config, sys: Sys, m: Move, now: Time, v: VehicleId, a: Vehicle, b: Vehicle) {
    if Releases(sys, m, v) then b == Released(a)
    else if SellsOn(cfg, sys, m, now, v) then b.status == Sold && b.heldBy == None && b.heldUntil == None
    else if HoldsOn(cfg, sys, m, now, v) then
      Holdable(a, now) && b == WithHold(a, m.action.user.id, now + cfg.holdMs)
    else if m.Atomic? && m.action.ReleaseExpiredHolds? then b == if HoldLapsed(a, now) then Released(a) else a
    else SameHold(a, b)
  }

  /** The sale type stays, or becomes that of a lot. */
  predicate SaleTypeStays(a: Vehicle, b: Vehicle) {
    b.saleType == a.saleType || b.saleType == LotSale
  }

  lemma AtomicHoldColumns(cfg: Config, sys: Sys, a: Machine.Action, now: Time, v: VehicleId)
    requires v in sys.db.vehicles
    ensures var next := Advance(cfg, sys, Atomic(a), now).sys;
            && v in next.db.vehicles
            && HoldColumns(cfg, sys, Atomic(a), now, v, sys.db.vehicles[v], next.db.vehicles[v])
            && SaleTypeStays(sys.db.vehicles[v], next.db.vehicles[v])
  {
    hide Machine.Apply;
    VehicleStep(cfg, sys.db, Machine.Event(a, now), v);
    if Sells(sys.db, a, Advance(cfg, sys, Atomic(a), now).out.value, v) {
      assert SettlesOn(cfg, sys, Atomic(a), now, a.order);
    }
  }

  lemma CommitHoldColumns(cfg: Config, sys: Sys, m: Move, now: Time, v: VehicleId)
    requires m.CommitPayment? && v in sys.db.vehicles && CallsSound(sys.db.sales, sys.calls)
    ensures var next := Advance(cfg, sys, m, now).sys;
            && v in next.db.vehicles
            && HoldColumns(cfg, sys, m, now, v, sys.db.vehicles[v], next.db.vehicles[v])
            && next.db.vehicles[v].saleType == sys.db.vehicles[v].saleType
  {
    hide RzPaymentFree, InvoiceFree, Machine.Apply;
    var w := Advance(cfg, sys, m, now);
    if w.out == Some(Ok(Settled)) {
      var ticket := sys.calls[m.call].ticket;
      assert TicketOk(sys.db.sales, ticket);
      assert SettlesOn(cfg, sys, m, now, ticket.orderId);
    }
  }

  lemma NoSaleWithoutSettlement(cfg: Config, sys: Sys, m: Move, now: Time, v: VehicleId)
    requires !m.Atomic? && !m.CommitPayment?
    ensures !SellsOn(cfg, sys, m, now, v)
  {
    hide Advance;
  }

  lemma SweepColumns(sys: Sys, c: CallId, v: VehicleId)
    requires c in sys.calls && v in sys.db.vehicles
    ensures var next := FinishSweep(sys, c).sys;
            && v in next.db.vehicles
            && next.db.vehicles[v]
               == if Releases(sys, WriteSweep(c), v) then Released(sys.db.vehicles[v]) else sys.db.vehicles[v]
  {
    hide Released;
  }

  /** The hold columns of v are left alone. */
  predicate HoldKept(sys: Sys, next: Sys, v: VehicleId)
    requires v in sys.db.vehicles
  {
    && v in next.db.vehicles && SameHold(sys.db.vehicles[v], next.db.vehicles[v])
    && SaleTypeStays(sys.db.vehicles[v], next.db.vehicles[v])
  }

  lemma WritesKeepHold(cfg: Config, sys: Sys, c: CallId, now: Time, v: VehicleId)
    requires c in sys.calls && v in sys.db.vehicles
    ensures HoldKept(sys, Swap(sys, c).sys, v) && HoldKept(sys, Extend(cfg, sys, c, now).sys, v)
    ensures HoldKept(sys, FinishUpdate(sys, c).sys, v) && HoldKept(sys, FinishLot(sys, c).sys, v)
  {
    hide BidsSpec.Placed, BidsSpec.EndAfterBid, BidsSpec.Sniped, Edits, LotsSpec.LotIdFree, LotsSpec.LotRow;
    hide BidsSpec.SwapLot, BidsSpec.ExtendLot;
  }

  /** Moves that write no vehicle. */
  predicate WritesVehicle(m: Move) {
    m.Atomic? || m.CommitPayment? || m.WriteSweep? || m.SwapBid? || m.ExtendBid? || m.WriteUpdate? || m.WriteLot?
  }

  lemma QuietVehicles(cfg: Config, sys: Sys, m: Move, now: Time)
    requires !WritesVehicle(m)
    ensures Advance(cfg, sys, m, now).sys.db.vehicles == sys.db.vehicles
  {
    hide Machine.Apply, FinishPayment, ReadForPayment, BidsSpec.VehicleBidRefusal, BidsSpec.LotBidRefusal;
    hide BidsSpec.Record, LotsSpec.LotRefusal, PickupSpec.ReadForScan, PickupSpec.CompleteRefusal;
    hide PickupSpec.ScannedRow, PickupSpec.CollectedRow, LapsedHolds;
  }

  lemma BidWritesKeepKeys(cfg: Config, sys: Sys, c: CallId, now: Time)
    requires c in sys.calls
    ensures Swap(sys, c).sys.db.vehicles.Keys == sys.db.vehicles.Keys
    ensures Extend(cfg, sys, c, now).sys.db.vehicles.Keys == sys.db.vehicles.Keys
  {
    hide BidsSpec.SwapLot, BidsSpec.ExtendLot, BidsSpec.ExtendVehicle, BidsSpec.EndAfterBid, BidsSpec.Placed;
  }

  lemma OtherWritesKeepKeys(sys: Sys, c: CallId)
    requires c in sys.calls
    ensures FinishSweep(sys, c).sys.db.vehicles.Keys == sys.db.vehicles.Keys
    ensures FinishUpdate(sys, c).sys.db.vehicles.Keys == sys.db.vehicles.Keys
    ensures FinishLot(sys, c).sys.db.vehicles.Keys == sys.db.vehicles.Keys
  {
    hide PricesWritten, Released, LotsSpec.LotIdFree, LotsSpec.LotRow;
  }

  /** No move inserts or deletes a vehicle. */
  lemma SysVehiclesStay(cfg: Config, sys: Sys, m: Move, now: Time)
    ensures Advance(cfg, sys, m, now).sys.db.vehicles.Keys == sys.db.vehicles.Keys
  {
    hide Commit, BeginPayment, FinishSweep, BeginVehicleBid, BeginLotBid, Swap, RecordRow, Extend, Machine.Apply;
    hide BeginScan, BeginComplete, BeginUpdate, BeginLot, FinishScan, FinishComplete, FinishUpdate, FinishLot;
    hide LapsedHolds;
    if m.Atomic? {
      VehiclesStay(cfg, sys.db, Machine.Event(m.action, now));
    } else if !WritesVehicle(m) {
      QuietVehicles(cfg, sys, m, now);
    } else if m.call in sys.calls {
      if m.CommitPayment? {
        CommitKeepsKeys(sys, m.call, m.rzPayment, m.signatureOk, m.year, now);
      } else {
        BidWritesKeepKeys(cfg, sys, m.call, now);
        OtherWritesKeepKeys(sys, m.call);
      }
    }
  }

  lemma OtherHoldColumns(cfg: Config, sys: Sys, m: Move, now: Time, v: VehicleId)
    requires !m.Atomic? && !m.CommitPayment? && v in sys.db.vehicles
    ensures var next := Advance(cfg, sys, m, now).sys;
            && v in next.db.vehicles
            && HoldColumns(cfg, sys, m, now, v, sys.db.vehicles[v], next.db.vehicles[v])
            && SaleTypeStays(sys.db.vehicles[v], next.db.vehicles[v])
  {
    hide WholeCall, Commit, BeginPayment, FinishSweep, BeginVehicleBid, BeginLotBid, Swap, RecordRow, Extend;
    hide BeginScan, BeginComplete, BeginUpdate, BeginLot, FinishScan, FinishComplete, FinishUpdate, FinishLot;
    hide SellsOn, LapsedHolds;
    NoSaleWithoutSettlement(cfg, sys, m, now, v);
    if !WritesVehicle(m) {
      QuietVehicles(cfg, sys, m, now);
    } else if m.call in sys.calls {
      if m.WriteSweep? {
        SweepColumns(sys, m.call, v);
      } else {
        WritesKeepHold(cfg, sys, m.call, now, v);
      }
    }
  }

  lemma SysVehicleStep(cfg: Config, sys: Sys, m: Move, now: Time, v: VehicleId)
    requires v in sys.db.vehicles && CallsSound(sys.db.sales, sys.calls)
    ensures var next := Advance(cfg, sys, m, now).sys;
            && v in next.db.vehicles
            && HoldColumns(cfg, sys, m, now, v, sys.db.vehicles[v], next.db.vehicles[v])
            && SaleTypeStays(sys.db.vehicles[v], next.db.vehicles[v])
  {
    hide Advance, HoldColumns, CallsSound;
    if m.Atomic? {
      AtomicHoldColumns(cfg, sys, m.action, now, v);
    } else if m.CommitPayment? {
      CommitHoldColumns(cfg, sys, m, now, v);
    } else {
      OtherHoldColumns(cfg, sys, m, now, v);
    }
  }
}
