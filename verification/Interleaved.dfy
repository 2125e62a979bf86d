/** L2: payments, sweeps, bids, pickups, price updates and lot creations are cut into their reads and writes, which
    interleave freely with each other and with whole calls. The calls that are cut take no lock; a hold and a checkout
    are whole calls, as the lock around them makes them. */
module Interleaved {
  import opened Rows
  import opened AttemptGate
  import Machine
  import BidsSpec
  import VehiclesSpec
  import OrdersSpec
  import PickupSpec
  import LotsSpec

  type CallId = int

  datatype Phase = ToSwap | ToRecord | ToExtend

  /** What a call in flight carries from its read to its writes. */
  datatype Call =
    | Paying(user: UserId, ticket: OrdersSpec.Ticket)
    | Sweeping(ids: set<VehicleId>)
    | BiddingOnVehicle(user: UserId, vehicle: VehicleId, amount: int, seenVehicle: Vehicle, phase: Phase)
    | BiddingOnLot(user: UserId, lot: LotId, amount: int, seenLot: Lot, phase: Phase)
    | Scanning(scanned: OrderId)
    | Completing(user: UserId, completed: OrderId)
    | Updating(vehicle: VehicleId, frozen: bool, reserve: Option<int>, buyNow: Option<int>)
    | CreatingLot(bankId: BankId, request: LotsSpec.NewLot)

  datatype Sys = Sys(db: Db, calls: map<CallId, Call>)

  datatype Move =
    | Atomic(action: Machine.Action)
    | ReadPayment(call: CallId, user: User, order: OrderId)
    | CommitPayment(call: CallId, rzPayment: string, signatureOk: bool, year: int)
    | ReadSweep(call: CallId)
    | WriteSweep(call: CallId)
    | ReadVehicleBid(call: CallId, user: User, vehicle: VehicleId, amount: int)
    | ReadLotBid(call: CallId, user: User, lot: LotId, amount: int)
    | SwapBid(call: CallId)
    | RecordBid(call: CallId)
    | ExtendBid(call: CallId)
    | ReadScan(call: CallId, user: User, pass: Pass)
    | WriteScan(call: CallId, otp: int)
    | ReadComplete(call: CallId, user: User, order: OrderId, code: int)
    | WriteComplete(call: CallId)
    | ReadUpdate(call: CallId, user: User, vehicle: VehicleId, reserve: Option<int>, buyNow: Option<int>)
    | WriteUpdate(call: CallId)
    | ReadLot(call: CallId, user: User, request: LotsSpec.NewLot)
    | WriteLot(call: CallId)

  /** The system after a move; `out` is the answer of a call that ends with it. */
  datatype Advanced = Advanced(sys: Sys, out: Option<Outcome>)

  function Begun(sys: Sys, c: CallId, call: Call): Advanced {
    Advanced(sys.(calls := sys.calls[c := call]), None)
  }

  function EndedCall(sys: Sys, c: CallId, db: Db, out: Outcome): Advanced {
    Advanced(Sys(db, sys.calls - {c}), Some(out))
  }

  function BeginVehicleBid(cfg: Config, sys: Sys, c: CallId, user: User, id: VehicleId, amount: int,
                           now: Time): Advanced {
    if amount <= 0 then Advanced(sys, Some(Err(BadRequest)))
    else
      var counted := sys.(db := sys.db.(counters := Attempt(sys.db.counters, BidGate(user.id), now)));
      if counted.db.counters[BidGate(user.id)].count > cfg.bidThreshold
          then Advanced(counted, Some(Err(TooManyAttempts)))
      else if id !in sys.db.vehicles then Advanced(counted, Some(Err(NotFound)))
      else match BidsSpec.VehicleBidRefusal(cfg, sys.db.vehicles[id], user, amount, now)
        case Some(e) => Advanced(counted, Some(Err(e)))
        case None => Begun(counted, c, BiddingOnVehicle(user.id, id, amount, sys.db.vehicles[id], ToSwap))
  }

  function BeginLotBid(cfg: Config, sys: Sys, c: CallId, user: User, id: LotId, amount: int, now: Time): Advanced {
    if amount <= 0 then Advanced(sys, Some(Err(BadRequest)))
    else if id !in sys.db.lots then Advanced(sys, Some(Err(NotFound)))
    else match BidsSpec.LotBidRefusal(cfg, sys.db.lots[id], (id, user.id) in sys.db.approvals, user, amount, now)
      case Some(e) => Advanced(sys, Some(Err(e)))
      case None => Begun(sys, c, BiddingOnLot(user.id, id, amount, sys.db.lots[id], ToSwap))
  }

  /** The conditional update of a bid in flight. */
  function Swap(sys: Sys, c: CallId): Advanced
    requires c in sys.calls
  {
    match sys.calls[c]
    case BiddingOnVehicle(user, id, amount, seen, ToSwap) =>
      if id !in sys.db.vehicles then EndedCall(sys, c, sys.db, Err(Conflict))
      else (match BidsSpec.SwapVehicle(sys.db.vehicles[id], seen, user, amount)
        case None => EndedCall(sys, c, sys.db, Err(Conflict))
        case Some(v) =>
          Advanced(Sys(sys.db.(vehicles := sys.db.vehicles[id := v]),
              sys.calls[c := BiddingOnVehicle(user, id, amount, seen, ToRecord)]), None))
    case BiddingOnLot(user, id, amount, seen, ToSwap) =>
      if id !in sys.db.lots then EndedCall(sys, c, sys.db, Err(Conflict))
      else (match BidsSpec.SwapLot(sys.db.lots[id], seen, user, amount)
        case None => EndedCall(sys, c, sys.db, Err(Conflict))
        case Some(lot) =>
          Advanced(Sys(sys.db.(lots := sys.db.lots[id := lot]),
              sys.calls[c := BiddingOnLot(user, id, amount, seen, ToRecord)]), None))
    case _ => Advanced(sys, None)
  }

  /** The ledger transaction of a bid in flight. */
  function RecordRow(sys: Sys, c: CallId): Advanced
    requires c in sys.calls
  {
    match sys.calls[c]
    case BiddingOnVehicle(user, id, amount, seen, ToRecord) =>
      Advanced(Sys(sys.db.(bids := BidsSpec.Record(sys.db.bids, OnVehicle(id), user, amount)),
                   sys.calls[c := BiddingOnVehicle(user, id, amount, seen, ToExtend)]), None)
    case BiddingOnLot(user, id, amount, seen, ToRecord) =>
      Advanced(Sys(sys.db.(bids := BidsSpec.Record(sys.db.bids, OnLot(id), user, amount)),
                   sys.calls[c := BiddingOnLot(user, id, amount, seen, ToExtend)]), None)
    case _ => Advanced(sys, None)
  }

  /** The anti-snipe write of a bid in flight. */
  function Extend(cfg: Config, sys: Sys, c: CallId, now: Time): Advanced
    requires c in sys.calls
  {
    match sys.calls[c]
    case BiddingOnVehicle(_, id, amount, seen, ToExtend) =>
      var db := if id in sys.db.vehicles
                then sys.db.(vehicles :=
                    sys.db.vehicles[id := BidsSpec.ExtendVehicle(cfg, sys.db.vehicles[id], seen, now)])
                else sys.db;
      EndedCall(sys, c, db, Ok(BidPlaced(amount, BidsSpec.EndAfterBid(seen.auction.endAt, cfg, now))))
    case BiddingOnLot(_, id, amount, seen, ToExtend) =>
      var db := if id in sys.db.lots
                then sys.db.(lots := sys.db.lots[id := BidsSpec.ExtendLot(cfg, sys.db.lots[id], seen, now)])
                else sys.db;
      EndedCall(sys, c, db, Ok(BidPlaced(amount, BidsSpec.EndAfterBid(seen.auction.endAt, cfg, now))))
    case _ => Advanced(sys, None)
  }

  ghost function BeginPayment(sys: Sys, c: CallId, user: UserId, order: OrderId): Advanced {
    match OrdersSpec.ReadForPayment(sys.db.sales.orders, sys.db.sales.payments, user, order)
    case Failure(e) => Advanced(sys, Some(Err(e)))
    case Success(ticket) => Begun(sys, c, Paying(user, ticket))
  }

  function Commit(sys: Sys, c: CallId, rzPayment: string, signatureOk: bool, year: int, now: Time): Advanced
    requires c in sys.calls
  {
    if !sys.calls[c].Paying? then Advanced(sys, None)
    else
      var w := OrdersSpec.FinishPayment(sys.db.sales, sys.db.vehicles, sys.calls[c].ticket, sys.calls[c].user,
          rzPayment, signatureOk, year, now);
      EndedCall(sys, c, sys.db.(sales := w.rows.0, vehicles := w.rows.1), w.out)
  }

  function FinishSweep(sys: Sys, c: CallId): Advanced
    requires c in sys.calls
  {
    if !sys.calls[c].Sweeping? then Advanced(sys, None)
    else EndedCall(sys, c, sys.db.(vehicles := VehiclesSpec.Release(sys.db.vehicles, sys.calls[c].ids)),
        Ok(Swept(|sys.calls[c].ids|)))
  }

  // ---- pickup -----------------------------------------------------------------------------------------

  ghost function BeginScan(sys: Sys, c: CallId, user: User, pass: Pass): Advanced {
    match PickupSpec.ReadForScan(sys.db.sales.orders, user, pass)
    case Failure(e) => Advanced(sys, Some(Err(e)))
    case Success(id) => Begun(sys, c, Scanning(id))
  }

  function BeginComplete(sys: Sys, c: CallId, user: User, order: OrderId, otp: int, now: Time): Advanced {
    match PickupSpec.CompleteRefusal(sys.db.sales.orders, user, order, otp, now)
    case Some(e) => Advanced(sys, Some(Err(e)))
    case None => Begun(sys, c, Completing(user.id, order))
  }

  function WithOrder(sys: Sys, o: OrderId, row: Order): Db {
    sys.db.(sales := sys.db.sales.(orders := sys.db.sales.orders[o := row]))
  }

  function FinishScan(sys: Sys, c: CallId, otp: int, now: Time): Advanced
    requires c in sys.calls
  {
    if !sys.calls[c].Scanning? then Advanced(sys, None)
    else
      var o := sys.calls[c].scanned;
      if o !in sys.db.sales.orders then EndedCall(sys, c, sys.db, Err(RecordMissing))
      else EndedCall(sys, c, WithOrder(sys, o, PickupSpec.ScannedRow(sys.db.sales.orders[o], otp, now)),
                     Ok(OtpIssued(now + PickupSpec.OTP_LIFETIME_MS)))
  }

  function FinishComplete(sys: Sys, c: CallId, now: Time): Advanced
    requires c in sys.calls
  {
    if !sys.calls[c].Completing? then Advanced(sys, None)
    else
      var o := sys.calls[c].completed;
      if o !in sys.db.sales.orders then EndedCall(sys, c, sys.db, Err(RecordMissing))
      else EndedCall(sys, c,
          WithOrder(sys, o, PickupSpec.CollectedRow(sys.db.sales.orders[o], sys.calls[c].user, now)), Ok(HandedOver))
  }

  // ---- price updates and lot creation -------------------------------------------------------------------

  function BeginUpdate(sys: Sys, c: CallId, user: User, id: VehicleId, reserve: Option<int>,
                       buyNow: Option<int>): Advanced {
    if id !in sys.db.vehicles then Advanced(sys, Some(Err(NotFound)))
    else if !VehiclesSpec.MayEdit(user, sys.db.vehicles[id].bankId) then Advanced(sys, Some(Err(Forbidden)))
    else Begun(sys, c, Updating(id, sys.db.vehicles[id].auction.bidCount > 0, reserve, buyNow))
  }

  function FinishUpdate(sys: Sys, c: CallId): Advanced
    requires c in sys.calls
  {
    match sys.calls[c]
    case Updating(id, frozen, reserve, buyNow) =>
      if id !in sys.db.vehicles then EndedCall(sys, c, sys.db, Err(RecordMissing))
      else
        var row := VehiclesSpec.PricesWritten(sys.db.vehicles[id], frozen, reserve, buyNow);
        EndedCall(sys, c, sys.db.(vehicles := sys.db.vehicles[id := row]), Ok(Updated))
    case _ => Advanced(sys, None)
  }

  function BeginLot(sys: Sys, c: CallId, user: User, req: LotsSpec.NewLot): Advanced {
    match LotsSpec.LotRefusal(sys.db.vehicles, user, req)
    case Some(e) => Advanced(sys, Some(Err(e)))
    case None => Begun(sys, c, CreatingLot(user.bankId.value, req))
  }

  function FinishLot(sys: Sys, c: CallId): Advanced
    requires c in sys.calls
  {
    match sys.calls[c]
    case CreatingLot(bankId, req) =>
      var w := LotsSpec.InsertLot(sys.db.vehicles, sys.db.lots, bankId, req);
      EndedCall(sys, c, sys.db.(vehicles := w.rows.0, lots := w.rows.1), w.out)
    case _ => Advanced(sys, None)
  }

  ghost function WholeCall(cfg: Config, sys: Sys, a: Machine.Action, now: Time): Advanced {
    var s := Machine.Apply(cfg, sys.db, Machine.Event(a, now));
    Advanced(sys.(db := s.db), Some(s.out))
  }

  predicate Begins(m: Move) {
    || m.ReadPayment? || m.ReadSweep? || m.ReadVehicleBid? || m.ReadLotBid?
    || m.ReadScan? || m.ReadComplete? || m.ReadUpdate? || m.ReadLot?
  }

  predicate Continues(m: Move) {
    || m.CommitPayment? || m.WriteSweep? || m.SwapBid? || m.RecordBid? || m.ExtendBid?
    || m.WriteScan? || m.WriteComplete? || m.WriteUpdate? || m.WriteLot?
  }

  /** One move. A read under a call number in use and a write of a call not in flight do nothing. */
  ghost function Advance(cfg: Config, sys: Sys, m: Move, now: Time): Advanced {
    if (Begins(m) && m.call in sys.calls) || (Continues(m) && m.call !in sys.calls) then Advanced(sys, None)
    else match m
      case Atomic(a) => WholeCall(cfg, sys, a, now)
      case ReadPayment(c, user, order) => BeginPayment(sys, c, user.id, order)
      case CommitPayment(c, rzPayment, signatureOk, year) => Commit(sys, c, rzPayment, signatureOk, year, now)
      case ReadSweep(c) => Begun(sys, c, Sweeping(VehiclesSpec.LapsedHolds(sys.db.vehicles, now)))
      case WriteSweep(c) => FinishSweep(sys, c)
      case ReadVehicleBid(c, user, id, amount) => BeginVehicleBid(cfg, sys, c, user, id, amount, now)
      case ReadLotBid(c, user, id, amount) => BeginLotBid(cfg, sys, c, user, id, amount, now)
      case SwapBid(c) => Swap(sys, c)
      case RecordBid(c) => RecordRow(sys, c)
      case ExtendBid(c) => Extend(cfg, sys, c, now)
      case ReadScan(c, user, pass) => BeginScan(sys, c, user, pass)
      case WriteScan(c, otp) => FinishScan(sys, c, otp, now)
      case ReadComplete(c, user, order, code) => BeginComplete(sys, c, user, order, code, now)
      case WriteComplete(c) => FinishComplete(sys, c, now)
      case ReadUpdate(c, user, id, reserve, buyNow) => BeginUpdate(sys, c, user, id, reserve, buyNow)
      case WriteUpdate(c) => FinishUpdate(sys, c)
      case ReadLot(c, user, request) => BeginLot(sys, c, user, request)
      case WriteLot(c) => FinishLot(sys, c)
  }

  datatype Tick = Tick(move: Move, now: Time)

  /** The clock never runs back. */
  predicate InTimeOrder(ts: seq<Tick>) {
    forall i, j :: 0 <= i <= j < |ts| ==> ts[i].now <= ts[j].now
  }

  ghost function SysAt(cfg: Config, start: Sys, ts: seq<Tick>, n: nat): Sys
    requires n <= |ts|
  {
    if n == 0 then start else Advance(cfg, SysAt(cfg, start, ts, n - 1), ts[n - 1].move, ts[n - 1].now).sys
  }

  ghost function AnswerAt(cfg: Config, start: Sys, ts: seq<Tick>, n: nat): Option<Outcome>
    requires n < |ts|
  {
    Advance(cfg, SysAt(cfg, start, ts, n), ts[n].move, ts[n].now).out
  }

  lemma FirstSys(cfg: Config, start: Sys, ts: seq<Tick>)
    ensures SysAt(cfg, start, ts, 0) == start
  {
    hide Advance;
  }

  lemma NextSys(cfg: Config, start: Sys, ts: seq<Tick>, n: nat)
    requires n < |ts|
    ensures SysAt(cfg, start, ts, n + 1) == Advance(cfg, SysAt(cfg, start, ts, n), ts[n].move, ts[n].now).sys
  {
    hide Advance;
  }

  /** Every state of a run. */
  lemma Ticks(cfg: Config, start: Sys, ts: seq<Tick>)
    ensures SysAt(cfg, start, ts, 0) == start
    ensures forall n: nat :: n < |ts| ==>
              SysAt(cfg, start, ts, n + 1) == Advance(cfg, SysAt(cfg, start, ts, n), ts[n].move, ts[n].now).sys
  {
    hide Advance;
  }

  /** A state depends only on the moves before it. */
  lemma {:induction false} SameMoves(cfg: Config, start: Sys, xs: seq<Tick>, ys: seq<Tick>, n: nat)
    requires n <= |xs| && n <= |ys| && xs[..n] == ys[..n]
    ensures SysAt(cfg, start, xs, n) == SysAt(cfg, start, ys, n)
  {
    hide Advance;
    if n > 0 {
      assert xs[..n - 1] == xs[..n][..n - 1] == ys[..n][..n - 1] == ys[..n - 1];
      SameMoves(cfg, start, xs, ys, n - 1);
      assert xs[n - 1] == xs[..n][n - 1] == ys[..n][n - 1] == ys[n - 1];
    }
  }

  // ---- the phases back to back are the whole call -----------------------------------------------------

  lemma CallForgotten(calls: map<CallId, Call>, c: CallId, call: Call)
    requires c !in calls
    ensures calls[c := call] - {c} == calls
  {
  }

  lemma PaymentPhasesCompose(cfg: Config, sys: Sys, c: CallId, user: User, order: OrderId, rzPayment: string,
                             signatureOk: bool, year: int, now: Time)
    requires c !in sys.calls
    ensures var whole :=
        Machine.Apply(cfg, sys.db,
            Machine.Event(Machine.VerifyPayment(user, order, rzPayment, signatureOk, year), now));
            var read := Advance(cfg, sys, ReadPayment(c, user, order), now);
            var done := Advance(cfg, read.sys, CommitPayment(c, rzPayment, signatureOk, year), now);
            if read.out.Some? then read.sys.db == whole.db && read.out == Some(whole.out)
            else done.sys.db == whole.db && done.out == Some(whole.out) && done.sys.calls == sys.calls
  {
    hide OrdersSpec.FinishPayment;
    assert sys.db == sys.db.(sales := sys.db.sales, vehicles := sys.db.vehicles);
    var read := OrdersSpec.ReadForPayment(sys.db.sales.orders, sys.db.sales.payments, user.id, order);
    if read.Success? {
      CallForgotten(sys.calls, c, Paying(user.id, read.value));
    }
  }

  lemma SweepPhasesCompose(cfg: Config, sys: Sys, c: CallId, now: Time)
    requires c !in sys.calls
    ensures var whole := Machine.Apply(cfg, sys.db, Machine.Event(Machine.ReleaseExpiredHolds, now));
            var done := Advance(cfg, Advance(cfg, sys, ReadSweep(c), now).sys, WriteSweep(c), now);
            done.sys.db == whole.db && done.out == Some(whole.out) && done.sys.calls == sys.calls
  {
    CallForgotten(sys.calls, c, Sweeping(VehiclesSpec.LapsedHolds(sys.db.vehicles, now)));
  }

  lemma ScanPhasesCompose(cfg: Config, sys: Sys, c: CallId, user: User, pass: Pass, otp: int, now: Time)
    requires c !in sys.calls
    ensures var whole := Machine.Apply(cfg, sys.db, Machine.Event(Machine.Scan(user, pass, otp), now));
            var read := Advance(cfg, sys, ReadScan(c, user, pass), now);
            var done := Advance(cfg, read.sys, WriteScan(c, otp), now);
            if read.out.Some? then read.sys.db == whole.db && read.out == Some(whole.out)
            else done.sys.db == whole.db && done.out == Some(whole.out) && done.sys.calls == sys.calls
  {
    hide Commit, BeginPayment, FinishSweep, BeginVehicleBid, BeginLotBid, Swap, RecordRow, Extend;
    hide BidsSpec.BidOnVehicle, BidsSpec.BidOnLot, OrdersSpec.VerifyPayment, OrdersSpec.StartCheckout;
    hide BeginComplete, BeginUpdate, BeginLot, FinishComplete, FinishUpdate, FinishLot;
    hide PickupSpec.Complete, LotsSpec.CreateLot, VehiclesSpec.UpdatePrices;
    hide PickupSpec.ScannedRow;
    assert sys.db == sys.db.(sales := sys.db.sales.(orders := sys.db.sales.orders));
    var read := PickupSpec.ReadForScan(sys.db.sales.orders, user, pass);
    if read.Success? {
      CallForgotten(sys.calls, c, Scanning(read.value));
    }
  }

  lemma CompletePhasesCompose(cfg: Config, sys: Sys, c: CallId, user: User, order: OrderId, code: int, now: Time)
    requires c !in sys.calls
    ensures var whole := Machine.Apply(cfg, sys.db, Machine.Event(Machine.Complete(user, order, code), now));
            var read := Advance(cfg, sys, ReadComplete(c, user, order, code), now);
            var done := Advance(cfg, read.sys, WriteComplete(c), now);
            if read.out.Some? then read.sys.db == whole.db && read.out == Some(whole.out)
            else done.sys.db == whole.db && done.out == Some(whole.out) && done.sys.calls == sys.calls
  {
    hide Commit, BeginPayment, FinishSweep, BeginVehicleBid, BeginLotBid, Swap, RecordRow, Extend;
    hide BidsSpec.BidOnVehicle, BidsSpec.BidOnLot, OrdersSpec.VerifyPayment, OrdersSpec.StartCheckout;
    hide BeginScan, BeginUpdate, BeginLot, FinishScan, FinishUpdate, FinishLot;
    hide PickupSpec.Scan, LotsSpec.CreateLot, VehiclesSpec.UpdatePrices;
    hide PickupSpec.CollectedRow;
    assert sys.db == sys.db.(sales := sys.db.sales.(orders := sys.db.sales.orders));
    CallForgotten(sys.calls, c, Completing(user.id, order));
  }

  lemma UpdatePhases(sys: Sys, c: CallId, user: User, v: VehicleId, reserve: Option<int>, buyNow: Option<int>)
    requires c !in sys.calls
    ensures var w := VehiclesSpec.UpdatePrices(sys.db.vehicles, user, v, reserve, buyNow);
            var read := BeginUpdate(sys, c, user, v, reserve, buyNow);
            if read.out.Some? then
              read == Advanced(sys, Some(w.out)) && w.rows == sys.db.vehicles
            else
              && c in read.sys.calls
              && FinishUpdate(read.sys, c) == Advanced(Sys(sys.db.(vehicles := w.rows), sys.calls), Some(w.out))
  {
    hide VehiclesSpec.MayEdit, VehiclesSpec.PricesWritten;
    if v in sys.db.vehicles {
      CallForgotten(sys.calls, c, Updating(v, sys.db.vehicles[v].auction.bidCount > 0, reserve, buyNow));
    }
  }

  lemma UpdatePhasesCompose(cfg: Config, sys: Sys, c: CallId, user: User, v: VehicleId, reserve: Option<int>,
                            buyNow: Option<int>, now: Time)
    requires c !in sys.calls
    ensures var whole := Machine.Apply(cfg, sys.db, Machine.Event(Machine.UpdatePrices(user, v, reserve, buyNow), now));
            var read := Advance(cfg, sys, ReadUpdate(c, user, v, reserve, buyNow), now);
            var done := Advance(cfg, read.sys, WriteUpdate(c), now);
            if read.out.Some? then read.sys.db == whole.db && read.out == Some(whole.out)
            else done.sys.db == whole.db && done.out == Some(whole.out) && done.sys.calls == sys.calls
  {
    hide VehiclesSpec.UpdatePrices, Commit, BeginPayment, FinishSweep, BeginVehicleBid, BeginLotBid, Swap, RecordRow;
    hide Extend, BeginComplete, BeginScan, BeginLot, FinishComplete, FinishScan, FinishLot, BeginUpdate, FinishUpdate;
    UpdatePhases(sys, c, user, v, reserve, buyNow);
    assert sys.db == sys.db.(vehicles := sys.db.vehicles);
  }

  lemma LotPhasesCompose(cfg: Config, sys: Sys, c: CallId, user: User, req: LotsSpec.NewLot, now: Time)
    requires c !in sys.calls
    ensures var whole := Machine.Apply(cfg, sys.db, Machine.Event(Machine.CreateLot(user, req), now));
            var read := Advance(cfg, sys, ReadLot(c, user, req), now);
            var done := Advance(cfg, read.sys, WriteLot(c), now);
            if read.out.Some? then read.sys.db == whole.db && read.out == Some(whole.out)
            else done.sys.db == whole.db && done.out == Some(whole.out) && done.sys.calls == sys.calls
  {
    hide Commit, BeginPayment, FinishSweep, BeginVehicleBid, BeginLotBid, Swap, RecordRow, Extend;
    hide BidsSpec.BidOnVehicle, BidsSpec.BidOnLot, OrdersSpec.VerifyPayment, OrdersSpec.StartCheckout;
    hide BeginComplete, BeginUpdate, BeginScan, FinishComplete, FinishUpdate, FinishScan;
    hide PickupSpec.Complete, PickupSpec.Scan, VehiclesSpec.UpdatePrices;
    hide LotsSpec.InsertLot, LotsSpec.EligibleIds;
    assert sys.db == sys.db.(vehicles := sys.db.vehicles, lots := sys.db.lots);
    if user.bankId.Some? {
      CallForgotten(sys.calls, c, CreatingLot(user.bankId.value, req));
    }
  }
}
