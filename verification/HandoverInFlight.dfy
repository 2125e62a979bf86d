/** L2 theorem: how every collected order came to be collected, with scans and completions cut in two. */
module HandoverInFlight {
  import opened Rows
  import opened PickupSpec
  import opened SalesTheory
  import opened OrderView
  import opened Interleaved
  import opened SysView
  import opened SettlementOnce
  import opened LifecycleInFlight
  import opened PickupInFlight
  import Machine
  import OrdersSpec

  // ---- codes ---------------------------------------------------------------------------------------------

  predicate IsScanMove(m: Move) {
    m.WriteScan? || (m.Atomic? && m.action.Scan?)
  }

  function CodeOf(m: Move): int
    requires IsScanMove(m)
  {
    if m.WriteScan? then m.otp else m.action.otp
  }

  /** The move writes a new code on order o. */
  ghost predicate WritesCode(cfg: Config, sys: Sys, m: Move, now: Time, o: OrderId) {
    && IsScanMove(m) && o in sys.db.sales.orders
    && (m.Atomic? ==>
          var out := Advance(cfg, sys, m, now).out;
          out.Some? && ScansOrder(m.action, out.value, sys.db.sales.orders[o]))
    && (m.WriteScan? ==> ScansOn(sys, m, o))
  }

  predicate SameCode(a: Order, b: Order) {
    a.otpHash == b.otpHash && a.otpExpiresAt == b.otpExpiresAt
  }

  lemma CompletionAnswer(cfg: Config, sys: Sys, a: Machine.Action, now: Time)
    requires a.Complete? && Advance(cfg, sys, Atomic(a), now).out.value.Ok?
    ensures Advance(cfg, sys, Atomic(a), now).out == Some(Ok(HandedOver))
  {
  }

  /** A code is set by a scan and cleared by a handover; COLLECTED is entered by a handover. */
  lemma CodeMoves(cfg: Config, sys: Sys, m: Move, now: Time, o: OrderId)
    requires SysInv(sys) && o in sys.db.sales.orders
    ensures var next := Advance(cfg, sys, m, now).sys;
            && o in next.db.sales.orders
            && var a, b := sys.db.sales.orders[o], next.db.sales.orders[o];
               && (WritesCode(cfg, sys, m, now, o) ==>
                     && b.otpHash == Some(OtpHash(CodeOf(m))) && b.otpExpiresAt == Some(now + OTP_LIFETIME_MS)
                     && (m.Atomic? ==> m.action.user.bankId == Some(a.bankId)))
               && (!WritesCode(cfg, sys, m, now, o) ==> b.otpHash == None || SameCode(a, b))
               && (b.status == Collected && a.status != Collected ==> HandsOverOn(cfg, sys, m, now, o))
  {
    hide Advance, SysInv, OrdersSpec.HasPendingPayment;
    SysInvGives(sys);
    OrderRowsOfInv(sys.db.sales);
    SysOrderStep(cfg, sys, m, now, o);
    if CompletesOn(sys, m, o) {
      WriteHandsOver(cfg, sys, m, now, o);
    }
    if m.Atomic? && m.action.Complete? && Advance(cfg, sys, m, now).out.value.Ok? {
      CompletionAnswer(cfg, sys, m.action, now);
    }
  }

  ghost predicate WritesCodeAt(cfg: Config, start: Sys, ts: seq<Tick>, i: nat, o: OrderId) {
    i < |ts| && WritesCode(cfg, SysAt(cfg, start, ts, i), ts[i].move, ts[i].now, o)
  }

  /** Move i writes the last code before move n. */
  ghost predicate LastCode(cfg: Config, start: Sys, ts: seq<Tick>, i: nat, n: nat, o: OrderId) {
    i < n && WritesCodeAt(cfg, start, ts, i, o) && forall k: nat :: i < k < n ==> !WritesCodeAt(cfg, start, ts, k, o)
  }

  lemma CodeIsScan(cfg: Config, start: Sys, ts: seq<Tick>, i: nat, o: OrderId)
    requires WritesCodeAt(cfg, start, ts, i, o)
    ensures i < |ts| && IsScanMove(ts[i].move) && o in SysAt(cfg, start, ts, i).db.sales.orders
  {
    hide Advance;
  }

  /** The row carries the code of scan i, and its deadline. */
  ghost predicate CodeFrom(cfg: Config, start: Sys, ts: seq<Tick>, i: nat, n: nat, o: OrderId, row: Order) {
    && LastCode(cfg, start, ts, i, n, o) && i < |ts| && IsScanMove(ts[i].move)
    && row.otpHash == Some(OtpHash(CodeOf(ts[i].move))) && row.otpExpiresAt == Some(ts[i].now + OTP_LIFETIME_MS)
  }

  lemma NewOrderBlank(cfg: Config, sys: Sys, m: Move, now: Time, o: OrderId)
    requires o !in sys.db.sales.orders && o in Advance(cfg, sys, m, now).sys.db.sales.orders
    ensures var row := Advance(cfg, sys, m, now).sys.db.sales.orders[o]; row.status == Held && row.otpHash == None
  {
    hide Advance, OrdersSpec.Entitlement, OrdersSpec.HasOpenOrder, OrdersSpec.IdsFree;
    SysNewOrder(cfg, sys, m, now, o);
  }

  lemma {:induction false} CodeHasScan(cfg: Config, start: Sys, ts: seq<Tick>, n: nat, o: OrderId)
    requires SysInv(start) && o !in start.db.sales.orders
    requires n <= |ts| && o in SysAt(cfg, start, ts, n).db.sales.orders
    requires SysAt(cfg, start, ts, n).db.sales.orders[o].otpHash.Some?
    ensures exists i: nat :: CodeFrom(cfg, start, ts, i, n, o, SysAt(cfg, start, ts, n).db.sales.orders[o])
  {
    hide Advance, SysInv, WritesCode;
    var sys, m, now := SysAt(cfg, start, ts, n - 1), ts[n - 1].move, ts[n - 1].now;
    var row := SysAt(cfg, start, ts, n).db.sales.orders[o];
    if o !in sys.db.sales.orders {
      NewOrderBlank(cfg, sys, m, now, o);
    } else {
      SysInvAlways(cfg, start, ts, n - 1);
      CodeMoves(cfg, sys, m, now, o);
      if WritesCode(cfg, sys, m, now, o) {
        CodeIsScan(cfg, start, ts, n - 1, o);
        assert CodeFrom(cfg, start, ts, n - 1, n, o, row);
      } else {
        CodeHasScan(cfg, start, ts, n - 1, o);
        var i: nat :| CodeFrom(cfg, start, ts, i, n - 1, o, sys.db.sales.orders[o]);
        assert CodeFrom(cfg, start, ts, i, n, o, row);
      }
    }
  }

  // ---- reads ---------------------------------------------------------------------------------------------------

  /** Move j is the read of pickup call `call` on order o: every guard is met. */
  ghost predicate PickupReadAt(cfg: Config, start: Sys, ts: seq<Tick>, j: nat, c: CallId, o: OrderId, call: Call) {
    && j < |ts| && c !in SysAt(cfg, start, ts, j).calls
    && var orders, m := SysAt(cfg, start, ts, j).db.sales.orders, ts[j].move;
       || (m.ReadScan? && m.call == c && call == Scanning(o) && ReadForScan(orders, m.user, m.pass) == Success(o))
       || (m.ReadComplete? && m.call == c && m.order == o && call == Completing(m.user.id, o)
           && CompleteRefusal(orders, m.user, o, m.code, ts[j].now) == None)
  }

  lemma {:induction false} PickupWasRead(cfg: Config, start: Sys, ts: seq<Tick>, n: nat, c: CallId, o: OrderId)
    requires n <= |ts| && IsPickupOf(SysAt(cfg, start, ts, n).calls, c, o) && !IsPickupOf(start.calls, c, o)
    ensures exists j: nat :: j < n && PickupReadAt(cfg, start, ts, j, c, o, SysAt(cfg, start, ts, n).calls[c])
  {
    hide Advance, ReadForScan, CompleteRefusal;
    if n > 0 {
      var sys := SysAt(cfg, start, ts, n - 1);
      PickupBefore(cfg, sys, ts[n - 1].move, ts[n - 1].now, c, o);
      if IsPickupOf(sys.calls, c, o) && SysAt(cfg, start, ts, n).calls[c] == sys.calls[c] {
        PickupWasRead(cfg, start, ts, n - 1, c, o);
      } else {
        assert PickupReadAt(cfg, start, ts, n - 1, c, o, SysAt(cfg, start, ts, n).calls[c]);
      }
    }
  }

  /** A pickup in flight from the start is of an order that exists. */
  lemma NoPickupOfNewOrder(sys: Sys, c: CallId, o: OrderId)
    requires SysInv(sys) && o !in sys.db.sales.orders
    ensures !IsPickupOf(sys.calls, c, o)
  {
    hide SalesInv;
  }

  // ---- the check of a completion, and the staff of a scan --------------------------------------------------------

  predicate IsCompletion(m: Move, o: OrderId) {
    (m.ReadComplete? && m.order == o) || (m.Atomic? && m.action.Complete? && m.action.order == o)
  }

  function CodeGiven(m: Move): int
    requires m.ReadComplete? || (m.Atomic? && m.action.Complete?)
  {
    if m.ReadComplete? then m.code else m.action.otp
  }

  function StaffOf(m: Move): User
    requires m.ReadComplete? || m.ReadScan? || (m.Atomic? && (m.action.Complete? || m.action.Scan?))
  {
    if m.Atomic? then m.action.user else m.user
  }

  /** Move j checks the code: the order is in pickup, and staff of its bank give the code on the row in time. */
  ghost predicate ChecksCodeAt(cfg: Config, start: Sys, ts: seq<Tick>, j: nat, o: OrderId) {
    && j < |ts| && IsCompletion(ts[j].move, o) && o in SysAt(cfg, start, ts, j).db.sales.orders
    && var row := SysAt(cfg, start, ts, j).db.sales.orders[o];
       && row.status == PickupInProgress && StaffOf(ts[j].move).bankId == Some(row.bankId)
       && row.otpHash == Some(OtpHash(CodeGiven(ts[j].move)))
       && row.otpExpiresAt.Some? && ts[j].now <= row.otpExpiresAt.value
  }

  /** The handover at move k goes back to the check at move j: the same call. */
  predicate SameCompletion(ts: seq<Tick>, j: nat, k: nat) {
    && j <= k < |ts|
    && (j == k || (ts[k].move.WriteComplete? && ts[j].move.ReadComplete? && ts[k].move.call == ts[j].move.call))
  }

  lemma WholeCheck(cfg: Config, start: Sys, ts: seq<Tick>, k: nat, o: OrderId)
    requires SysInv(start) && k < |ts| && o in SysAt(cfg, start, ts, k).db.sales.orders
    requires HandsOverAt(cfg, start, ts, k, o) && ts[k].move.Atomic?
    ensures ChecksCodeAt(cfg, start, ts, k, o)
  {
    hide Advance, SysInv, OrdersSpec.HasPendingPayment;
    var sys := SysAt(cfg, start, ts, k);
    SysInvAlways(cfg, start, ts, k);
    SysInvGives(sys);
    OrderRowsOfInv(sys.db.sales);
    SysOrderStep(cfg, sys, ts[k].move, ts[k].now, o);
  }

  lemma HandoverWasChecked(cfg: Config, start: Sys, ts: seq<Tick>, k: nat, o: OrderId)
    requires SysInv(start) && o !in start.db.sales.orders
    requires k < |ts| && o in SysAt(cfg, start, ts, k).db.sales.orders && HandsOverAt(cfg, start, ts, k, o)
    ensures exists j: nat :: SameCompletion(ts, j, k) && ChecksCodeAt(cfg, start, ts, j, o)
  {
    hide Advance, SysInv;
    var sys, m := SysAt(cfg, start, ts, k), ts[k].move;
    if m.Atomic? {
      WholeCheck(cfg, start, ts, k, o);
    } else {
      assert IsPickupOf(sys.calls, m.call, o);
      NoPickupOfNewOrder(start, m.call, o);
      PickupWasRead(cfg, start, ts, k, m.call, o);
      var j: nat :| j < k && PickupReadAt(cfg, start, ts, j, m.call, o, sys.calls[m.call]);
      assert SameCompletion(ts, j, k) && ChecksCodeAt(cfg, start, ts, j, o);
    }
  }

  /** The scan at move i was begun by staff of the order's bank. */
  ghost predicate ScannedByStaff(cfg: Config, start: Sys, ts: seq<Tick>, i: nat, o: OrderId) {
    exists r: nat :: r <= i < |ts|
        && (ts[r].move.ReadScan? || (r == i && ts[r].move.Atomic? && ts[r].move.action.Scan?))
      && (r < i ==> ts[i].move.WriteScan? && ts[i].move.call == ts[r].move.call)
      && o in SysAt(cfg, start, ts, r).db.sales.orders
      && StaffOf(ts[r].move).bankId == Some(SysAt(cfg, start, ts, r).db.sales.orders[o].bankId)
  }

  lemma ScanHasStaff(cfg: Config, start: Sys, ts: seq<Tick>, i: nat, o: OrderId)
    requires SysInv(start) && o !in start.db.sales.orders && WritesCodeAt(cfg, start, ts, i, o)
    ensures ScannedByStaff(cfg, start, ts, i, o)
  {
    hide Advance, SysInv;
    var sys, m := SysAt(cfg, start, ts, i), ts[i].move;
    SysInvAlways(cfg, start, ts, i);
    CodeMoves(cfg, sys, m, ts[i].now, o);
    if m.WriteScan? {
      assert IsPickupOf(sys.calls, m.call, o);
      NoPickupOfNewOrder(start, m.call, o);
      PickupWasRead(cfg, start, ts, i, m.call, o);
      var r: nat :| r < i && PickupReadAt(cfg, start, ts, r, m.call, o, sys.calls[m.call]);
      assert o in SysAt(cfg, start, ts, r).db.sales.orders;
    }
  }

  // ---- the history -----------------------------------------------------------------------------------------------

  lemma {:induction false} SettledHasSettlement(cfg: Config, start: Sys, ts: seq<Tick>, n: nat, o: OrderId)
    requires SysInv(start) && o !in start.db.sales.orders
    requires n <= |ts| && o in SysAt(cfg, start, ts, n).db.sales.orders && SettledStatus(StatusAt(cfg, start, ts, n, o))
    ensures exists s: nat :: s < n && SettlesAt(cfg, start, ts, s, o)
  {
    hide Advance, SysInv, SettlesOn;
    var sys, m, now := SysAt(cfg, start, ts, n - 1), ts[n - 1].move, ts[n - 1].now;
    if o !in sys.db.sales.orders {
      NewOrderBlank(cfg, sys, m, now, o);
    } else {
      SysInvAlways(cfg, start, ts, n - 1);
      SysStatusStep(cfg, sys, m, now, o);
      if SettledStatus(sys.db.sales.orders[o].status) {
        SettledHasSettlement(cfg, start, ts, n - 1, o);
      } else {
        assert SettlesAt(cfg, start, ts, n - 1, o);
      }
    }
  }

  lemma {:induction false} CollectedHasHandover(cfg: Config, start: Sys, ts: seq<Tick>, n: nat, o: OrderId)
    requires SysInv(start) && o !in start.db.sales.orders
    requires n <= |ts| && o in SysAt(cfg, start, ts, n).db.sales.orders && StatusAt(cfg, start, ts, n, o) == Collected
    ensures exists k: nat :: k < n && HandsOverAt(cfg, start, ts, k, o) && o in SysAt(cfg, start, ts, k).db.sales.orders
  {
    hide Advance, SysInv, HandsOverOn, WritesCode;
    var sys, m, now := SysAt(cfg, start, ts, n - 1), ts[n - 1].move, ts[n - 1].now;
    if o !in sys.db.sales.orders {
      NewOrderBlank(cfg, sys, m, now, o);
    } else if sys.db.sales.orders[o].status == Collected {
      CollectedHasHandover(cfg, start, ts, n - 1, o);
    } else {
      SysInvAlways(cfg, start, ts, n - 1);
      CodeMoves(cfg, sys, m, now, o);
      assert HandsOverAt(cfg, start, ts, n - 1, o);
    }
  }

  /** Where a code is written the order is settled. */
  lemma CodeOnSettled(cfg: Config, start: Sys, ts: seq<Tick>, i: nat, o: OrderId)
    requires SysInv(start) && WritesCodeAt(cfg, start, ts, i, o)
    ensures i < |ts| && o in SysAt(cfg, start, ts, i).db.sales.orders && SettledStatus(StatusAt(cfg, start, ts, i, o))
  {
    hide Advance, SysInv, OrdersSpec.HasPendingPayment;
    var sys, m := SysAt(cfg, start, ts, i), ts[i].move;
    SysInvAlways(cfg, start, ts, i);
    if m.WriteScan? {
      PickupWritesSettled(sys, m, o);
    } else {
      SysInvGives(sys);
      OrderRowsOfInv(sys.db.sales);
      SysOrderStep(cfg, sys, m, ts[i].now, o);
    }
  }

  /** An order checked out during the interleaving and now COLLECTED was settled, then scanned, then checked, then
      handed over, by staff of its own bank each time: the check found the code of the last scan before it, at most
      ten minutes old. The handover itself may come later. */
  lemma CollectedOrderHistoryInFlight(cfg: Config, start: Sys, ts: seq<Tick>, n: nat, o: OrderId)
    requires SysInv(start) && o !in start.db.sales.orders
    requires n <= |ts| && o in SysAt(cfg, start, ts, n).db.sales.orders && StatusAt(cfg, start, ts, n, o) == Collected
    ensures exists s: nat, i: nat, j: nat, k: nat ::
              && s < i < j <= k < n && i < |ts| && IsScanMove(ts[i].move)
              && SettlesAt(cfg, start, ts, s, o) && LastCode(cfg, start, ts, i, j, o)
              && ScannedByStaff(cfg, start, ts, i, o) && ChecksCodeAt(cfg, start, ts, j, o)
              && SameCompletion(ts, j, k) && HandsOverAt(cfg, start, ts, k, o)
              && CodeGiven(ts[j].move) == CodeOf(ts[i].move) && ts[j].now <= ts[i].now + 600000
  {
    hide Advance, SysInv, HandsOverAt, SettlesAt, WritesCodeAt, ScannedByStaff;
    CollectedHasHandover(cfg, start, ts, n, o);
    var k: nat :| k < n && HandsOverAt(cfg, start, ts, k, o) && o in SysAt(cfg, start, ts, k).db.sales.orders;
    HandoverWasChecked(cfg, start, ts, k, o);
    var j: nat :| SameCompletion(ts, j, k) && ChecksCodeAt(cfg, start, ts, j, o);
    CodeHasScan(cfg, start, ts, j, o);
    var i: nat :| CodeFrom(cfg, start, ts, i, j, o, SysAt(cfg, start, ts, j).db.sales.orders[o]);
    ScanHasStaff(cfg, start, ts, i, o);
    CodeOnSettled(cfg, start, ts, i, o);
    SettledHasSettlement(cfg, start, ts, i, o);
    var s: nat :| s < i && SettlesAt(cfg, start, ts, s, o);
  }
}
