/** L2 theorems about holds and sales of a vehicle when the hold sweep is cut into its read and its write: exactly
    when a sale stands and a hold is exclusive. */
module HoldsInFlight {
  import opened Rows
  import opened AttemptGate
  import opened VehiclesSpec
  import opened Interleaved
  import opened SysView
  import opened SettlementOnce
  import Machine
  import BidsSpec
  import OrdersSpec
  import PickupSpec
  import LotsSpec

  lemma CallsOfInv(sys: Sys)
    requires SysInv(sys)
    ensures CallsSound(sys.db.sales, sys.calls)
  {
  }

  lemma {:induction false} VehicleStays(cfg: Config, start: Sys, ts: seq<Tick>, n: nat, v: VehicleId)
    requires SysInv(start) && n <= |ts| && v in start.db.vehicles
    ensures v in SysAt(cfg, start, ts, n).db.vehicles
  {
    hide Advance, SysInv, HoldColumns;
    if n > 0 {
      VehicleStays(cfg, start, ts, n - 1, v);
      SysInvAlways(cfg, start, ts, n - 1);
      CallsOfInv(SysAt(cfg, start, ts, n - 1));
      SysVehicleStep(cfg, SysAt(cfg, start, ts, n - 1), ts[n - 1].move, ts[n - 1].now, v);
    }
  }

  ghost function RowAt(cfg: Config, start: Sys, ts: seq<Tick>, n: nat, v: VehicleId): Vehicle
    requires SysInv(start) && n <= |ts| && v in start.db.vehicles
  {
    VehicleStays(cfg, start, ts, n, v);
    SysAt(cfg, start, ts, n).db.vehicles[v]
  }

  lemma RowMoves(cfg: Config, start: Sys, ts: seq<Tick>, n: nat, v: VehicleId)
    requires SysInv(start) && n < |ts| && v in start.db.vehicles
    ensures HoldColumns(cfg, SysAt(cfg, start, ts, n), ts[n].move, ts[n].now, v,
                        RowAt(cfg, start, ts, n, v), RowAt(cfg, start, ts, n + 1, v))
  {
    hide Advance, SysInv, HoldColumns;
    VehicleStays(cfg, start, ts, n, v);
    SysInvAlways(cfg, start, ts, n);
    CallsOfInv(SysAt(cfg, start, ts, n));
    SysVehicleStep(cfg, SysAt(cfg, start, ts, n), ts[n].move, ts[n].now, v);
  }

  lemma RowIs(cfg: Config, start: Sys, ts: seq<Tick>, n: nat, v: VehicleId)
    requires SysInv(start) && n <= |ts| && v in start.db.vehicles
    ensures v in SysAt(cfg, start, ts, n).db.vehicles
    ensures RowAt(cfg, start, ts, n, v) == SysAt(cfg, start, ts, n).db.vehicles[v]
    ensures RowAt(cfg, start, ts, 0, v) == start.db.vehicles[v]
  {
    hide Advance, SysInv;
    VehicleStays(cfg, start, ts, n, v);
  }

  ghost predicate ReleasesAt(cfg: Config, start: Sys, ts: seq<Tick>, k: nat, v: VehicleId) {
    k < |ts| && Releases(SysAt(cfg, start, ts, k), ts[k].move, v)
  }

  ghost predicate HoldsAt(cfg: Config, start: Sys, ts: seq<Tick>, k: nat, v: VehicleId) {
    k < |ts| && HoldsOn(cfg, SysAt(cfg, start, ts, k), ts[k].move, ts[k].now, v)
  }

  ghost predicate SellsAt(cfg: Config, start: Sys, ts: seq<Tick>, k: nat, v: VehicleId) {
    k < |ts| && SellsOn(cfg, SysAt(cfg, start, ts, k), ts[k].move, ts[k].now, v)
  }

  /** No sweep writes over v from move m on, before move n. */
  ghost predicate Undisturbed(cfg: Config, start: Sys, ts: seq<Tick>, m: nat, n: nat, v: VehicleId) {
    forall k: nat :: m <= k < n ==> !ReleasesAt(cfg, start, ts, k, v)
  }

  // ---- a sale ------------------------------------------------------------------------------------

  ghost predicate SoldThroughout(cfg: Config, start: Sys, ts: seq<Tick>, m: nat, n: nat, v: VehicleId)
    requires SysInv(start) && v in start.db.vehicles && n <= |ts|
  {
    forall k: nat :: m <= k <= n ==> RowAt(cfg, start, ts, k, v).status == Sold
  }

  lemma {:induction false} SoldStays(cfg: Config, start: Sys, ts: seq<Tick>, m: nat, n: nat, v: VehicleId)
    requires SysInv(start) && v in start.db.vehicles && m <= n <= |ts|
    requires RowAt(cfg, start, ts, m, v).status == Sold && Undisturbed(cfg, start, ts, m, n, v)
    ensures RowAt(cfg, start, ts, n, v).status == Sold
    decreases n
  {
    hide Advance, SysInv, RowAt, Releases, SellsOn, HoldsOn;
    if m < n {
      SoldStays(cfg, start, ts, m, n - 1, v);
      RowMoves(cfg, start, ts, n - 1, v);
      assert !ReleasesAt(cfg, start, ts, n - 1, v);
    }
  }

  /** Sold stays sold over a stretch if and only if no sweep that read the vehicle as lapsed writes in it. */
  lemma SoldStaysIffUndisturbed(cfg: Config, start: Sys, ts: seq<Tick>, m: nat, n: nat, v: VehicleId)
    requires SysInv(start) && v in start.db.vehicles && m <= n <= |ts|
    requires RowAt(cfg, start, ts, m, v).status == Sold
    ensures SoldThroughout(cfg, start, ts, m, n, v) <==> Undisturbed(cfg, start, ts, m, n, v)
  {
    hide Advance, SysInv, RowAt, Releases, SellsOn, HoldsOn;
    if Undisturbed(cfg, start, ts, m, n, v) {
      forall k: nat | m <= k <= n ensures RowAt(cfg, start, ts, k, v).status == Sold {
        SoldStays(cfg, start, ts, m, k, v);
      }
    } else {
      var k: nat :| m <= k < n && ReleasesAt(cfg, start, ts, k, v);
      RowMoves(cfg, start, ts, k, v);
      assert RowAt(cfg, start, ts, k + 1, v).status == Live;
    }
  }

  // ---- a hold ------------------------------------------------------------------------------------

  /** The hold of move i is still the one on the row, or has led to a sale. */
  predicate InForce(row: Vehicle, deadline: Time) {
    row.status == Sold || (row.status == OnHold && row.heldUntil == Some(deadline))
  }

  ghost predicate InForceThroughout(cfg: Config, start: Sys, ts: seq<Tick>, i: nat, n: nat, v: VehicleId)
    requires SysInv(start) && v in start.db.vehicles && i < n <= |ts|
  {
    forall k: nat :: i < k <= n ==> InForce(RowAt(cfg, start, ts, k, v), ts[i].now + cfg.holdMs)
  }

  lemma {:induction false} HoldStays(cfg: Config, start: Sys, ts: seq<Tick>, i: nat, n: nat, v: VehicleId)
    requires SysInv(start) && v in start.db.vehicles && InTimeOrder(ts) && i < n <= |ts|
    requires HoldsAt(cfg, start, ts, i, v) && ts[n - 1].now <= ts[i].now + cfg.holdMs
    requires Undisturbed(cfg, start, ts, i + 1, n, v)
    ensures InForce(RowAt(cfg, start, ts, n, v), ts[i].now + cfg.holdMs)
    decreases n
  {
    hide Advance, SysInv, RowAt, SellsOn;
    RowMoves(cfg, start, ts, n - 1, v);
    if i + 1 < n {
      HoldStays(cfg, start, ts, i, n - 1, v);
      assert !ReleasesAt(cfg, start, ts, n - 1, v);
    }
  }

  /** A granted hold stands until its deadline if and only if no sweep that read the vehicle earlier writes over it. */
  lemma HoldStandsIffUndisturbed(cfg: Config, start: Sys, ts: seq<Tick>, i: nat, n: nat, v: VehicleId)
    requires SysInv(start) && v in start.db.vehicles && InTimeOrder(ts) && i < n <= |ts|
    requires HoldsAt(cfg, start, ts, i, v) && ts[n - 1].now <= ts[i].now + cfg.holdMs
    ensures InForceThroughout(cfg, start, ts, i, n, v) <==> Undisturbed(cfg, start, ts, i + 1, n, v)
  {
    hide Advance, SysInv, RowAt, SellsOn, HoldsOn, Releases;
    if Undisturbed(cfg, start, ts, i + 1, n, v) {
      forall k: nat | i < k <= n ensures InForce(RowAt(cfg, start, ts, k, v), ts[i].now + cfg.holdMs) {
        HoldStays(cfg, start, ts, i, k, v);
      }
    } else {
      var k: nat :| i < k < n && ReleasesAt(cfg, start, ts, k, v);
      RowMoves(cfg, start, ts, k, v);
      assert !InForce(RowAt(cfg, start, ts, k + 1, v), ts[i].now + cfg.holdMs);
    }
  }

  lemma HoldIsNoSale(cfg: Config, sys: Sys, m: Move, now: Time, v: VehicleId)
    requires HoldsOn(cfg, sys, m, now, v)
    ensures !SellsOn(cfg, sys, m, now, v)
  {
    hide Advance;
  }

  /** Two holds on one vehicle overlap only if a sweep wrote over the first. */
  lemma HoldsDisjointIfUndisturbed(cfg: Config, start: Sys, ts: seq<Tick>, i: nat, j: nat, v: VehicleId)
    requires SysInv(start) && v in start.db.vehicles && InTimeOrder(ts) && i < j
    requires HoldsAt(cfg, start, ts, i, v) && HoldsAt(cfg, start, ts, j, v)
    requires Undisturbed(cfg, start, ts, i + 1, j, v)
    ensures ts[i].now + cfg.holdMs < ts[j].now
  {
    hide Advance, SysInv, RowAt, SellsOn;
    RowMoves(cfg, start, ts, j, v);
    assert !Releases(SysAt(cfg, start, ts, j), ts[j].move, v);
    if ts[j].now <= ts[i].now + cfg.holdMs {
      HoldStays(cfg, start, ts, i, j, v);
      HoldIsNoSale(cfg, SysAt(cfg, start, ts, j), ts[j].move, ts[j].now, v);
    }
  }

  // ---- in every continuation --------------------------------------------------------------------------

  /** A sweep in flight has read the vehicle as lapsed. */
  ghost predicate Listed(calls: map<CallId, Call>, v: VehicleId) {
    exists c :: c in calls && calls[c].Sweeping? && v in calls[c].ids
  }

  /** A sweep lists only what has lapsed when it reads. */
  lemma ListedBefore(cfg: Config, sys: Sys, m: Move, now: Time, v: VehicleId)
    requires Listed(Advance(cfg, sys, m, now).sys.calls, v)
    ensures Listed(sys.calls, v) || (v in sys.db.vehicles && HoldLapsed(sys.db.vehicles[v], now))
  {
    hide Machine.Apply, OrdersSpec.FinishPayment, OrdersSpec.ReadForPayment, BidsSpec.VehicleBidRefusal;
    hide BidsSpec.LotBidRefusal, BidsSpec.SwapVehicle, BidsSpec.SwapLot, BidsSpec.Record, BidsSpec.ExtendVehicle;
    hide BidsSpec.ExtendLot, PickupSpec.ReadForScan, PickupSpec.CompleteRefusal, LotsSpec.LotRefusal;
    hide LotsSpec.InsertLot, Release, Attempt, PricesWritten, PickupSpec.ScannedRow, PickupSpec.CollectedRow;
    var next := Advance(cfg, sys, m, now).sys;
    var c :| c in next.calls && next.calls[c].Sweeping? && v in next.calls[c].ids;
    assert (c in sys.calls && sys.calls[c] == next.calls[c]) || m == ReadSweep(c);
  }

  lemma NotReleased(sys: Sys, m: Move, v: VehicleId)
    requires !Listed(sys.calls, v)
    ensures !Releases(sys, m, v)
  {
  }

  lemma {:induction false} SoldAndUnlisted(cfg: Config, start: Sys, ts: seq<Tick>, n: nat, v: VehicleId)
    requires SysInv(start) && v in start.db.vehicles && n <= |ts|
    requires start.db.vehicles[v].status == Sold && !Listed(start.calls, v)
    ensures RowAt(cfg, start, ts, n, v).status == Sold && !Listed(SysAt(cfg, start, ts, n).calls, v)
  {
    hide Advance, SysInv, RowAt, SellsOn, HoldsOn, Listed;
    RowIs(cfg, start, ts, n, v);
    if n > 0 {
      RowIs(cfg, start, ts, n - 1, v);
      SoldAndUnlisted(cfg, start, ts, n - 1, v);
      RowMoves(cfg, start, ts, n - 1, v);
      NotReleased(SysAt(cfg, start, ts, n - 1), ts[n - 1].move, v);
      if Listed(SysAt(cfg, start, ts, n).calls, v) {
        ListedBefore(cfg, SysAt(cfg, start, ts, n - 1), ts[n - 1].move, ts[n - 1].now, v);
      }
    }
  }

  ghost predicate SoldForever(cfg: Config, start: Sys, v: VehicleId)
    requires SysInv(start) && v in start.db.vehicles
  {
    forall ts: seq<Tick> :: RowAt(cfg, start, ts, |ts|, v).status == Sold
  }

  /** A sold vehicle is sold in every continuation if and only if no sweep in flight lists it. */
  lemma SoldForeverIffUnlisted(cfg: Config, start: Sys, v: VehicleId, now: Time)
    requires SysInv(start) && v in start.db.vehicles && start.db.vehicles[v].status == Sold
    ensures SoldForever(cfg, start, v) <==> !Listed(start.calls, v)
  {
    hide Advance, SysInv, SellsOn, HoldsOn, RowAt;
    if Listed(start.calls, v) {
      var c :| c in start.calls && start.calls[c].Sweeping? && v in start.calls[c].ids;
      var ts := [Tick(WriteSweep(c), now)];
      FirstSys(cfg, start, ts);
      RowIs(cfg, start, ts, 0, v);
      RowMoves(cfg, start, ts, 0, v);
      assert RowAt(cfg, start, ts, |ts|, v).status == Live;
    } else {
      forall ts: seq<Tick> ensures RowAt(cfg, start, ts, |ts|, v).status == Sold {
        SoldAndUnlisted(cfg, start, ts, |ts|, v);
      }
    }
  }

  lemma {:induction false} HeldAndUnlisted(cfg: Config, start: Sys, ts: seq<Tick>, n: nat, v: VehicleId, deadline: Time)
    requires SysInv(start) && v in start.db.vehicles && n <= |ts|
    requires forall k :: 0 <= k < |ts| ==> ts[k].now <= deadline
    requires InForce(start.db.vehicles[v], deadline) && !Listed(start.calls, v)
    ensures InForce(RowAt(cfg, start, ts, n, v), deadline) && !Listed(SysAt(cfg, start, ts, n).calls, v)
  {
    hide Advance, SysInv, RowAt, SellsOn, Listed;
    RowIs(cfg, start, ts, n, v);
    if n > 0 {
      RowIs(cfg, start, ts, n - 1, v);
      HeldAndUnlisted(cfg, start, ts, n - 1, v, deadline);
      RowMoves(cfg, start, ts, n - 1, v);
      NotReleased(SysAt(cfg, start, ts, n - 1), ts[n - 1].move, v);
      if Listed(SysAt(cfg, start, ts, n).calls, v) {
        ListedBefore(cfg, SysAt(cfg, start, ts, n - 1), ts[n - 1].move, ts[n - 1].now, v);
      }
    }
  }

  ghost predicate StandsUntil(cfg: Config, start: Sys, v: VehicleId, deadline: Time)
    requires SysInv(start) && v in start.db.vehicles
  {
    forall ts: seq<Tick> :: (forall k :: 0 <= k < |ts| ==> ts[k].now <= deadline) ==>
      InForce(RowAt(cfg, start, ts, |ts|, v), deadline)
  }

  /** A hold stands until its deadline in every continuation if and only if no sweep in flight lists the vehicle. */
  lemma HoldStandsIffUnlisted(cfg: Config, start: Sys, v: VehicleId, deadline: Time)
    requires SysInv(start) && v in start.db.vehicles && InForce(start.db.vehicles[v], deadline)
    ensures StandsUntil(cfg, start, v, deadline) <==> !Listed(start.calls, v)
  {
    hide Advance, SysInv, SellsOn, HoldsOn, RowAt;
    if Listed(start.calls, v) {
      var c :| c in start.calls && start.calls[c].Sweeping? && v in start.calls[c].ids;
      var ts := [Tick(WriteSweep(c), deadline)];
      FirstSys(cfg, start, ts);
      RowIs(cfg, start, ts, 0, v);
      RowMoves(cfg, start, ts, 0, v);
      assert !InForce(RowAt(cfg, start, ts, |ts|, v), deadline);
    } else {
      forall ts: seq<Tick> | forall k :: 0 <= k < |ts| ==> ts[k].now <= deadline
        ensures InForce(RowAt(cfg, start, ts, |ts|, v), deadline)
      {
        HeldAndUnlisted(cfg, start, ts, |ts|, v, deadline);
      }
    }
  }

  // ---- when a second hold gets in ----------------------------------------------------------------------

  lemma HoldGrantedIff(cfg: Config, sys: Sys, user: User, v: VehicleId, now: Time)
    requires v in sys.db.vehicles && PassesGate(cfg, sys.db.counters, HoldGate(user.id), now)
    ensures HoldsOn(cfg, sys, Atomic(Machine.Hold(user, v)), now, v) <==> Holdable(sys.db.vehicles[v], now)
    ensures Holdable(sys.db.vehicles[v], now) ==>
      var w := Advance(cfg, sys, Atomic(Machine.Hold(user, v)), now);
      && w.out == Some(Ok(HoldPlaced(now + cfg.holdMs)))
      && w.sys == sys.(db := sys.db.(counters := Attempt(sys.db.counters, HoldGate(user.id), now),
                  vehicles := sys.db.vehicles[v := WithHold(sys.db.vehicles[v], user.id, now + cfg.holdMs)]))
  {
  }

  /** From move i on, before move n, nobody else gets a hold on v and no order on it is settled. */
  ghost predicate NoHoldOrSale(cfg: Config, start: Sys, ts: seq<Tick>, i: nat, n: nat, v: VehicleId) {
    forall k: nat :: i < k < n ==> !HoldsAt(cfg, start, ts, k, v) && !SellsAt(cfg, start, ts, k, v)
  }

  lemma {:induction false} ReleasedStaysLive(cfg: Config, start: Sys, ts: seq<Tick>, i: nat, k: nat, n: nat,
                                             v: VehicleId)
    requires SysInv(start) && v in start.db.vehicles && i < k < n <= |ts|
    requires ReleasesAt(cfg, start, ts, k, v) && NoHoldOrSale(cfg, start, ts, i, n, v)
    ensures RowAt(cfg, start, ts, n, v).status == Live
    decreases n
  {
    hide Advance, SysInv, RowAt, Releases, SellsOn, HoldsOn;
    RowMoves(cfg, start, ts, n - 1, v);
    if k + 1 < n {
      ReleasedStaysLive(cfg, start, ts, i, k, n - 1, v);
      assert !HoldsAt(cfg, start, ts, n - 1, v) && !SellsAt(cfg, start, ts, n - 1, v);
    }
  }

  /** While the first hold runs, a second buyer gets one if and only if a sweep has written over the first. */
  lemma SecondHoldIffDisturbed(cfg: Config, start: Sys, ts: seq<Tick>, i: nat, n: nat, user: User, v: VehicleId,
                               now: Time)
    requires SysInv(start) && v in start.db.vehicles && InTimeOrder(ts) && i < n <= |ts|
    requires HoldsAt(cfg, start, ts, i, v) && ts[n - 1].now <= now <= ts[i].now + cfg.holdMs
    requires NoHoldOrSale(cfg, start, ts, i, n, v)
    requires RowAt(cfg, start, ts, n, v).saleType == BuyNow || RowAt(cfg, start, ts, n, v).saleType == Hybrid
    requires PassesGate(cfg, SysAt(cfg, start, ts, n).db.counters, HoldGate(user.id), now)
    ensures HoldsOn(cfg, SysAt(cfg, start, ts, n), Atomic(Machine.Hold(user, v)), now, v)
       <==> !Undisturbed(cfg, start, ts, i + 1, n, v)
  {
    VehicleStays(cfg, start, ts, n, v);
    hide Advance, SysInv, SellsOn, HoldsOn, Releases, PassesGate, HoldColumns;
    HoldGrantedIff(cfg, SysAt(cfg, start, ts, n), user, v, now);
    if Undisturbed(cfg, start, ts, i + 1, n, v) {
      HoldStays(cfg, start, ts, i, n, v);
    } else {
      var k: nat :| i < k < n && ReleasesAt(cfg, start, ts, k, v);
      ReleasedStaysLive(cfg, start, ts, i, k, n, v);
    }
  }

  /** Two buyers hold one vehicle at once: a sweep that read the lapsed hold writes over the hold that took it over. */
  lemma SplitSweepGrantsTwoHolds(cfg: Config, sys: Sys, c: CallId, first: User, second: User, v: VehicleId, now: Time)
    requires c !in sys.calls && v in sys.db.vehicles && first.id != second.id
    requires sys.db.vehicles[v].saleType == BuyNow || sys.db.vehicles[v].saleType == Hybrid
    requires HoldLapsed(sys.db.vehicles[v], now)
    requires PassesGate(cfg, sys.db.counters, HoldGate(first.id), now)
    requires PassesGate(cfg, sys.db.counters, HoldGate(second.id), now)
    ensures var ts := [Tick(ReadSweep(c), now), Tick(Atomic(Machine.Hold(first, v)), now),
                       Tick(WriteSweep(c), now), Tick(Atomic(Machine.Hold(second, v)), now)];
            && AnswerAt(cfg, sys, ts, 1) == Some(Ok(HoldPlaced(now + cfg.holdMs)))
            && AnswerAt(cfg, sys, ts, 3) == Some(Ok(HoldPlaced(now + cfg.holdMs)))
            && HoldsAt(cfg, sys, ts, 1, v) && HoldsAt(cfg, sys, ts, 3, v)
  {
    hide Advance, LapsedHolds;
    var ts := [Tick(ReadSweep(c), now), Tick(Atomic(Machine.Hold(first, v)), now),
               Tick(WriteSweep(c), now), Tick(Atomic(Machine.Hold(second, v)), now)];
    Ticks(cfg, sys, ts);
    var s1, s2, s3 := SysAt(cfg, sys, ts, 1), SysAt(cfg, sys, ts, 2), SysAt(cfg, sys, ts, 3);
    LapsedIsListed(sys.db.vehicles, v, now);
    SweepReads(cfg, sys, c, now);
    HoldGrantedIff(cfg, s1, first, v, now);
    SweepWrites(cfg, s2, c, now);
    HoldGrantedIff(cfg, s3, second, v, now);
  }
}
