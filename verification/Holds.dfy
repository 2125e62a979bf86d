/** L1 theorems about buy-now holds: they are exclusive in time and end with the sale. */
module Holds {
  import opened Rows
  import opened Machine
  import opened VehicleView

  ghost predicate HoldsAt(cfg: Config, start: Db, es: seq<Event>, i: nat, v: VehicleId) {
    i < |es| && es[i].action.Hold? && es[i].action.vehicle == v && OutcomeAt(cfg, start, es, i).Ok?
  }

  lemma {:induction false} VehiclePresent(cfg: Config, start: Db, es: seq<Event>, n: nat, v: VehicleId)
    requires n <= |es| && v in start.vehicles
    ensures v in StateAt(cfg, start, es, n).vehicles
  {
    hide Apply, Changed;
    if n > 0 {
      VehiclePresent(cfg, start, es, n - 1, v);
      VehicleStep(cfg, StateAt(cfg, start, es, n - 1), es[n - 1], v);
    }
  }

  ghost function RowAt(cfg: Config, start: Db, es: seq<Event>, n: nat, v: VehicleId): Vehicle
    requires n <= |es| && v in start.vehicles
  {
    VehiclePresent(cfg, start, es, n, v);
    StateAt(cfg, start, es, n).vehicles[v]
  }

  lemma RowMoves(cfg: Config, start: Db, es: seq<Event>, n: nat, v: VehicleId)
    requires n < |es| && v in start.vehicles
    ensures Changed(cfg, StateAt(cfg, start, es, n), es[n].action, es[n].now, OutcomeAt(cfg, start, es, n), v,
                    RowAt(cfg, start, es, n, v), RowAt(cfg, start, es, n + 1, v))
  {
    hide Apply, Changed;
    VehiclePresent(cfg, start, es, n, v);
    VehicleStep(cfg, StateAt(cfg, start, es, n), es[n], v);
  }

  /** SOLD is for ever, with no holder, and no hold succeeds on it. */
  lemma {:induction false} SoldForever(cfg: Config, start: Db, es: seq<Event>, m: nat, n: nat, v: VehicleId)
    requires m <= n <= |es| && v in start.vehicles && RowAt(cfg, start, es, m, v).status == Sold
    ensures RowAt(cfg, start, es, n, v).status == Sold
    ensures !HoldsAt(cfg, start, es, n, v)
    ensures RowAt(cfg, start, es, m, v).heldBy == None ==> RowAt(cfg, start, es, n, v).heldBy == None
    decreases n
  {
    hide Apply;
    if m < n {
      SoldForever(cfg, start, es, m, n - 1, v);
      RowMoves(cfg, start, es, n - 1, v);
    }
    if n < |es| {
      RowMoves(cfg, start, es, n, v);
    }
  }

  /** From a successful hold on, the vehicle is sold, or still held until the same deadline, or the deadline is past. */
  lemma {:induction false} HoldStands(cfg: Config, start: Db, es: seq<Event>, i: nat, n: nat, v: VehicleId)
    requires Ordered(es) && i < n <= |es| && v in start.vehicles && HoldsAt(cfg, start, es, i, v)
    ensures var row, deadline := RowAt(cfg, start, es, n, v), es[i].now + cfg.holdMs;
            || row.status == Sold
            || (row.status == OnHold && row.heldUntil == Some(deadline))
            || es[n - 1].now > deadline
    decreases n
  {
    hide Apply;
    RowMoves(cfg, start, es, n - 1, v);
    if i + 1 < n {
      HoldStands(cfg, start, es, i, n - 1, v);
    }
  }

  /** The intervals [hold, deadline] of two successful holds on one vehicle never meet. */
  lemma HoldsAreDisjoint(cfg: Config, start: Db, es: seq<Event>, i: nat, j: nat, v: VehicleId)
    requires Ordered(es) && i < j && v in start.vehicles
    requires HoldsAt(cfg, start, es, i, v) && HoldsAt(cfg, start, es, j, v)
    ensures es[i].now + cfg.holdMs < es[j].now
  {
    hide Apply;
    HoldStands(cfg, start, es, i, j, v);
    RowMoves(cfg, start, es, j, v);
  }

  /** The k-th hold comes more than k - 1 hold periods after the first. */
  lemma {:induction false} HoldsAreSpaced(cfg: Config, start: Db, es: seq<Event>, holds: seq<nat>, v: VehicleId)
    requires Ordered(es) && v in start.vehicles && |holds| >= 2
    requires forall k :: 0 <= k < |holds| ==> holds[k] < |es| && HoldsAt(cfg, start, es, holds[k], v)
    requires forall j, k :: 0 <= j < k < |holds| ==> holds[j] < holds[k]
    ensures es[holds[|holds| - 1]].now > es[holds[0]].now + (|holds| - 1) * cfg.holdMs
  {
    hide Apply, HoldsAt;
    var k := |holds| - 1;
    HoldsAreDisjoint(cfg, start, es, holds[k - 1], holds[k], v);
    if k > 1 {
      HoldsAreSpaced(cfg, start, es, holds[..k], v);
      assert k * cfg.holdMs == (k - 1) * cfg.holdMs + cfg.holdMs;
    }
  }
}
