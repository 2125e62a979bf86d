/** L1 theorem: who bids on a private lot has been approved by its bank or an admin. */
module PrivateLots {
  import opened Rows
  import opened Machine
  import opened Frames
  import VehiclesSpec

  /** Event j approves the bidder, on the word of the lot's bank or an admin. */
  ghost predicate ApprovesAt(cfg: Config, start: Db, es: seq<Event>, j: nat, l: LotId, bidder: UserId) {
    && j < |es|
    && es[j].action.ApproveBidder? && es[j].action.lot == l && es[j].action.bidder == bidder
    && OutcomeAt(cfg, start, es, j).Ok?
    && l in StateAt(cfg, start, es, j).lots
    && VehiclesSpec.MayEdit(es[j].action.user, StateAt(cfg, start, es, j).lots[l].bankId)
  }

  lemma ApprovalStep(cfg: Config, db: Db, e: Event, l: LotId, bidder: UserId)
    requires (l, bidder) in Apply(cfg, db, e).db.approvals && (l, bidder) !in db.approvals
    ensures e.action.ApproveBidder? && e.action.lot == l && e.action.bidder == bidder && Apply(cfg, db, e).out.Ok?
    ensures l in db.lots && VehiclesSpec.MayEdit(e.action.user, db.lots[l].bankId)
  {
    StepFrame(cfg, db, e);
  }

  /** An approval that was not there at the start was given by one of the calls. */
  lemma {:induction false} ApprovalWasGiven(cfg: Config, start: Db, es: seq<Event>, n: nat, l: LotId, bidder: UserId)
    requires n <= |es| && (l, bidder) !in start.approvals && (l, bidder) in StateAt(cfg, start, es, n).approvals
    ensures exists j: nat :: j < n && ApprovesAt(cfg, start, es, j, l, bidder)
  {
    hide Apply;
    var db := StateAt(cfg, start, es, n - 1);
    if (l, bidder) in db.approvals {
      ApprovalWasGiven(cfg, start, es, n - 1, l, bidder);
    } else {
      ApprovalStep(cfg, db, es[n - 1], l, bidder);
      assert ApprovesAt(cfg, start, es, n - 1, l, bidder);
    }
  }

  lemma PrivateBidNeedsApproval(cfg: Config, db: Db, e: Event)
    requires e.action.BidOnLot? && Apply(cfg, db, e).out.Ok?
    ensures e.action.lot in db.lots
    ensures db.lots[e.action.lot].isPrivate ==> (e.action.lot, e.action.user.id) in db.approvals
  {
  }

  /** Every accepted bid on a private lot follows an approval of that bidder for that lot. */
  lemma BidderWasApproved(cfg: Config, start: Db, es: seq<Event>, i: nat)
    requires i < |es| && es[i].action.BidOnLot? && OutcomeAt(cfg, start, es, i).Ok?
    requires (es[i].action.lot, es[i].action.user.id) !in start.approvals
    ensures var l := es[i].action.lot;
            && l in StateAt(cfg, start, es, i).lots
            && (StateAt(cfg, start, es, i).lots[l].isPrivate ==>
                  exists j: nat :: j < i && ApprovesAt(cfg, start, es, j, l, es[i].action.user.id))
  {
    hide Apply;
    var l := es[i].action.lot;
    PrivateBidNeedsApproval(cfg, StateAt(cfg, start, es, i), es[i]);
    if StateAt(cfg, start, es, i).lots[l].isPrivate {
      ApprovalWasGiven(cfg, start, es, i, l, es[i].action.user.id);
    }
  }
}
