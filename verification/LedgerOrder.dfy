/** L2 theorem: without the lock the bid ledger agrees with the row exactly when the bids of the target are recorded
    in the order in which they were committed. */
module LedgerOrder {
  import opened Rows
  import opened BidsSpec
  import opened AuctionView
  import opened Auctions
  import opened Interleaved
  import opened PriceIntegrity
  import opened LedgerInFlight

  datatype Entry = Entry(bidder: UserId, amount: int)

  // ---- lists of bids ---------------------------------------------------------------------------------------

  /** The bids recorded one after the other. */
  function RecordAll(bids: seq<Bid>, t: Target, entries: seq<Entry>): seq<Bid> {
    if entries == [] then bids
    else
      var last := entries[|entries| - 1];
      Record(RecordAll(bids, t, entries[..|entries| - 1]), t, last.bidder, last.amount)
  }

  lemma {:induction false} RowsOfAll(bids: seq<Bid>, t: Target, entries: seq<Entry>)
    ensures var rows, earlier := BidsOn(RecordAll(bids, t, entries), t), BidsOn(bids, t);
            && |rows| == |earlier| + |entries|
            && forall k :: 0 <= k < |entries| ==>
                 rows[|earlier| + k].bidder == entries[k].bidder && rows[|earlier| + k].amount == entries[k].amount
  {
    hide Record, BidsOn;
    if entries != [] {
      var init, last := entries[..|entries| - 1], entries[|entries| - 1];
      RowsOfAll(bids, t, init);
      BidsOnRecord(RecordAll(bids, t, init), t, last.bidder, last.amount, t);
      BidsOnTargets(RecordAll(bids, t, init), t);
    }
  }

  /** Each bid an increment above the one before, the first above the price that stands. */
  predicate Climbs(a: AuctionState, entries: seq<Entry>, increment: int) {
    && (forall k :: 0 <= k < |entries| ==> entries[k].amount > 0)
    && (forall j, k :: 0 <= j < k < |entries| ==> entries[j].amount + increment <= entries[k].amount)
    && (a.currentBid > 0 ==> forall k :: 0 <= k < |entries| ==> entries[k].amount >= a.currentBid + increment)
  }

  /** The row after these bids. */
  predicate PriceAfter(a: AuctionState, entries: seq<Entry>, b: AuctionState) {
    && b.bidCount == a.bidCount + |entries|
    && if entries == [] then b.currentBid == a.currentBid && b.currentBidder == a.currentBidder
       else b.currentBid == entries[|entries| - 1].amount && b.currentBidder == Some(entries[|entries| - 1].bidder)
  }

  lemma ClimbsOn(a: AuctionState, entries: seq<Entry>, b: AuctionState, c: AuctionState, e: Entry, increment: int)
    requires Climbs(a, entries, increment) && PriceAfter(a, entries, b) && increment > 0
    requires Raised(b, c, e.bidder, e.amount, increment)
    ensures Climbs(a, entries + [e], increment) && PriceAfter(a, entries + [e], c)
  {
    if entries != [] {
      assert entries[|entries| - 1].amount > 0;
      assert forall j :: 0 <= j < |entries| - 1 ==> entries[j].amount + increment <= entries[|entries| - 1].amount;
    }
  }

  /** Recorded in the order they were committed, the bids agree with the row. */
  lemma {:induction false} LedgerOfCommits(a: AuctionState, bids: seq<Bid>, t: Target, entries: seq<Entry>,
                                           b: AuctionState,
                                           increment: int)
    requires LedgerAgrees(a, BidsOn(bids, t), increment) && increment > 0
    requires Climbs(a, entries, increment) && PriceAfter(a, entries, b)
    ensures LedgerAgrees(b, BidsOn(RecordAll(bids, t, entries), t), increment)
  {
    hide Record, BidsOn;
    if entries != [] {
      var init, last := entries[..|entries| - 1], entries[|entries| - 1];
      var before := if init == [] then a
                    else AuctionState(init[|init| - 1].amount, Some(init[|init| - 1].bidder), a.bidCount + |init|,
                        None);
      assert Climbs(a, init, increment) && PriceAfter(a, init, before);
      LedgerOfCommits(a, bids, t, init, before, increment);
      assert Raised(before, b, last.bidder, last.amount, increment);
      LedgerAfterRaise(before, b, RecordAll(bids, t, init), t, last.bidder, last.amount, increment);
    } else {
      LedgerSamePrice(a, b, BidsOn(bids, t), increment);
    }
  }

  predicate Increasing(entries: seq<Entry>) {
    forall j, k :: 0 <= j < k < |entries| ==> entries[j].amount < entries[k].amount
  }

  ghost predicate Within(xs: seq<Entry>, ys: seq<Entry>) {
    forall k :: 0 <= k < |xs| ==> xs[k] in ys
  }

  lemma {:induction false} NotEarlier(xs: seq<Entry>, ys: seq<Entry>, k: nat, j: nat)
    requires Increasing(xs) && Increasing(ys) && Within(xs, ys) && k < |xs| && j < |ys| && xs[k] == ys[j]
    ensures k <= j
  {
    if k > 0 {
      var i :| 0 <= i < |ys| && ys[i] == xs[k - 1];
      NotEarlier(xs, ys, k - 1, i);
      assert i < j;
    }
  }

  lemma {:induction false} NotLater(xs: seq<Entry>, ys: seq<Entry>, k: nat, j: nat)
    requires Increasing(xs) && Increasing(ys) && Within(xs, ys) && |xs| == |ys|
    requires k < |xs| && j < |ys| && xs[k] == ys[j]
    ensures j <= k
    decreases |xs| - k
  {
    if k + 1 < |xs| {
      var i :| 0 <= i < |ys| && ys[i] == xs[k + 1];
      NotLater(xs, ys, k + 1, i);
      assert j < i;
    }
  }

  /** Two increasing lists of one length, one within the other, are the same. */
  lemma SameList(xs: seq<Entry>, ys: seq<Entry>)
    requires Increasing(xs) && Increasing(ys) && Within(xs, ys) && |xs| == |ys|
    ensures xs == ys
  {
    forall k | 0 <= k < |xs| ensures xs[k] == ys[k] {
      var j :| 0 <= j < |ys| && ys[j] == xs[k];
      NotEarlier(xs, ys, k, j);
      NotLater(xs, ys, k, j);
    }
  }

  /** A ledger that agrees with the row holds the committed bids in the order they were committed. */
  lemma LedgerShowsOrder(a: AuctionState, bids: seq<Bid>, t: Target, recorded: seq<Entry>, committed: seq<Entry>,
                         b: AuctionState, increment: int)
    requires LedgerAgrees(a, BidsOn(bids, t), increment) && increment > 0
    requires Climbs(a, committed, increment) && PriceAfter(a, committed, b) && Within(recorded, committed)
    requires LedgerAgrees(b, BidsOn(RecordAll(bids, t, recorded), t), increment)
    ensures recorded == committed
  {
    hide RecordAll, BidsOn;
    RowsOfAll(bids, t, recorded);
    var rows, n := BidsOn(RecordAll(bids, t, recorded), t), |BidsOn(bids, t)|;
    forall j, k | 0 <= j < k < |recorded| ensures recorded[j].amount < recorded[k].amount {
      assert rows[n + j].amount + increment <= rows[n + k].amount;
    }
    SameList(recorded, committed);
  }

  // ---- runs ---------------------------------------------------------------------------------------------------

  /** The bid a move commits on t. */
  ghost function NewlyCommitted(cfg: Config, sys: Sys, m: Move, now: Time, t: Target): seq<Entry> {
    if CommitsOn(cfg, sys, m, now, t) then
      CommitShape(cfg, sys, m, now, t);
      [Entry(CommitUser(sys, m), CommitAmount(sys, m))]
    else []
  }

  /** The bid a move records on t. */
  ghost function NewlyRecorded(cfg: Config, sys: Sys, m: Move, now: Time, t: Target): seq<Entry> {
    if m.Atomic? then NewlyCommitted(cfg, sys, m, now, t)
    else if m.RecordBid? && Due(sys.calls, t, m.call) then [Entry(sys.calls[m.call].user, sys.calls[m.call].amount)]
    else []
  }

  /** The bids committed on t so far, in order. */
  ghost function Committed(cfg: Config, start: Sys, ts: seq<Tick>, n: nat, t: Target): seq<Entry>
    requires n <= |ts|
  {
    if n == 0 then []
    else
      var before := Committed(cfg, start, ts, n - 1, t);
      before + NewlyCommitted(cfg, SysAt(cfg, start, ts, n - 1), ts[n - 1].move, ts[n - 1].now, t)
  }

  /** The bids recorded on t so far, in order. */
  ghost function Recorded(cfg: Config, start: Sys, ts: seq<Tick>, n: nat, t: Target): seq<Entry>
    requires n <= |ts|
  {
    if n == 0 then []
    else
      var before := Recorded(cfg, start, ts, n - 1, t);
      before + NewlyRecorded(cfg, SysAt(cfg, start, ts, n - 1), ts[n - 1].move, ts[n - 1].now, t)
  }

  lemma NoCommitsYet(cfg: Config, start: Sys, ts: seq<Tick>, t: Target)
    requires PositiveIncrements(cfg) && BidsInv(cfg, start) && AuctionOf(start.db, t).Some?
    ensures Climbs(AuctionOf(start.db, t).value, [], Increment(cfg, t))
    ensures PriceAt(cfg, start, ts, 0, t) == AuctionOf(start.db, t).value
  {
    hide Advance, BidsInv;
  }

  lemma {:induction false} RowFollowsCommits(cfg: Config, start: Sys, ts: seq<Tick>, n: nat, t: Target)
    requires PositiveIncrements(cfg) && BidsInv(cfg, start) && AuctionOf(start.db, t).Some? && n <= |ts|
    ensures Climbs(AuctionOf(start.db, t).value, Committed(cfg, start, ts, n, t), Increment(cfg, t))
    ensures PriceAfter(AuctionOf(start.db, t).value, Committed(cfg, start, ts, n, t), PriceAt(cfg, start, ts, n, t))
  {
    hide Advance, BidsInv, AuctionOf, CommitsOn, Climbs, PriceAt, Raised;
    if n == 0 {
      NoCommitsYet(cfg, start, ts, t);
    } else {
      var sys, m, now := SysAt(cfg, start, ts, n - 1), ts[n - 1].move, ts[n - 1].now;
      RowFollowsCommits(cfg, start, ts, n - 1, t);
      PriceMoves(cfg, start, ts, n - 1, t);
      if CommitsOn(cfg, sys, m, now, t) {
        CommitShape(cfg, sys, m, now, t);
        ClimbsOn(AuctionOf(start.db, t).value, Committed(cfg, start, ts, n - 1, t), PriceAt(cfg, start, ts, n - 1, t),
            PriceAt(cfg, start, ts, n, t), Entry(CommitUser(sys, m), CommitAmount(sys, m)), Increment(cfg, t));
      } else {
        assert Committed(cfg, start, ts, n, t) == Committed(cfg, start, ts, n - 1, t);
      }
    }
  }

  lemma {:induction false} RowsFollowRecords(cfg: Config, start: Sys, ts: seq<Tick>, n: nat, t: Target)
    requires PositiveIncrements(cfg) && BidsInv(cfg, start) && AuctionOf(start.db, t).Some? && n <= |ts|
    ensures BidsOn(SysAt(cfg, start, ts, n).db.bids, t)
         == BidsOn(RecordAll(start.db.bids, t, Recorded(cfg, start, ts, n, t)), t)
  {
    hide Advance, BidsInv, AuctionOf, CommitsOn, BidsOn, Record;
    if n > 0 {
      var sys, m, now := SysAt(cfg, start, ts, n - 1), ts[n - 1].move, ts[n - 1].now;
      var before, added := Recorded(cfg, start, ts, n - 1, t), NewlyRecorded(cfg, sys, m, now, t);
      RowsFollowRecords(cfg, start, ts, n - 1, t);
      TargetPresent(cfg, start, ts, n - 1, t);
      RowsAfter(cfg, sys, m, now, t);
      if added == [] {
        assert before + added == before;
      } else {
        assert (before + added)[..|before|] == before;
        RecordOnRows(sys.db.bids, RecordAll(start.db.bids, t, before), t, added[0].bidder, added[0].amount);
      }
    }
  }

  /** Every bid recorded, or due, has been committed. */
  ghost predicate OnlyCommitted(calls: map<CallId, Call>, recorded: seq<Entry>, committed: seq<Entry>, t: Target) {
    && Within(recorded, committed)
    && forall c :: Due(calls, t, c) ==> Entry(calls[c].user, calls[c].amount) in committed
  }

  lemma DueWasCommitted(cfg: Config, sys: Sys, m: Move, now: Time, t: Target, c: CallId, before: seq<Entry>)
    requires Due(Advance(cfg, sys, m, now).sys.calls, t, c)
    requires forall d :: Due(sys.calls, t, d) ==> Entry(sys.calls[d].user, sys.calls[d].amount) in before
    ensures var call := Advance(cfg, sys, m, now).sys.calls[c];
            Entry(call.user, call.amount) in before + NewlyCommitted(cfg, sys, m, now, t)
  {
    hide Advance, CommitsOn;
    DueBefore(cfg, sys, m, now, t, c);
  }

  lemma {:induction false} RecordsWereCommitted(cfg: Config, start: Sys, ts: seq<Tick>, n: nat, t: Target)
    requires NoneDue(start.calls, t) && n <= |ts|
    ensures OnlyCommitted(SysAt(cfg, start, ts, n).calls, Recorded(cfg, start, ts, n, t),
        Committed(cfg, start, ts, n, t), t)
  {
    hide Advance, CommitsOn;
    if n > 0 {
      var sys, m, now := SysAt(cfg, start, ts, n - 1), ts[n - 1].move, ts[n - 1].now;
      var next, committed := SysAt(cfg, start, ts, n), Committed(cfg, start, ts, n, t);
      RecordsWereCommitted(cfg, start, ts, n - 1, t);
      forall c | Due(next.calls, t, c)
        ensures c in next.calls && Bidding(next.calls[c])
        ensures Entry(next.calls[c].user, next.calls[c].amount) in committed
      {
        DueWasCommitted(cfg, sys, m, now, t, c, Committed(cfg, start, ts, n - 1, t));
      }
      assert forall e :: e in NewlyRecorded(cfg, sys, m, now, t) ==> e in committed;
    }
  }

  /** Whatever interleaving: the ledger of a target agrees with its row if and only if its bids have been recorded in
      the order in which they were committed, all of them. */
  lemma LedgerAgreesIffInOrder(cfg: Config, start: Sys, ts: seq<Tick>, n: nat, t: Target)
    requires PositiveIncrements(cfg) && BidsInv(cfg, start) && AuctionOf(start.db, t).Some? && NoneDue(start.calls, t)
    requires LedgerAgrees(AuctionOf(start.db, t).value, BidsOn(start.db.bids, t), Increment(cfg, t)) && n <= |ts|
    ensures var db := SysAt(cfg, start, ts, n).db;
            && AuctionOf(db, t).Some?
            && (LedgerAgrees(AuctionOf(db, t).value, BidsOn(db.bids, t), Increment(cfg, t))
                <==> Recorded(cfg, start, ts, n, t) == Committed(cfg, start, ts, n, t))
  {
    hide Advance, BidsInv, AuctionOf, BidsOn, LedgerAgrees, Climbs, PriceAfter, Within, Recorded, Committed, NoneDue;
    var a, b := AuctionOf(start.db, t).value, PriceAt(cfg, start, ts, n, t);
    var recorded, committed := Recorded(cfg, start, ts, n, t), Committed(cfg, start, ts, n, t);
    TargetPresent(cfg, start, ts, n, t);
    RowFollowsCommits(cfg, start, ts, n, t);
    RowsFollowRecords(cfg, start, ts, n, t);
    RecordsWereCommitted(cfg, start, ts, n, t);
    if recorded == committed {
      LedgerOfCommits(a, start.db.bids, t, committed, b, Increment(cfg, t));
    }
    if LedgerAgrees(b, BidsOn(RecordAll(start.db.bids, t, recorded), t), Increment(cfg, t)) {
      LedgerShowsOrder(a, start.db.bids, t, recorded, committed, b, Increment(cfg, t));
    }
  }
}
