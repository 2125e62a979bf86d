/** Terms in row columns, for saying what a call does without the functions that compute it. */
module Columns {
  import opened Rows

  /** The user's attempts as the counter stands once this one is counted. */
  function AttemptsNow(counters: Counters, key: GateKey, now: Time): int {
    if key in counters && now < counters[key].expiresAt then counters[key].count + 1 else 1
  }

  /** The counters with this attempt, which keeps its key alive for a minute. */
  function WithAttempt(counters: Counters, key: GateKey, now: Time): Counters {
    counters[key := Counter(AttemptsNow(counters, key, now), now + 60000)]
  }

  /** x / 10000 to the nearest whole number, halves up. */
  predicate NearestHalfUp(rounded: int, x: int) {
    x - 5000 < 10000 * rounded <= x + 5000
  }

  /** (x + 5000) / 10000 with the fraction cut off towards zero: the same wherever x + 5000 is not negative. */
  predicate CutOff(rounded: int, x: int) {
    if x + 5000 >= 0 then 10000 * rounded <= x + 5000 < 10000 * rounded + 10000
    else 10000 * rounded - 10000 < x + 5000 <= 10000 * rounded
  }

  /** A bid in the last stretch before the end. */
  predicate InLastStretch(endAt: Option<Time>, window: int, now: Time) {
    endAt.Some? && 0 < endAt.value - now < window
  }

  predicate Over(endAt: Option<Time>, now: Time) {
    endAt.Some? && endAt.value < now
  }

  predicate OwnStaff(user: User, bankId: BankId) {
    user.role == BankStaff && user.bankId == Some(bankId)
  }

  predicate OwnerOrAdmin(user: User, bankId: BankId) {
    user.bankId == Some(bankId) || user.role == Admin || user.role == SuperAdmin
  }

  /** One more bid row, the only winning one of its target. */
  predicate BidAdded(before: seq<Bid>, after: seq<Bid>, t: Target, bidder: UserId, amount: int) {
    && |after| == |before| + 1 && after[|before|] == Bid(t, bidder, amount, true)
    && forall k :: 0 <= k < |before| ==>
         after[k] == if before[k].target == t then before[k].(isWinning := false) else before[k]
  }

  /** A price is replaced when the request gives one other than zero and no bid stands. */
  function PriceKept(standing: bool, requested: Option<int>, price: Option<int>): Option<int> {
    if standing || requested.None? || requested.value == 0 then price else requested
  }
}
