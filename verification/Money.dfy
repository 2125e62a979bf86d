/** Order totals in whole paise (src/common/money.ts) and how far rounding can take them. */
module Money {
  datatype OrderTotals = OrderTotals(base: int, fee: int, gst: int, total: int)

  /** BigInt division: truncates toward zero. */
  function DivTrunc(a: int, b: int): int
    requires b > 0
  {
    if a >= 0 then a / b else -((-a) / b)
  }

  /** x / 10000, half a paisa rounding up. */
  function Round(x: int): int {
    DivTrunc(x + 5000, 10000)
  }

  function Share(amount: int, basisPoints: int): int {
    Round(amount * basisPoints)
  }

  /** `feeBp` and `gstBp` are percents in basis points. */
  function ComputeOrderTotals(base: int, feeBp: int, gstBp: int): OrderTotals {
    var fee := Share(base, feeBp);
    var gst := Share(fee, gstBp);
    OrderTotals(base, fee, gst, base + fee + gst)
  }

  predicate IsRate(bp: int) {
    0 <= bp <= 10000
  }

  function Total(base: int, feeBp: int, gstBp: int): int {
    ComputeOrderTotals(base, feeBp, gstBp).total
  }

  function Sum(parts: seq<int>): int {
    if parts == [] then 0 else parts[0] + Sum(parts[1..])
  }

  function SumOfTotals(parts: seq<int>, feeBp: int, gstBp: int): int {
    if parts == [] then 0 else Total(parts[0], feeBp, gstBp) + SumOfTotals(parts[1..], feeBp, gstBp)
  }

  function Abs(x: int): int {
    if x < 0 then -x else x
  }

  // ---- one rounding ----------------------------------------------------------

  lemma RoundBounds(x: int)
    requires x >= 0
    ensures x - 5000 < 10000 * Round(x) <= x + 5000 && Round(x) >= 0
  {
  }

  lemma ProductNonNegative(a: int, b: int)
    requires a >= 0 && b >= 0
    ensures a * b >= 0
  {
  }

  /** The rounded share lies within half a paisa of the exact one. */
  lemma ShareBounds(amount: int, bp: int)
    requires amount >= 0 && IsRate(bp)
    ensures amount * bp - 5000 < 10000 * Share(amount, bp) <= amount * bp + 5000
    ensures 0 <= Share(amount, bp) <= amount
  {
    ProductNonNegative(amount, bp);
    ProductNonNegative(amount, 10000 - bp);
    assert amount * (10000 - bp) == amount * 10000 - amount * bp;
    RoundBounds(amount * bp);
  }

  lemma ErrorShareBound(x: int, bp: int)
    requires -5000 <= x <= 5000 && IsRate(bp)
    ensures -50000000 <= x * bp <= 50000000
  {
    ProductNonNegative(5000 - x, bp);
    ProductNonNegative(5000 + x, bp);
    assert (5000 - x) * bp == 5000 * bp - x * bp;
    assert (5000 + x) * bp == 5000 * bp + x * bp;
  }

  lemma ShareMonotone(a: int, b: int, bp: int)
    requires 0 <= a <= b && IsRate(bp)
    ensures Share(a, bp) <= Share(b, bp)
  {
    ProductNonNegative(a, bp);
    ProductNonNegative(b - a, bp);
    assert (b - a) * bp == b * bp - a * bp;
    RoundBounds(a * bp);
    RoundBounds(b * bp);
  }

  /** Rounding the parts and rounding the whole differ by at most one paisa. */
  lemma ShareSplit(a: int, b: int, bp: int)
    requires a >= 0 && b >= 0 && IsRate(bp)
    ensures -1 <= Share(a, bp) + Share(b, bp) - Share(a + b, bp) <= 1
  {
    ProductNonNegative(a, bp);
    ProductNonNegative(b, bp);
    assert (a + b) * bp == a * bp + b * bp;
    RoundBounds(a * bp);
    RoundBounds(b * bp);
    RoundBounds(a * bp + b * bp);
  }

  // ---- whole totals ----------------------------------------------------------

  /** Fee and GST each lie within half a paisa of their exact share, halves going up, and the total is all three. */
  lemma SharesNearExact(base: int, feeBp: int, gstBp: int)
    requires base >= 0 && IsRate(feeBp) && IsRate(gstBp)
    ensures var t := ComputeOrderTotals(base, feeBp, gstBp);
            && t.base == base && t.total == t.base + t.fee + t.gst
            && base * feeBp - 5000 < 10000 * t.fee <= base * feeBp + 5000
            && t.fee * gstBp - 5000 < 10000 * t.gst <= t.fee * gstBp + 5000
            && 0 <= t.gst <= t.fee <= base
  {
    ShareBounds(base, feeBp);
    ShareBounds(Share(base, feeBp), gstBp);
  }

  /** The scaled rounding error of a total is made of its two rounding errors. */
  lemma ErrorsAddUp(base: int, fee: int, gst: int, exactFee: int, exactGst: int, feeBp: int, gstBp: int)
    requires exactFee == base * feeBp && exactGst == fee * gstBp
    ensures 100000000 * (base + fee + gst) - base * (100000000 + feeBp * 10000 + feeBp * gstBp)
         == 10000 * (10000 * fee - exactFee) + 10000 * (10000 * gst - exactGst) + (10000 * fee - exactFee) * gstBp
  {
    assert base * (100000000 + feeBp * 10000 + feeBp * gstBp)
        == 100000000 * base + 10000 * exactFee + exactFee * gstBp by {
      assert base * (feeBp * 10000) == 10000 * (base * feeBp);
      assert base * (feeBp * gstBp) == (base * feeBp) * gstBp;
      assert base * (100000000 + feeBp * 10000 + feeBp * gstBp)
          == base * 100000000 + base * (feeBp * 10000) + base * (feeBp * gstBp);
    }
    assert (10000 * fee - exactFee) * gstBp == 10000 * (fee * gstBp) - exactFee * gstBp;
  }

  /** Within 1.5 paise of the exact rational total, here scaled by 10^8. */
  lemma TotalNearExact(base: int, feeBp: int, gstBp: int)
    requires base >= 0 && IsRate(feeBp) && IsRate(gstBp)
    ensures var exact := base * (100000000 + feeBp * 10000 + feeBp * gstBp);
            Abs(100000000 * Total(base, feeBp, gstBp) - exact) <= 150000000
  {
    var fee := Share(base, feeBp);
    var gst := Share(fee, gstBp);
    ShareBounds(base, feeBp);
    ShareBounds(fee, gstBp);
    var feeError := 10000 * fee - base * feeBp;
    var gstError := 10000 * gst - fee * gstBp;
    ErrorShareBound(feeError, gstBp);
    ErrorsAddUp(base, fee, gst, base * feeBp, fee * gstBp, feeBp, gstBp);
  }

  lemma TotalStrictlyIncreasing(a: int, b: int, feeBp: int, gstBp: int)
    requires 0 <= a < b && IsRate(feeBp) && IsRate(gstBp)
    ensures Total(a, feeBp, gstBp) < Total(b, feeBp, gstBp)
  {
    ShareBounds(a, feeBp);
    ShareMonotone(a, b, feeBp);
    ShareMonotone(Share(a, feeBp), Share(b, feeBp), gstBp);
  }

  lemma TotalBetweenBaseAndTriple(base: int, feeBp: int, gstBp: int)
    requires base >= 0 && IsRate(feeBp) && IsRate(gstBp)
    ensures base <= Total(base, feeBp, gstBp) <= 3 * base
  {
    ShareBounds(base, feeBp);
    ShareBounds(Share(base, feeBp), gstBp);
  }

  /** One paisa more or less of fee moves the GST by at most one paisa. */
  lemma GstSplit(fa: int, fb: int, fab: int, gstBp: int)
    requires fa >= 0 && fb >= 0 && fab >= 0 && -1 <= fa + fb - fab <= 1 && IsRate(gstBp)
    ensures -2 <= Share(fa, gstBp) + Share(fb, gstBp) - Share(fab, gstBp) <= 2
  {
    ProductNonNegative(fa, gstBp);
    ProductNonNegative(fb, gstBp);
    ProductNonNegative(fab, gstBp);
    RoundBounds(fa * gstBp);
    RoundBounds(fb * gstBp);
    RoundBounds(fab * gstBp);
    var d := fa + fb - fab;
    assert d * gstBp == fa * gstBp + fb * gstBp - fab * gstBp;
    assert d == -1 || d == 0 || d == 1;
  }

  lemma TotalSplit(a: int, b: int, feeBp: int, gstBp: int)
    requires a >= 0 && b >= 0 && IsRate(feeBp) && IsRate(gstBp)
    ensures -3 <= Total(a, feeBp, gstBp) + Total(b, feeBp, gstBp) - Total(a + b, feeBp, gstBp) <= 3
  {
    var fa, fb, fab := Share(a, feeBp), Share(b, feeBp), Share(a + b, feeBp);
    ShareBounds(a, feeBp);
    ShareBounds(b, feeBp);
    ShareBounds(a + b, feeBp);
    ShareSplit(a, b, feeBp);
    GstSplit(fa, fb, fab, gstBp);
  }

  /** Selling in k parts instead of at once moves the bill by at most 3(k-1) paise. */
  lemma {:induction false} SplittingBound(parts: seq<int>, feeBp: int, gstBp: int)
    requires parts != [] && (forall i :: 0 <= i < |parts| ==> parts[i] >= 0) && IsRate(feeBp) && IsRate(gstBp)
    ensures Sum(parts) >= 0
    ensures Abs(SumOfTotals(parts, feeBp, gstBp) - Total(Sum(parts), feeBp, gstBp)) <= 3 * (|parts| - 1)
  {
    if |parts| == 1 {
      assert parts[1..] == [];
    } else {
      SplittingBound(parts[1..], feeBp, gstBp);
      TotalSplit(parts[0], Sum(parts[1..]), feeBp, gstBp);
    }
  }
}
