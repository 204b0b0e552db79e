/** The numerators the dashboard publishes for the rates of the calibration report (tools/evaluation-dashboard.py). */
module Numerator {
  import opened Outcomes
  import opened Rounding

  const TOLERANCE := 0.00005

  datatype Row =
    | NotMeasured(denominator: nat)
    | Measured(value: real, numerator: Option<int>, denominator: nat)

  function Distance(a: real, b: real): real {
    if a < b then b - a else a - b
  }

  /** How far the k-th share of n is from a rate. */
  function Gap(k: int, n: nat, rate: real): real
    requires n > 0
  {
    Distance(Share(k, n), rate)
  }

  function CalibrationRow(rate: Option<real>, n: nat): Row {
    if rate.None? || n == 0 then NotMeasured(n)
    else
      var k := Round(Of(rate.value, n));
      Measured(rate.value, if Gap(k, n, rate.value) > TOLERANCE then None else Some(k), n)
  }

  /** What the dashboard republishes for k of n, from the report's four decimals. */
  function Republished(k: nat, n: nat): Row {
    CalibrationRow(Rate(k, n), n)
  }

  predicate Recovered(k: nat, n: nat) {
    Republished(k, n).Measured? && Republished(k, n).numerator == Some(k)
  }

  // ----- Distances -----

  lemma ScaledDistance(a: real, b: real, n: nat)
    requires n > 0
    ensures Distance(Of(a, n), Of(b, n)) == Of(Distance(a, b), n)
  {
    OfOrder(a, b, n);
    OfOrder(b, a, n);
    if a < b {
      assert (b - a) * n as real == Of(b, n) - Of(a, n);
    } else {
      assert (a - b) * n as real == Of(a, n) - Of(b, n);
    }
  }

  lemma GapScaled(k: int, n: nat, rate: real)
    requires n > 0
    ensures Of(Gap(k, n, rate), n) == Distance(k as real, Of(rate, n))
  {
    ScaledDistance(Share(k, n), rate, n);
    ShareTimes(k, n);
  }

  lemma RoundIsNearestOfAll(x: real, k: int)
    ensures Distance(Round(x) as real, x) <= Distance(k as real, x)
  {
    RoundIsNearest(x, k);
    hide Round;
  }

  lemma GapIsLeast(rate: real, n: nat, k: int)
    requires n > 0
    ensures Gap(Round(Of(rate, n)), n, rate) <= Gap(k, n, rate)
  {
    hide Round, Gap, Distance, Of;
    var best := Round(Of(rate, n));
    GapScaled(best, n, rate);
    GapScaled(k, n, rate);
    RoundIsNearestOfAll(Of(rate, n), k);
    OfOrder(Gap(best, n, rate), Gap(k, n, rate), n);
  }

  lemma ReadingInRange(rate: real, n: nat)
    requires n > 0 && 0.0 <= rate <= 1.0
    ensures 0 <= Round(Of(rate, n)) <= n
  {
    OfOrder(0.0, rate, n);
    OfOrder(rate, 1.0, n);
    assert Of(0.0, n) == 0.0 && Of(1.0, n) == n as real;
    hide Of;
    RoundMonotone(0.0, Of(rate, n));
    RoundMonotone(Of(rate, n), n as real);
    RoundWhole(0);
    RoundWhole(n);
  }

  // ----- What is published -----

  /**
    A numerator is published exactly when some whole number of cases is within the report's rounding of the rate, and
    then it is the nearest one; a rate between 0 and 1 never gives one outside 0..n.
   */
  lemma PublishedExactly(rate: real, n: nat)
    requires n > 0
    ensures var row := CalibrationRow(Some(rate), n);
            && row.Measured? && row.value == rate
            && (row.numerator.Some? <==> exists k: int :: Gap(k, n, rate) <= TOLERANCE)
            && (row.numerator.Some? ==>
                  && Gap(row.numerator.value, n, rate) <= TOLERANCE
                  && (forall k: int :: Gap(row.numerator.value, n, rate) <= Gap(k, n, rate))
                  && (0.0 <= rate <= 1.0 ==> 0 <= row.numerator.value <= n))
  {
    hide Gap, Round, Of;
    forall k: int
      ensures Gap(Round(Of(rate, n)), n, rate) <= Gap(k, n, rate)
    {
      GapIsLeast(rate, n, k);
    }
    if 0.0 <= rate <= 1.0 {
      ReadingInRange(rate, n);
    }
  }

  // ----- What is recovered -----

  /** The four published decimals of k / n, as a whole number of ten-thousandths. */
  function TenThousandths(k: nat, n: nat): int
    requires n > 0
  {
    Decimals(Share(k, n))
  }

  /** The numerator read back from m ten-thousandths. */
  function ReadBack(m: int, n: nat): int {
    Round(Of(Written(m), n))
  }

  lemma WrittenNear(x: real)
    ensures Distance(x, Round4(x)) <= TOLERANCE
  {
    RoundIsNearest(x * TEN_THOUSAND, 0);
    hide Round;
  }

  /** A numerator comes back exactly when reading its four decimals gives it again. */
  lemma RecoveredByReading(k: nat, n: nat)
    requires n > 0
    ensures Recovered(k, n) <==> ReadBack(TenThousandths(k, n), n) == k
  {
    WrittenNear(Share(k, n));
    hide Round, Share, Distance, Of, Written, Decimals;
  }

  lemma OfSmall(n: nat)
    requires 0 < n < 10000
    ensures Of(TOLERANCE, n) < 0.5
  {
  }

  lemma ReadBackNear(k: nat, n: nat)
    requires 0 < n < 10000
    ensures ReadBack(TenThousandths(k, n), n) == k
  {
    var q, r := Share(k, n), Round4(Share(k, n));
    WrittenNear(q);
    ScaledDistance(q, r, n);
    ShareTimes(k, n);
    OfOrder(Distance(q, r), TOLERANCE, n);
    OfSmall(n);
    hide Round, Share, Written, Decimals, Of;
    RoundIsNearest(Of(r, n), k);
  }

  lemma AllDecimals(k: nat)
    ensures TenThousandths(k, 10000) == k && ReadBack(k, 10000) == k
  {
    ShareTimes(k, 10000);
    RoundWhole(k);
    hide Round;
    assert Share(k, 10000) * TEN_THOUSAND == k as real && Of(Written(k), 10000) == k as real;
  }

  /** With at most ten thousand cases four decimals are enough, whatever the numerator. */
  lemma SmallSamplesRecovered(k: nat, n: nat)
    requires 0 < n <= 10000
    ensures Recovered(k, n)
  {
    hide Recovered, ReadBack, TenThousandths;
    RecoveredByReading(k, n);
    if n < 10000 {
      ReadBackNear(k, n);
    } else {
      AllDecimals(k);
    }
  }

  lemma ReadBackMonotone(a: int, b: int, n: nat)
    requires a <= b && n > 0
    ensures ReadBack(a, n) <= ReadBack(b, n)
  {
    hide Round, Of;
    OfOrder(Written(a), Written(b), n);
    RoundMonotone(Of(Written(a), n), Of(Written(b), n));
  }

  /** A whole number the readings jump over. */
  function Skipped(n: nat, m: nat): (k: nat)
    requires n > 10000 && m <= 10000 && ReadBack(m, n) > m && ReadBack(0, n) == 0
    ensures 0 < k <= 10000 && ReadBack(k, n) > k && ReadBack(k - 1, n) < k
  {
    if ReadBack(m - 1, n) < m then m else Skipped(n, m - 1)
  }

  lemma ReadBackEnds(n: nat)
    ensures ReadBack(0, n) == 0 && ReadBack(10000, n) == n
  {
    RoundWhole(0);
    RoundWhole(n);
    hide Round;
    assert Of(Written(0), n) == 0.0 && Of(Written(10000), n) == n as real;
  }

  /** With more cases some numerator is always lost: there are more of them than published rates. */
  lemma LargeSampleLoses(n: nat)
    requires n > 10000
    ensures exists k: nat :: k <= n && !Recovered(k, n)
  {
    ReadBackEnds(n);
    hide ReadBack, Recovered, TenThousandths;
    var k := Skipped(n, 10000);
    var m := TenThousandths(k, n);
    if m < k {
      ReadBackMonotone(m, k - 1, n);
    } else {
      ReadBackMonotone(k, m, n);
    }
    RecoveredByReading(k, n);
    assert !Recovered(k, n);
  }

  /** The report's four decimals give every numerator back exactly up to ten thousand cases. */
  lemma RecoveredExactly(n: nat)
    requires n > 0
    ensures (forall k: nat | k <= n :: Recovered(k, n)) <==> n <= 10000
  {
    hide Recovered;
    if n <= 10000 {
      forall k: nat | k <= n
        ensures Recovered(k, n)
      {
        SmallSamplesRecovered(k, n);
      }
    } else {
      LargeSampleLoses(n);
    }
  }

  lemma WithinTolerance(k: int, n: nat, rate: real)
    requires n > 0 && Gap(k, n, rate) <= TOLERANCE
    ensures Distance(k as real, Of(rate, n)) <= Of(TOLERANCE, n)
  {
    GapScaled(k, n, rate);
    OfOrder(Gap(k, n, rate), TOLERANCE, n);
  }

  /**
    A rate of the report is published as measured exactly when it has cases, and then always with a numerator: one of
    0..n, off by at most one for every ten thousand cases.
   */
  lemma ReportedRateHasNumerator(k: nat, n: nat)
    requires k <= n
    ensures Republished(k, n).Measured? <==> n > 0
    ensures n > 0 ==>
              var row := Republished(k, n);
              && row.numerator.Some? && 0 <= row.numerator.value <= n
              && Distance(row.numerator.value as real, k as real) <= 2.0 * Of(TOLERANCE, n)
  {
    if n > 0 {
      var rate := Round4(Share(k, n));
      WrittenNear(Share(k, n));
      PublishedExactly(rate, n);
      RateRange(k, n);
      hide Round, Round4, Share, Of;
      assert Gap(k, n, rate) <= TOLERANCE;
      WithinTolerance(k, n, rate);
      WithinTolerance(Republished(k, n).numerator.value, n, rate);
    }
  }

  /** One case too many: 5001 of 10001 comes back as 5000. */
  lemma FirstLoss()
    ensures Republished(5001, 10001).Measured? && Republished(5001, 10001).numerator == Some(5000)
  {
  }
}
