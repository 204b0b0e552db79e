/** Rounding to four decimals in exact arithmetic, the half to even (tools/retrieval-calibration.py, _rate). */
module Rounding {
  import opened Outcomes

  /** The nearest integer, the even one of two equally near. */
  function Round(x: real): int {
    var below := x.Floor;
    var part := x - below as real;
    if part < 0.5 || (part == 0.5 && below % 2 == 0) then below else below + 1
  }

  const TEN_THOUSAND := 10000.0

  /** The whole number of ten-thousandths nearest to x. */
  function Decimals(x: real): int {
    Round(x * TEN_THOUSAND)
  }

  /** The rate that m ten-thousandths write. */
  function Written(m: int): real {
    m as real / TEN_THOUSAND
  }

  function Round4(x: real): real {
    Written(Decimals(x))
  }

  /** So much of n cases. */
  function Of(x: real, n: nat): real {
    x * n as real
  }

  /** The share of k in n. */
  function Share(k: int, n: nat): real
    requires n > 0
  {
    k as real / n as real
  }

  /** `hits` in `total` to four decimals, unless there is nothing to count. */
  function Rate(hits: nat, total: nat): Option<real> {
    if total == 0 then None else Some(Round4(Share(hits, total)))
  }

  lemma RoundIsNearest(x: real, n: int)
    ensures -0.5 <= x - Round(x) as real <= 0.5
    ensures -0.5 < x - n as real < 0.5 ==> Round(x) == n
  {
  }

  lemma RoundWhole(n: int)
    ensures Round(n as real) == n
  {
  }

  lemma RoundMonotone(x: real, y: real)
    requires x <= y
    ensures Round(x) <= Round(y)
  {
    assert x.Floor <= y.Floor;
  }

  lemma Round4Monotone(x: real, y: real)
    requires x <= y
    ensures Round4(x) <= Round4(y)
  {
    RoundMonotone(x * TEN_THOUSAND, y * TEN_THOUSAND);
  }

  lemma ProductPositive(x: real, y: real)
    requires x > 0.0 && y > 0.0
    ensures x * y > 0.0
  {
  }

  lemma ProductOrder(a: real, b: real, n: real)
    requires n > 0.0
    ensures a <= b <==> a * n <= b * n
  {
    if a < b {
      ProductPositive(b - a, n);
      assert (b - a) * n == b * n - a * n;
    } else if a > b {
      ProductPositive(a - b, n);
      assert (a - b) * n == a * n - b * n;
    }
  }

  lemma OfOrder(a: real, b: real, n: nat)
    requires n > 0
    ensures a <= b <==> Of(a, n) <= Of(b, n)
  {
    ProductOrder(a, b, n as real);
  }

  lemma ShareTimes(k: int, n: nat)
    requires n > 0
    ensures Of(Share(k, n), n) == k as real
  {
  }

  lemma ShareMonotone(a: int, b: int, n: nat)
    requires n > 0 && a <= b
    ensures Share(a, n) <= Share(b, n)
  {
    ShareTimes(a, n);
    ShareTimes(b, n);
    hide Share, Of;
    OfOrder(Share(a, n), Share(b, n), n);
  }

  lemma ShareRange(k: nat, n: nat)
    requires 0 < n && k <= n
    ensures 0.0 <= Share(k, n) <= 1.0
  {
    ShareMonotone(0, k, n);
    ShareMonotone(k, n, n);
  }

  /** Both absent, or both present and in this order. */
  predicate AtMost(a: Option<real>, b: Option<real>) {
    (a.Some? <==> b.Some?) && (a.Some? ==> a.value <= b.value)
  }

  lemma RateMonotone(a: nat, b: nat, total: nat)
    requires a <= b
    ensures AtMost(Rate(a, total), Rate(b, total))
  {
    hide Share, Round4;
    if total > 0 {
      ShareMonotone(a, b, total);
      Round4Monotone(Share(a, total), Share(b, total));
    }
  }

  lemma RateRange(k: nat, n: nat)
    requires k <= n
    ensures Rate(k, n).Some? ==> 0.0 <= Rate(k, n).value <= 1.0
  {
    hide Share;
    if n > 0 {
      ShareRange(k, n);
      RoundWhole(0);
      RoundWhole(10000);
      RoundMonotone(0.0, Share(k, n) * TEN_THOUSAND);
      RoundMonotone(Share(k, n) * TEN_THOUSAND, TEN_THOUSAND);
    }
  }
}
