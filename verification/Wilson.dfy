/** The Wilson score interval of a rate, over the reals (tools/assistant-metrics.py). */
module Wilson {
  import opened Outcomes
  import opened Arithmetic
  import Rounding

  const Z := 1.959963984540054

  function Square(x: real): real {
    x * x
  }

  function FourSquares(m: real): (e: real)
    requires m > 0.0
    ensures e > 0.0
  {
    var fourfold := 4.0 * m;
    Rounding.ProductPositive(fourfold, m);
    fourfold * m
  }

  /** What the square root is taken of, with p the share k / n. */
  function Radicand(p: real, n: nat): real
    requires n > 0
  {
    p * (1.0 - p) / n as real + Z * Z / FourSquares(n as real)
  }

  function Denominator(n: nat): real
    requires n > 0
  {
    1.0 + Z * Z / n as real
  }

  function Centre(p: real, n: nat): real
    requires n > 0 && Denominator(n) != 0.0
  {
    (p + Z * Z / (2.0 * n as real)) / Denominator(n)
  }

  function Margin(n: nat, root: real): real
    requires n > 0 && Denominator(n) != 0.0
  {
    Z * root / Denominator(n)
  }

  predicate IsRoot(root: real, k: int, n: nat)
    requires n > 0
  {
    root >= 0.0 && root * root == Radicand(k as real / n as real, n)
  }

  datatype Interval = Interval(low: real, high: real)

  lemma DenominatorPositive(n: nat)
    requires n > 0
    ensures Denominator(n) > 1.0
  {
    assert Z * Z / n as real > 0.0;
  }

  /** Before the two clamps. */
  function Unclamped(k: int, n: nat, root: real): Interval
    requires n > 0
  {
    DenominatorPositive(n);
    var centre, margin := Centre(k as real / n as real, n), Margin(n, root);
    Interval(centre - margin, centre + margin)
  }

  /** `wilson`, given the square root it needs. */
  function Wilson(k: int, n: int, root: real): Option<Interval> {
    if n <= 0 then None
    else
      var i := Unclamped(k, n, root);
      Some(Interval(Max(0.0, i.low), Min(1.0, i.high)))
  }

  // ----- The interval as the set of shares that are not rejected -----

  /** The score test does not reject x: n (p - x)^2 <= Z^2 x (1 - x), with p the observed share. */
  predicate NotRejected(p: real, n: nat, x: real) {
    n as real * Square(p - x) <= Z * Z * (x * (1.0 - x))
  }

  /** The same with w for Z^2 / n. */
  predicate Plausible(p: real, w: real, x: real) {
    Square(p - x) <= w * (x * (1.0 - x))
  }

  function Quadratic(d: real, c: real, p: real, x: real): real {
    d * Square(x) - 2.0 * c * x + Square(p)
  }

  lemma Cancel(d: real, a: real, b: real)
    requires d > 0.0 && d * a == d * b
    ensures a == b
  {
    if a < b {
      Rounding.ProductPositive(d, b - a);
    } else if b < a {
      Rounding.ProductPositive(d, a - b);
    }
  }

  /** c and t stand for the centre and the margin before they are divided by d = 1 + w. */
  ghost predicate Bounds(p: real, w: real, t: real, low: real, high: real) {
    && w > 0.0 && t >= 0.0 && t * t == w * (p * (1.0 - p)) + w * w / 4.0
    && (1.0 + w) * low == p + w / 2.0 - t && (1.0 + w) * high == p + w / 2.0 + t
  }

  lemma Expand(p: real, w: real, x: real)
    ensures Square(p - x) - w * (x * (1.0 - x)) == Quadratic(1.0 + w, p + w / 2.0, p, x)
  {
    assert Square(p - x) == p * p - 2.0 * (p * x) + x * x;
  }

  lemma ProductOfBounds(p: real, w: real, t: real, low: real, high: real)
    requires Bounds(p, w, t, low, high)
    ensures (1.0 + w) * (low * high) == p * p
  {
    var d, c := 1.0 + w, p + w / 2.0;
    assert (d * low) * (d * high) == (c - t) * (c + t) == c * c - t * t;
    assert c * c == p * p + p * w + w * w / 4.0;
    assert c * c - t * t == d * (p * p);
    assert d * (d * (low * high)) == (d * low) * (d * high);
    Cancel(d, d * (low * high), p * p);
  }

  function Product(d: real, a: real, b: real): real {
    d * (a * b)
  }

  lemma ExpandProduct(low: real, high: real, x: real)
    ensures (x - low) * (x - high) == x * x - (low + high) * x + low * high
  {
  }

  lemma Distribute(d: real, a: real, b: real, x: real, c: real)
    ensures d * (a - b * x + c) == d * a - (d * b) * x + d * c
  {
  }

  lemma FactorTerms(d: real, low: real, high: real, x: real, sum: real, product: real)
    requires d * (low + high) == sum && d * (low * high) == product
    ensures d * ((x - low) * (x - high)) == d * (x * x) - sum * x + product
  {
    ExpandProduct(low, high, x);
    Distribute(d, x * x, low + high, x, low * high);
  }

  lemma Factor(p: real, w: real, t: real, low: real, high: real, x: real)
    requires Bounds(p, w, t, low, high)
    ensures Quadratic(1.0 + w, p + w / 2.0, p, x) == Product(1.0 + w, x - low, x - high)
  {
    ProductOfBounds(p, w, t, low, high);
    SumOfBounds(p, w, t, low, high);
    hide Bounds;
    FactorTerms(1.0 + w, low, high, x, 2.0 * (p + w / 2.0), p * p);
  }

  lemma SumOfBounds(p: real, w: real, t: real, low: real, high: real)
    requires Bounds(p, w, t, low, high)
    ensures (1.0 + w) * (low + high) == 2.0 * (p + w / 2.0)
  {
  }

  lemma SignOfProduct(d: real, a: real, b: real)
    requires d > 0.0 && a >= b
    ensures Product(d, a, b) <= 0.0 <==> a >= 0.0 && b <= 0.0
  {
    if a < 0.0 {
      Rounding.ProductPositive(-a, -b);
      Rounding.ProductPositive(d, a * b);
    } else if b > 0.0 {
      Rounding.ProductPositive(a, b);
      Rounding.ProductPositive(d, a * b);
    } else {
      NotPositive(a, b);
      NotPositive(d, a * b);
    }
  }

  lemma NotPositive(a: real, b: real)
    requires a >= 0.0 && b <= 0.0
    ensures a * b <= 0.0
  {
  }

  lemma BoundsOrder(p: real, w: real, t: real, low: real, high: real)
    requires Bounds(p, w, t, low, high)
    ensures low <= high
  {
    Rounding.ProductOrder(low, high, 1.0 + w);
  }

  lemma PlausibleQuadratic(p: real, w: real, x: real)
    ensures Plausible(p, w, x) <==> Quadratic(1.0 + w, p + w / 2.0, p, x) <= 0.0
  {
    Expand(p, w, x);
    hide Quadratic, Square;
  }

  lemma PlausibleBetween(p: real, w: real, t: real, low: real, high: real, x: real)
    requires Bounds(p, w, t, low, high)
    ensures Plausible(p, w, x) <==> low <= x <= high
  {
    assert w > 0.0;
    hide Quadratic, Bounds, Square, Product, Plausible;
    PlausibleQuadratic(p, w, x);
    Factor(p, w, t, low, high, x);
    BoundsOrder(p, w, t, low, high);
    SignOfProduct(1.0 + w, x - low, x - high);
  }

  lemma SquareNotNegative(x: real)
    ensures Square(x) >= 0.0
  {
  }

  lemma UnitOnly(x: real)
    ensures x * (1.0 - x) >= 0.0 <==> 0.0 <= x <= 1.0
  {
    if x < 0.0 {
      Rounding.ProductPositive(-x, 1.0 - x);
    } else if x > 1.0 {
      Rounding.ProductPositive(x, x - 1.0);
    } else {
      NotPositive(x, x - 1.0);
    }
  }

  lemma SignOfFactor(w: real, v: real)
    requires w > 0.0
    ensures w * v >= 0.0 <==> v >= 0.0
  {
    Rounding.ProductOrder(0.0, v, w);
  }

  lemma PlausibleInUnit(p: real, w: real, x: real)
    requires w > 0.0 && Plausible(p, w, x)
    ensures 0.0 <= x <= 1.0
  {
    SquareNotNegative(p - x);
    hide Square;
    SignOfFactor(w, x * (1.0 - x));
    UnitOnly(x);
  }

  lemma ObservedIsPlausible(p: real, w: real)
    requires w > 0.0 && 0.0 <= p <= 1.0
    ensures Plausible(p, w, p)
  {
    UnitOnly(p);
    SignOfFactor(w, p * (1.0 - p));
    assert Square(p - p) == 0.0;
  }

  lemma BoundsInUnit(p: real, w: real, t: real, low: real, high: real)
    requires Bounds(p, w, t, low, high) && 0.0 <= p <= 1.0
    ensures 0.0 <= low <= p <= high <= 1.0
  {
    assert w > 0.0;
    hide Bounds, Plausible;
    BoundsOrder(p, w, t, low, high);
    ObservedIsPlausible(p, w);
    PlausibleBetween(p, w, t, low, high, p);
    PlausibleBetween(p, w, t, low, high, low);
    PlausibleBetween(p, w, t, low, high, high);
    PlausibleInUnit(p, w, low);
    PlausibleInUnit(p, w, high);
  }

  lemma MirrorBounds(p: real, w: real, t: real, low: real, high: real, mirrorLow: real, mirrorHigh: real)
    requires Bounds(p, w, t, low, high) && Bounds(1.0 - p, w, t, mirrorLow, mirrorHigh)
    ensures mirrorLow == 1.0 - high && mirrorHigh == 1.0 - low
  {
    Cancel(1.0 + w, mirrorLow, 1.0 - high);
    Cancel(1.0 + w, mirrorHigh, 1.0 - low);
  }

  // ----- The interval of k successes out of n -----

  /** Z^2 / n */
  function Weight(n: nat): real
    requires n > 0
  {
    Z * Z / n as real
  }

  lemma Halves(a: real, m: real)
    requires m > 0.0
    ensures a / (2.0 * m) == a / m / 2.0
  {
  }

  lemma Quotient(a: real, d: real)
    requires d > 0.0
    ensures d * (a / d) == a
  {
  }

  lemma FourTimesSquare(m: real)
    requires m > 0.0
    ensures FourSquares(m) == 4.0 * (m * m)
  {
  }

  lemma SquareOfQuotient(a: real, m: real)
    requires m > 0.0
    ensures a * (a / FourSquares(m)) == (a / m) * (a / m) / 4.0
  {
    FourTimesSquare(m);
    hide FourSquares;
    Quotient(a, m);
    Quotient(a, FourSquares(m));
    Quotient(a / m, 4.0 * m);
    SharedQuotient(a, m, a / m, FourSquares(m), a / FourSquares(m), a / m / (4.0 * m));
  }

  lemma SharedQuotient(a: real, m: real, q: real, e: real, x: real, y: real)
    requires m > 0.0 && e > 0.0 && e == 4.0 * (m * m) && m * q == a && e * x == a && (4.0 * m) * y == q
    ensures a * x == q * q / 4.0
  {
    assert e * y == m * ((4.0 * m) * y);
    Cancel(e, x, y);
    assert m * y == q / 4.0;
    assert a * y == q * (m * y);
  }

  lemma RadicandScaled(p: real, n: nat)
    requires n > 0
    ensures Z * Z * Radicand(p, n) == Weight(n) * (p * (1.0 - p)) + Weight(n) * Weight(n) / 4.0
  {
    var m, v := n as real, p * (1.0 - p);
    SquareOfQuotient(Z * Z, m);
    assert Z * Z * (v / m) == Z * Z / m * v;
  }

  /** The square root is always taken of a positive number. */
  lemma RadicandNotNegative(k: nat, n: nat)
    requires 0 < n && k <= n
    ensures Radicand(k as real / n as real, n) > 0.0
  {
    var p, m := k as real / n as real, n as real;
    Rounding.ShareRange(k, n);
    UnitOnly(p);
    Rounding.ProductOrder(0.0, p * (1.0 - p) / m, m);
    Quotient(p * (1.0 - p), m);
    Quotient(Z * Z, FourSquares(m));
    Rounding.ProductOrder(Z * Z / FourSquares(m), 0.0, FourSquares(m));
  }

  lemma RootScaled(root: real, p: real, n: nat)
    requires n > 0 && root * root == Radicand(p, n)
    ensures (Z * root) * (Z * root) == Weight(n) * (p * (1.0 - p)) + Weight(n) * Weight(n) / 4.0
  {
    RadicandScaled(p, n);
    hide Radicand, Weight;
    assert (Z * root) * (Z * root) == Z * Z * (root * root);
  }

  lemma UnclampedBounds(k: int, n: nat, root: real)
    requires n > 0 && IsRoot(root, k, n)
    ensures Weight(n) > 0.0
    ensures var i := Unclamped(k, n, root);
            Bounds(k as real / n as real, Weight(n), Z * root, i.low, i.high)
  {
    hide Radicand;
    var p, m := k as real / n as real, n as real;
    DenominatorPositive(n);
    var d := Denominator(n);
    RootScaled(root, p, n);
    Halves(Z * Z, m);
    var c, t := p + Z * Z / (2.0 * m), Z * root;
    Quotient(c, d);
    Quotient(t, d);
    assert Z * root >= 0.0;
    SumScaled(d, c / d, t / d);
  }

  lemma SumScaled(d: real, a: real, b: real)
    ensures d * (a - b) == d * a - d * b && d * (a + b) == d * a + d * b
  {
  }

  /**
    The published interval is exactly the set of shares the score test does not reject; it lies in 0..1 and holds the
    observed share, so neither clamp ever changes a bound.
   */
  lemma IntervalIsScoreTest(k: nat, n: nat, root: real)
    requires 0 < n && k <= n && IsRoot(root, k, n)
    ensures Wilson(k, n, root) == Some(Unclamped(k, n, root))
    ensures var i := Unclamped(k, n, root);
            var p := k as real / n as real;
            && 0.0 <= i.low <= p <= i.high <= 1.0
            && forall x: real :: i.low <= x <= i.high <==> NotRejected(p, n, x)
  {
    var i := Unclamped(k, n, root);
    var p, w := k as real / n as real, Weight(n);
    UnclampedBounds(k, n, root);
    Rounding.ShareRange(k, n);
    hide Bounds, Unclamped, IsRoot, NotRejected, Weight;
    BoundsInUnit(p, w, Z * root, i.low, i.high);
    forall x: real
      ensures i.low <= x <= i.high <==> NotRejected(p, n, x)
    {
      PlausibleBetween(p, w, Z * root, i.low, i.high, x);
      NotRejectedIsPlausible(p, n, x);
    }
  }

  lemma NotRejectedIsPlausible(p: real, n: nat, x: real)
    requires n > 0
    ensures NotRejected(p, n, x) <==> Plausible(p, Weight(n), x)
  {
    var m, v := n as real, x * (1.0 - x);
    hide Square;
    Rounding.ProductOrder(Square(p - x), Weight(n) * v, m);
    WeightTimes(n, v);
  }

  lemma WeightTimes(n: nat, v: real)
    requires n > 0
    ensures Weight(n) * v * n as real == Z * Z * v
  {
    Quotient(Z * Z, n as real);
  }

  /** Counting the failures instead of the successes gives the mirror image. */
  lemma MirrorImage(k: nat, n: nat, root: real)
    requires 0 < n && k <= n && IsRoot(root, k, n)
    ensures IsRoot(root, n - k, n)
    ensures var i, j := Unclamped(k, n, root), Unclamped(n - k, n, root);
            j.low == 1.0 - i.high && j.high == 1.0 - i.low
  {
    var p, q := k as real / n as real, (n - k) as real / n as real;
    OtherShare(k, n);
    assert q * (1.0 - q) == p * (1.0 - p);
    UnclampedBounds(k, n, root);
    UnclampedBounds(n - k, n, root);
    var i, j := Unclamped(k, n, root), Unclamped(n - k, n, root);
    hide Unclamped, IsRoot, Weight, Bounds;
    MirrorBounds(p, Weight(n), Z * root, i.low, i.high, j.low, j.high);
  }

  lemma OtherShare(k: nat, n: nat)
    requires 0 < n && k <= n
    ensures (n - k) as real / n as real == 1.0 - k as real / n as real
  {
    Quotient(k as real, n as real);
    Quotient((n - k) as real, n as real);
    Cancel(n as real, (n - k) as real / n as real, 1.0 - k as real / n as real);
  }

  // ----- The published row -----

  const MILLION := 1000000.0

  function Round6(x: real): real {
    Rounding.Round(x * MILLION) as real / MILLION
  }

  datatype Row = Row(k: int, n: int, rate: Option<real>, ci95: Option<Interval>)

  function PublishedRate(k: int, n: int, root: real): Row {
    match Wilson(k, n, root)
    case None => Row(k, n, None, None)
    case Some(i) => Row(k, n, Some(Round6(k as real / n as real)), Some(Interval(Round6(i.low), Round6(i.high))))
  }

  lemma Round6Monotone(x: real, y: real)
    requires x <= y
    ensures Round6(x) <= Round6(y)
  {
    Rounding.RoundMonotone(x * MILLION, y * MILLION);
  }

  predicate Millionths(x: real, m: int) {
    x * 1000000.0 == m as real
  }

  predicate Near(x: real, y: real) {
    -0.0000005 <= x - y <= 0.0000005
  }

  /** A published number is the nearest of six decimals. */
  lemma Round6IsNearest(x: real)
    ensures Near(x, Round6(x)) && exists m :: Millionths(Round6(x), m)
  {
    var m := Rounding.Round(x * MILLION);
    Rounding.RoundIsNearest(x * MILLION, m);
    assert Millionths(Round6(x), m);
  }

  ghost predicate ScoreInterval(i: Interval, p: real, n: nat) {
    i.low <= p <= i.high && forall x: real :: i.low <= x <= i.high <==> NotRejected(p, n, x)
  }

  /** The row publishes the share and both ends of the score interval, each to within half a millionth. */
  lemma PublishedIsNear(k: nat, n: nat, root: real)
    requires 0 < n && k <= n && IsRoot(root, k, n)
    ensures var row, p := PublishedRate(k, n, root), k as real / n as real;
            && row.k == k && row.n == n && row.rate.Some? && Near(p, row.rate.value) && row.ci95.Some?
            && exists i :: && ScoreInterval(i, p, n)
                           && Near(i.low, row.ci95.value.low) && Near(i.high, row.ci95.value.high)
  {
    IntervalIsScoreTest(k, n, root);
    var i, p := Unclamped(k, n, root), k as real / n as real;
    hide Unclamped, NotRejected, IsRoot, Near, Round6;
    Round6IsNearest(p);
    Round6IsNearest(i.low);
    Round6IsNearest(i.high);
    assert ScoreInterval(i, p, n);
  }

  /** Rounding keeps the published share inside its published interval, and both inside 0..1. */
  lemma PublishedInOrder(k: nat, n: nat, root: real)
    requires 0 < n && k <= n && IsRoot(root, k, n)
    ensures var row := PublishedRate(k, n, root);
            && row.rate.Some? && row.ci95.Some?
            && 0.0 <= row.ci95.value.low <= row.rate.value <= row.ci95.value.high <= 1.0
  {
    IntervalIsScoreTest(k, n, root);
    Rounding.RoundWhole(0);
    Rounding.RoundWhole(1000000);
    assert Round6(0.0) == 0.0 && Round6(1.0) == 1.0;
    var i, p := Unclamped(k, n, root), k as real / n as real;
    hide Round6, Unclamped, NotRejected, IsRoot;
    Round6Monotone(0.0, i.low);
    Round6Monotone(i.low, p);
    Round6Monotone(p, i.high);
    Round6Monotone(i.high, 1.0);
  }
}
