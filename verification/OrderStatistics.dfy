/** The interpolated percentile of sorted samples and its interval of order statistics. */
module OrderStatistics {
  import opened Common
  import opened Quantiles

  function Ceiling(x: real): int { -((-x).Floor) }

  /** Where the percentile lies among the indices; `percentile` is a fraction here. */
  function Place(n: nat, percentile: real): real
    requires n > 0
  {
    (n - 1) as real * percentile
  }

  /** Where it lies among the ranks: the mean of the binomial. */
  function Centre(n: nat, percentile: real): real {
    n as real * percentile
  }

  lemma PlaceBounds(n: nat, percentile: real)
    requires n > 0 && 0.0 <= percentile <= 1.0
    ensures 0 <= Place(n, percentile).Floor < n
    ensures Centre(n, percentile) == Place(n, percentile) + percentile
    ensures n > 1 && 0.0 < percentile < 1.0 ==> 0.0 < Place(n, percentile) < (n - 1) as real
    ensures 0.0 < percentile < 1.0 ==> 0.0 < Centre(n, percentile) < n as real
  {
    var a := (n - 1) as real;
    var x := a * percentile;
    OneMore(a, n as real, percentile, x, n as real * percentile);
    Scaled(a, percentile, x);
    Scaled(n as real, percentile, n as real * percentile);
  }

  lemma OneMore(a: real, b: real, p: real, x: real, y: real)
    requires b == a + 1.0 && x == a * p && y == b * p
    ensures y == x + p
  {
  }

  lemma Scaled(a: real, p: real, x: real)
    requires a >= 0.0 && 0.0 <= p <= 1.0 && x == a * p
    ensures 0.0 <= x <= a
    ensures a > 0.0 && 0.0 < p < 1.0 ==> 0.0 < x < a
  {
    Positive(a, p, x);
    Positive(a, 1.0 - p, a - x);
  }

  lemma Positive(a: real, b: real, x: real)
    requires a >= 0.0 && b >= 0.0 && x == a * b
    ensures x >= 0.0
    ensures a > 0.0 && b > 0.0 ==> x > 0.0
  {
  }

  /** How far the percentile lies above the index below it. */
  function Fraction(n: nat, percentile: real): real
    requires n > 0
  {
    Place(n, percentile) - Place(n, percentile).Floor as real
  }

  function PercentileSorted(ordered: seq<real>, percentile: real, round: real -> real): real
    requires ordered != [] && 0.0 <= percentile <= 1.0
  {
    PlaceBounds(|ordered|, percentile);
    round(At(ordered, Place(|ordered|, percentile)))
  }

  function LowerRankAt(centre: real, radius: real): int {
    var r := (centre - radius).Floor;
    if r > 1 then r else 1
  }

  function UpperRankAt(n: nat, centre: real, radius: real): int {
    var r := Ceiling(centre + radius);
    if r < n then r else n
  }

  /** The interval, or `None` for fewer than two samples. */
  function QuantileInterval(ordered: seq<real>, percentile: real, radius: real, round: real -> real): (r: Option<(real, real)>)
    requires 0.0 < percentile < 1.0 && radius >= 0.0
  {
    var n := |ordered|;
    if n < 2 then None
    else
      RanksAreValid(n, percentile, radius);
      Some((round(ordered[LowerRankAt(Centre(n, percentile), radius) - 1]),
            round(ordered[UpperRankAt(n, Centre(n, percentile), radius) - 1])))
  }

  /** The ranks chosen exist, and lie on either side of the position of the estimate. */
  lemma RanksAreValid(n: nat, percentile: real, radius: real)
    requires n >= 2 && 0.0 < percentile < 1.0 && radius >= 0.0
    ensures var low := LowerRankAt(Centre(n, percentile), radius); var high := UpperRankAt(n, Centre(n, percentile), radius);
            var k := Place(n, percentile).Floor;
            && 1 <= low <= high <= n && low - 1 <= k < high && 0 <= k <= n - 2
            && (high - 1 > k <==> Fraction(n, percentile) + percentile + radius > 1.0)
  {
    hide LowerRankAt, UpperRankAt, Place, Centre;
    PlaceBounds(n, percentile);
    RanksAround(n, Place(n, percentile).Floor, Place(n, percentile), Centre(n, percentile), percentile, radius);
  }

  lemma RanksAround(n: nat, k: int, x: real, y: real, p: real, radius: real)
    requires n >= 2 && k as real <= x < k as real + 1.0 && y == x + p && 0.0 < p < 1.0 && radius >= 0.0
    requires 0.0 < x < (n - 1) as real && 0.0 < y < n as real
    ensures var low := LowerRankAt(y, radius); var high := UpperRankAt(n, y, radius);
            && 1 <= low <= high <= n && low - 1 <= k < high && k <= n - 2
            && (high - 1 > k <==> x - k as real + p + radius > 1.0)
  {
    assert k as real < (n - 1) as real;
  }

  ghost predicate Rounding(round: real -> real) {
    forall x: real, y: real :: x <= y ==> round(x) <= round(y)
  }

  /** The interval of these sorted samples contains their estimate. */
  predicate Brackets(ordered: seq<real>, percentile: real, radius: real, round: real -> real)
    requires |ordered| >= 2 && 0.0 < percentile < 1.0 && radius >= 0.0
  {
    var interval := QuantileInterval(ordered, percentile, radius, round).value;
    interval.0 <= PercentileSorted(ordered, percentile, round) <= interval.1
  }

  lemma BracketsWhen(ordered: seq<real>, percentile: real, radius: real, round: real -> real)
    requires Sorted(ordered) && |ordered| >= 2 && 0.0 < percentile < 1.0 && radius >= 0.0 && Rounding(round)
    requires Fraction(|ordered|, percentile) == 0.0 || Fraction(|ordered|, percentile) + percentile + radius > 1.0
    ensures Brackets(ordered, percentile, radius, round)
  {
    hide LowerRankAt, UpperRankAt, Centre, At, Place;
    var n := |ordered|;
    RanksAreValid(n, percentile, radius);
    PlaceBounds(n, percentile);
    var low := LowerRankAt(Centre(n, percentile), radius) - 1;
    var high := UpperRankAt(n, Centre(n, percentile), radius) - 1;
    var x := Place(n, percentile);
    var k := x.Floor;
    AtInCell(ordered, x);
    AtIndex(ordered, x);
    assert ordered[low] <= ordered[k] <= ordered[high];
    assert high > k ==> ordered[k + 1] <= ordered[high];
    assert ordered[low] <= At(ordered, x) <= ordered[high];
  }

  lemma AtIndex(s: seq<real>, x: real)
    requires s != [] && 0 <= x.Floor < |s|
    ensures x == x.Floor as real ==> At(s, x) == s[x.Floor]
  {
  }

  /** Sorted samples that rise by one just above the position of the estimate. */
  function Step(n: nat, k: nat): (s: seq<real>)
    ensures |s| == n && Sorted(s)
  {
    seq(n, i requires 0 <= i < n => if i <= k then 0.0 else 1.0)
  }

  /**
   * For which sizes and radii the interval contains the estimate of all sorted samples, without
   * rounding: exactly when the estimate is an order statistic or the radius reaches past it.
   */
  lemma BracketsIff(n: nat, percentile: real, radius: real)
    requires n >= 2 && 0.0 < percentile < 1.0 && radius >= 0.0
    ensures (forall s: seq<real> :: |s| == n && Sorted(s) ==> Brackets(s, percentile, radius, x => x))
            <==> Fraction(n, percentile) == 0.0 || Fraction(n, percentile) + percentile + radius > 1.0
  {
    var f := Fraction(n, percentile);
    if f == 0.0 || f + percentile + radius > 1.0 {
      forall s: seq<real> | |s| == n && Sorted(s) ensures Brackets(s, percentile, radius, x => x) {
        BracketsWhen(s, percentile, radius, x => x);
      }
    } else {
      RanksAreValid(n, percentile, radius);
      PlaceBounds(n, percentile);
      hide LowerRankAt, UpperRankAt, Centre, Place;
      var k := Place(n, percentile).Floor;
      var s := Step(n, k);
      assert At(s, Place(n, percentile)) == f;
      assert !Brackets(s, percentile, radius, x => x);
    }
  }

  /**
   * The radius in use: `z` standard deviations of a binomial. It is wide enough for every size and
   * every percentile above 0.15, so for the 0.95 and 0.99 that are reported.
   */
  lemma IntervalContainsEstimate(ordered: seq<real>, percentile: real, z: real, radius: real, round: real -> real)
    requires Sorted(ordered) && |ordered| >= 2 && 0.15 <= percentile < 1.0 && Rounding(round)
    requires z >= 1.9 && radius >= 0.0
    requires radius * radius == z * z * (|ordered| as real * percentile * (1.0 - percentile))
    ensures Brackets(ordered, percentile, radius, round)
  {
    RadiusIsWide(|ordered| as real, percentile, z, radius);
    BracketsWhen(ordered, percentile, radius, round);
  }

  lemma RadiusIsWide(n: real, p: real, z: real, radius: real)
    requires n >= 2.0 && 0.15 <= p < 1.0 && z >= 1.9 && radius >= 0.0
    requires radius * radius == z * z * (n * p * (1.0 - p))
    ensures radius > 1.0 - p
  {
    SquareIsLarge(n, p, z, radius * radius, 1.0 - p);
    SquareBelow(radius, 1.0 - p, radius * radius);
  }

  lemma SquareIsLarge(n: real, p: real, z: real, s: real, q: real)
    requires n >= 2.0 && 0.15 <= p < 1.0 && z >= 1.9 && q == 1.0 - p
    requires s == z * z * (n * p * q)
    ensures s > q
  {
    var square, v := z * z, p * q;
    var a := n * v;
    Grows(z, 1.9, z, square, 1.9 * z);
    Grows(p, 0.15, q, v, 0.15 * q);
    Grows(n, 2.0, v, a, 2.0 * v);
    Grows(square, 3.61, a, square * a, 3.61 * a);
    assert a == n * p * q;
    assert s == square * a;
  }

  lemma SquareBelow(r: real, q: real, s: real)
    requires r >= 0.0 && 0.0 < q < 1.0 && s == r * r
    ensures r <= q ==> s <= q
  {
    if r <= q { Grows(1.0, r, r, r, s); }
  }

  lemma Grows(a: real, b: real, c: real, x: real, y: real)
    requires a >= b && c >= 0.0 && x == a * c && y == b * c
    ensures x >= y
  {
    assert x - y == (a - b) * c;
  }

  /** The estimate is the interpolated quantile at that many percent. */
  lemma EstimateIs(ordered: seq<real>, percentile: real, round: real -> real)
    requires ordered != [] && 0.0 <= percentile <= 1.0
    ensures PercentileSorted(ordered, percentile, round) == round(Interpolated(ordered, 100.0 * percentile))
  {
    hide At;
    PlaceBounds(|ordered|, percentile);
    SamePlace((|ordered| - 1) as real, percentile);
  }

  lemma SamePlace(a: real, p: real)
    ensures a * (100.0 * p) / 100.0 == a * p
  {
  }

  /**
   * The interval runs between two order statistics: the ranks next outside the mean of the binomial
   * less and plus the radius, as far as there are such ranks.
   */
  lemma IntervalIs(ordered: seq<real>, percentile: real, radius: real, round: real -> real) returns (low: nat, high: nat)
    requires |ordered| >= 2 && 0.0 < percentile < 1.0 && radius >= 0.0
    ensures 1 <= low <= |ordered| && 1 <= high <= |ordered|
    ensures QuantileInterval(ordered, percentile, radius, round) == Some((round(ordered[low - 1]), round(ordered[high - 1])))
    ensures var mean := |ordered| as real * percentile;
            && (low > 1 ==> low as real <= mean - radius) && mean - radius < (low + 1) as real
            && (high < |ordered| ==> mean + radius <= high as real) && (high - 1) as real < mean + radius
  {
    var n := |ordered|;
    var mean := Centre(n, percentile);
    assert mean == n as real * percentile;
    hide LowerRankAt, UpperRankAt, Place, Centre;
    RanksAreValid(n, percentile, radius);
    low, high := LowerRankAt(mean, radius), UpperRankAt(n, mean, radius);
    PlaceBounds(n, percentile);
    RanksNextTo(n, mean, radius);
  }

  lemma RanksNextTo(n: nat, mean: real, radius: real)
    requires n >= 2 && 0.0 < mean < n as real && radius >= 0.0
    ensures var low, high := LowerRankAt(mean, radius), UpperRankAt(n, mean, radius);
            && (low > 1 ==> low as real <= mean - radius) && mean - radius < (low + 1) as real
            && (high < n ==> mean + radius <= high as real) && (high - 1) as real < mean + radius
  {
  }

  lemma NoInterval(ordered: seq<real>, percentile: real, radius: real, round: real -> real)
    requires 0.0 < percentile < 1.0 && radius >= 0.0
    ensures QuantileInterval(ordered, percentile, radius, round).None? <==> |ordered| < 2
  {
    hide LowerRankAt, UpperRankAt, Centre;
  }
}
