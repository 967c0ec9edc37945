/** Sorting, order statistics and the linearly interpolated quantile. */
module Quantiles {
  predicate Sorted(s: seq<real>) {
    forall i, j :: 0 <= i < j < |s| ==> s[i] <= s[j]
  }

  lemma SortedCons(x: real, s: seq<real>, t: seq<real>, rest: seq<real>)
    requires Sorted(rest) && multiset(rest) == multiset(t) + multiset{x}
    requires s != [] && t == s[1..] && Sorted(s) && s[0] <= x
    ensures Sorted([s[0]] + rest)
  {
    forall i | 0 <= i < |rest| ensures s[0] <= rest[i] {
      assert rest[i] in multiset(rest);
      if rest[i] != x { assert rest[i] in t; }
    }
  }

  function Insert(x: real, s: seq<real>): (r: seq<real>)
    requires Sorted(s)
    ensures Sorted(r) && multiset(r) == multiset(s) + multiset{x} && |r| == |s| + 1
  {
    if s == [] then [x]
    else if x <= s[0] then [x] + s
    else
      var rest := Insert(x, s[1..]);
      SortedCons(x, s, s[1..], rest);
      assert s == [s[0]] + s[1..];
      [s[0]] + rest
  }

  function Sort(s: seq<real>): (r: seq<real>)
    ensures Sorted(r) && multiset(r) == multiset(s) && |r| == |s|
  {
    if s == [] then []
    else
      assert s == [s[0]] + s[1..];
      Insert(s[0], Sort(s[1..]))
  }

  // ---- Counting ---------------------------------------------------------------------------------

  function Count(s: seq<real>, p: real -> bool): nat {
    if s == [] then 0 else (if p(s[0]) then 1 else 0) + Count(s[1..], p)
  }

  lemma {:induction false} CountSplit(s: seq<real>, t: seq<real>, p: real -> bool)
    ensures Count(s + t, p) == Count(s, p) + Count(t, p)
  {
    if s == [] {
      assert s + t == t;
    } else {
      assert (s + t)[1..] == s[1..] + t;
      CountSplit(s[1..], t, p);
    }
  }

  function Without(t: seq<real>, k: nat): seq<real>
    requires k < |t|
  {
    t[..k] + t[k + 1..]
  }

  lemma CountMiddle(a: seq<real>, x: real, b: seq<real>, p: real -> bool)
    ensures Count(a + ([x] + b), p) == Count(a + b, p) + (if p(x) then 1 else 0)
  {
    assert ([x] + b)[1..] == b;
    CountSplit(a, [x] + b, p);
    CountSplit(a, b, p);
  }

  lemma WithoutOne(t: seq<real>, k: nat, p: real -> bool)
    requires k < |t|
    ensures Count(t, p) == Count(Without(t, k), p) + (if p(t[k]) then 1 else 0)
    ensures multiset(Without(t, k)) == multiset(t) - multiset{t[k]}
  {
    hide Count;
    CountMiddle(t[..k], t[k], t[k + 1..], p);
    assert t == t[..k] + ([t[k]] + t[k + 1..]);
  }

  /** Counting depends only on the multiset of values. */
  lemma {:induction false} CountPermuted(s: seq<real>, t: seq<real>, p: real -> bool)
    requires multiset(s) == multiset(t)
    ensures Count(s, p) == Count(t, p)
    decreases |s|
  {
    if s == [] {
      assert |multiset(t)| == |t|;
    } else {
      assert s[0] in multiset(t);
      var k :| 0 <= k < |t| && t[k] == s[0];
      WithoutOne(s, 0, p);
      WithoutOne(t, k, p);
      assert Without(s, 0) == s[1..];
      CountPermuted(s[1..], Without(t, k), p);
    }
  }

  /** Pointwise implication bounds the counts. */
  lemma {:induction false} CountMonotone(s: seq<real>, t: seq<real>, p: real -> bool, q: real -> bool)
    requires |s| == |t| && forall i :: 0 <= i < |s| && p(s[i]) ==> q(t[i])
    ensures Count(s, p) <= Count(t, q)
  {
    if s != [] {
      forall i | 0 <= i < |s[1..]| && p(s[1..][i]) ensures q(t[1..][i]) { assert p(s[i + 1]); }
      assert p(s[0]) ==> q(t[0]);
      CountMonotone(s[1..], t[1..], p, q);
    }
  }

  ghost predicate DownwardClosed(p: real -> bool) {
    forall x, y :: x <= y && p(y) ==> p(x)
  }

  lemma {:induction false} CountAll(s: seq<real>, p: real -> bool, k: nat)
    requires k <= |s| && forall i :: 0 <= i < k ==> p(s[i])
    ensures Count(s, p) >= k
  {
    if k > 0 {
      forall i | 0 <= i < k - 1 ensures p(s[1..][i]) { assert p(s[i + 1]); }
      assert p(s[0]);
      CountAll(s[1..], p, k - 1);
    }
  }

  lemma {:induction false} CountNone(s: seq<real>, p: real -> bool, k: nat)
    requires k <= |s| && forall i :: k <= i < |s| ==> !p(s[i])
    ensures Count(s, p) <= k
  {
    if s != [] {
      if k > 0 {
        forall i | k - 1 <= i < |s[1..]| ensures !p(s[1..][i]) { assert !p(s[i + 1]); }
        CountNone(s[1..], p, k - 1);
      } else {
        forall i | 0 <= i < |s[1..]| ensures !p(s[1..][i]) { assert !p(s[i + 1]); }
        assert !p(s[0]);
        CountNone(s[1..], p, 0);
      }
    }
  }

  /** The k-th smallest value has a downward closed property iff more than k values have it. */
  lemma RankIffCount(s: seq<real>, p: real -> bool, k: nat)
    requires k < |s| && DownwardClosed(p)
    ensures p(Sort(s)[k]) <==> Count(s, p) >= k + 1
  {
    CountPermuted(s, Sort(s), p);
    RankIffCountSorted(Sort(s), p, k);
  }

  lemma RankIffCountSorted(r: seq<real>, p: real -> bool, k: nat)
    requires k < |r| && DownwardClosed(p) && Sorted(r)
    ensures p(r[k]) <==> Count(r, p) >= k + 1
  {
    if p(r[k]) {
      forall i | 0 <= i < k + 1 ensures p(r[i]) { assert r[i] <= r[k]; }
      CountAll(r, p, k + 1);
    } else {
      forall i | k <= i < |r| ensures !p(r[i]) { assert r[k] <= r[i]; }
      CountNone(r, p, k);
    }
  }

  /** Sorting inherits any pointwise implication between downward closed properties. */
  lemma SortTransfers(s: seq<real>, t: seq<real>, p: real -> bool, q: real -> bool, k: nat)
    requires |s| == |t| && k < |s| && DownwardClosed(p) && DownwardClosed(q)
    requires forall i :: 0 <= i < |s| && p(s[i]) ==> q(t[i])
    ensures p(Sort(s)[k]) ==> q(Sort(t)[k])
  {
    CountMonotone(s, t, p, q);
    RankIffCount(s, p, k);
    RankIffCount(t, q, k);
  }

  // ---- Interpolation ---------------------------------------------------------------------------

  function Position(n: nat, percentile: real): real
    requires n > 0
  {
    (n - 1) as real * percentile / 100.0
  }

  lemma PositionBounds(n: nat, percentile: real)
    requires n > 0 && 0.0 <= percentile <= 100.0
    ensures 0 <= Position(n, percentile).Floor < n
    ensures Position(n, percentile) <= (n - 1) as real
  {
    assert (n - 1) as real * percentile <= (n - 1) as real * 100.0;
    assert 0.0 <= (n - 1) as real * percentile;
  }

  function At(s: seq<real>, position: real): real
    requires s != [] && 0 <= position.Floor < |s|
  {
    var lower := position.Floor;
    var upper := if lower + 1 <= |s| - 1 then lower + 1 else |s| - 1;
    var weight := position - lower as real;
    s[lower] * (1.0 - weight) + s[upper] * weight
  }

  /** The value at a percentile of sorted values, interpolated between neighbouring ranks. */
  function Interpolated(s: seq<real>, percentile: real): real
    requires s != [] && 0.0 <= percentile <= 100.0
  {
    PositionBounds(|s|, percentile);
    At(s, Position(|s|, percentile))
  }

  /** Quantiles of two lists compare as the lists do, rank by rank, up to a factor. */
  lemma QuantileAbove(s: seq<real>, t: seq<real>, m: real, percentile: real)
    requires |s| == |t| > 0 && 0.0 <= percentile <= 100.0
    requires forall i :: 0 <= i < |s| ==> m * t[i] <= s[i]
    ensures m * Interpolated(t, percentile) <= Interpolated(s, percentile)
  {
    PositionBounds(|s|, percentile);
    var position := Position(|s|, percentile);
    var l := position.Floor;
    var u := if l + 1 <= |s| - 1 then l + 1 else |s| - 1;
    var w := position - l as real;
    Mix(s[l], s[u], t[l], t[u], m, w);
  }

  lemma Product(a: real, b: real)
    requires 0.0 <= a && 0.0 <= b
    ensures 0.0 <= a * b
    ensures 0.0 < a && 0.0 < b ==> 0.0 < a * b
  {
  }

  lemma Mix(a: real, b: real, c: real, d: real, m: real, w: real)
    requires 0.0 <= w <= 1.0 && m * c <= a && m * d <= b
    ensures m * (c * (1.0 - w) + d * w) <= a * (1.0 - w) + b * w
    ensures (m * c < a && m * d < b) ==> m * (c * (1.0 - w) + d * w) < a * (1.0 - w) + b * w
  {
    Product(a - m * c, 1.0 - w);
    Product(b - m * d, w);
    var e, f := m * c, m * d;
    assert m * (c * (1.0 - w) + d * w) == e * (1.0 - w) + f * w;
    assert (a - e) * (1.0 - w) == a * (1.0 - w) - e * (1.0 - w);
    assert (b - f) * w == b * w - f * w;
    if e < a && f < b { assert w < 1.0 || 0.0 < w; }
  }

  lemma QuantileStrictlyAbove(s: seq<real>, t: seq<real>, m: real, percentile: real)
    requires |s| == |t| > 0 && 0.0 <= percentile <= 100.0
    requires forall i :: 0 <= i < |s| ==> m * t[i] < s[i]
    ensures m * Interpolated(t, percentile) < Interpolated(s, percentile)
  {
    PositionBounds(|s|, percentile);
    var position := Position(|s|, percentile);
    var l := position.Floor;
    var u := if l + 1 <= |s| - 1 then l + 1 else |s| - 1;
    var w := position - l as real;
    Mix(s[l], s[u], t[l], t[u], m, w);
  }

  /** A quantile lies between the bounds of the list. */
  lemma QuantileWithin(s: seq<real>, low: real, high: real, percentile: real)
    requires s != [] && 0.0 <= percentile <= 100.0
    requires forall i :: 0 <= i < |s| ==> low <= s[i] <= high
    ensures low <= Interpolated(s, percentile) <= high
  {
    PositionBounds(|s|, percentile);
    var position := Position(|s|, percentile);
    var l := position.Floor;
    var u := if l + 1 <= |s| - 1 then l + 1 else |s| - 1;
    var w := position - l as real;
    Product(s[l] - low, 1.0 - w);
    Product(s[u] - low, w);
    Product(high - s[l], 1.0 - w);
    Product(high - s[u], w);
  }

  /** Quantiles of a sorted list grow with the percentile. */
  lemma QuantileMonotone(s: seq<real>, p: real, q: real)
    requires s != [] && Sorted(s) && 0.0 <= p <= q <= 100.0
    ensures Interpolated(s, p) <= Interpolated(s, q)
  {
    PositionBounds(|s|, p);
    PositionBounds(|s|, q);
    Product((|s| - 1) as real, q - p);
    AtMonotone(s, Position(|s|, p), Position(|s|, q));
  }

  function Above(s: seq<real>, l: nat): (u: nat)
    requires l < |s|
    ensures u < |s|
  {
    if l + 1 <= |s| - 1 then l + 1 else |s| - 1
  }

  /** Interpolation stays between the two ranks it uses. */
  lemma AtInCell(s: seq<real>, x: real)
    requires s != [] && Sorted(s) && 0 <= x.Floor < |s|
    ensures s[x.Floor] <= At(s, x) <= s[Above(s, x.Floor)]
  {
    var l := x.Floor;
    MixWithin(s[l], s[Above(s, l)], x - l as real);
  }

  lemma AtMonotone(s: seq<real>, x: real, y: real)
    requires s != [] && Sorted(s) && x <= y && 0 <= x.Floor && y.Floor < |s|
    ensures At(s, x) <= At(s, y)
  {
    var l, k := x.Floor, y.Floor;
    if l == k {
      SameCell(s[l], s[Above(s, l)], x - l as real, y - k as real);
    } else {
      hide At;
      AtInCell(s, x);
      AtInCell(s, y);
      assert Above(s, l) <= k && s[Above(s, l)] <= s[k];
    }
  }

  lemma MixWithin(a: real, b: real, w: real)
    requires a <= b && 0.0 <= w <= 1.0
    ensures a <= a * (1.0 - w) + b * w <= b
  {
    Product(b - a, w);
    Product(b - a, 1.0 - w);
  }

  lemma SameCell(a: real, b: real, w: real, z: real)
    requires a <= b && w <= z
    ensures a * (1.0 - w) + b * w <= a * (1.0 - z) + b * z
  {
    Product(b - a, z - w);
  }

  // ---- What a quantile is ------------------------------------------------------------------------

  /** The percentage of the way through `n` ranks at which rank `k`, and a part of the next step, lies. */
  function Share(n: nat, k: nat, w: real): real
    requires n >= 2
  {
    100.0 * (k as real + w) / (n - 1) as real
  }

  /** The value a part of the way from one value to another. */
  function Blend(a: real, b: real, w: real): real { a + w * (b - a) }

  /**
   * The quantile by ranks: at the share k / (n - 1) it is the k-th sorted value, from the least value
   * at 0 to the greatest at 100, and in between it is linear.
   */
  lemma QuantileIs(s: seq<real>, k: nat, w: real)
    requires k + 1 < |s| && 0.0 <= w <= 1.0
    ensures 0.0 <= Share(|s|, k, w) <= 100.0 && Interpolated(s, Share(|s|, k, w)) == Blend(s[k], s[k + 1], w)
  {
    var n := (|s| - 1) as real;
    var x := k as real + w;
    var percentile := 100.0 * x / n;
    assert percentile * n == 100.0 * x;
    ShareBounds(percentile, n, x);
    assert Position(|s|, percentile) == x;
    if w == 1.0 { assert x.Floor == k + 1; } else { assert x.Floor == k; }
  }

  lemma ShareBounds(percentile: real, n: real, x: real)
    requires 0.0 < n && 0.0 <= x <= n && percentile * n == 100.0 * x
    ensures 0.0 <= percentile <= 100.0
  {
    if percentile < 0.0 { Product(-percentile, n); }
    if 100.0 < percentile { Product(percentile - 100.0, n); }
  }

  /** Every percentile is such a share, so this is all that there is to say. */
  lemma EveryShare(n: nat, percentile: real) returns (k: nat, w: real)
    requires n >= 2 && 0.0 <= percentile <= 100.0
    ensures k + 1 < n && 0.0 <= w <= 1.0 && percentile == Share(n, k, w)
  {
    hide Share;
    var m := (n - 1) as real;
    var x := percentile * m / 100.0;
    Product(percentile, m);
    Product(100.0 - percentile, m);
    k, w := Cell(n, x);
    SameShare(n, k, w, x, percentile);
  }

  lemma Cell(n: nat, x: real) returns (k: nat, w: real)
    requires n >= 2 && 0.0 <= x <= (n - 1) as real
    ensures k + 1 < n && 0.0 <= w <= 1.0 && x == k as real + w
  {
    k := if x.Floor == n - 1 then n - 2 else x.Floor;
    w := x - k as real;
  }

  lemma SameShare(n: nat, k: nat, w: real, x: real, percentile: real)
    requires n >= 2 && x == k as real + w && 100.0 * x == percentile * (n - 1) as real
    ensures percentile == Share(n, k, w)
  {
    Undo(percentile, (n - 1) as real);
  }

  lemma Undo(a: real, b: real)
    requires b != 0.0
    ensures a * b / b == a
  {
    var q := a * b / b;
    assert (q - a) * b == 0.0;
  }

  lemma QuantileEnds(s: seq<real>)
    requires s != []
    ensures Interpolated(s, 0.0) == s[0] && Interpolated(s, 100.0) == s[|s| - 1]
    ensures |s| == 1 ==> forall p :: 0.0 <= p <= 100.0 ==> Interpolated(s, p) == s[0]
  {
    if |s| == 1 {
      forall p | 0.0 <= p <= 100.0 ensures Interpolated(s, p) == s[0] {
        assert Position(1, p) == 0.0;
      }
    } else {
      var n := (|s| - 1) as real;
      assert 100.0 * 0.0 / n == 0.0 && 100.0 * n / n == 100.0;
      QuantileIs(s, 0, 0.0);
      QuantileIs(s, |s| - 2, 1.0);
    }
  }

  /** How many values do not exceed `x`, and how many lie below it. */
  function CountAtMost(values: seq<real>, x: real): nat { Count(values, y => y <= x) }

  function CountBelow(values: seq<real>, x: real): nat { Count(values, y => y < x) }

  lemma RankByCounts(values: seq<real>, k: nat, x: real)
    requires k < |values|
    ensures Sort(values)[k] <= x <==> CountAtMost(values, x) >= k + 1
    ensures Sort(values)[k] < x <==> CountBelow(values, x) >= k + 1
  {
    hide Count, Sort;
    RankIffCount(values, y => y <= x, k);
    RankIffCount(values, y => y < x, k);
  }

  /** A value between two neighbouring ranks, by counts. */
  lemma CountsBetween(values: seq<real>, k: nat, q: real)
    requires k + 1 < |values| && Sort(values)[k] <= q <= Sort(values)[k + 1]
    ensures CountAtMost(values, q) >= k + 1 && CountBelow(values, q) <= k + 1
    ensures q == Sort(values)[k] ==> CountBelow(values, q) <= k
  {
    hide *;
    RankByCounts(values, k, q);
    RankByCounts(values, k + 1, q);
  }

  lemma Neighbours(r: seq<real>, k: nat)
    requires k + 1 < |r| && Sorted(r)
    ensures r[k] <= r[k + 1]
  {
  }

  /** The quantile by counts, for values in any order. */
  lemma QuantileCounts(values: seq<real>, k: nat, w: real)
    requires k + 1 < |values| && 0.0 <= w <= 1.0
    ensures 0.0 <= Share(|values|, k, w) <= 100.0
    ensures var q := Interpolated(Sort(values), Share(|values|, k, w));
            CountAtMost(values, q) >= k + 1 && CountBelow(values, q) <= k + 1 && (w == 0.0 ==> CountBelow(values, q) <= k)
  {
    hide *;
    var r := Sort(values);
    QuantileIs(r, k, w);
    Neighbours(r, k);
    Between(r[k], r[k + 1], w);
    CountsBetween(values, k, Interpolated(r, Share(|r|, k, w)));
  }

  lemma Between(a: real, b: real, w: real)
    requires a <= b && 0.0 <= w <= 1.0
    ensures a <= Blend(a, b, w) <= b && Blend(a, b, 0.0) == a
  {
    Product(b - a, w);
    Product(b - a, 1.0 - w);
  }
}
