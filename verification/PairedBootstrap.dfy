/**
 * The paired comparison of latency quantiles: an estimate, a bootstrap interval
 * over resampled pairs, and the tolerance assessment of the interval. The random
 * draws are arbitrary index lists, so every result holds whatever was drawn.
 */
module PairedBootstrap {
  import opened Common
  import opened Quantiles

  datatype Pair = Pair(base: real, cand: real)

  function Bases(pairs: seq<Pair>): (r: seq<real>)
    ensures |r| == |pairs| && forall i :: 0 <= i < |r| ==> r[i] == pairs[i].base
  {
    seq(|pairs|, i requires 0 <= i < |pairs| => pairs[i].base)
  }

  function Cands(pairs: seq<Pair>): (r: seq<real>)
    ensures |r| == |pairs| && forall i :: 0 <= i < |r| ==> r[i] == pairs[i].cand
  {
    seq(|pairs|, i requires 0 <= i < |pairs| => pairs[i].cand)
  }

  predicate Percentile(p: real) {
    0.0 <= p <= 100.0
  }

  function QuantileOf(values: seq<real>, percentile: real): real
    requires values != [] && Percentile(percentile)
  {
    Interpolated(Sort(values), percentile)
  }

  /** The relative change of a quantile in percent; missing when the baseline is not positive. */
  function Delta(bases: seq<real>, cands: seq<real>, percentile: real): Option<real>
    requires bases != [] && cands != [] && Percentile(percentile)
  {
    var b := QuantileOf(bases, percentile);
    if b <= 0.0 then None else Some((QuantileOf(cands, percentile) - b) / b * 100.0)
  }

  // ---- Pointwise bounds carry over to quantiles --------------------------------------------------

  ghost predicate AllAbove(bases: seq<real>, cands: seq<real>, m: real) {
    |bases| == |cands| && forall i :: 0 <= i < |cands| ==> m * bases[i] < cands[i]
  }

  ghost predicate AllAtLeast(bases: seq<real>, cands: seq<real>, m: real) {
    |bases| == |cands| && forall i :: 0 <= i < |cands| ==> m * bases[i] <= cands[i]
  }

  lemma Scale(m: real, x: real, y: real)
    requires 0.0 <= m
    ensures x <= y ==> m * x <= m * y
  {
    if x <= y { Product(m, y - x); }
  }

  lemma SortBelow(s: seq<real>, t: seq<real>, u: real, v: real, k: nat)
    requires |s| == |t| && k < |s| && forall i :: 0 <= i < |s| && s[i] <= u ==> t[i] < v
    ensures Sort(s)[k] <= u ==> Sort(t)[k] < v
  {
    SortTransfers(s, t, (x: real) => x <= u, (x: real) => x < v, k);
  }

  lemma RankAtLeast(bases: seq<real>, cands: seq<real>, m: real, k: nat)
    requires 0.0 <= m && AllAtLeast(bases, cands, m) && k < |bases|
    ensures m * Sort(bases)[k] <= Sort(cands)[k]
  {
    hide Sort, Sorted, Interpolated;
    var u, v := Sort(cands)[k], Sort(bases)[k];
    if u < m * v {
      forall i | 0 <= i < |cands| && cands[i] <= u ensures bases[i] < v {
        Scale(m, v, bases[i]);
      }
      SortBelow(cands, bases, u, v, k);
    }
  }

  lemma RankAbove(bases: seq<real>, cands: seq<real>, m: real, k: nat)
    requires 0.0 <= m && AllAbove(bases, cands, m) && k < |bases|
    ensures m * Sort(bases)[k] < Sort(cands)[k]
  {
    hide Sort, Sorted, Interpolated;
    var u, v := Sort(cands)[k], Sort(bases)[k];
    if u <= m * v {
      forall i | 0 <= i < |cands| && cands[i] <= u ensures bases[i] < v {
        Scale(m, v, bases[i]);
      }
      SortBelow(cands, bases, u, v, k);
    }
  }

  lemma QuantileOfAtLeast(bases: seq<real>, cands: seq<real>, m: real, percentile: real)
    requires bases != [] && Percentile(percentile) && 0.0 <= m && AllAtLeast(bases, cands, m)
    ensures m * QuantileOf(bases, percentile) <= QuantileOf(cands, percentile)
  {
    hide Sort, Sorted, Interpolated;
    forall k | 0 <= k < |bases| ensures m * Sort(bases)[k] <= Sort(cands)[k] {
      RankAtLeast(bases, cands, m, k);
    }
    QuantileAbove(Sort(cands), Sort(bases), m, percentile);
  }

  lemma QuantileOfAbove(bases: seq<real>, cands: seq<real>, m: real, percentile: real)
    requires bases != [] && Percentile(percentile) && 0.0 <= m && AllAbove(bases, cands, m)
    ensures m * QuantileOf(bases, percentile) < QuantileOf(cands, percentile)
  {
    hide Sort, Sorted, Interpolated;
    forall k | 0 <= k < |bases| ensures m * Sort(bases)[k] < Sort(cands)[k] {
      RankAbove(bases, cands, m, k);
    }
    QuantileStrictlyAbove(Sort(cands), Sort(bases), m, percentile);
  }

  lemma QuantilePositive(values: seq<real>, percentile: real)
    requires values != [] && Percentile(percentile) && forall i :: 0 <= i < |values| ==> 0.0 < values[i]
    ensures 0.0 < QuantileOf(values, percentile)
  {
    var r := Sort(values);
    forall k | 0 <= k < |r| ensures 0.0 * r[k] < r[k] {
      assert r[k] in multiset(r);
      assert r[k] in values;
    }
    QuantileStrictlyAbove(r, r, 0.0, percentile);
  }

  // ---- Bounds on the relative change ---------------------------------------------------------------

  lemma Sign(x: real, b: real)
    requires 0.0 < b
    ensures 0.0 < x * b <==> 0.0 < x
    ensures 0.0 <= x * b <==> 0.0 <= x
  {
    if 0.0 < x { Product(x, b); } else if x < 0.0 { Product(-x, b); }
  }

  /** `c` exceeds a multiple of `b` exactly when the relative change exceeds the tolerance. */
  lemma Ratio(b: real, c: real, t: real)
    requires 0.0 < b
    ensures (1.0 + t) * b < c <==> t * 100.0 < (c - b) / b * 100.0
    ensures (1.0 + t) * b <= c <==> t * 100.0 <= (c - b) / b * 100.0
  {
    var q := (c - b) / b;
    assert q * b == c - b;
    assert c - (1.0 + t) * b == (q - t) * b;
    Sign(q - t, b);
  }

  lemma Reciprocal(m: real, b: real, c: real)
    requires 0.0 < m
    ensures 1.0 / m * c < b <==> c < m * b
    ensures 1.0 / m * c <= b <==> c <= m * b
  {
    var r := 1.0 / m;
    assert m * r == 1.0;
    assert m * (r * c) == c;
    var d := b - r * c;
    assert m * d == m * b - c;
    if 0.0 < d { Product(m, d); } else { Product(m, -d); }
  }

  ghost predicate Positive(values: seq<real>) {
    forall i :: 0 <= i < |values| ==> 0.0 < values[i]
  }

  /** Every pair slower by more than the tolerance. */
  ghost predicate Slower(bases: seq<real>, cands: seq<real>, t: real) {
    |bases| == |cands| && forall i :: 0 <= i < |bases| ==> (1.0 + t) * bases[i] < cands[i]
  }

  ghost predicate Faster(bases: seq<real>, cands: seq<real>, t: real) {
    |bases| == |cands| && forall i :: 0 <= i < |bases| ==> cands[i] < (1.0 - t) * bases[i]
  }

  ghost predicate Close(bases: seq<real>, cands: seq<real>, t: real) {
    |bases| == |cands|
    && forall i :: 0 <= i < |bases| ==> (1.0 - t) * bases[i] <= cands[i] <= (1.0 + t) * bases[i]
  }

  lemma SlowerDelta(bases: seq<real>, cands: seq<real>, t: real, percentile: real)
    requires bases != [] && Percentile(percentile) && 0.0 <= t < 1.0 && Positive(bases) && Slower(bases, cands, t)
    ensures Delta(bases, cands, percentile).Some? && t * 100.0 < Delta(bases, cands, percentile).value
  {
    hide QuantileOf;
    QuantilePositive(bases, percentile);
    QuantileOfAbove(bases, cands, 1.0 + t, percentile);
    Ratio(QuantileOf(bases, percentile), QuantileOf(cands, percentile), t);
  }

  lemma FasterDelta(bases: seq<real>, cands: seq<real>, t: real, percentile: real)
    requires bases != [] && Percentile(percentile) && 0.0 <= t < 1.0 && Positive(bases) && Faster(bases, cands, t)
    ensures Delta(bases, cands, percentile).Some? && Delta(bases, cands, percentile).value < -(t * 100.0)
  {
    hide QuantileOf;
    var m := 1.0 - t;
    QuantilePositive(bases, percentile);
    forall i | 0 <= i < |bases| ensures 1.0 / m * cands[i] < bases[i] { Reciprocal(m, bases[i], cands[i]); }
    QuantileOfAbove(cands, bases, 1.0 / m, percentile);
    Reciprocal(m, QuantileOf(bases, percentile), QuantileOf(cands, percentile));
    Ratio(QuantileOf(bases, percentile), QuantileOf(cands, percentile), -t);
  }

  lemma CloseDelta(bases: seq<real>, cands: seq<real>, t: real, percentile: real)
    requires bases != [] && Percentile(percentile) && 0.0 <= t < 1.0 && Positive(bases) && Close(bases, cands, t)
    ensures Delta(bases, cands, percentile).Some?
    ensures -(t * 100.0) <= Delta(bases, cands, percentile).value <= t * 100.0
  {
    hide QuantileOf;
    QuantilePositive(bases, percentile);
    var b, c := QuantileOf(bases, percentile), QuantileOf(cands, percentile);
    QuantileOfAtLeast(bases, cands, 1.0 - t, percentile);
    Ratio(b, c, -t);
    var m := 1.0 + t;
    forall i | 0 <= i < |bases| ensures 1.0 / m * cands[i] <= bases[i] { Reciprocal(m, bases[i], cands[i]); }
    QuantileOfAtLeast(cands, bases, 1.0 / m, percentile);
    Reciprocal(m, b, c);
    Ratio(b, c, t);
  }

  // ---- The bootstrap -------------------------------------------------------------------------------

  datatype Summary = Summary(estimate: Option<real>, low: Option<real>, high: Option<real>, valid: nat)

  const NONE := Summary(None, None, None, 0)

  /** One list of indices per repetition, as long as the sample it resamples. */
  ghost predicate Draws(draws: seq<seq<nat>>, count: nat) {
    forall r :: 0 <= r < |draws| ==>
      |draws[r]| == count && forall i :: 0 <= i < count ==> draws[r][i] < count
  }

  function Draw(pairs: seq<Pair>, indices: seq<nat>): (r: seq<Pair>)
    requires forall i :: 0 <= i < |indices| ==> indices[i] < |pairs|
    ensures |r| == |indices| && forall i :: 0 <= i < |r| ==> r[i] == pairs[indices[i]]
  {
    seq(|indices|, i requires 0 <= i < |indices| => pairs[indices[i]])
  }

  function PairDelta(pairs: seq<Pair>, percentile: real): Option<real>
    requires pairs != [] && Percentile(percentile)
  {
    Delta(Bases(pairs), Cands(pairs), percentile)
  }

  function Collect(deltas: seq<real>, delta: Option<real>): seq<real> {
    if delta.Some? then deltas + [delta.value] else deltas
  }

  ghost function Resampled(pairs: seq<Pair>, percentile: real, draws: seq<seq<nat>>): seq<real>
    requires pairs != [] && Percentile(percentile) && Draws(draws, |pairs|)
  {
    if draws == [] then []
    else
      var n := |draws| - 1;
      Collect(Resampled(pairs, percentile, draws[..n]), PairDelta(Draw(pairs, draws[n]), percentile))
  }

  predicate Usable(pairs: seq<Pair>) {
    |pairs| >= 2 && forall i :: 0 <= i < |pairs| ==> 0.0 < pairs[i].base
  }

  /** Fewer than 95 percent usable repetitions give no interval. */
  function Interval(estimate: real, deltas: seq<real>, repetitions: nat): Summary {
    if |deltas| < (95 * repetitions + 99) / 100 || deltas == [] then
      Summary(Some(estimate), None, None, |deltas|)
    else
      Summary(Some(estimate), Some(QuantileOf(deltas, 2.5)), Some(QuantileOf(deltas, 97.5)), |deltas|)
  }

  ghost function SummaryOf(pairs: seq<Pair>, percentile: real, draws: seq<seq<nat>>): Summary
    requires Percentile(percentile) && Draws(draws, |pairs|)
  {
    if !Usable(pairs) then NONE
    else
      var estimate := PairDelta(pairs, percentile);
      if estimate.None? then NONE
      else if forall i :: 0 <= i < |pairs| ==> pairs[i] == pairs[0] then
        Summary(estimate, estimate, estimate, |draws|)
      else Interval(estimate.value, Resampled(pairs, percentile, draws), |draws|)
  }

  method PairedQuantileDeltaSummary(pairs: seq<Pair>, percentile: real, draws: seq<seq<nat>>)
    returns (summary: Summary)
    requires Percentile(percentile) && Draws(draws, |pairs|)
    ensures summary == SummaryOf(pairs, percentile, draws)
  {
    hide PairDelta, Interval;
    if !Usable(pairs) { return NONE; }
    var estimate := PairDelta(pairs, percentile);
    if estimate.None? { return NONE; }
    if forall i :: 0 <= i < |pairs| ==> pairs[i] == pairs[0] {
      return Summary(estimate, estimate, estimate, |draws|);
    }
    var deltas: seq<real> := [];
    for r := 0 to |draws|
      invariant Draws(draws[..r], |pairs|)
      invariant deltas == Resampled(pairs, percentile, draws[..r])
    {
      var sample := Draw(pairs, draws[r]);
      var delta := PairDelta(sample, percentile);
      if delta.Some? { deltas := deltas + [delta.value]; }
      assert draws[..r + 1][..r] == draws[..r];
    }
    assert draws[..|draws|] == draws;
    summary := Interval(estimate.value, deltas, |draws|);
  }

  // ---- The tolerance assessment ---------------------------------------------------------------------

  datatype Assessment = Regression | Improved | WithinTolerance | Inconclusive

  function Assess(summary: Summary, tolerancePct: real): Assessment {
    if summary.low.Some? && summary.high.Some? && summary.low.value > tolerancePct then Regression
    else if summary.low.Some? && summary.high.Some?
         && summary.low.value >= -tolerancePct && summary.high.value <= tolerancePct then WithinTolerance
    else if summary.high.Some? && summary.high.value < -tolerancePct then Improved
    else Inconclusive
  }

  /** The three ways in which a candidate can differ uniformly from its baseline. */
  ghost predicate Uniformly(verdict: Assessment, bases: seq<real>, cands: seq<real>, t: real) {
    match verdict
    case Regression => Slower(bases, cands, t)
    case Improved => Faster(bases, cands, t)
    case WithinTolerance => Close(bases, cands, t)
    case Inconclusive => false
  }

  /** The band of relative changes, in percent, that belongs to a verdict. */
  predicate InBand(verdict: Assessment, x: real, tolerancePct: real) {
    match verdict
    case Regression => tolerancePct < x
    case Improved => x < -tolerancePct
    case WithinTolerance => -tolerancePct <= x <= tolerancePct
    case Inconclusive => false
  }

  lemma DeltaInBand(verdict: Assessment, bases: seq<real>, cands: seq<real>, t: real, percentile: real)
    requires bases != [] && Percentile(percentile) && 0.0 <= t < 1.0
    requires Positive(bases) && Uniformly(verdict, bases, cands, t)
    ensures var d := Delta(bases, cands, percentile); d.Some? && InBand(verdict, d.value, t * 100.0)
  {
    hide Delta;
    match verdict
    case Regression => SlowerDelta(bases, cands, t, percentile);
    case Improved => FasterDelta(bases, cands, t, percentile);
    case WithinTolerance => CloseDelta(bases, cands, t, percentile);
  }

  /** A quantile of values in a band is in the band. */
  lemma QuantileInBand(verdict: Assessment, values: seq<real>, tolerancePct: real, percentile: real)
    requires values != [] && Percentile(percentile)
    requires forall i :: 0 <= i < |values| ==> InBand(verdict, values[i], tolerancePct)
    ensures InBand(verdict, QuantileOf(values, percentile), tolerancePct)
  {
    hide Sort, Interpolated;
    var r := Sort(values);
    forall k | 0 <= k < |r| ensures InBand(verdict, r[k], tolerancePct) {
      assert r[k] in multiset(r);
      assert r[k] in values;
    }
    QuantileWithin(r, r[0], r[|r| - 1], percentile);
  }

  ghost predicate UniformPairs(verdict: Assessment, pairs: seq<Pair>, t: real) {
    Uniformly(verdict, Bases(pairs), Cands(pairs), t)
  }

  lemma DrawIsUniform(verdict: Assessment, pairs: seq<Pair>, indices: seq<nat>, t: real)
    requires UniformPairs(verdict, pairs, t) && forall i :: 0 <= i < |indices| ==> indices[i] < |pairs|
    ensures UniformPairs(verdict, Draw(pairs, indices), t)
  {
    var b, c := Bases(pairs), Cands(pairs);
    var sample := Draw(pairs, indices);
    assert forall i :: 0 <= i < |indices| ==>
      Bases(sample)[i] == b[indices[i]] && Cands(sample)[i] == c[indices[i]];
    hide Bases, Cands, Draw;
    UniformOfPicked(verdict, b, c, Bases(sample), Cands(sample), indices, t);
  }

  /** Picking pairs keeps them uniform. */
  lemma UniformOfPicked(verdict: Assessment, b: seq<real>, c: seq<real>, b': seq<real>, c': seq<real>, indices: seq<nat>, t: real)
    requires Uniformly(verdict, b, c, t) && |b'| == |indices| && |c'| == |indices|
    requires forall i :: 0 <= i < |indices| ==>
               indices[i] < |b| && indices[i] < |c| && b'[i] == b[indices[i]] && c'[i] == c[indices[i]]
    ensures Uniformly(verdict, b', c', t)
  {
  }

  lemma {:induction false} ResampledInBand(
    verdict: Assessment, pairs: seq<Pair>, t: real, percentile: real, draws: seq<seq<nat>>)
    requires Usable(pairs) && Percentile(percentile) && Draws(draws, |pairs|)
    requires 0.0 <= t < 1.0 && UniformPairs(verdict, pairs, t)
    ensures var deltas := Resampled(pairs, percentile, draws);
            |deltas| == |draws| && forall i :: 0 <= i < |deltas| ==> InBand(verdict, deltas[i], t * 100.0)
  {
    hide Delta, Uniformly;
    if draws != [] {
      var n := |draws| - 1;
      ResampledInBand(verdict, pairs, t, percentile, draws[..n]);
      var sample := Draw(pairs, draws[n]);
      DrawIsUniform(verdict, pairs, draws[n], t);
      DeltaInBand(verdict, Bases(sample), Cands(sample), t, percentile);
    }
  }

  /**
   * Whatever indices are drawn: uniformly slower candidates are a regression, uniformly
   * faster ones an improvement, and candidates uniformly within tolerance are within it.
   */
  lemma VerdictSound(verdict: Assessment, pairs: seq<Pair>, t: real, percentile: real, draws: seq<seq<nat>>)
    requires Usable(pairs) && Percentile(percentile) && draws != [] && Draws(draws, |pairs|)
    requires 0.0 <= t < 1.0 && UniformPairs(verdict, pairs, t)
    ensures Assess(SummaryOf(pairs, percentile, draws), t * 100.0) == verdict
  {
    hide Delta, Uniformly, QuantileOf;
    DeltaInBand(verdict, Bases(pairs), Cands(pairs), t, percentile);
    if !(forall i :: 0 <= i < |pairs| ==> pairs[i] == pairs[0]) {
      ResampledInBand(verdict, pairs, t, percentile, draws);
      var deltas := Resampled(pairs, percentile, draws);
      QuantileInBand(verdict, deltas, t * 100.0, 2.5);
      QuantileInBand(verdict, deltas, t * 100.0, 97.5);
    }
  }

  /** A reported interval is never empty: its low end does not exceed its high end. */
  lemma IntervalOrdered(pairs: seq<Pair>, percentile: real, draws: seq<seq<nat>>)
    requires Percentile(percentile) && Draws(draws, |pairs|)
    ensures var s := SummaryOf(pairs, percentile, draws);
            (s.low.Some? <==> s.high.Some?) && (s.low.Some? ==> s.low.value <= s.high.value)
  {
    hide PairDelta;
    if Usable(pairs) && PairDelta(pairs, percentile).Some? {
      var deltas := Resampled(pairs, percentile, draws);
      if deltas != [] { QuantileMonotone(Sort(deltas), 2.5, 97.5); }
    }
  }

  /** When all pairs are equal, the shortcut reports what the bootstrap would have computed. */
  lemma ShortcutAgrees(pairs: seq<Pair>, percentile: real, draws: seq<seq<nat>>)
    requires Usable(pairs) && Percentile(percentile) && draws != [] && Draws(draws, |pairs|)
    requires forall i :: 0 <= i < |pairs| ==> pairs[i] == pairs[0]
    requires PairDelta(pairs, percentile).Some?
    ensures SummaryOf(pairs, percentile, draws)
         == Interval(PairDelta(pairs, percentile).value, Resampled(pairs, percentile, draws), |draws|)
  {
    hide PairDelta, QuantileOf;
    var e := PairDelta(pairs, percentile).value;
    ResampledConstant(pairs, percentile, draws);
    var deltas := Resampled(pairs, percentile, draws);
    ConstantQuantile(deltas, e, 2.5);
    ConstantQuantile(deltas, e, 97.5);
  }

  lemma {:induction false} ResampledConstant(pairs: seq<Pair>, percentile: real, draws: seq<seq<nat>>)
    requires Usable(pairs) && Percentile(percentile) && Draws(draws, |pairs|)
    requires forall i :: 0 <= i < |pairs| ==> pairs[i] == pairs[0]
    requires PairDelta(pairs, percentile).Some?
    ensures var deltas := Resampled(pairs, percentile, draws);
            |deltas| == |draws| && forall i :: 0 <= i < |deltas| ==> deltas[i] == PairDelta(pairs, percentile).value
  {
    hide PairDelta;
    if draws != [] {
      var n := |draws| - 1;
      ResampledConstant(pairs, percentile, draws[..n]);
      assert Draw(pairs, draws[n]) == pairs;
    }
  }

  lemma ConstantQuantile(values: seq<real>, x: real, percentile: real)
    requires values != [] && Percentile(percentile) && forall i :: 0 <= i < |values| ==> values[i] == x
    ensures QuantileOf(values, percentile) == x
  {
    hide Sort, Interpolated;
    var r := Sort(values);
    forall k | 0 <= k < |r| ensures x <= r[k] <= x {
      assert r[k] in multiset(r);
      assert r[k] in values;
    }
    QuantileWithin(r, x, x, percentile);
  }
}
