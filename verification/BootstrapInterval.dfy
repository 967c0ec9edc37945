/**
 * What the reported interval says of the resampled changes, in counts and ranks, and what a verdict
 * says of the interval.
 */
module BootstrapInterval {
  import opened Common
  import opened Quantiles
  import opened PairedBootstrap
  import opened ClusterBootstrap

  // ---- The ends of the interval ---------------------------------------------------------------------

  /** The value at a number of fortieths of the way through sorted values; one fortieth is 2.5 percent. */
  ghost predicate AtFortieths(r: seq<real>, fortieths: nat, x: real)
    requires r != [] && fortieths < 40
  {
    if |r| == 1 then x == r[0]
    else
      var steps := fortieths * (|r| - 1);
      FortiethsWithin(fortieths, |r| - 1);
      x == Blend(r[steps / 40], r[steps / 40 + 1], (steps % 40) as real / 40.0)
  }

  lemma FortiethsWithin(fortieths: nat, m: nat)
    requires fortieths < 40 && 0 < m
    ensures 0 <= fortieths * m / 40 < m
  {
    var steps := fortieths * m;
    Product(fortieths as real, m as real);
    Product((39 - fortieths) as real, m as real);
    assert 0.0 <= steps as real <= 39.0 * m as real;
    Within(steps, m);
  }

  lemma Within(steps: int, m: nat)
    requires 0 <= steps <= 39 * m && 0 < m
    ensures 0 <= steps / 40 < m
  {
  }

  lemma FortiethsShare(fortieths: nat, m: nat)
    requires fortieths < 40 && 0 < m
    ensures var steps := fortieths * m;
            Share(m + 1, steps / 40, (steps % 40) as real / 40.0) == 2.5 * fortieths as real
  {
    var steps := fortieths * m;
    var x := (steps / 40) as real + (steps % 40) as real / 40.0;
    assert steps == steps / 40 * 40 + steps % 40;
    assert 40.0 * x == steps as real;
    assert steps as real == fortieths as real * m as real;
    assert 100.0 * x == 2.5 * fortieths as real * m as real;
    Undo(2.5 * fortieths as real, m as real);
  }

  /** How many values lie at or below such a value, and how many below it. */
  predicate Splits(values: seq<real>, fortieths: nat, x: real) {
    var k := fortieths * (|values| - 1) / 40;
    CountAtMost(values, x) >= k + 1 && CountBelow(values, x) <= k + 1
  }

  lemma QuantileAtFortieths(values: seq<real>, fortieths: nat)
    requires values != [] && fortieths < 40
    ensures var x := QuantileOf(values, 2.5 * fortieths as real);
            AtFortieths(Sort(values), fortieths, x) && Splits(values, fortieths, x)
  {
    hide Sort, Interpolated, CountAtMost, CountBelow;
    var r := Sort(values);
    if |values| == 1 {
      QuantileEnds(r);
      var x := QuantileOf(values, 2.5 * fortieths as real);
      assert x == r[0];
      OneValue(values, fortieths, x);
    } else {
      var m := |values| - 1;
      var steps := fortieths * m;
      FortiethsWithin(fortieths, m);
      FortiethsShare(fortieths, m);
      SharesAre(values, steps / 40, (steps % 40) as real / 40.0, 2.5 * fortieths as real);
    }
  }

  lemma SharesAre(values: seq<real>, k: nat, w: real, percentile: real)
    requires k + 1 < |values| && 0.0 <= w <= 1.0 && Percentile(percentile)
    requires percentile == Share(|values|, k, w)
    ensures var x, r := QuantileOf(values, percentile), Sort(values);
            && x == Blend(r[k], r[k + 1], w)
            && CountAtMost(values, x) >= k + 1 && CountBelow(values, x) <= k + 1
  {
    hide Sort, Interpolated, Sorted, CountAtMost, CountBelow, Share, Blend, At, Position;
    QuantileIs(Sort(values), k, w);
    QuantileCounts(values, k, w);
  }

  lemma OneValue(values: seq<real>, fortieths: nat, x: real)
    requires |values| == 1 && x == Sort(values)[0]
    ensures Splits(values, fortieths, x)
  {
    assert Sort(values)[0] in multiset(Sort(values));
    assert x in values;
    RankByCounts(values, 0, x);
    assert fortieths * (|values| - 1) == 0;
  }

  /**
   * The interval exists when at least 95 percent of the repetitions gave a change; it cuts off one
   * fortieth of the changes on either side.
   */
  lemma IntervalIs(estimate: real, deltas: seq<real>, repetitions: nat)
    ensures var s := Interval(estimate, deltas, repetitions);
            && s.estimate == Some(estimate) && s.valid == |deltas|
            && s.low.Some? == s.high.Some? == (deltas != [] && 20 * |deltas| >= 19 * repetitions)
            && (s.low.Some? ==>
                  && AtFortieths(Sort(deltas), 1, s.low.value) && AtFortieths(Sort(deltas), 39, s.high.value)
                  && Splits(deltas, 1, s.low.value) && Splits(deltas, 39, s.high.value))
  {
    hide AtFortieths, Splits, QuantileOf, Sort;
    if deltas != [] {
      QuantileAtFortieths(deltas, 1);
      QuantileAtFortieths(deltas, 39);
    }
  }

  // ---- Changes and summaries ---------------------------------------------------------------------------

  /** The baseline's quantile changed by so many percent is the candidate's. */
  ghost predicate IsChange(bases: seq<real>, cands: seq<real>, percentile: real, change: real)
    requires bases != [] && cands != [] && Percentile(percentile)
  {
    var b, c := QuantileOf(bases, percentile), QuantileOf(cands, percentile);
    0.0 < b && b * (100.0 + change) == 100.0 * c
  }

  lemma DeltaIs(bases: seq<real>, cands: seq<real>, percentile: real)
    requires bases != [] && cands != [] && Percentile(percentile)
    ensures var d := Delta(bases, cands, percentile);
            if QuantileOf(bases, percentile) <= 0.0 then d.None?
            else d.Some? && IsChange(bases, cands, percentile, d.value)
  {
    hide QuantileOf;
    var b, c := QuantileOf(bases, percentile), QuantileOf(cands, percentile);
    if 0.0 < b {
      var q := (c - b) / b;
      assert b * q == c - b;
      assert b * (100.0 + q * 100.0) == 100.0 * b + 100.0 * (b * q);
    }
  }

  /** The r-th change is that of the pairs at the r-th drawn indices. */
  ghost predicate ChangesOf(pairs: seq<Pair>, percentile: real, draws: seq<seq<nat>>, changes: seq<real>)
    requires pairs != [] && Percentile(percentile) && Draws(draws, |pairs|)
  {
    && |changes| == |draws|
    && forall r :: 0 <= r < |draws| ==>
         var bases := seq(|pairs|, i requires 0 <= i < |pairs| => pairs[draws[r][i]].base);
         var cands := seq(|pairs|, i requires 0 <= i < |pairs| => pairs[draws[r][i]].cand);
         IsChange(bases, cands, percentile, changes[r])
  }

  lemma {:induction false} ResampledAre(pairs: seq<Pair>, percentile: real, draws: seq<seq<nat>>)
    requires Usable(pairs) && Percentile(percentile) && Draws(draws, |pairs|)
    ensures ChangesOf(pairs, percentile, draws, Resampled(pairs, percentile, draws))
  {
    hide Delta, QuantileOf, IsChange;
    if draws != [] {
      var n := |draws| - 1;
      ResampledAre(pairs, percentile, draws[..n]);
      DrawnChange(pairs, percentile, draws[n]);
    }
  }

  lemma DrawnChange(pairs: seq<Pair>, percentile: real, indices: seq<nat>)
    requires Usable(pairs) && Percentile(percentile)
    requires |indices| == |pairs| && forall i :: 0 <= i < |indices| ==> indices[i] < |pairs|
    ensures var bases := seq(|pairs|, i requires 0 <= i < |pairs| => pairs[indices[i]].base);
            var cands := seq(|pairs|, i requires 0 <= i < |pairs| => pairs[indices[i]].cand);
            var d := PairDelta(Draw(pairs, indices), percentile);
            d.Some? && IsChange(bases, cands, percentile, d.value)
  {
    hide QuantileOf, Delta;
    var bases := seq(|pairs|, i requires 0 <= i < |pairs| => pairs[indices[i]].base);
    var cands := seq(|pairs|, i requires 0 <= i < |pairs| => pairs[indices[i]].cand);
    var sample := Draw(pairs, indices);
    assert Bases(sample) == bases && Cands(sample) == cands;
    QuantilePositive(bases, percentile);
    DeltaIs(bases, cands, percentile);
  }

  lemma OneChangeEach(pairs: seq<Pair>, percentile: real, draws: seq<seq<nat>>, changes: seq<real>)
    requires pairs != [] && Percentile(percentile) && Draws(draws, |pairs|) && ChangesOf(pairs, percentile, draws, changes)
    ensures |changes| == |draws|
  {
  }

  /** What a summary says of the pairs, for any draws. */
  lemma SummaryIs(pairs: seq<Pair>, percentile: real, draws: seq<seq<nat>>)
    requires Percentile(percentile) && Draws(draws, |pairs|)
    ensures var s := SummaryOf(pairs, percentile, draws);
            if |pairs| < 2 || exists i :: 0 <= i < |pairs| && pairs[i].base <= 0.0 then
              s == Summary(None, None, None, 0)
            else
              && s.estimate.Some? && IsChange(Bases(pairs), Cands(pairs), percentile, s.estimate.value)
              && s.valid == |draws|
              && (draws != [] ==>
                    && s.low.Some? && s.high.Some?
                    && exists changes ::
                         && ChangesOf(pairs, percentile, draws, changes)
                         && AtFortieths(Sort(changes), 1, s.low.value) && AtFortieths(Sort(changes), 39, s.high.value)
                         && Splits(changes, 1, s.low.value) && Splits(changes, 39, s.high.value))
  {
    hide PairDelta, Interval, ChangesOf, AtFortieths, Splits, Sort, IsChange, QuantileOf;
    if Usable(pairs) {
      EstimateIs(pairs, percentile);
      ResampledAre(pairs, percentile, draws);
      var changes := Resampled(pairs, percentile, draws);
      OneChangeEach(pairs, percentile, draws, changes);
      IntervalIs(PairDelta(pairs, percentile).value, changes, |draws|);
      if draws != [] && forall i :: 0 <= i < |pairs| ==> pairs[i] == pairs[0] { ShortcutAgrees(pairs, percentile, draws); }
    }
  }

  lemma EstimateIs(pairs: seq<Pair>, percentile: real)
    requires Usable(pairs) && Percentile(percentile)
    ensures var d := PairDelta(pairs, percentile);
            d.Some? && IsChange(Bases(pairs), Cands(pairs), percentile, d.value)
  {
    hide Delta, QuantileOf, IsChange;
    QuantilePositive(Bases(pairs), percentile);
    DeltaIs(Bases(pairs), Cands(pairs), percentile);
  }

  // ---- Whole batches --------------------------------------------------------------------------------------

  lemma {:induction false} PoolsAppend(batches: seq<Batch>, b: Batch)
    ensures Before(batches + [b]) == Before(batches) + b.before
    ensures After(batches + [b]) == After(batches) + b.after
  {
    if batches != [] {
      assert (batches + [b])[1..] == batches[1..] + [b];
      PoolsAppend(batches[1..], b);
    } else {
      assert [b][1..] == [];
    }
  }

  /** Every request of every batch, and nothing else, is in the pool. */
  lemma {:induction false} PoolHolds(batches: seq<Batch>, p: real -> bool)
    ensures (forall i :: 0 <= i < |Before(batches)| ==> p(Before(batches)[i])) <==>
            forall k :: 0 <= k < |batches| ==> forall i :: 0 <= i < |batches[k].before| ==> p(batches[k].before[i])
    ensures (forall i :: 0 <= i < |After(batches)| ==> p(After(batches)[i])) <==>
            forall k :: 0 <= k < |batches| ==> forall i :: 0 <= i < |batches[k].after| ==> p(batches[k].after[i])
  {
    if batches != [] {
      var n := |batches| - 1;
      assert batches == batches[..n] + [batches[n]];
      PoolsAppend(batches[..n], batches[n]);
      PoolHolds(batches[..n], p);
      EachOf(Before(batches[..n]), batches[n].before, p);
      EachOf(After(batches[..n]), batches[n].after, p);
    }
  }

  lemma EachOf(s: seq<real>, t: seq<real>, p: real -> bool)
    ensures (forall i :: 0 <= i < |s + t| ==> p((s + t)[i])) <==>
            (forall i :: 0 <= i < |s| ==> p(s[i])) && forall i :: 0 <= i < |t| ==> p(t[i])
  {
    if forall i :: 0 <= i < |s + t| ==> p((s + t)[i]) {
      forall i | 0 <= i < |s| ensures p(s[i]) { assert (s + t)[i] == s[i]; }
      forall i | 0 <= i < |t| ensures p(t[i]) { assert (s + t)[|s| + i] == t[i]; }
    }
  }

  /** The batches at these positions. */
  function Picked(batches: seq<Batch>, indices: seq<nat>): (r: seq<Batch>)
    requires forall k :: 0 <= k < |indices| ==> indices[k] < |batches|
    ensures |r| == |indices| && forall k :: 0 <= k < |r| ==> r[k] == batches[indices[k]]
  {
    seq(|indices|, k requires 0 <= k < |indices| => batches[indices[k]])
  }

  /** The changes of the draws in their order, those without a positive pooled baseline left out. */
  ghost predicate PooledChanges(batches: seq<Batch>, percentile: real, draws: seq<seq<nat>>, changes: seq<real>)
    requires UsableBatches(batches) && Percentile(percentile) && Draws(draws, |batches|)
  {
    if draws == [] then changes == []
    else
      var n, m := |draws| - 1, |changes| - 1;
      var sample := Picked(batches, draws[n]);
      PoolIsNotEmpty(sample);
      if QuantileOf(Before(sample), percentile) <= 0.0 then PooledChanges(batches, percentile, draws[..n], changes)
      else
        && changes != []
        && IsChange(Before(sample), After(sample), percentile, changes[m])
        && PooledChanges(batches, percentile, draws[..n], changes[..m])
  }

  lemma PoolIsNotEmpty(sample: seq<Batch>)
    requires sample != [] && sample[0].before != [] && sample[0].after != []
    ensures Before(sample) != [] && After(sample) != []
  {
  }

  lemma {:induction false} ResampledBatchesAre(batches: seq<Batch>, percentile: real, draws: seq<seq<nat>>)
    requires UsableBatches(batches) && Percentile(percentile) && Draws(draws, |batches|)
    ensures PooledChanges(batches, percentile, draws, ResampledBatches(batches, percentile, draws))
  {
    hide Delta, QuantileOf, IsChange, Before, After;
    if draws != [] {
      var n := |draws| - 1;
      ResampledBatchesAre(batches, percentile, draws[..n]);
      var sample := Picked(batches, draws[n]);
      assert DrawBatches(batches, draws[n]) == sample;
      PoolIsNotEmpty(sample);
      DeltaIs(Before(sample), After(sample), percentile);
      var earlier := ResampledBatches(batches, percentile, draws[..n]);
      var d := Delta(Before(sample), After(sample), percentile);
      if d.Some? { assert (earlier + [d.value])[..|earlier|] == earlier; }
    }
  }

  /** Two batches or more, none empty or unevenly long, and no negative latency in any. */
  lemma UsableBatchesIff(batches: seq<Batch>)
    ensures UsableBatches(batches) <==>
            && |batches| >= 2
            && forall k :: 0 <= k < |batches| ==>
                 && 0 < |batches[k].before| == |batches[k].after|
                 && (forall i :: 0 <= i < |batches[k].before| ==> 0.0 <= batches[k].before[i])
                 && (forall i :: 0 <= i < |batches[k].after| ==> 0.0 <= batches[k].after[i])
  {
    PoolHolds(batches, x => 0.0 <= x);
    assert NonNegative(Before(batches)) <==>
           forall i :: 0 <= i < |Before(batches)| ==> (x => 0.0 <= x)(Before(batches)[i]);
    assert NonNegative(After(batches)) <==>
           forall i :: 0 <= i < |After(batches)| ==> (x => 0.0 <= x)(After(batches)[i]);
  }

  /** What a summary over pooled batches says of them, for any draws. */
  lemma ClusterSummaryIs(batches: seq<Batch>, percentile: real, draws: seq<seq<nat>>)
    requires Percentile(percentile) && Draws(draws, |batches|)
    ensures var s := ClusterSummaryOf(batches, percentile, draws);
            if !UsableBatches(batches) || QuantileOf(Before(batches), percentile) <= 0.0 then
              s == Summary(None, None, None, 0)
            else
              && After(batches) != []
              && s.estimate.Some? && IsChange(Before(batches), After(batches), percentile, s.estimate.value)
              && if forall k :: 0 <= k < |batches| ==> batches[k].before == batches[k].after then
                   s == Summary(s.estimate, s.estimate, s.estimate, |draws|)
                 else exists changes ::
                   && PooledChanges(batches, percentile, draws, changes)
                   && s.valid == |changes|
                   && s.low.Some? == s.high.Some? == (changes != [] && 20 * |changes| >= 19 * |draws|)
                   && (s.low.Some? ==>
                         && AtFortieths(Sort(changes), 1, s.low.value) && AtFortieths(Sort(changes), 39, s.high.value)
                         && Splits(changes, 1, s.low.value) && Splits(changes, 39, s.high.value))
  {
    hide Interval, PooledChanges, AtFortieths, Splits, Sort, IsChange, QuantileOf, Delta, Before, After;
    if UsableBatches(batches) {
      PoolIsNotEmpty(batches);
      DeltaIs(Before(batches), After(batches), percentile);
      if PooledDelta(batches, percentile).Some? {
        ResampledBatchesAre(batches, percentile, draws);
        IntervalIs(PooledDelta(batches, percentile).value, ResampledBatches(batches, percentile, draws), |draws|);
      }
    }
  }

  // ---- Verdicts ---------------------------------------------------------------------------------------------

  /** A verdict is given exactly when there is an interval and all of it lies in the verdict's band. */
  lemma VerdictIsBand(s: Summary, tolerancePct: real, verdict: Assessment)
    requires s.low.Some? == s.high.Some? && (s.low.Some? ==> s.low.value <= s.high.value)
    requires 0.0 <= tolerancePct && verdict != Inconclusive
    ensures Assess(s, tolerancePct) == verdict <==>
            s.low.Some? && forall x :: s.low.value <= x <= s.high.value ==> InBand(verdict, x, tolerancePct)
  {
    if s.low.Some? && forall x :: s.low.value <= x <= s.high.value ==> InBand(verdict, x, tolerancePct) {
      assert InBand(verdict, s.low.value, tolerancePct) && InBand(verdict, s.high.value, tolerancePct);
    }
  }
}
