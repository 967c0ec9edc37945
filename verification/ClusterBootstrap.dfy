/**
 * The paired comparison of request latencies under load: whole synchronized
 * batches are resampled, and the quantile is taken over the pooled requests.
 */
module ClusterBootstrap {
  import opened Common
  import opened Quantiles
  import opened PairedBootstrap
  import opened StringOrder

  /** The latencies of one batch, before and after. */
  datatype Batch = Batch(before: seq<real>, after: seq<real>)

  /** The batches that both sides have, in the order of their ids. */
  function BatchesOf(before: map<string, seq<real>>, after: map<string, seq<real>>): (r: seq<Batch>)
    ensures |r| == |before.Keys * after.Keys|
  {
    var ids := InOrder(before.Keys * after.Keys);
    seq(|ids|, i requires 0 <= i < |ids| => assert ids[i] in ids; Batch(before[ids[i]], after[ids[i]]))
  }

  function Before(batches: seq<Batch>): seq<real> {
    if batches == [] then [] else batches[0].before + Before(batches[1..])
  }

  function After(batches: seq<Batch>): seq<real> {
    if batches == [] then [] else batches[0].after + After(batches[1..])
  }

  predicate NonNegative(values: seq<real>) {
    forall i :: 0 <= i < |values| ==> 0.0 <= values[i]
  }

  predicate UsableBatches(batches: seq<Batch>) {
    && |batches| >= 2
    && (forall i :: 0 <= i < |batches| ==>
          batches[i].before != [] && |batches[i].before| == |batches[i].after|)
    && NonNegative(Before(batches)) && NonNegative(After(batches))
  }

  function DrawBatches(batches: seq<Batch>, indices: seq<nat>): (r: seq<Batch>)
    requires forall i :: 0 <= i < |indices| ==> indices[i] < |batches|
    ensures |r| == |indices| && forall i :: 0 <= i < |r| ==> r[i] == batches[indices[i]]
  {
    seq(|indices|, i requires 0 <= i < |indices| => batches[indices[i]])
  }

  /** The pooled relative change; missing when there is nothing to pool. */
  function PooledDelta(batches: seq<Batch>, percentile: real): Option<real>
    requires Percentile(percentile)
  {
    if Before(batches) == [] || After(batches) == [] then None
    else Delta(Before(batches), After(batches), percentile)
  }

  ghost function ResampledBatches(batches: seq<Batch>, percentile: real, draws: seq<seq<nat>>): seq<real>
    requires Percentile(percentile) && Draws(draws, |batches|)
  {
    if draws == [] then []
    else
      var n := |draws| - 1;
      Collect(ResampledBatches(batches, percentile, draws[..n]),
              PooledDelta(DrawBatches(batches, draws[n]), percentile))
  }

  ghost function ClusterSummaryOf(batches: seq<Batch>, percentile: real, draws: seq<seq<nat>>): Summary
    requires Percentile(percentile) && Draws(draws, |batches|)
  {
    if !UsableBatches(batches) then NONE
    else
      var estimate := PooledDelta(batches, percentile);
      if estimate.None? then NONE
      else if forall i :: 0 <= i < |batches| ==> batches[i].before == batches[i].after then
        Summary(estimate, estimate, estimate, |draws|)
      else Interval(estimate.value, ResampledBatches(batches, percentile, draws), |draws|)
  }

  method PairedClusterQuantileDeltaSummary(
    before: map<string, seq<real>>, after: map<string, seq<real>>, percentile: real, draws: seq<seq<nat>>)
    returns (summary: Summary)
    requires Percentile(percentile) && Draws(draws, |before.Keys * after.Keys|)
    ensures summary == ClusterSummaryOf(BatchesOf(before, after), percentile, draws)
  {
    hide PooledDelta, Interval, UsableBatches;
    var batches := BatchesOf(before, after);
    hide BatchesOf;
    if !UsableBatches(batches) { return NONE; }
    var estimate := PooledDelta(batches, percentile);
    if estimate.None? { return NONE; }
    if forall i :: 0 <= i < |batches| ==> batches[i].before == batches[i].after {
      return Summary(estimate, estimate, estimate, |draws|);
    }
    var deltas: seq<real> := [];
    for r := 0 to |draws|
      invariant Draws(draws[..r], |batches|)
      invariant deltas == ResampledBatches(batches, percentile, draws[..r])
    {
      var delta := PooledDelta(DrawBatches(batches, draws[r]), percentile);
      if delta.Some? { deltas := deltas + [delta.value]; }
      assert draws[..r + 1][..r] == draws[..r];
    }
    assert draws[..|draws|] == draws;
    summary := Interval(estimate.value, deltas, |draws|);
  }

  // ---- Soundness --------------------------------------------------------------------------------------

  /** Every batch is non-empty, has positive baselines and differs uniformly. */
  ghost predicate UniformBatches(verdict: Assessment, batches: seq<Batch>, t: real) {
    forall i :: 0 <= i < |batches| ==>
      && batches[i].before != []
      && Positive(batches[i].before)
      && Uniformly(verdict, batches[i].before, batches[i].after, t)
  }

  lemma ConcatAt(a: seq<real>, c: seq<real>, i: nat)
    requires i < |a + c|
    ensures (a + c)[i] == if i < |a| then a[i] else c[i - |a|]
  {
  }

  /** One value differs from its baseline as the verdict says. */
  predicate Differs(verdict: Assessment, base: real, cand: real, t: real) {
    match verdict
    case Regression => (1.0 + t) * base < cand
    case Improved => cand < (1.0 - t) * base
    case WithinTolerance => (1.0 - t) * base <= cand <= (1.0 + t) * base
    case Inconclusive => false
  }

  lemma UniformIff(verdict: Assessment, bases: seq<real>, cands: seq<real>, t: real)
    ensures Uniformly(verdict, bases, cands, t) <==>
            && verdict != Inconclusive && |bases| == |cands|
            && forall i :: 0 <= i < |bases| ==> Differs(verdict, bases[i], cands[i], t)
  {
  }

  lemma UniformConcat(verdict: Assessment, a: seq<real>, b: seq<real>, c: seq<real>, d: seq<real>, t: real)
    requires Uniformly(verdict, a, b, t) && Uniformly(verdict, c, d, t)
    ensures Uniformly(verdict, a + c, b + d, t)
  {
    hide Differs, Uniformly;
    UniformIff(verdict, a, b, t);
    UniformIff(verdict, c, d, t);
    UniformIff(verdict, a + c, b + d, t);
    forall i: nat | i < |a + c| ensures Differs(verdict, (a + c)[i], (b + d)[i], t) {
      ConcatAt(a, c, i);
      ConcatAt(b, d, i);
    }
  }

  lemma PositiveConcat(a: seq<real>, c: seq<real>)
    requires Positive(a) && Positive(c)
    ensures Positive(a + c)
  {
  }

  lemma {:induction false} PoolIsUniform(verdict: Assessment, batches: seq<Batch>, t: real)
    requires batches != [] && UniformBatches(verdict, batches, t)
    ensures Before(batches) != [] && Positive(Before(batches))
    ensures Uniformly(verdict, Before(batches), After(batches), t)
  {
    hide Uniformly;
    if |batches| == 1 {
      assert Before(batches[1..]) == [] && After(batches[1..]) == [];
      assert batches[0].before + [] == batches[0].before && batches[0].after + [] == batches[0].after;
    } else {
      PoolIsUniform(verdict, batches[1..], t);
      UniformConcat(verdict, batches[0].before, batches[0].after, Before(batches[1..]), After(batches[1..]), t);
      PositiveConcat(batches[0].before, Before(batches[1..]));
    }
  }

  lemma PooledInBand(verdict: Assessment, batches: seq<Batch>, t: real, percentile: real)
    requires batches != [] && UniformBatches(verdict, batches, t) && Percentile(percentile) && 0.0 <= t < 1.0
    ensures var d := PooledDelta(batches, percentile); d.Some? && InBand(verdict, d.value, t * 100.0)
  {
    hide Delta, Uniformly;
    PoolIsUniform(verdict, batches, t);
    UniformSameLength(verdict, Before(batches), After(batches), t);
    DeltaInBand(verdict, Before(batches), After(batches), t, percentile);
  }

  lemma UniformSameLength(verdict: Assessment, bases: seq<real>, cands: seq<real>, t: real)
    requires Uniformly(verdict, bases, cands, t)
    ensures |bases| == |cands|
  {
  }

  lemma {:induction false} ResampledBatchesInBand(
    verdict: Assessment, batches: seq<Batch>, t: real, percentile: real, draws: seq<seq<nat>>)
    requires batches != [] && UniformBatches(verdict, batches, t) && Percentile(percentile) && 0.0 <= t < 1.0
    requires Draws(draws, |batches|)
    ensures var deltas := ResampledBatches(batches, percentile, draws);
            |deltas| == |draws| && forall i :: 0 <= i < |deltas| ==> InBand(verdict, deltas[i], t * 100.0)
  {
    hide PooledDelta, Uniformly;
    if draws != [] {
      var n := |draws| - 1;
      ResampledBatchesInBand(verdict, batches, t, percentile, draws[..n]);
      PooledInBand(verdict, DrawBatches(batches, draws[n]), t, percentile);
    }
  }

  /** The verdict over pooled batches is sound whatever batches are drawn. */
  lemma ClusterVerdictSound(
    verdict: Assessment, batches: seq<Batch>, t: real, percentile: real, draws: seq<seq<nat>>)
    requires UsableBatches(batches) && UniformBatches(verdict, batches, t)
    requires Percentile(percentile) && draws != [] && Draws(draws, |batches|) && 0.0 <= t < 1.0
    ensures Assess(ClusterSummaryOf(batches, percentile, draws), t * 100.0) == verdict
  {
    hide PooledDelta, Uniformly, QuantileOf;
    PooledInBand(verdict, batches, t, percentile);
    if !(forall i :: 0 <= i < |batches| ==> batches[i].before == batches[i].after) {
      ResampledBatchesInBand(verdict, batches, t, percentile, draws);
      var deltas := ResampledBatches(batches, percentile, draws);
      QuantileInBand(verdict, deltas, t * 100.0, 2.5);
      QuantileInBand(verdict, deltas, t * 100.0, 97.5);
    }
  }

  /** Batches compared with themselves, zero latencies included, never move. */
  lemma SameBatchesDoNotMove(batches: seq<Batch>, t: real, percentile: real, draws: seq<seq<nat>>)
    requires forall i :: 0 <= i < |batches| ==> batches[i].before == batches[i].after
    requires Percentile(percentile) && Draws(draws, |batches|) && 0.0 <= t
    ensures var a := Assess(ClusterSummaryOf(batches, percentile, draws), t * 100.0);
            a == WithinTolerance || a == Inconclusive
  {
    hide QuantileOf;
    SamePool(batches);
  }

  lemma {:induction false} SamePool(batches: seq<Batch>)
    requires forall i :: 0 <= i < |batches| ==> batches[i].before == batches[i].after
    ensures Before(batches) == After(batches)
  {
    if batches != [] { SamePool(batches[1..]); }
  }
}
