/**
 * Service measurements of two records compared, level by level: both records are checked, their
 * batches are paired by id, and what is missing, malformed or too little makes the verdict inconclusive.
 */
module ServiceComparison {
  import opened Common
  import opened Quantiles
  import opened PairedBootstrap
  import opened ClusterBootstrap
  import opened StringOrder
  import H = ServiceShuffle
  import S = ServiceBatches

  /** The random generator is seeded with what is resampled, so its draws are a function of that. */
  type Rng = seq<Pair> -> seq<seq<nat>>
  type BatchRng = (map<string, seq<real>>, map<string, seq<real>>) -> seq<seq<nat>>

  ghost predicate FairRng(rng: Rng) {
    forall pairs :: rng(pairs) != [] && Draws(rng(pairs), |pairs|)
  }

  ghost predicate FairBatchRng(rng: BatchRng) {
    forall before, after :: rng(before, after) != [] && Draws(rng(before, after), |before.Keys * after.Keys|)
  }

  /** The levels that a comparison needs, in order. */
  const PLAN_LEVELS: seq<nat> := [1, 4, 16, 32]

  /**
   * The record of one level. A workload that is not a text counts as blank; `provenance` is the
   * workload that the provenance of the ids names, if it has the right runner and contract.
   */
  datatype LevelRecord = LevelRecord(passed: bool, workload: string, provenance: Option<string>, measured: S.Record)

  /** A level whose value is not an object counts as absent. */
  type Service = map<nat, LevelRecord>

  predicate SameWorkload(before: LevelRecord, after: LevelRecord) {
    && !PythonBlank(before.workload) && before.workload == after.workload
    && before.provenance == Some(before.workload) && after.provenance == Some(after.workload)
  }

  // ---- Pairing ------------------------------------------------------------------------------------------

  function PairsOf(oldById: map<string, real>, newById: map<string, real>): (r: seq<Pair>)
    ensures |r| == |oldById.Keys * newById.Keys|
  {
    var ids := InOrder(oldById.Keys * newById.Keys);
    seq(|ids|, i requires 0 <= i < |ids| => assert ids[i] in ids; Pair(oldById[ids[i]], newById[ids[i]]))
  }

  function Only<V>(m: map<string, V>, ids: set<string>): map<string, V> {
    map id | id in m && id in ids :: m[id]
  }

  /** The paired batches of a level; it is complete when no batch is without its partner. */
  datatype Level = Level(complete: bool, before: map<string, seq<real>>, after: map<string, seq<real>>, throughput: seq<Pair>)

  function Paired(same: bool, base: S.Observations, cand: S.Observations): Level {
    var ids := if same then base.latencyByBatch.Keys * cand.latencyByBatch.Keys else {};
    Level(
      same && base.latencyByBatch.Keys == ids && cand.latencyByBatch.Keys == ids,
      Only(base.latencyByBatch, ids), Only(cand.latencyByBatch, ids),
      PairsOf(Only(base.throughputByBatch, ids), Only(cand.throughputByBatch, ids)))
  }

  /** Nothing is paired unless both records passed and come in complete batches. */
  function LevelOf(before: LevelRecord, after: LevelRecord, level: nat, isDecimal: char -> bool): Option<Level> {
    var base, cand := S.ObservationsOf(before.measured, level, isDecimal), S.ObservationsOf(after.measured, level, isDecimal);
    if !before.passed || !after.passed || base.None? || cand.None? then None
    else Some(Paired(SameWorkload(before, after), base.value, cand.value))
  }

  /** How many batches of a level are paired. */
  function Count(level: Level): nat { |level.before.Keys * level.after.Keys| }

  // ---- Assessments --------------------------------------------------------------------------------------

  function AssessMetric(summary: Summary, tolerancePct: real, higherIsBetter: bool): Assessment {
    if summary.low.None? || summary.high.None? then Inconclusive
    else if higherIsBetter && summary.high.value < -tolerancePct then Regression
    else if higherIsBetter && summary.low.value > tolerancePct then Improved
    else if !higherIsBetter && summary.low.value > tolerancePct then Regression
    else if !higherIsBetter && summary.high.value < -tolerancePct then Improved
    else if summary.low.value >= -tolerancePct && summary.high.value <= tolerancePct then WithinTolerance
    else Inconclusive
  }

  function MetricsVerdict(sound: bool, metrics: seq<Assessment>): Assessment {
    if !sound || Inconclusive in metrics then Inconclusive
    else if Regression in metrics then Regression
    else if forall i :: 0 <= i < |metrics| ==> metrics[i] == Improved then Improved
    else WithinTolerance
  }

  /** Both percentiles of the pooled latencies, and the median throughput. */
  ghost function LevelMetrics(level: Level, tol: real, rng: Rng, batchRng: BatchRng): seq<Assessment>
    requires FairRng(rng) && FairBatchRng(batchRng)
  {
    var batches, draws := BatchesOf(level.before, level.after), batchRng(level.before, level.after);
    [AssessMetric(ClusterSummaryOf(batches, 95.0, draws), tol, false),
     AssessMetric(ClusterSummaryOf(batches, 99.0, draws), tol, false),
     AssessMetric(SummaryOf(level.throughput, 50.0, rng(level.throughput)), tol, true)]
  }

  ghost function LevelAssessment(level: Level, minimum: nat, t: real, rng: Rng, batchRng: BatchRng): Assessment
    requires FairRng(rng) && FairBatchRng(batchRng)
  {
    MetricsVerdict(level.complete && Count(level) >= minimum, LevelMetrics(level, t * 100.0, rng, batchRng))
  }

  /** `sound`: all batches are paired, and there are enough of them. */
  datatype LevelResult = Missing | Invalid | Rated(sound: bool, assessment: Assessment)

  ghost function RateLevel(
    before: Service, after: Service, level: nat, minimum: nat, t: real, rng: Rng, batchRng: BatchRng, isDecimal: char -> bool)
    : LevelResult
    requires FairRng(rng) && FairBatchRng(batchRng)
  {
    if level !in before || level !in after then Missing
    else
      var l := LevelOf(before[level], after[level], level, isDecimal);
      if l.None? then Invalid
      else Rated(l.value.complete && Count(l.value) >= minimum, LevelAssessment(l.value, minimum, t, rng, batchRng))
  }

  predicate IsSound(r: LevelResult) { r.Rated? && r.sound }

  /** Every level has to be sound for a verdict. */
  function ServiceStatus(results: seq<LevelResult>): Assessment {
    if results == [] || exists i :: 0 <= i < |results| && !IsSound(results[i]) then Inconclusive
    else if exists i :: 0 <= i < |results| && results[i] == Rated(true, Regression) then Regression
    else if exists i :: 0 <= i < |results| && results[i] == Rated(true, Inconclusive) then Inconclusive
    else if forall i :: 0 <= i < |results| ==> results[i] == Rated(true, Improved) then Improved
    else WithinTolerance
  }

  ghost function Results(
    before: Service, after: Service, minimum: nat, t: real, rng: Rng, batchRng: BatchRng, isDecimal: char -> bool)
    : seq<LevelResult>
    requires FairRng(rng) && FairBatchRng(batchRng)
  {
    [RateLevel(before, after, PLAN_LEVELS[0], minimum, t, rng, batchRng, isDecimal),
     RateLevel(before, after, PLAN_LEVELS[1], minimum, t, rng, batchRng, isDecimal),
     RateLevel(before, after, PLAN_LEVELS[2], minimum, t, rng, batchRng, isDecimal),
     RateLevel(before, after, PLAN_LEVELS[3], minimum, t, rng, batchRng, isDecimal)]
  }

  /** `None` stands for a record without service measurements. */
  ghost function ServiceVerdict(
    before: Option<Service>, after: Option<Service>, minimum: nat, t: real, rng: Rng, batchRng: BatchRng, isDecimal: char -> bool)
    : Assessment
    requires FairRng(rng) && FairBatchRng(batchRng)
  {
    if before.None? || after.None? then Inconclusive
    else ServiceStatus(Results(before.value, after.value, minimum, t, rng, batchRng, isDecimal))
  }

  // ---- A record compared with itself ----------------------------------------------------------------------

  predicate Still(a: Assessment) {
    a == WithinTolerance || a == Inconclusive
  }

  ghost predicate SamePairs(pairs: seq<Pair>) {
    forall i :: 0 <= i < |pairs| ==> pairs[i].base == pairs[i].cand
  }

  lemma SamePairsStand(pairs: seq<Pair>, t: real, percentile: real, draws: seq<seq<nat>>)
    requires SamePairs(pairs) && Percentile(percentile) && draws != [] && Draws(draws, |pairs|) && 0.0 <= t < 1.0
    ensures Still(Assess(SummaryOf(pairs, percentile, draws), t * 100.0))
    ensures Usable(pairs) ==> Assess(SummaryOf(pairs, percentile, draws), t * 100.0) == WithinTolerance
  {
    hide SummaryOf;
    if Usable(pairs) {
      forall i | 0 <= i < |pairs|
        ensures (1.0 - t) * pairs[i].base <= pairs[i].cand <= (1.0 + t) * pairs[i].base
      {
        Product(t, pairs[i].base);
      }
      VerdictSound(WithinTolerance, pairs, t, percentile, draws);
    } else {
      UnusableIsOpen(pairs, t, percentile, draws);
    }
  }

  lemma UnusableIsOpen(pairs: seq<Pair>, t: real, percentile: real, draws: seq<seq<nat>>)
    requires !Usable(pairs) && Percentile(percentile) && Draws(draws, |pairs|)
    ensures Assess(SummaryOf(pairs, percentile, draws), t * 100.0) == Inconclusive
  {
  }

  /** The two ways of reading a summary agree on latencies, and differ only in direction. */
  lemma MetricIsAssessment(summary: Summary, tolerancePct: real, higherIsBetter: bool)
    requires summary.low.Some? && summary.high.Some? ==> summary.low.value <= summary.high.value
    requires summary.low.Some? <==> summary.high.Some?
    requires 0.0 <= tolerancePct
    ensures var a := Assess(summary, tolerancePct);
            AssessMetric(summary, tolerancePct, higherIsBetter) ==
              if !higherIsBetter then a
              else match a case Regression => Improved case Improved => Regression case _ => a
  {
  }

  lemma SameClusterStands(batches: seq<Batch>, t: real, percentile: real, draws: seq<seq<nat>>)
    requires forall i :: 0 <= i < |batches| ==> batches[i].before == batches[i].after
    requires Percentile(percentile) && Draws(draws, |batches|) && 0.0 <= t
    ensures Still(AssessMetric(ClusterSummaryOf(batches, percentile, draws), t * 100.0, false))
  {
    hide PooledDelta;
    SameBatchesDoNotMove(batches, t, percentile, draws);
    MetricIsAssessment(ClusterSummaryOf(batches, percentile, draws), t * 100.0, false);
  }

  lemma SameThroughputStands(pairs: seq<Pair>, t: real, draws: seq<seq<nat>>)
    requires SamePairs(pairs) && draws != [] && Draws(draws, |pairs|) && 0.0 <= t < 1.0
    ensures Still(AssessMetric(SummaryOf(pairs, 50.0, draws), t * 100.0, true))
  {
    hide SummaryOf;
    SamePairsStand(pairs, t, 50.0, draws);
    IntervalOrdered(pairs, 50.0, draws);
    MetricIsAssessment(SummaryOf(pairs, 50.0, draws), t * 100.0, true);
  }

  lemma StillMetrics(sound: bool, metrics: seq<Assessment>)
    requires metrics != [] && forall i :: 0 <= i < |metrics| ==> Still(metrics[i])
    ensures Still(MetricsVerdict(sound, metrics))
  {
    assert metrics[0] != Improved;
  }

  lemma SameBatches(m: map<string, seq<real>>)
    ensures var batches := BatchesOf(m, m); forall i :: 0 <= i < |batches| ==> batches[i].before == batches[i].after
  {
  }

  lemma FairDraws(level: Level, rng: Rng, batchRng: BatchRng)
    requires FairRng(rng) && FairBatchRng(batchRng)
    ensures rng(level.throughput) != [] && Draws(rng(level.throughput), |level.throughput|)
    ensures batchRng(level.before, level.after) != []
    ensures Draws(batchRng(level.before, level.after), |level.before.Keys * level.after.Keys|)
    ensures Draws(batchRng(level.before, level.after), |BatchesOf(level.before, level.after)|)
  {
  }

  lemma SameMetricsStand(level: Level, t: real, rng: Rng, batchRng: BatchRng)
    requires SamePairs(level.throughput) && level.before == level.after
    requires FairRng(rng) && FairBatchRng(batchRng) && 0.0 <= t < 1.0
    ensures var metrics := LevelMetrics(level, t * 100.0, rng, batchRng);
            |metrics| == 3 && Still(metrics[0]) && Still(metrics[1]) && Still(metrics[2])
  {
    SameBatches(level.before);
    FairDraws(level, rng, batchRng);
    hide SummaryOf, ClusterSummaryOf, AssessMetric, BatchesOf, FairRng, FairBatchRng, Draws, SamePairs;
    var batches, draws := BatchesOf(level.before, level.after), batchRng(level.before, level.after);
    SameClusterStands(batches, t, 95.0, draws);
    SameClusterStands(batches, t, 99.0, draws);
    SameThroughputStands(level.throughput, t, rng(level.throughput));
  }

  lemma SameLevelStands(level: Level, minimum: nat, t: real, rng: Rng, batchRng: BatchRng)
    requires SamePairs(level.throughput) && level.before == level.after
    requires FairRng(rng) && FairBatchRng(batchRng) && 0.0 <= t < 1.0
    ensures Still(LevelAssessment(level, minimum, t, rng, batchRng))
  {
    hide LevelMetrics, MetricsVerdict, Count, SamePairs, FairRng, FairBatchRng;
    SameMetricsStand(level, t, rng, batchRng);
    StillMetrics(level.complete && Count(level) >= minimum, LevelMetrics(level, t * 100.0, rng, batchRng));
  }

  /** Pairing the observations of a record with themselves pairs equal values. */
  lemma PairedWithItself(same: bool, o: S.Observations)
    ensures var level := Paired(same, o, o); level.before == level.after && SamePairs(level.throughput)
  {
  }

  lemma SameLevelResult(
    service: Service, level: nat, minimum: nat, t: real, rng: Rng, batchRng: BatchRng, isDecimal: char -> bool)
    requires FairRng(rng) && FairBatchRng(batchRng) && 0.0 <= t < 1.0
    ensures var r := RateLevel(service, service, level, minimum, t, rng, batchRng, isDecimal);
            r.Rated? ==> Still(r.assessment)
  {
    hide LevelAssessment, Paired, SameWorkload, FairRng, FairBatchRng, S.Accepted, Count;
    var r := RateLevel(service, service, level, minimum, t, rng, batchRng, isDecimal);
    if r.Rated? {
      var l := service[level];
      var o := S.ObservationsOf(l.measured, level, isDecimal).value;
      PairedWithItself(SameWorkload(l, l), o);
      SameLevelStands(Paired(SameWorkload(l, l), o, o), minimum, t, rng, batchRng);
    }
  }

  lemma StillResults(results: seq<LevelResult>)
    requires forall i :: 0 <= i < |results| && results[i].Rated? ==> Still(results[i].assessment)
    ensures Still(ServiceStatus(results))
  {
    if results != [] { assert results[0] != Rated(true, Improved); }
  }

  /** Service measurements compared with themselves never make a regression or an improvement. */
  lemma SameServiceStands(
    service: Option<Service>, minimum: nat, t: real, rng: Rng, batchRng: BatchRng, isDecimal: char -> bool)
    requires FairRng(rng) && FairBatchRng(batchRng) && 0.0 <= t < 1.0
    ensures Still(ServiceVerdict(service, service, minimum, t, rng, batchRng, isDecimal))
  {
    hide RateLevel, FairRng, FairBatchRng, ServiceStatus;
    if service.Some? {
      var results := Results(service.value, service.value, minimum, t, rng, batchRng, isDecimal);
      forall i | 0 <= i < 4 ensures results[i].Rated? ==> Still(results[i].assessment) {
        SameLevelResult(service.value, PLAN_LEVELS[i], minimum, t, rng, batchRng, isDecimal);
      }
      StillResults(results);
    }
  }

  // ---- A uniform slowdown under load ----------------------------------------------------------------------

  /** Batches that are uniformly slower are a regression, unless the throughput cannot be assessed. */
  lemma SlowLevelIsRegression(level: Level, minimum: nat, t: real, rng: Rng, batchRng: BatchRng)
    requires FairRng(rng) && FairBatchRng(batchRng) && 0.0 <= t < 1.0
    requires level.complete && Count(level) >= minimum
    requires var batches := BatchesOf(level.before, level.after);
             UsableBatches(batches) && UniformBatches(Regression, batches, t)
    requires AssessMetric(SummaryOf(level.throughput, 50.0, rng(level.throughput)), t * 100.0, true) != Inconclusive
    ensures LevelAssessment(level, minimum, t, rng, batchRng) == Regression
  {
    hide MetricsVerdict, SummaryOf, AssessMetric, UsableBatches, UniformBatches, FairRng, FairBatchRng, BatchesOf;
    SlowMetrics(level, t, rng, batchRng);
    OneSlowMetric(LevelMetrics(level, t * 100.0, rng, batchRng));
  }

  lemma OneSlowMetric(metrics: seq<Assessment>)
    requires |metrics| == 3 && metrics[0] == Regression && metrics[1] == Regression && metrics[2] != Inconclusive
    ensures MetricsVerdict(true, metrics) == Regression
  {
  }

  lemma SlowMetrics(level: Level, t: real, rng: Rng, batchRng: BatchRng)
    requires FairRng(rng) && FairBatchRng(batchRng) && 0.0 <= t < 1.0
    requires var batches := BatchesOf(level.before, level.after);
             UsableBatches(batches) && UniformBatches(Regression, batches, t)
    ensures var metrics := LevelMetrics(level, t * 100.0, rng, batchRng);
            metrics[0] == Regression && metrics[1] == Regression
  {
    FairDraws(level, rng, batchRng);
    hide SummaryOf, ClusterSummaryOf, UsableBatches, UniformBatches, BatchesOf, Draws, AssessMetric, FairRng;
    var batches, draws := BatchesOf(level.before, level.after), batchRng(level.before, level.after);
    SlowBatches(batches, t, 95.0, draws);
    SlowBatches(batches, t, 99.0, draws);
  }

  lemma SlowBatches(batches: seq<Batch>, t: real, percentile: real, draws: seq<seq<nat>>)
    requires UsableBatches(batches) && UniformBatches(Regression, batches, t)
    requires Percentile(percentile) && draws != [] && Draws(draws, |batches|) && 0.0 <= t < 1.0
    ensures AssessMetric(ClusterSummaryOf(batches, percentile, draws), t * 100.0, false) == Regression
  {
    hide UsableBatches, UniformBatches, ClusterSummaryOf;
    ClusterVerdictSound(Regression, batches, t, percentile, draws);
  }

  /** One slower level decides when all levels are sound. */
  lemma SlowLevelIsReported(results: seq<LevelResult>, k: nat)
    requires k < |results| && results[k] == Rated(true, Regression)
    requires forall i :: 0 <= i < |results| ==> IsSound(results[i])
    ensures ServiceStatus(results) == Regression
  {
  }

  // ---- Order does not matter ------------------------------------------------------------------------------

  /** The same record but for the order in which batches, samples and request ids are listed. */
  predicate ShuffledLevel(r: LevelRecord, r': LevelRecord) {
    r' == r.(measured := r'.measured) && H.Shuffled(r.measured, r'.measured)
  }

  predicate ShuffledService(s: Option<Service>, s': Option<Service>) {
    || s == s'
    || (s.Some? && s'.Some? && s.value.Keys == s'.value.Keys
        && forall level :: level in s.value ==> ShuffledLevel(s.value[level], s'.value[level]))
  }

  lemma ShuffleKeepsLevel(b: LevelRecord, b': LevelRecord, a: LevelRecord, a': LevelRecord, level: nat, isDecimal: char -> bool)
    requires ShuffledLevel(b, b') && ShuffledLevel(a, a')
    ensures LevelOf(b, a, level, isDecimal) == LevelOf(b', a', level, isDecimal)
  {
    hide S.ObservationsOf, H.Shuffled, Paired;
    H.ShuffleKeepsObservations(b.measured, b'.measured, level, isDecimal);
    H.ShuffleKeepsObservations(a.measured, a'.measured, level, isDecimal);
  }

  lemma LevelIn(s: Option<Service>, s': Option<Service>, level: nat)
    requires ShuffledService(s, s') && s.Some? && s'.Some?
    ensures level in s.value <==> level in s'.value
    ensures level in s.value ==> ShuffledLevel(s.value[level], s'.value[level])
  {
  }

  lemma ShuffleKeepsResult(
    b: Service, b': Service, a: Service, a': Service, level: nat, minimum: nat,
    t: real, rng: Rng, batchRng: BatchRng, isDecimal: char -> bool)
    requires FairRng(rng) && FairBatchRng(batchRng)
    requires ShuffledService(Some(b), Some(b')) && ShuffledService(Some(a), Some(a'))
    ensures RateLevel(b, a, level, minimum, t, rng, batchRng, isDecimal)
            == RateLevel(b', a', level, minimum, t, rng, batchRng, isDecimal)
  {
    hide LevelAssessment, LevelOf, ShuffledService, ShuffledLevel, FairRng, FairBatchRng, Count;
    LevelIn(Some(b), Some(b'), level);
    LevelIn(Some(a), Some(a'), level);
    if level in b && level in a { ShuffleKeepsLevel(b[level], b'[level], a[level], a'[level], level, isDecimal); }
  }

  /** Listing batches, samples or request ids in another order, on either side, changes no verdict. */
  lemma ShuffleKeepsVerdict(
    before: Option<Service>, before': Option<Service>, after: Option<Service>, after': Option<Service>, minimum: nat,
    t: real, rng: Rng, batchRng: BatchRng, isDecimal: char -> bool)
    requires FairRng(rng) && FairBatchRng(batchRng)
    requires ShuffledService(before, before') && ShuffledService(after, after')
    ensures ServiceVerdict(before, after, minimum, t, rng, batchRng, isDecimal)
            == ServiceVerdict(before', after', minimum, t, rng, batchRng, isDecimal)
  {
    assert (before.Some? <==> before'.Some?) && (after.Some? <==> after'.Some?);
    hide RateLevel, FairRng, FairBatchRng, ServiceStatus, ShuffledService;
    if before.Some? && after.Some? {
      forall i | 0 <= i < |PLAN_LEVELS|
        ensures RateLevel(before.value, after.value, PLAN_LEVELS[i], minimum, t, rng, batchRng, isDecimal)
                == RateLevel(before'.value, after'.value, PLAN_LEVELS[i], minimum, t, rng, batchRng, isDecimal)
      {
        ShuffleKeepsResult(before.value, before'.value, after.value, after'.value, PLAN_LEVELS[i], minimum,
                           t, rng, batchRng, isDecimal);
      }
      assert Results(before.value, after.value, minimum, t, rng, batchRng, isDecimal)
          == Results(before'.value, after'.value, minimum, t, rng, batchRng, isDecimal);
    }
  }

  // ---- The comparison as it runs --------------------------------------------------------------------------

  method AssessMetrics(level: Level, tolerancePct: real, rng: Rng, batchRng: BatchRng) returns (metrics: seq<Assessment>)
    requires FairRng(rng) && FairBatchRng(batchRng)
    ensures metrics == LevelMetrics(level, tolerancePct, rng, batchRng)
  {
    FairDraws(level, rng, batchRng);
    hide SummaryOf, ClusterSummaryOf, AssessMetric, BatchesOf, Draws, FairRng, FairBatchRng;
    var draws := batchRng(level.before, level.after);
    var p95 := PairedClusterQuantileDeltaSummary(level.before, level.after, 95.0, draws);
    var p99 := PairedClusterQuantileDeltaSummary(level.before, level.after, 99.0, draws);
    var throughput := PairedQuantileDeltaSummary(level.throughput, 50.0, rng(level.throughput));
    metrics := [AssessMetric(p95, tolerancePct, false), AssessMetric(p99, tolerancePct, false),
                AssessMetric(throughput, tolerancePct, true)];
  }

  method AssessLevel(level: Level, minimum: nat, t: real, rng: Rng, batchRng: BatchRng) returns (a: Assessment)
    requires FairRng(rng) && FairBatchRng(batchRng)
    ensures a == LevelAssessment(level, minimum, t, rng, batchRng)
  {
    hide LevelMetrics, MetricsVerdict, FairRng, FairBatchRng;
    var metrics := AssessMetrics(level, t * 100.0, rng, batchRng);
    a := MetricsVerdict(level.complete && Count(level) >= minimum, metrics);
  }

  /** Checks both records of a level, pairs their batches, and assesses the pairs. */
  method CompareLevel(
    before: Service, after: Service, level: nat, minimum: nat, t: real, rng: Rng, batchRng: BatchRng, isDecimal: char -> bool)
    returns (r: LevelResult)
    requires FairRng(rng) && FairBatchRng(batchRng)
    ensures r == RateLevel(before, after, level, minimum, t, rng, batchRng, isDecimal)
  {
    hide LevelAssessment, S.Accepted, PairsOf;
    if level !in before || level !in after { return Missing; }
    var b, a := before[level], after[level];
    var base := S.ServiceBatchObservations(b.measured, level, isDecimal);
    var cand := S.ServiceBatchObservations(a.measured, level, isDecimal);
    if !b.passed || !a.passed || base.None? || cand.None? { return Invalid; }
    var same := SameWorkload(b, a);
    var oldIds, newIds := base.value.latencyByBatch.Keys, cand.value.latencyByBatch.Keys;
    var paired := if same then oldIds * newIds else {};
    var throughput := PairsOf(Only(base.value.throughputByBatch, paired), Only(cand.value.throughputByBatch, paired));
    var complete := same && oldIds == paired && newIds == paired;
    var l := Level(complete, Only(base.value.latencyByBatch, paired), Only(cand.value.latencyByBatch, paired), throughput);
    var assessment := AssessLevel(l, minimum, t, rng, batchRng);
    r := Rated(complete && Count(l) >= minimum, assessment);
  }

  method CompareServiceConcurrency(
    before: Option<Service>, after: Option<Service>, minimum: nat, t: real, rng: Rng, batchRng: BatchRng, isDecimal: char -> bool)
    returns (status: Assessment)
    requires FairRng(rng) && FairBatchRng(batchRng)
    ensures status == ServiceVerdict(before, after, minimum, t, rng, batchRng, isDecimal)
  {
    hide RateLevel, FairRng, FairBatchRng, Listed, ServiceStatus, Combined;
    if before.None? || after.None? { return Inconclusive; }
    ghost var results := Results(before.value, after.value, minimum, t, rng, batchRng, isDecimal);
    var assessments: seq<Assessment> := [];
    var reasons := 0;
    NothingListed();
    for i := 0 to |PLAN_LEVELS|
      invariant Listed(results[..i], reasons, assessments)
    {
      var r := CompareLevel(before.value, after.value, PLAN_LEVELS[i], minimum, t, rng, batchRng, isDecimal);
      assert results[..i + 1] == results[..i] + [r];
      ListedNext(results[..i], reasons, assessments, r);
      if r.Rated? { assessments := assessments + [r.assessment]; }
      if !IsSound(r) { reasons := reasons + 1; }
    }
    assert results[..|PLAN_LEVELS|] == results;
    status := Combined(reasons, assessments);
    CombinedIs(results, reasons, assessments);
  }

  /** The last decision, on the reasons and assessments gathered. */
  function Combined(reasons: nat, assessments: seq<Assessment>): Assessment {
    if reasons > 0 || assessments == [] then Inconclusive
    else if Regression in assessments then Regression
    else if Inconclusive in assessments then Inconclusive
    else if forall i :: 0 <= i < |assessments| ==> assessments[i] == Improved then Improved
    else WithinTolerance
  }

  /** What the loop has gathered: a reason for each level that is not sound, and the assessments. */
  ghost predicate Listed(results: seq<LevelResult>, reasons: nat, assessments: seq<Assessment>) {
    && (reasons == 0 <==> forall i :: 0 <= i < |results| ==> IsSound(results[i]))
    && (reasons == 0 ==>
          |assessments| == |results| && forall i :: 0 <= i < |results| ==> results[i].assessment == assessments[i])
  }

  lemma NothingListed()
    ensures Listed([], 0, [])
  {
  }

  lemma ListedNext(results: seq<LevelResult>, reasons: nat, assessments: seq<Assessment>, r: LevelResult)
    requires Listed(results, reasons, assessments)
    ensures Listed(results + [r], if IsSound(r) then reasons else reasons + 1,
                   if r.Rated? then assessments + [r.assessment] else assessments)
  {
    assert forall i :: 0 <= i < |results| ==> (results + [r])[i] == results[i];
    assert (results + [r])[|results|] == r;
  }

  lemma CombinedIs(results: seq<LevelResult>, reasons: nat, assessments: seq<Assessment>)
    requires results != [] && Listed(results, reasons, assessments)
    ensures Combined(reasons, assessments) == ServiceStatus(results)
  {
    if reasons == 0 {
      assert forall i :: 0 <= i < |results| ==> results[i] == Rated(true, assessments[i]);
    }
  }
}
