/**
 * What the status of a comparison says: of the assessments that it combines, and of the samples that
 * stand in the two records.
 */
module ComparisonMeaning {
  import opened Common
  import opened Quantiles
  import opened PairedBootstrap
  import opened ClusterBootstrap
  import opened StringOrder
  import opened ServiceComparison
  import opened RecordComparison
  import S = ServiceBatches

  // ---- Combining assessments ------------------------------------------------------------------------------

  /** One of the regimes that were compared has this assessment. */
  ghost predicate SomeRegime(stages: seq<StageOutcome>, a: Assessment) {
    exists i :: 0 <= i < |stages| && stages[i].Compared? && (stages[i].cold == a || stages[i].warm == a)
  }

  /** Some stage was compared, none was found incomplete, and the service measurements were conclusive. */
  ghost predicate Conclusive(stages: seq<StageOutcome>, service: Assessment) {
    && (exists i :: 0 <= i < |stages| && stages[i].Compared?)
    && (forall i :: 0 <= i < |stages| ==> !stages[i].Incomplete?)
    && service in {Regression, Improved, WithinTolerance}
  }

  /**
   * One regression decides a conclusive comparison; short of that, one inconclusive regime leaves it
   * open, and it is an improvement if something improved.
   */
  lemma OverallIff(stages: seq<StageOutcome>, service: Assessment)
    ensures var status := Overall(stages, service);
            var regressed, open, improved :=
              service == Regression || SomeRegime(stages, Regression), SomeRegime(stages, Inconclusive),
              service == Improved || SomeRegime(stages, Improved);
            && (status == Regression <==> Conclusive(stages, service) && regressed)
            && (status == Improved <==> Conclusive(stages, service) && !regressed && !open && improved)
            && (status == WithinTolerance <==> Conclusive(stages, service) && !regressed && !open && !improved)
            && (status == Inconclusive <==> !Conclusive(stages, service) || (!regressed && open))
  {
    assert Incomplete in stages <==> exists i :: 0 <= i < |stages| && stages[i].Incomplete?;
    assert Observed(Regression, stages, service) <==> service == Regression || SomeRegime(stages, Regression);
    assert Observed(Inconclusive, stages, service) <==> service == Inconclusive || SomeRegime(stages, Inconclusive);
    assert Observed(Improved, stages, service) <==> service == Improved || SomeRegime(stages, Improved);
  }

  /** The verdict of a sound level: the worst of its metrics, and improved only if all are. */
  lemma MetricsIff(sound: bool, metrics: seq<Assessment>)
    requires metrics != []
    ensures var v := MetricsVerdict(sound, metrics);
            var regressed, open := exists i :: 0 <= i < |metrics| && metrics[i] == Regression,
                                   exists i :: 0 <= i < |metrics| && metrics[i] == Inconclusive;
            && (v == Inconclusive <==> !sound || open)
            && (v == Regression <==> sound && !open && regressed)
            && (v == Improved <==> sound && forall i :: 0 <= i < |metrics| ==> metrics[i] == Improved)
            && (v == WithinTolerance <==>
                  && sound && !open && !regressed
                  && exists i :: 0 <= i < |metrics| && metrics[i] == WithinTolerance)
  {
    assert metrics[0] in metrics;
  }

  /** The service measurements have a verdict only if every level is sound. */
  lemma ServiceIff(results: seq<LevelResult>)
    requires results != []
    ensures var v := ServiceStatus(results);
            var sound := forall i :: 0 <= i < |results| ==> results[i].Rated? && results[i].sound;
            && (v == Regression <==> sound && exists i :: 0 <= i < |results| && results[i].assessment == Regression)
            && (v == Improved <==> sound && forall i :: 0 <= i < |results| ==> results[i].assessment == Improved)
            && (v == WithinTolerance <==>
                  && sound
                  && (forall i :: 0 <= i < |results| ==> results[i].assessment in {WithinTolerance, Improved})
                  && exists i :: 0 <= i < |results| && results[i].assessment == WithinTolerance)
  {
    assert forall i :: 0 <= i < |results| ==> (IsSound(results[i]) <==> results[i].Rated? && results[i].sound);
    hide IsSound;
  }

  // ---- Samples and stages -----------------------------------------------------------------------------------

  /** Every value comes with an id of its own, and no id is blank. */
  predicate SoundIds(s: Samples) {
    && |s.ids| == |s.values|
    && (forall i :: 0 <= i < |s.ids| ==> !PythonBlank(s.ids[i]))
    && forall i, j :: 0 <= i < |s.ids| && 0 <= j < |s.ids| && s.ids[i] == s.ids[j] ==> i == j
  }

  /** The samples of a regime were taken under the same ids, for a known workload. */
  ghost predicate Comparable(before: Samples, after: Samples, provenance: bool) {
    provenance && SoundIds(before) && SoundIds(after) && forall id :: id in before.ids <==> id in after.ids
  }

  lemma ComparableIff(before: Samples, after: Samples, provenance: bool)
    ensures Comparable(before, after, provenance) <==>
            && provenance && ValidIds(before) && ValidIds(after)
            && ById(before.values, before.ids).Keys == ById(after.values, after.ids).Keys
  {
    if ValidIds(before) && ValidIds(after) {
      ByIdAt(before.values, before.ids);
      ByIdAt(after.values, after.ids);
      var oldById, newById := ById(before.values, before.ids), ById(after.values, after.ids);
      if forall id :: id in before.ids <==> id in after.ids {
        assert forall id :: id in oldById.Keys <==> id in newById.Keys;
      }
      if oldById.Keys == newById.Keys {
        assert forall id :: id in oldById <==> id in newById;
      }
    }
  }

  /** The pairs of two regimes: for every id the two values that were measured under it. */
  lemma PairsAre(before: Samples, after: Samples) returns (order: seq<Id>)
    requires Comparable(before, after, true)
    ensures var pairs := PairsOf(ById(before.values, before.ids), ById(after.values, after.ids));
            && |pairs| == |order| == |before.ids|
            && (forall id :: id in order <==> id in before.ids)
            && forall k, i, j | 0 <= k < |order| && 0 <= i < |before.ids| && 0 <= j < |after.ids| ::
                 order[k] == before.ids[i] == after.ids[j] ==> pairs[k] == Pair(before.values[i], after.values[j])
  {
    ComparableIff(before, after, true);
    ByIdAt(before.values, before.ids);
    ByIdAt(after.values, after.ids);
    IdsCount(before.ids);
    hide ById;
    var m, m' := ById(before.values, before.ids), ById(after.values, after.ids);
    assert m.Keys * m'.Keys == m.Keys;
    assert m.Keys == set id | id in before.ids;
    order := InOrder(m.Keys);
    PairsInOrder(m, m', order);
  }

  lemma PairsInOrder(m: map<string, real>, m': map<string, real>, order: seq<string>)
    requires order == InOrder(m.Keys * m'.Keys)
    ensures |PairsOf(m, m')| == |order| && forall k :: 0 <= k < |order| ==> order[k] in m && order[k] in m'
    ensures forall k :: 0 <= k < |order| ==> PairsOf(m, m')[k] == Pair(m[order[k]], m'[order[k]])
  {
    forall k | 0 <= k < |order| ensures order[k] in m && order[k] in m' {
      assert order[k] in order;
    }
    hide InOrder;
  }

  lemma {:induction false} IdsCount(ids: seq<Id>)
    requires Distinct(ids)
    ensures |set id | id in ids| == |ids|
  {
    if ids != [] {
      var n := |ids| - 1;
      assert ids == ids[..n] + [ids[n]];
      IdsCount(ids[..n]);
      assert (set id | id in ids) == (set id | id in ids[..n]) + {ids[n]};
    }
  }

  /** A regime is rated by its 95th and 99th percentiles, if its samples are comparable at all. */
  lemma RegimeIff(before: Samples, after: Samples, provenance: bool, t: real, rng: Rng)
    requires FairRng(rng)
    ensures var a := RegimeAssessment(before, after, provenance, t, rng);
            if !Comparable(before, after, provenance) then a == Inconclusive
            else
              var pairs := PairsOf(ById(before.values, before.ids), ById(after.values, after.ids));
              var p95 := Assess(SummaryOf(pairs, 95.0, rng(pairs)), 100.0 * t);
              var p99 := Assess(SummaryOf(pairs, 99.0, rng(pairs)), 100.0 * t);
              && (a == Regression <==> p95 == Regression || p99 == Regression)
              && (a == Improved <==> p95 == Improved && p99 == Improved)
              && (a == WithinTolerance <==>
                    p95 in {WithinTolerance, Improved} && p99 in {WithinTolerance, Improved} && WithinTolerance in {p95, p99})
  {
    assert Comparable(before, after, provenance) ==> SoundIds(before) && SoundIds(after);
    hide SummaryOf, Assess, ValidIds, Comparable;
    ComparableIff(before, after, provenance);
    assert t * 100.0 == 100.0 * t;
  }

  ghost predicate SomeNegative(s: Samples) {
    exists i :: 0 <= i < |s.values| && s.values[i] < 0.0
  }

  /** A stage is compared if it passed in both records, under one workload and with no negative time. */
  lemma StageIff(before: Stage, after: Stage, t: real, rng: Rng)
    requires FairRng(rng)
    ensures var o := CompareStage(before, after, t, rng);
            var same, passed := before.workload == after.workload && !PythonBlank(after.workload), before.passed && after.passed;
            var negative := SomeNegative(before.cold) || SomeNegative(before.warm)
                            || SomeNegative(after.cold) || SomeNegative(after.warm);
            var known := before.provenance == after.provenance == Some(before.workload);
            && (o.Incomplete? <==> !same || (passed && negative))
            && (o.Skipped? <==> same && !passed)
            && (o.Compared? <==> same && passed && !negative)
            && (o.Compared? ==>
                  && o.cold == RegimeAssessment(before.cold, after.cold, known, t, rng)
                  && o.warm == RegimeAssessment(before.warm, after.warm, known, t, rng))
  {
    hide RegimeAssessment;
  }

  /** The stages that are compared are those of the names that both records have, each once. */
  lemma StagesAre(before: map<string, Stage>, after: map<string, Stage>) returns (names: seq<string>)
    ensures var stages := PairedStages(before, after);
            && |names| == |stages|
            && (forall name :: name in names <==> name in before && name in after)
            && (forall i, j :: 0 <= i < |names| && 0 <= j < |names| && names[i] == names[j] ==> i == j)
            && forall k :: 0 <= k < |names| ==> stages[k].0 == before[names[k]] && stages[k].1 == after[names[k]]
  {
    names := InOrder(before.Keys * after.Keys);
    assert |names| == |set name | name in names| by {
      assert (set name | name in names) == before.Keys * after.Keys;
    }
    CountedOnce(names);
  }

  lemma {:induction false} CountedOnce(names: seq<string>)
    ensures |set name | name in names| <= |names|
    ensures |set name | name in names| == |names| ==> Distinct(names)
  {
    if names != [] {
      var n := |names| - 1;
      assert names == names[..n] + [names[n]];
      CountedOnce(names[..n]);
      assert (set name | name in names) == (set name | name in names[..n]) + {names[n]};
      if |set name | name in names| == |names| {
        assert names[n] !in names[..n];
        assert forall i :: 0 <= i < n ==> names[i] == names[..n][i] && names[i] in names[..n];
      }
    }
  }

  /** The order of names: the first character that differs decides, and a beginning comes first. */
  lemma {:induction false} OrderIs(a: string, b: string)
    ensures AtMost(a, b) <==>
            a <= b || exists k :: 0 <= k < |a| && k < |b| && a[..k] == b[..k] && a[k] < b[k]
  {
    if a != [] && b != [] && a[0] == b[0] {
      OrderIs(a[1..], b[1..]);
      if k :| 0 <= k < |a[1..]| && k < |b[1..]| && a[1..][..k] == b[1..][..k] && a[1..][k] < b[1..][k] {
        assert a[..k + 1] == [a[0]] + a[1..][..k] && b[..k + 1] == [b[0]] + b[1..][..k];
        assert a[k + 1] < b[k + 1];
      }
      if k :| 0 <= k < |a| && k < |b| && a[..k] == b[..k] && a[k] < b[k] {
        assert a[1..][..k - 1] == a[..k][1..] && b[1..][..k - 1] == b[..k][1..];
        assert a[1..][k - 1] < b[1..][k - 1];
      }
      assert a <= b <==> a[1..] <= b[1..] by {
        assert a == [a[0]] + a[1..] && b == [b[0]] + b[1..];
        if a[1..] <= b[1..] { assert b == a + b[|a|..]; }
      }
    } else if a != [] && b != [] {
      assert !(a <= b);
      assert a[..0] == b[..0];
      forall k | 0 < k < |a| && k < |b| ensures a[..k] != b[..k] {
        assert a[..k][0] == a[0] && b[..k][0] == b[0];
      }
    }
  }

  // ---- Service measurements -----------------------------------------------------------------------------------

  /** A verdict over the batches of a level needs as many batches as repetitions, and at least thirty. */
  lemma MinimumIs(before: Run, after: Run)
    ensures var m := MinimumBatches(before, after);
            && m >= 30 && (m >= before.repetitions || m >= after.repetitions)
            && (m == 30 || (m == before.repetitions <= after.repetitions) || (m == after.repetitions <= before.repetitions))
  {
  }

  /** Any verdict on the service measurements needs both records' levels of 1, 4, 16 and 32 requests. */
  lemma ServiceNeedsLevels(
    before: Option<Service>, after: Option<Service>, minimum: nat, t: real, rng: Rng, batchRng: BatchRng,
    isDecimal: char -> bool, level: nat)
    requires FairRng(rng) && FairBatchRng(batchRng) && level in {1, 4, 16, 32}
    requires ServiceVerdict(before, after, minimum, t, rng, batchRng, isDecimal) != Inconclusive
    ensures before.Some? && after.Some? && level in before.value && level in after.value
    ensures RateLevel(before.value, after.value, level, minimum, t, rng, batchRng, isDecimal).Rated?
    ensures RateLevel(before.value, after.value, level, minimum, t, rng, batchRng, isDecimal).sound
  {
    hide LevelAssessment, LevelOf;
    var results := Results(before.value, after.value, minimum, t, rng, batchRng, isDecimal);
    assert IsSound(results[0]) && IsSound(results[1]) && IsSound(results[2]) && IsSound(results[3]);
    assert PLAN_LEVELS[0] == 1 && PLAN_LEVELS[1] == 4 && PLAN_LEVELS[2] == 16 && PLAN_LEVELS[3] == 32;
  }

  /** What is paired of one level: the batches that both records have, if they are of one known workload. */
  lemma LevelIs(before: LevelRecord, after: LevelRecord, level: nat, isDecimal: char -> bool)
    ensures var l := LevelOf(before, after, level, isDecimal);
            var base, cand := S.ObservationsOf(before.measured, level, isDecimal), S.ObservationsOf(after.measured, level, isDecimal);
            && (l.Some? <==> before.passed && after.passed && base.Some? && cand.Some?)
            && (l.Some? ==>
                  var known := before.workload == after.workload && !PythonBlank(after.workload)
                               && before.provenance == after.provenance == Some(after.workload);
                  var older, newer := base.value.latencyByBatch, cand.value.latencyByBatch;
                  && (l.value.complete <==> known && older.Keys == newer.Keys)
                  && l.value.before.Keys == l.value.after.Keys
                  && (forall id :: id in l.value.before <==> known && id in older && id in newer)
                  && (forall id :: id in l.value.before ==> l.value.before[id] == older[id] && l.value.after[id] == newer[id])
                  && l.value.throughput == PairsOf(Only(base.value.throughputByBatch, l.value.before.Keys),
                                                   Only(cand.value.throughputByBatch, l.value.before.Keys)))
  {
    hide S.ObservationsOf, PairsOf, PythonBlank, Only;
    var base, cand := S.ObservationsOf(before.measured, level, isDecimal), S.ObservationsOf(after.measured, level, isDecimal);
    if LevelOf(before, after, level, isDecimal).Some? {
      PairedIs(SameWorkload(before, after), base.value, cand.value);
    }
  }

  lemma PairedIs(known: bool, base: S.Observations, cand: S.Observations)
    ensures var l, older, newer := Paired(known, base, cand), base.latencyByBatch, cand.latencyByBatch;
            && (l.complete <==> known && older.Keys == newer.Keys)
            && l.before.Keys == l.after.Keys
            && (forall id :: id in l.before <==> known && id in older && id in newer)
            && (forall id :: id in l.before ==> l.before[id] == older[id] && l.after[id] == newer[id])
            && l.throughput == PairsOf(Only(base.throughputByBatch, l.before.Keys), Only(cand.throughputByBatch, l.before.Keys))
  {
    hide PairsOf;
    var l, older, newer := Paired(known, base, cand), base.latencyByBatch, cand.latencyByBatch;
    assert l.before.Keys == if known then older.Keys * newer.Keys else {};
  }

  /** A level is rated over its pooled requests' 95th and 99th percentiles and its median throughput. */
  lemma LevelIff(
    before: Service, after: Service, level: nat, minimum: nat, t: real, rng: Rng, batchRng: BatchRng, isDecimal: char -> bool)
    requires FairRng(rng) && FairBatchRng(batchRng) && level in before && level in after
    ensures var r := RateLevel(before, after, level, minimum, t, rng, batchRng, isDecimal);
            var l := LevelOf(before[level], after[level], level, isDecimal);
            && (r.Rated? <==> l.Some?) && (r.Invalid? <==> l.None?)
            && (r.Rated? ==>
                  var b, a, draws := l.value.before, l.value.after, batchRng(l.value.before, l.value.after);
                  var p95 := AssessMetric(ClusterSummaryOf(BatchesOf(b, a), 95.0, draws), 100.0 * t, false);
                  var p99 := AssessMetric(ClusterSummaryOf(BatchesOf(b, a), 99.0, draws), 100.0 * t, false);
                  var rate := AssessMetric(SummaryOf(l.value.throughput, 50.0, rng(l.value.throughput)), 100.0 * t, true);
                  && (r.sound <==> l.value.complete && |b.Keys * a.Keys| >= minimum)
                  && r.assessment == MetricsVerdict(r.sound, [p95, p99, rate]))
  {
    hide LevelOf, BatchesOf, AssessMetric, MetricsVerdict;
    assert t * 100.0 == 100.0 * t;
  }

  lemma MissingLevel(
    before: Service, after: Service, level: nat, minimum: nat, t: real, rng: Rng, batchRng: BatchRng, isDecimal: char -> bool)
    requires FairRng(rng) && FairBatchRng(batchRng)
    ensures RateLevel(before, after, level, minimum, t, rng, batchRng, isDecimal).Missing? <==>
            !(level in before && level in after)
  {
    hide LevelOf, LevelAssessment;
  }
}
