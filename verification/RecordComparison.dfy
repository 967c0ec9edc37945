/**
 * The verdict of a whole comparison: stages are paired by name and samples by id, every regime and
 * the service measurements are assessed, and the assessments are combined.
 */
module RecordComparison {
  import opened Common
  import opened Quantiles
  import opened PairedBootstrap
  import opened ClusterBootstrap
  import opened ServiceComparison
  import opened StringOrder

  type Id = string

  /** Values and the ids they were measured under, position by position. */
  datatype Samples = Samples(values: seq<real>, ids: seq<Id>)

  predicate Distinct(ids: seq<Id>) {
    forall i, j :: 0 <= i < j < |ids| ==> ids[i] != ids[j]
  }

  predicate ValidIds(s: Samples) {
    && |s.values| == |s.ids|
    && (forall i :: 0 <= i < |s.ids| ==> !PythonBlank(s.ids[i]))
    && Distinct(s.ids)
  }

  function ById(values: seq<real>, ids: seq<Id>): map<Id, real>
    requires |values| == |ids|
  {
    if ids == [] then map[]
    else
      var n := |ids| - 1;
      ById(values[..n], ids[..n])[ids[n] := values[n]]
  }

  /** The assessment of one percentile of one regime. */
  ghost function QuantileAssessment(
    oldById: map<Id, real>, newById: map<Id, real>, t: real, percentile: real, rng: Rng): Assessment
    requires Percentile(percentile) && FairRng(rng)
  {
    var pairs := PairsOf(oldById, newById);
    Assess(SummaryOf(pairs, percentile, rng(pairs)), t * 100.0)
  }

  /** A regime counts only when both sides carry the same, valid ids. */
  ghost function RegimeAssessment(before: Samples, after: Samples, provenance: bool, t: real, rng: Rng): Assessment
    requires FairRng(rng)
  {
    if !(provenance && ValidIds(before) && ValidIds(after)) then Inconclusive
    else
      var oldById, newById := ById(before.values, before.ids), ById(after.values, after.ids);
      if oldById.Keys != newById.Keys then Inconclusive
      else
        var p95 := QuantileAssessment(oldById, newById, t, 95.0, rng);
        var p99 := QuantileAssessment(oldById, newById, t, 99.0, rng);
        if p95 == Regression || p99 == Regression then Regression
        else if p95 == Inconclusive || p99 == Inconclusive then Inconclusive
        else if p95 == Improved && p99 == Improved then Improved
        else WithinTolerance
  }

  // ---- Whole records ------------------------------------------------------------------------------------

  /**
   * One stage of a record; a value that is not an object counts as a stage without a workload.
   * `provenance` is the workload that the provenance of the ids names.
   */
  datatype Stage = Stage(workload: string, passed: bool, provenance: Option<string>, cold: Samples, warm: Samples)

  /** A benchmark record: its stages by name, its service measurements, and its number of repetitions. */
  datatype Run = Run(stages: map<string, Stage>, service: Option<Service>, repetitions: nat)

  datatype StageOutcome = Incomplete | Skipped | Compared(cold: Assessment, warm: Assessment)

  predicate NonNegativeSamples(s: Stage) {
    NonNegative(s.cold.values) && NonNegative(s.warm.values)
  }

  ghost function CompareStage(before: Stage, after: Stage, t: real, rng: Rng): StageOutcome
    requires FairRng(rng)
  {
    if PythonBlank(before.workload) || before.workload != after.workload then Incomplete
    else if !before.passed || !after.passed then Skipped
    else if !NonNegativeSamples(before) || !NonNegativeSamples(after) then Incomplete
    else
      var provenance := before.provenance == Some(before.workload) && after.provenance == Some(after.workload);
      Compared(RegimeAssessment(before.cold, after.cold, provenance, t, rng),
               RegimeAssessment(before.warm, after.warm, provenance, t, rng))
  }

  ghost function CompareStages(stages: seq<(Stage, Stage)>, t: real, rng: Rng): (r: seq<StageOutcome>)
    requires FairRng(rng)
    ensures |r| == |stages|
    ensures forall i :: 0 <= i < |r| ==> r[i] == CompareStage(stages[i].0, stages[i].1, t, rng)
  {
    if stages == [] then []
    else
      var n := |stages| - 1;
      CompareStages(stages[..n], t, rng) + [CompareStage(stages[n].0, stages[n].1, t, rng)]
  }

  /** Some regime, or the service measurement, has the assessment. */
  ghost predicate Observed(a: Assessment, stages: seq<StageOutcome>, service: Assessment) {
    service == a || exists i :: 0 <= i < |stages| && stages[i].Compared? && (stages[i].cold == a || stages[i].warm == a)
  }

  /** The overall status; an inconclusive service measurement makes the comparison incomplete. */
  ghost function Overall(stages: seq<StageOutcome>, service: Assessment): Assessment {
    if service == Inconclusive || Incomplete in stages
       || forall i :: 0 <= i < |stages| ==> !stages[i].Compared? then Inconclusive
    else if Observed(Regression, stages, service) then Regression
    else if Observed(Inconclusive, stages, service) then Inconclusive
    else if Observed(Improved, stages, service) then Improved
    else WithinTolerance
  }

  // ---- A record compared with itself ---------------------------------------------------------------

  lemma SameRegimeStands(samples: Samples, provenance: bool, t: real, rng: Rng)
    requires FairRng(rng) && 0.0 <= t < 1.0
    ensures Still(RegimeAssessment(samples, samples, provenance, t, rng))
  {
    hide SummaryOf, Assess;
    if provenance && ValidIds(samples) {
      var m := ById(samples.values, samples.ids);
      var pairs := PairsOf(m, m);
      SamePairsStand(pairs, t, 95.0, rng(pairs));
      SamePairsStand(pairs, t, 99.0, rng(pairs));
    }
  }

  /** The stages that both records have, in the order of their names. */
  function PairedStages(before: map<string, Stage>, after: map<string, Stage>): (r: seq<(Stage, Stage)>)
    ensures |r| == |before.Keys * after.Keys|
  {
    var names := InOrder(before.Keys * after.Keys);
    seq(|names|, i requires 0 <= i < |names| => assert names[i] in names; (before[names[i]], after[names[i]]))
  }

  function MinimumBatches(before: Run, after: Run): nat {
    var repetitions := if before.repetitions < after.repetitions then before.repetitions else after.repetitions;
    if repetitions < 30 then 30 else repetitions
  }

  ghost function ServiceOf(before: Run, after: Run, t: real, rng: Rng, batchRng: BatchRng, isDecimal: char -> bool): Assessment
    requires FairRng(rng) && FairBatchRng(batchRng)
  {
    ServiceVerdict(before.service, after.service, MinimumBatches(before, after), t, rng, batchRng, isDecimal)
  }

  /** The status of a comparison: stages pairwise, service measurements, and their combination. */
  ghost function Compare(before: Run, after: Run, t: real, rng: Rng, batchRng: BatchRng, isDecimal: char -> bool): Assessment
    requires FairRng(rng) && FairBatchRng(batchRng)
  {
    Overall(CompareStages(PairedStages(before.stages, after.stages), t, rng),
            ServiceOf(before, after, t, rng, batchRng, isDecimal))
  }

  /** A record compared with itself is never reported as a regression or an improvement. */
  lemma SelfComparisonStands(run: Run, t: real, rng: Rng, batchRng: BatchRng, isDecimal: char -> bool)
    requires FairRng(rng) && FairBatchRng(batchRng) && 0.0 <= t < 1.0
    ensures Still(Compare(run, run, t, rng, batchRng, isDecimal))
  {
    hide CompareStage, ServiceVerdict, FairRng, FairBatchRng, Overall;
    SameServiceStands(run.service, MinimumBatches(run, run), t, rng, batchRng, isDecimal);
    var stages := PairedStages(run.stages, run.stages);
    var outcomes := CompareStages(stages, t, rng);
    forall i | 0 <= i < |outcomes| ensures outcomes[i].Compared? ==> Still(outcomes[i].cold) && Still(outcomes[i].warm) {
      SameStageStands(stages[i].0, t, rng);
    }
    StillOverall(outcomes, ServiceOf(run, run, t, rng, batchRng, isDecimal));
  }

  lemma StillOverall(outcomes: seq<StageOutcome>, service: Assessment)
    requires Still(service)
    requires forall i :: 0 <= i < |outcomes| && outcomes[i].Compared? ==> Still(outcomes[i].cold) && Still(outcomes[i].warm)
    ensures Still(Overall(outcomes, service))
  {
  }

  lemma SameStageStands(stage: Stage, t: real, rng: Rng)
    requires FairRng(rng) && 0.0 <= t < 1.0
    ensures var outcome := CompareStage(stage, stage, t, rng);
            outcome.Compared? ==> Still(outcome.cold) && Still(outcome.warm)
  {
    hide RegimeAssessment, FairRng;
    var provenance := stage.provenance == Some(stage.workload);
    SameRegimeStands(stage.cold, provenance, t, rng);
    SameRegimeStands(stage.warm, provenance, t, rng);
  }

  // ---- A uniform slowdown is reported ----------------------------------------------------------------

  /** Both sides carry the same valid ids, at least two of them, and every pair is slower. */
  ghost predicate UniformlySlower(before: Samples, after: Samples, t: real) {
    && ValidIds(before) && ValidIds(after)
    && var oldById, newById := ById(before.values, before.ids), ById(after.values, after.ids);
       && oldById.Keys == newById.Keys
       && Usable(PairsOf(oldById, newById))
       && UniformPairs(Regression, PairsOf(oldById, newById), t)
  }

  lemma SlowRegimeIsRegression(before: Samples, after: Samples, t: real, rng: Rng)
    requires FairRng(rng) && 0.0 <= t < 1.0 && UniformlySlower(before, after, t)
    ensures RegimeAssessment(before, after, true, t, rng) == Regression
  {
    hide SummaryOf, Assess, UniformPairs;
    var pairs := PairsOf(ById(before.values, before.ids), ById(after.values, after.ids));
    VerdictSound(Regression, pairs, t, 95.0, rng(pairs));
  }

  /** One uniformly slower regime makes a complete comparison a regression, whatever else improved. */
  lemma SlowdownIsReported(
    before: Run, after: Run, name: string, t: real, rng: Rng, batchRng: BatchRng, isDecimal: char -> bool)
    requires FairRng(rng) && FairBatchRng(batchRng) && 0.0 <= t < 1.0
    requires Incomplete !in CompareStages(PairedStages(before.stages, after.stages), t, rng)
    requires ServiceOf(before, after, t, rng, batchRng, isDecimal) != Inconclusive
    requires name in before.stages && name in after.stages
    requires var b, a := before.stages[name], after.stages[name];
             b.passed && a.passed && b.provenance == Some(b.workload) && a.provenance == Some(a.workload)
             && (UniformlySlower(b.cold, a.cold, t) || UniformlySlower(b.warm, a.warm, t))
    ensures Compare(before, after, t, rng, batchRng, isDecimal) == Regression
  {
    var stages := PairedStages(before.stages, after.stages);
    var k := PairOf(before.stages, after.stages, name);
    hide UniformlySlower, RegimeAssessment, ServiceVerdict, NonNegativeSamples, Overall, PairedStages, CompareStage, FairRng;
    var outcomes := CompareStages(stages, t, rng);
    assert outcomes[k] in outcomes && outcomes[k] == CompareStage(stages[k].0, stages[k].1, t, rng);
    StageSlowdown(stages[k].0, stages[k].1, t, rng);
    OneRegressionDecides(outcomes, k, ServiceOf(before, after, t, rng, batchRng, isDecimal));
  }

  lemma PairOf(before: map<string, Stage>, after: map<string, Stage>, name: string) returns (k: nat)
    requires name in before && name in after
    ensures k < |PairedStages(before, after)| && PairedStages(before, after)[k] == (before[name], after[name])
  {
    var names := InOrder(before.Keys * after.Keys);
    assert name in names;
    k :| 0 <= k < |names| && names[k] == name;
  }

  lemma StageSlowdown(b: Stage, a: Stage, t: real, rng: Rng)
    requires FairRng(rng) && 0.0 <= t < 1.0 && CompareStage(b, a, t, rng) != Incomplete
    requires b.passed && a.passed && b.provenance == Some(b.workload) && a.provenance == Some(a.workload)
    requires UniformlySlower(b.cold, a.cold, t) || UniformlySlower(b.warm, a.warm, t)
    ensures var o := CompareStage(b, a, t, rng); o.Compared? && (o.cold == Regression || o.warm == Regression)
  {
    hide UniformlySlower, RegimeAssessment, FairRng;
    if UniformlySlower(b.cold, a.cold, t) {
      SlowRegimeIsRegression(b.cold, a.cold, t, rng);
    } else {
      SlowRegimeIsRegression(b.warm, a.warm, t, rng);
    }
  }

  lemma OneRegressionDecides(outcomes: seq<StageOutcome>, k: nat, service: Assessment)
    requires Incomplete !in outcomes && service != Inconclusive && k < |outcomes|
    requires outcomes[k].Compared? && (outcomes[k].cold == Regression || outcomes[k].warm == Regression)
    ensures Overall(outcomes, service) == Regression
  {
    assert Observed(Regression, outcomes, service);
  }

  /** A regression of the service measurements decides a complete comparison in the same way. */
  lemma ServiceSlowdownIsReported(before: Run, after: Run, t: real, rng: Rng, batchRng: BatchRng, isDecimal: char -> bool)
    requires FairRng(rng) && FairBatchRng(batchRng)
    requires var outcomes := CompareStages(PairedStages(before.stages, after.stages), t, rng);
             Incomplete !in outcomes && exists i :: 0 <= i < |outcomes| && outcomes[i].Compared?
    requires ServiceOf(before, after, t, rng, batchRng, isDecimal) == Regression
    ensures Compare(before, after, t, rng, batchRng, isDecimal) == Regression
  {
    hide CompareStage, CompareStages, ServiceVerdict, FairRng, FairBatchRng, PairedStages;
  }

  // ---- Order does not matter --------------------------------------------------------------------------

  function Zip(s: Samples): seq<(Id, real)>
    requires |s.values| == |s.ids|
  {
    seq(|s.ids|, i requires 0 <= i < |s.ids| => (s.ids[i], s.values[i]))
  }

  lemma {:induction false} ByIdAt(values: seq<real>, ids: seq<Id>)
    requires |values| == |ids| && Distinct(ids)
    ensures forall id :: id in ById(values, ids) <==> id in ids
    ensures forall i :: 0 <= i < |ids| ==> ById(values, ids)[ids[i]] == values[i]
  {
    if ids != [] {
      var n := |ids| - 1;
      ByIdAt(values[..n], ids[..n]);
      assert ids == ids[..n] + [ids[n]];
      forall i | 0 <= i < |ids| ensures ids[i] in ById(values, ids) && ById(values, ids)[ids[i]] == values[i] {
        if i < n { assert ids[..n][i] == ids[i] && values[..n][i] == values[i]; }
      }
    }
  }

  /** Samples shuffled together with their ids give the same map, hence the same assessment. */
  lemma ShuffledSamplesAgree(s: Samples, s': Samples)
    requires ValidIds(s) && ValidIds(s') && multiset(Zip(s)) == multiset(Zip(s'))
    ensures ById(s.values, s.ids) == ById(s'.values, s'.ids)
  {
    ShuffledInto(s, s');
    ShuffledInto(s', s);
    ByIdAt(s.values, s.ids);
    ByIdAt(s'.values, s'.ids);
    var m, m' := ById(s.values, s.ids), ById(s'.values, s'.ids);
    assert forall id :: id in m <==> id in m';
  }

  lemma ShuffledInto(s: Samples, s': Samples)
    requires ValidIds(s) && ValidIds(s') && multiset(Zip(s)) == multiset(Zip(s'))
    ensures var m' := ById(s'.values, s'.ids);
            forall id :: id in s.ids ==> id in m' && id in ById(s.values, s.ids) && m'[id] == ById(s.values, s.ids)[id]
  {
    ByIdAt(s.values, s.ids);
    ByIdAt(s'.values, s'.ids);
    forall id | id in s.ids
      ensures id in ById(s'.values, s'.ids) && ById(s'.values, s'.ids)[id] == ById(s.values, s.ids)[id]
    {
      var i :| 0 <= i < |s.ids| && s.ids[i] == id;
      assert Zip(s)[i] == (id, s.values[i]);
      assert (id, s.values[i]) in multiset(Zip(s'));
      var j :| 0 <= j < |s'.ids| && Zip(s')[j] == (id, s.values[i]);
    }
  }

  lemma ZipPositions(z: seq<(Id, real)>, x: (Id, real))
    requires multiset(z)[x] >= 2
    ensures exists i, j :: 0 <= i < j < |z| && z[i] == x && z[j] == x
  {
    assert x in multiset(z);
    var i :| 0 <= i < |z| && z[i] == x;
    assert z == z[..i] + [x] + z[i + 1..];
    var rest := z[..i] + z[i + 1..];
    assert multiset(z) == multiset(rest) + multiset{x};
    assert x in multiset(rest);
    var k :| 0 <= k < |rest| && rest[k] == x;
    if k < i { assert z[k] == x && z[i] == x; } else { assert z[k + 1] == x; }
  }

  lemma RepeatedPair(s: Samples, s': Samples, i: nat, j: nat)
    requires |s.values| == |s.ids| && |s'.values| == |s'.ids|
    requires multiset(Zip(s)) == multiset(Zip(s')) && i < j < |s'.ids| && Zip(s')[i] == Zip(s')[j]
    ensures !Distinct(s.ids)
  {
    var z, z' := Zip(s), Zip(s');
    TwoOfThem(z', i, j);
    ZipPositions(z, z'[i]);
    var k, l :| 0 <= k < l < |z| && z[k] == z'[i] && z[l] == z'[i];
    assert s.ids[k] == s.ids[l];
  }

  lemma TwoOfThem(z: seq<(Id, real)>, i: nat, j: nat)
    requires i < j < |z| && z[i] == z[j]
    ensures multiset(z)[z[i]] >= 2
  {
    assert z == z[..i] + [z[i]] + z[i + 1..j] + [z[j]] + z[j + 1..];
  }

  lemma RepeatedId(s: Samples, s': Samples, i: nat, j: nat)
    requires |s.values| == |s.ids| && |s'.values| == |s'.ids|
    requires multiset(Zip(s)) == multiset(Zip(s')) && i < j < |s'.ids| && s'.ids[i] == s'.ids[j]
    ensures !Distinct(s.ids)
  {
    var z, z' := Zip(s), Zip(s');
    if z'[i] == z'[j] {
      RepeatedPair(s, s', i, j);
    } else {
      assert z'[i] in multiset(z) && z'[j] in multiset(z);
      var k :| 0 <= k < |z| && z[k] == z'[i];
      var l :| 0 <= l < |z| && z[l] == z'[j];
      assert s.ids[k] == s.ids[l];
    }
  }

  lemma ShuffleKeepsValidity(s: Samples, s': Samples)
    requires |s.values| == |s.ids| && |s'.values| == |s'.ids|
    requires multiset(Zip(s)) == multiset(Zip(s')) && ValidIds(s)
    ensures ValidIds(s')
  {
    var z, z' := Zip(s), Zip(s');
    forall i | 0 <= i < |s'.ids| ensures !PythonBlank(s'.ids[i]) {
      assert z'[i] in multiset(z);
      var k :| 0 <= k < |z| && z[k] == z'[i];
      assert s.ids[k] == s'.ids[i];
    }
    if i, j :| 0 <= i < j < |s'.ids| && s'.ids[i] == s'.ids[j] {
      RepeatedId(s, s', i, j);
    }
  }

  /** Shuffling samples together with their ids, on either side, changes no assessment. */
  lemma ShuffleKeepsAssessment(
    before: Samples, before': Samples, after: Samples, after': Samples, provenance: bool, t: real, rng: Rng)
    requires FairRng(rng)
    requires |before.values| == |before.ids| && |before'.values| == |before'.ids|
    requires |after.values| == |after.ids| && |after'.values| == |after'.ids|
    requires multiset(Zip(before)) == multiset(Zip(before')) && multiset(Zip(after)) == multiset(Zip(after'))
    ensures RegimeAssessment(before, after, provenance, t, rng) == RegimeAssessment(before', after', provenance, t, rng)
  {
    hide ValidIds, QuantileAssessment;
    if ValidIds(before) { ShuffleKeepsValidity(before, before'); }
    if ValidIds(before') { ShuffleKeepsValidity(before', before); }
    if ValidIds(after) { ShuffleKeepsValidity(after, after'); }
    if ValidIds(after') { ShuffleKeepsValidity(after', after); }
    if ValidIds(before) && ValidIds(after) {
      ShuffledSamplesAgree(before, before');
      ShuffledSamplesAgree(after, after');
    }
  }

  predicate ShuffledSamples(s: Samples, s': Samples) {
    s == s' || (|s.values| == |s.ids| && |s'.values| == |s'.ids| && multiset(Zip(s)) == multiset(Zip(s')))
  }

  /** The same stage but for the order of its samples, which keep their ids. */
  predicate ShuffledStage(s: Stage, s': Stage) {
    s' == s.(cold := s'.cold, warm := s'.warm) && ShuffledSamples(s.cold, s'.cold) && ShuffledSamples(s.warm, s'.warm)
  }

  /** The same record but for the order in which anything is listed. */
  predicate ShuffledRun(r: Run, r': Run) {
    && r.stages.Keys == r'.stages.Keys && r.repetitions == r'.repetitions
    && (forall name :: name in r.stages ==> ShuffledStage(r.stages[name], r'.stages[name]))
    && ShuffledService(r.service, r'.service)
  }

  lemma ShuffleKeepsRegime(
    before: Samples, before': Samples, after: Samples, after': Samples, provenance: bool, t: real, rng: Rng)
    requires FairRng(rng) && ShuffledSamples(before, before') && ShuffledSamples(after, after')
    ensures RegimeAssessment(before, after, provenance, t, rng) == RegimeAssessment(before', after', provenance, t, rng)
  {
    hide ById, QuantileAssessment, Zip, FairRng;
    if |before.values| == |before.ids| && |after.values| == |after.ids| {
      ShuffleKeepsAssessment(before, before', after, after', provenance, t, rng);
    }
  }

  lemma ShuffleKeepsSigns(s: Samples, s': Samples)
    requires ShuffledSamples(s, s')
    ensures NonNegative(s.values) ==> NonNegative(s'.values)
  {
    if s != s' && NonNegative(s.values) {
      forall i | 0 <= i < |s'.values| ensures 0.0 <= s'.values[i] {
        assert Zip(s')[i] in multiset(Zip(s'));
        var j :| 0 <= j < |Zip(s)| && Zip(s)[j] == Zip(s')[i];
        assert s.values[j] == s'.values[i];
      }
    }
  }

  lemma ShuffleKeepsStage(b: Stage, b': Stage, a: Stage, a': Stage, t: real, rng: Rng)
    requires FairRng(rng) && ShuffledStage(b, b') && ShuffledStage(a, a')
    ensures CompareStage(b, a, t, rng) == CompareStage(b', a', t, rng)
  {
    SignsOfStage(b, b');
    SignsOfStage(a, a');
    hide RegimeAssessment, FairRng, ShuffledSamples, NonNegativeSamples;
    var provenance := b.provenance == Some(b.workload) && a.provenance == Some(a.workload);
    ShuffleKeepsRegime(b.cold, b'.cold, a.cold, a'.cold, provenance, t, rng);
    ShuffleKeepsRegime(b.warm, b'.warm, a.warm, a'.warm, provenance, t, rng);
  }

  lemma SignsOfStage(s: Stage, s': Stage)
    requires ShuffledStage(s, s')
    ensures NonNegativeSamples(s) <==> NonNegativeSamples(s')
  {
    ShuffleKeepsSigns(s.cold, s'.cold);
    ShuffleKeepsSigns(s'.cold, s.cold);
    ShuffleKeepsSigns(s.warm, s'.warm);
    ShuffleKeepsSigns(s'.warm, s.warm);
  }

  /** Listing samples, batches and ids in another order, in either record, changes no overall status. */
  lemma ShuffleKeepsStatus(
    before: Run, before': Run, after: Run, after': Run, t: real, rng: Rng, batchRng: BatchRng, isDecimal: char -> bool)
    requires FairRng(rng) && FairBatchRng(batchRng) && ShuffledRun(before, before') && ShuffledRun(after, after')
    ensures Compare(before, after, t, rng, batchRng, isDecimal) == Compare(before', after', t, rng, batchRng, isDecimal)
  {
    ShuffleKeepsVerdict(before.service, before'.service, after.service, after'.service, MinimumBatches(before, after),
                        t, rng, batchRng, isDecimal);
    ShuffleKeepsStages(before, before', after, after', t, rng);
  }

  lemma ShuffleKeepsStages(before: Run, before': Run, after: Run, after': Run, t: real, rng: Rng)
    requires FairRng(rng) && ShuffledRun(before, before') && ShuffledRun(after, after')
    ensures CompareStages(PairedStages(before.stages, after.stages), t, rng)
            == CompareStages(PairedStages(before'.stages, after'.stages), t, rng)
  {
    hide CompareStage, ShuffledStage, ShuffledService, FairRng;
    var stages, stages' := PairedStages(before.stages, after.stages), PairedStages(before'.stages, after'.stages);
    var names := InOrder(before.stages.Keys * after.stages.Keys);
    forall i | 0 <= i < |stages|
      ensures CompareStage(stages[i].0, stages[i].1, t, rng) == CompareStage(stages'[i].0, stages'[i].1, t, rng)
    {
      assert names[i] in names;
      ShuffleKeepsStage(stages[i].0, stages'[i].0, stages[i].1, stages'[i].1, t, rng);
    }
  }

  // ---- The comparison as it runs ------------------------------------------------------------------------

  method SampleValuesById(s: Samples) returns (byId: map<Id, real>, valid: bool)
    ensures valid == ValidIds(s) && byId == if valid then ById(s.values, s.ids) else map[]
  {
    byId := map[];
    if !ValidIds(s) { return map[], false; }
    for i := 0 to |s.ids|
      invariant byId == ById(s.values[..i], s.ids[..i])
    {
      assert s.ids[..i + 1][..i] == s.ids[..i] && s.values[..i + 1][..i] == s.values[..i];
      byId := byId[s.ids[i] := s.values[i]];
    }
    assert s.ids[..|s.ids|] == s.ids && s.values[..|s.values|] == s.values;
    valid := true;
  }

  /** The loop over the two percentiles. */
  method AssessQuantiles(oldById: map<Id, real>, newById: map<Id, real>, t: real, rng: Rng)
    returns (assessments: seq<Assessment>)
    requires FairRng(rng)
    ensures assessments == [QuantileAssessment(oldById, newById, t, 95.0, rng), QuantileAssessment(oldById, newById, t, 99.0, rng)]
  {
    var pairs := PairsOf(oldById, newById);
    assert rng(pairs) != [] && Draws(rng(pairs), |pairs|);
    hide SummaryOf, Assess, PairsOf, FairRng, Draws;
    assessments := [];
    var percentiles := [95.0, 99.0];
    for i := 0 to 2
      invariant |assessments| == i
      invariant forall k :: 0 <= k < i ==> assessments[k] == QuantileAssessment(oldById, newById, t, percentiles[k], rng)
    {
      var summary := PairedQuantileDeltaSummary(pairs, percentiles[i], rng(pairs));
      assessments := assessments + [Assess(summary, t * 100.0)];
    }
  }

  method AssessRegime(before: Samples, after: Samples, provenance: bool, t: real, rng: Rng) returns (a: Assessment)
    requires FairRng(rng)
    ensures a == RegimeAssessment(before, after, provenance, t, rng)
  {
    hide QuantileAssessment, ValidIds, FairRng, ById;
    var oldById, oldValid := SampleValuesById(before);
    var newById, newValid := SampleValuesById(after);
    var idsValid := provenance && oldValid && newValid;
    if !idsValid || oldById.Keys != newById.Keys { return Inconclusive; }
    var assessments := AssessQuantiles(oldById, newById, t, rng);
    if Regression in assessments { return Regression; }
    if Inconclusive in assessments { return Inconclusive; }
    assert |assessments| == 2 && (assessments[0] == Improved && assessments[1] == Improved
                                  <==> forall k :: 0 <= k < |assessments| ==> assessments[k] == Improved);
    if forall k :: 0 <= k < |assessments| ==> assessments[k] == Improved { return Improved; }
    a := WithinTolerance;
  }

  /** What the loop over the stages has gathered from these outcomes. */
  ghost predicate Gathered(outcomes: seq<StageOutcome>, incomplete: bool, compared: nat, assessments: seq<Assessment>) {
    && (incomplete <==> Incomplete in outcomes)
    && (compared == 0 <==> forall i :: 0 <= i < |outcomes| ==> !outcomes[i].Compared?)
    && (compared > 0 ==> assessments != [])
    && forall a :: a in assessments <==>
         exists i :: 0 <= i < |outcomes| && outcomes[i].Compared? && (outcomes[i].cold == a || outcomes[i].warm == a)
  }

  lemma GatherNext(outcomes: seq<StageOutcome>, o: StageOutcome, incomplete: bool, compared: nat, assessments: seq<Assessment>)
    requires Gathered(outcomes, incomplete, compared, assessments)
    ensures o == Incomplete ==> Gathered(outcomes + [o], true, compared, assessments)
    ensures o == Skipped ==> Gathered(outcomes + [o], incomplete, compared, assessments)
    ensures o.Compared? ==> Gathered(outcomes + [o], incomplete, compared + 1, assessments + [o.cold] + [o.warm])
  {
    var more := outcomes + [o];
    assert forall i :: 0 <= i < |outcomes| ==> more[i] == outcomes[i];
    assert more[|outcomes|] == o;
    if o.Compared? {
      var all := assessments + [o.cold] + [o.warm];
      forall a ensures a in all <==>
        exists i :: 0 <= i < |more| && more[i].Compared? && (more[i].cold == a || more[i].warm == a)
      {
        if a in assessments {
          var i :| 0 <= i < |outcomes| && outcomes[i].Compared? && (outcomes[i].cold == a || outcomes[i].warm == a);
          assert more[i].Compared?;
        }
      }
    }
  }

  method AssessStage(before: Stage, after: Stage, t: real, rng: Rng) returns (o: StageOutcome)
    requires FairRng(rng)
    ensures o == CompareStage(before, after, t, rng)
  {
    hide RegimeAssessment;
    if PythonBlank(before.workload) || before.workload != after.workload { return Incomplete; }
    if !before.passed || !after.passed { return Skipped; }
    if !NonNegativeSamples(before) || !NonNegativeSamples(after) { return Incomplete; }
    var provenance := before.provenance == Some(before.workload) && after.provenance == Some(after.workload);
    var cold := AssessRegime(before.cold, after.cold, provenance, t, rng);
    var warm := AssessRegime(before.warm, after.warm, provenance, t, rng);
    o := Compared(cold, warm);
  }

  method GatherStages(stages: seq<(Stage, Stage)>, t: real, rng: Rng)
    returns (incomplete: bool, compared: nat, assessments: seq<Assessment>)
    requires FairRng(rng)
    ensures Gathered(CompareStages(stages, t, rng), incomplete, compared, assessments)
  {
    hide CompareStage, Gathered, CompareStages;
    incomplete, compared, assessments := false, 0, [];
    ghost var outcomes: seq<StageOutcome> := [];
    NothingGathered();
    for i := 0 to |stages|
      invariant |outcomes| == i && forall k :: 0 <= k < i ==> outcomes[k] == CompareStage(stages[k].0, stages[k].1, t, rng)
      invariant Gathered(outcomes, incomplete, compared, assessments)
    {
      var o := AssessStage(stages[i].0, stages[i].1, t, rng);
      GatherNext(outcomes, o, incomplete, compared, assessments);
      outcomes := outcomes + [o];
      if o == Incomplete { incomplete := true; }
      if !o.Compared? { continue; }
      assessments := assessments + [o.cold];
      assessments := assessments + [o.warm];
      compared := compared + 1;
    }
    OutcomesAre(stages, t, rng, outcomes);
  }

  lemma OutcomesAre(stages: seq<(Stage, Stage)>, t: real, rng: Rng, outcomes: seq<StageOutcome>)
    requires FairRng(rng) && |outcomes| == |stages|
    requires forall k :: 0 <= k < |stages| ==> outcomes[k] == CompareStage(stages[k].0, stages[k].1, t, rng)
    ensures outcomes == CompareStages(stages, t, rng)
  {
    hide CompareStage, CompareStages;
  }

  /** The last decision, on all that was gathered. */
  method OverallStatus(incomplete: bool, compared: nat, assessments: seq<Assessment>) returns (status: Assessment)
    ensures status == (if incomplete || compared == 0 then Inconclusive
                       else if Regression in assessments then Regression
                       else if assessments == [] || Inconclusive in assessments then Inconclusive
                       else if Improved in assessments then Improved
                       else WithinTolerance)
  {
    if incomplete || compared == 0 { return Inconclusive; }
    if Regression in assessments { return Regression; }
    if assessments != [] && forall k :: 0 <= k < |assessments| ==> assessments[k] == WithinTolerance {
      return WithinTolerance;
    }
    if assessments != [] && Improved in assessments
       && forall k :: 0 <= k < |assessments| ==> assessments[k] == WithinTolerance || assessments[k] == Improved {
      return Improved;
    }
    status := Inconclusive;
  }

  method CompareRecords(before: Run, after: Run, t: real, rng: Rng, batchRng: BatchRng, isDecimal: char -> bool)
    returns (status: Assessment)
    requires FairRng(rng) && FairBatchRng(batchRng)
    ensures status == Compare(before, after, t, rng, batchRng, isDecimal)
  {
    hide Gathered, Overall, ServiceVerdict, CompareStages, PairedStages, FairRng, FairBatchRng;
    var stages := PairedStages(before.stages, after.stages);
    var incomplete, compared, assessments := GatherStages(stages, t, rng);
    var service := CompareServiceConcurrency(
      before.service, after.service, MinimumBatches(before, after), t, rng, batchRng, isDecimal);
    OverallOf(CompareStages(stages, t, rng), incomplete, compared, assessments, service);
    if service == Inconclusive { incomplete := true; } else { assessments := assessments + [service]; }
    status := OverallStatus(incomplete, compared, assessments);
  }

  lemma NothingGathered()
    ensures Gathered([], false, 0, [])
  {
  }

  lemma OverallOf(outcomes: seq<StageOutcome>, incomplete: bool, compared: nat, assessments: seq<Assessment>, service: Assessment)
    requires Gathered(outcomes, incomplete, compared, assessments)
    ensures var all := assessments + [service];
            Overall(outcomes, service)
            == if service == Inconclusive || incomplete || compared == 0 then Inconclusive
               else if Regression in all then Regression
               else if Inconclusive in all then Inconclusive
               else if Improved in all then Improved
               else WithinTolerance
  {
    var all := assessments + [service];
    forall a: Assessment ensures a in all <==> Observed(a, outcomes, service) {
      assert a in all <==> a in assessments || a == service;
    }
  }
}
