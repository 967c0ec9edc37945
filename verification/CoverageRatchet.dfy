/** Branch-coverage thresholds: checking a report against a baseline, and extending the baseline. */
module CoverageRatchet {
  import opened Common

  // ---- Reports and baselines --------------------------------------------------------------------------

  datatype Value = Int(n: int) | NotInt

  datatype Summary = Summary(covered: Value, total: Value)

  /** `None` stands for a value that is missing or not an object. */
  datatype FileItem = FileItem(summary: Option<Summary>, functions: Option<map<string, Option<Summary>>>)

  datatype Report = Report(branch: bool, formatThree: bool, files: Option<map<string, Option<FileItem>>>, digest: string)

  /** Valid branch counts. */
  datatype Counts = Counts(covered: nat, total: nat)

  datatype Provenance = Provenance(
    revision: string, cohort: string, digest: string, addedModules: seq<string>, addedFunctions: seq<string>)

  datatype Section<+T> = Missing | Malformed | Present(value: T)

  datatype Baseline = Baseline(
    supported: bool, environment: string, traced: bool,
    modules: Section<map<string, Option<Summary>>>,
    functions: Section<map<string, Option<Summary>>>,
    extensions: Section<seq<Provenance>>)

  function Slashed(path: string): string {
    seq(|path|, i requires 0 <= i < |path| => if path[i] == '\\' then '/' else path[i])
  }

  predicate Collides(files: map<string, Option<FileItem>>) {
    exists a, b :: a in files && b in files && a != b && Slashed(a) == Slashed(b)
  }

  /** The files by normalized path; `None` where the source raises. */
  function Files(r: Report): Option<map<string, Option<FileItem>>> {
    if !r.branch || r.files.None? || Collides(r.files.value) then None
    else Some(map p | p in r.files.value :: Slashed(p) := r.files.value[p])
  }

  function ValidatedCounts(s: Summary): (r: Option<Counts>)
    ensures r.Some? ==> 0 <= r.value.covered <= r.value.total && r.value.total > 0
  {
    if s.total.Int? && s.total.n > 0 && s.covered.Int? && 0 <= s.covered.n <= s.total.n
    then Some(Counts(s.covered.n, s.total.n)) else None
  }

  function ModuleCounts(r: Report, path: string): (c: Option<Counts>)
    ensures c.Some? ==> 0 <= c.value.covered <= c.value.total && c.value.total > 0
  {
    var files := Files(r);
    if files.None? || path !in files.value || files.value[path].None? || files.value[path].value.summary.None? then None
    else ValidatedCounts(files.value[path].value.summary.value)
  }

  /** The position of the separator of a function identifier, which is `path::name`. */
  function Separator(id: string, from: nat): (k: Option<nat>)
    requires from <= |id|
    ensures k.Some? ==> from <= k.value <= |id| - 2 && id[k.value] == ':' && id[k.value + 1] == ':'
    ensures k.Some? ==> forall i :: from <= i < k.value ==> !(id[i] == ':' && id[i + 1] == ':')
    ensures k.None? ==> forall i :: from <= i < |id| - 1 ==> !(id[i] == ':' && id[i + 1] == ':')
    decreases |id| - from
  {
    if from + 2 > |id| then None
    else if id[from] == ':' && id[from + 1] == ':' then Some(from)
    else Separator(id, from + 1)
  }

  function FunctionCounts(r: Report, id: string): (c: Option<Counts>)
    ensures c.Some? ==> 0 <= c.value.covered <= c.value.total && c.value.total > 0
  {
    var at := Separator(id, 0);
    if !r.formatThree || at.None? || at.value == 0 || at.value + 2 == |id| then None
    else
      var path, name := id[..at.value], id[at.value + 2..];
      var files := Files(r);
      if files.None? || path !in files.value || files.value[path].None? || files.value[path].value.functions.None? then None
      else
        var functions := files.value[path].value.functions.value;
        if name !in functions || functions[name].None? then None else ValidatedCounts(functions[name].value)
  }

  // ---- Comparing -----------------------------------------------------------------------------------------

  datatype Kind = Module | Function

  function Measured(r: Report, kind: Kind, id: string): (c: Option<Counts>)
    ensures c.Some? ==> 0 <= c.value.covered <= c.value.total && c.value.total > 0
  {
    if kind.Module? then ModuleCounts(r, id) else FunctionCounts(r, id)
  }

  /** The report measures the item, the threshold is readable, and the report does not fall below it. */
  predicate Meets(r: Report, kind: Kind, id: string, target: Option<Summary>) {
    && Measured(r, kind, id).Some? && target.Some? && ValidatedCounts(target.value).Some?
    && var c := Measured(r, kind, id).value; var t := ValidatedCounts(target.value).value;
       !(c.covered * t.total < t.covered * c.total)
  }

  function Ratio(c: Counts): real
    requires c.total > 0
  {
    c.covered as real / c.total as real
  }

  lemma CrossMultiplied(a: real, b: real, c: real, d: real)
    requires b > 0.0 && d > 0.0
    ensures a * d < c * b <==> a / b < c / d
  {
    var x, y := a / b, c / d;
    assert a == x * b && c == y * d;
    var p := b * d;
    assert p > 0.0;
    assert a * d == x * p && c * b == y * p;
    Scaled(x, y, p);
  }

  lemma Scaled(x: real, y: real, p: real)
    requires p > 0.0
    ensures x * p < y * p <==> x < y
  {
    if x < y { assert (y - x) * p > 0.0; }
    if y <= x { assert (x - y) * p >= 0.0; }
  }

  /** The comparison of whole numbers is the comparison of the two rates. */
  lemma MeetsIsRational(r: Report, kind: Kind, id: string, target: Summary)
    requires Measured(r, kind, id).Some? && ValidatedCounts(target).Some?
    ensures Meets(r, kind, id, Some(target))
            <==> Ratio(Measured(r, kind, id).value) >= Ratio(ValidatedCounts(target).value)
  {
    var c, t := Measured(r, kind, id).value, ValidatedCounts(target).value;
    hide Measured, ValidatedCounts;
    CrossMultiplied(c.covered as real, c.total as real, t.covered as real, t.total as real);
    RealProduct(c.covered, t.total);
    RealProduct(t.covered, c.total);
  }

  lemma RealProduct(a: nat, b: nat)
    ensures (a * b) as real == a as real * b as real
  {
  }

  method Fails(r: Report, kind: Kind, id: string, target: Option<Summary>) returns (failed: bool)
    ensures failed == !Meets(r, kind, id, target)
  {
    var c := Measured(r, kind, id);
    if c.None? || target.None? { return true; }
    var previous := ValidatedCounts(target.value);
    if previous.None? { return true; }
    failed := c.value.covered * previous.value.total < previous.value.covered * c.value.total;
  }

  method CompareMetrics(r: Report, kind: Kind, metrics: map<string, Option<Summary>>) returns (errors: set<string>)
    ensures errors == set id | id in metrics && !Meets(r, kind, id, metrics[id])
  {
    hide Meets;
    errors := {};
    var pending := metrics.Keys;
    while pending != {}
      invariant pending <= metrics.Keys
      invariant errors == set id | id in metrics && id !in pending && !Meets(r, kind, id, metrics[id])
      decreases |pending|
    {
      var id :| id in pending;
      pending := pending - {id};
      var failed := Fails(r, kind, id, metrics[id]);
      if failed { errors := errors + {id}; }
    }
  }

  // ---- Checking a report --------------------------------------------------------------------------------------

  function MetricsOf(section: Section<map<string, Option<Summary>>>): map<string, Option<Summary>> {
    if section.Present? then section.value else map[]
  }

  function Thresholds(b: Baseline, kind: Kind): map<string, Option<Summary>> {
    MetricsOf(if kind.Module? then b.modules else b.functions)
  }

  predicate AllMeet(r: Report, b: Baseline, kind: Kind) {
    forall id :: id in Thresholds(b, kind) ==> Meets(r, kind, id, Thresholds(b, kind)[id])
  }

  /** The report passes: everything the baseline has a threshold for meets it. */
  predicate Passes(r: Report, b: Baseline, environment: string, requiredModules: seq<string>, requiredFunctions: seq<string>) {
    && b.supported && b.environment == environment && b.traced
    && b.modules.Present? && b.modules.value != map[] && !b.functions.Malformed?
    && (forall p :: p in requiredModules ==> p in b.modules.value)
    && (forall f :: f in requiredFunctions ==> f in MetricsOf(b.functions))
    && AllMeet(r, b, Module) && AllMeet(r, b, Function)
  }

  lemma NoneFails(r: Report, kind: Kind, b: Baseline, errors: set<string>)
    requires errors == set id | id in Thresholds(b, kind) && !Meets(r, kind, id, Thresholds(b, kind)[id])
    ensures errors == {} <==> AllMeet(r, b, kind)
  {
    hide Meets, Thresholds;
    if errors == {} {
      forall id | id in Thresholds(b, kind) ensures Meets(r, kind, id, Thresholds(b, kind)[id]) {
        assert id !in errors;
      }
    }
  }

  method CheckReport(r: Report, b: Baseline, environment: string, requiredModules: seq<string>, requiredFunctions: seq<string>)
    returns (success: bool)
    ensures success == Passes(r, b, environment, requiredModules, requiredFunctions)
  {
    hide Meets, AllMeet;
    if !b.supported { return false; }
    var failures: nat := 0;
    if b.environment != environment { failures := failures + 1; }
    if !b.traced { failures := failures + 1; }
    if !b.modules.Present? || b.modules.value == map[] { return false; }
    var modules := b.modules.value;
    if exists p :: p in requiredModules && p !in modules { failures := failures + 1; }
    var regressed := CompareMetrics(r, Module, modules);
    if b.functions.Malformed? { failures := failures + 1; }
    var functions := MetricsOf(b.functions);
    if exists f :: f in requiredFunctions && f !in functions { failures := failures + 1; }
    var slipped := CompareMetrics(r, Function, functions);
    NoneFails(r, Module, b, regressed);
    NoneFails(r, Function, b, slipped);
    success := failures == 0 && regressed == {} && slipped == {};
  }

  // ---- Extending a baseline -------------------------------------------------------------------------------------

  datatype Addition = Addition(metrics: map<string, Option<Summary>>, added: seq<string>)

  function SummaryOf(c: Counts): Summary {
    Summary(Int(c.covered), Int(c.total))
  }

  /** New items are measured and added in order; `None` if one cannot be measured. */
  function AddAll(r: Report, kind: Kind, metrics: map<string, Option<Summary>>, ids: seq<string>): Option<Addition> {
    if ids == [] then Some(Addition(metrics, []))
    else
      var id := ids[|ids| - 1];
      match AddAll(r, kind, metrics, ids[..|ids| - 1])
      case None => None
      case Some(before) =>
        if id in before.metrics then Some(before)
        else if Measured(r, kind, id).None? then None
        else Some(Addition(before.metrics[id := Some(SummaryOf(Measured(r, kind, id).value))], before.added + [id]))
  }

  function AddExtension(extensions: seq<Provenance>, p: Provenance): seq<Provenance> {
    if p.addedModules == [] && p.addedFunctions == [] then extensions else extensions + [p]
  }

  function Extended(
    r: Report, b: Baseline, paths: seq<string>, functions: seq<string>, revision: string, cohort: string, environment: string)
    : Option<Baseline>
  {
    if !Passes(r, b, environment, [], []) || PythonBlank(revision) || PythonBlank(cohort) || b.extensions.Malformed? then None
    else
      var modules := AddAll(r, Module, b.modules.value, paths);
      var stored := AddAll(r, Function, MetricsOf(b.functions), functions);
      if modules.None? || stored.None? then None
      else
        var extensions := if b.extensions.Present? then b.extensions.value else [];
        var p := Provenance(revision, cohort, r.digest, modules.value.added, stored.value.added);
        Some(b.(modules := Present(modules.value.metrics), functions := Present(stored.value.metrics),
                extensions := Present(AddExtension(extensions, p))))
  }

  method AddMetrics(r: Report, kind: Kind, metrics: map<string, Option<Summary>>, ids: seq<string>)
    returns (addition: Option<Addition>)
    ensures addition == AddAll(r, kind, metrics, ids)
  {
    var all, added := metrics, [];
    for i := 0 to |ids|
      invariant AddAll(r, kind, metrics, ids[..i]) == Some(Addition(all, added))
    {
      var id := ids[i];
      assert ids[..i + 1][..i] == ids[..i];
      if id !in all {
        var counts := Measured(r, kind, id);
        if counts.None? {
          Unmeasured(r, kind, metrics, ids, i + 1);
          return None;
        }
        all := all[id := Some(SummaryOf(counts.value))];
        added := added + [id];
      }
    }
    assert ids[..|ids|] == ids;
    addition := Some(Addition(all, added));
  }

  lemma {:induction false} Unmeasured(r: Report, kind: Kind, metrics: map<string, Option<Summary>>, ids: seq<string>, n: nat)
    requires n <= |ids| && AddAll(r, kind, metrics, ids[..n]).None?
    ensures AddAll(r, kind, metrics, ids).None?
    decreases |ids|
  {
    if n < |ids| {
      assert ids[..|ids| - 1][..n] == ids[..n];
      Unmeasured(r, kind, metrics, ids[..|ids| - 1], n);
    } else {
      assert ids[..n] == ids;
    }
  }

  method ExtendBaseline(
    r: Report, existing: Baseline, paths: seq<string>, functions: seq<string>,
    revision: string, cohort: string, environment: string)
    returns (value: Option<Baseline>)
    ensures value == Extended(r, existing, paths, functions, revision, cohort, environment)
  {
    hide Passes, AddAll;
    var passed := CheckReport(r, existing, environment, [], []);
    if !passed { return None; }
    if PythonBlank(revision) || PythonBlank(cohort) { return None; }
    PassedHasModules(r, existing, environment);
    var stored := MetricsOf(existing.functions);
    if existing.extensions.Malformed? { return None; }
    var extensions := if existing.extensions.Present? then existing.extensions.value else [];
    var modules := AddMetrics(r, Module, existing.modules.value, paths);
    if modules.None? { return None; }
    var more := AddMetrics(r, Function, stored, functions);
    if more.None? { return None; }
    if modules.value.added != [] || more.value.added != [] {
      extensions := extensions + [Provenance(revision, cohort, r.digest, modules.value.added, more.value.added)];
    }
    value := Some(existing.(modules := Present(modules.value.metrics), functions := Present(more.value.metrics),
                            extensions := Present(extensions)));
  }

  lemma PassedHasModules(r: Report, b: Baseline, environment: string)
    requires Passes(r, b, environment, [], [])
    ensures b.modules.Present? && !b.functions.Malformed?
  {
  }

  // ---- What an extension keeps ----------------------------------------------------------------------------------

  predicate Distinct(s: seq<string>) {
    forall i, j :: 0 <= i < j < |s| ==> s[i] != s[j]
  }

  /** Old thresholds stay as they are; what is added is new, named once, and just what the report measures. */
  ghost predicate Grown(r: Report, kind: Kind, metrics: map<string, Option<Summary>>, ids: seq<string>, a: Addition) {
    && (forall id :: id in metrics ==> id in a.metrics && a.metrics[id] == metrics[id])
    && (forall id :: id in a.metrics <==> id in metrics || id in a.added)
    && (forall id :: id in ids ==> id in a.metrics)
    && (forall id :: id in a.added ==>
          && id in ids && id !in metrics && Measured(r, kind, id).Some?
          && a.metrics[id] == Some(SummaryOf(Measured(r, kind, id).value)))
    && Distinct(a.added)
  }

  lemma GrownByOne(r: Report, kind: Kind, metrics: map<string, Option<Summary>>, ids: seq<string>, a: Addition, id: string)
    requires Grown(r, kind, metrics, ids, a)
    ensures id in a.metrics ==> Grown(r, kind, metrics, ids + [id], a)
    ensures id !in a.metrics && Measured(r, kind, id).Some? ==>
      Grown(r, kind, metrics, ids + [id],
            Addition(a.metrics[id := Some(SummaryOf(Measured(r, kind, id).value))], a.added + [id]))
  {
    hide Measured;
  }

  lemma NothingAdded(r: Report, kind: Kind, metrics: map<string, Option<Summary>>)
    ensures Grown(r, kind, metrics, [], Addition(metrics, []))
  {
    hide Measured;
  }

  lemma {:induction false} AdditionKeeps(r: Report, kind: Kind, metrics: map<string, Option<Summary>>, ids: seq<string>)
    requires AddAll(r, kind, metrics, ids).Some?
    ensures Grown(r, kind, metrics, ids, AddAll(r, kind, metrics, ids).value)
    decreases |ids|
  {
    hide Grown, Measured;
    if ids == [] {
      NothingAdded(r, kind, metrics);
    } else {
      var front, id := ids[..|ids| - 1], ids[|ids| - 1];
      AdditionKeeps(r, kind, metrics, front);
      GrownByOne(r, kind, metrics, front, AddAll(r, kind, metrics, front).value, id);
      assert ids == front + [id];
    }
  }

  lemma MeetsItself(r: Report, kind: Kind, id: string)
    requires Measured(r, kind, id).Some?
    ensures Meets(r, kind, id, Some(SummaryOf(Measured(r, kind, id).value)))
  {
  }

  /** The extending report passes its own result, and no threshold has changed. */
  lemma ExtensionPassesItself(
    r: Report, b: Baseline, paths: seq<string>, functions: seq<string>, revision: string, cohort: string, environment: string)
    requires Extended(r, b, paths, functions, revision, cohort, environment).Some?
    ensures var v := Extended(r, b, paths, functions, revision, cohort, environment).value;
            && Passes(r, v, environment, paths, functions)
            && forall kind, id :: id in Thresholds(b, kind) ==>
                 id in Thresholds(v, kind) && Thresholds(v, kind)[id] == Thresholds(b, kind)[id]
  {
    hide Meets, AddAll;
    var v := Extended(r, b, paths, functions, revision, cohort, environment).value;
    AdditionKeeps(r, Module, b.modules.value, paths);
    AdditionKeeps(r, Function, MetricsOf(b.functions), functions);
    forall kind: Kind, id | id in Thresholds(v, kind) ensures Meets(r, kind, id, Thresholds(v, kind)[id]) {
      if id in Thresholds(b, kind) {
        assert AllMeet(r, b, kind);
      } else {
        MeetsItself(r, kind, id);
      }
    }
    assert AllMeet(r, v, Module) && AllMeet(r, v, Function);
    assert v.modules.value != map[] by {
      var id :| id in b.modules.value;
      assert id in v.modules.value;
    }
  }

  /** Extending again with the same report and the same items changes nothing. */
  lemma ExtendingAgainAddsNothing(
    r: Report, b: Baseline, paths: seq<string>, functions: seq<string>,
    revision: string, cohort: string, revision': string, cohort': string, environment: string)
    requires Extended(r, b, paths, functions, revision, cohort, environment).Some?
    requires !PythonBlank(revision') && !PythonBlank(cohort')
    ensures var v := Extended(r, b, paths, functions, revision, cohort, environment).value;
            Extended(r, v, paths, functions, revision', cohort', environment) == Some(v)
  {
    var v := Extended(r, b, paths, functions, revision, cohort, environment).value;
    ExtensionPassesItself(r, b, paths, functions, revision, cohort, environment);
    PassesWithoutRequirements(r, v, environment, paths, functions);
    AddingNothing(r, Module, v.modules.value, paths);
    AddingNothing(r, Function, v.functions.value, functions);
  }

  lemma PassesWithoutRequirements(r: Report, b: Baseline, environment: string, paths: seq<string>, functions: seq<string>)
    requires Passes(r, b, environment, paths, functions)
    ensures Passes(r, b, environment, [], [])
    ensures forall p :: p in paths ==> p in b.modules.value
    ensures forall f :: f in functions ==> f in MetricsOf(b.functions)
  {
  }

  lemma {:induction false} AddingNothing(r: Report, kind: Kind, metrics: map<string, Option<Summary>>, ids: seq<string>)
    requires forall id :: id in ids ==> id in metrics
    ensures AddAll(r, kind, metrics, ids) == Some(Addition(metrics, []))
    decreases |ids|
  {
    if ids != [] { AddingNothing(r, kind, metrics, ids[..|ids| - 1]); }
  }

  // ---- Chains of extensions ---------------------------------------------------------------------------------------

  datatype Step = Step(r: Report, paths: seq<string>, functions: seq<string>, revision: string, cohort: string)

  /** Each baseline extends the one before it. */
  predicate Chain(baselines: seq<Baseline>, steps: seq<Step>, environment: string) {
    && |baselines| == |steps| + 1
    && forall i :: 0 <= i < |steps| ==>
         Extended(steps[i].r, baselines[i], steps[i].paths, steps[i].functions, steps[i].revision, steps[i].cohort, environment)
         == Some(baselines[i + 1])
  }

  lemma ChainStep(baselines: seq<Baseline>, steps: seq<Step>, environment: string, i: nat)
    requires Chain(baselines, steps, environment) && i < |steps|
    ensures var s := steps[i];
            Extended(s.r, baselines[i], s.paths, s.functions, s.revision, s.cohort, environment) == Some(baselines[i + 1])
  {
    hide Extended;
  }

  /** Along a chain, every threshold ever set is still there, unchanged. */
  lemma {:induction false} ChainKeepsThresholds(baselines: seq<Baseline>, steps: seq<Step>, environment: string, i: nat, j: nat)
    requires Chain(baselines, steps, environment) && i <= j < |baselines|
    ensures forall kind, id :: id in Thresholds(baselines[i], kind) ==>
              id in Thresholds(baselines[j], kind) && Thresholds(baselines[j], kind)[id] == Thresholds(baselines[i], kind)[id]
    decreases j
  {
    hide Thresholds, Passes;
    if i < j {
      ChainKeepsThresholds(baselines, steps, environment, i, j - 1);
      var s := steps[j - 1];
      ChainStep(baselines, steps, environment, j - 1);
      ExtensionPassesItself(s.r, baselines[j - 1], s.paths, s.functions, s.revision, s.cohort, environment);
    }
  }

  /** A report that the last baseline accepts is nowhere below a rate that any earlier baseline demanded. */
  lemma LastAcceptsForAll(
    baselines: seq<Baseline>, steps: seq<Step>, environment: string, r: Report, i: nat, kind: Kind, id: string)
    requires Chain(baselines, steps, environment) && i < |baselines|
    requires Passes(r, baselines[|baselines| - 1], environment, [], [])
    requires id in Thresholds(baselines[i], kind)
    ensures Measured(r, kind, id).Some? && Thresholds(baselines[i], kind)[id].Some?
    ensures ValidatedCounts(Thresholds(baselines[i], kind)[id].value).Some?
    ensures Ratio(Measured(r, kind, id).value) >= Ratio(ValidatedCounts(Thresholds(baselines[i], kind)[id].value).value)
  {
    hide Measured, ValidatedCounts, Thresholds, Chain;
    var last := baselines[|baselines| - 1];
    ChainKeepsThresholds(baselines, steps, environment, i, |baselines| - 1);
    assert AllMeet(r, last, kind);
    assert Meets(r, kind, id, Thresholds(last, kind)[id]);
    MeetsIsRational(r, kind, id, Thresholds(last, kind)[id].value);
  }

  // ---- Credit for every added threshold -----------------------------------------------------------------------------

  function AddedOf(extensions: seq<Provenance>, kind: Kind): seq<string> {
    if extensions == [] then []
    else
      var n := |extensions| - 1;
      AddedOf(extensions[..n], kind) + if kind.Module? then extensions[n].addedModules else extensions[n].addedFunctions
  }

  /** Every threshold beyond the first ones is named exactly once in all the provenance entries together. */
  ghost predicate Credited(b: Baseline, kind: Kind, first: set<string>) {
    && !b.extensions.Malformed?
    && var added := AddedOf(if b.extensions.Present? then b.extensions.value else [], kind);
       && Distinct(added)
       && (forall id :: id in added ==> id !in first)
       && (forall id :: id in Thresholds(b, kind) <==> id in first || id in added)
  }

  lemma AddedAppend(extensions: seq<Provenance>, p: Provenance, kind: Kind)
    ensures AddedOf(AddExtension(extensions, p), kind)
            == AddedOf(extensions, kind) + if kind.Module? then p.addedModules else p.addedFunctions
  {
    assert (extensions + [p])[..|extensions|] == extensions;
  }

  lemma ExtensionIsCredited(
    r: Report, b: Baseline, paths: seq<string>, functions: seq<string>, revision: string, cohort: string, environment: string,
    kind: Kind, first: set<string>)
    requires Extended(r, b, paths, functions, revision, cohort, environment).Some? && Credited(b, kind, first)
    ensures Credited(Extended(r, b, paths, functions, revision, cohort, environment).value, kind, first)
  {
    hide Passes, AddAll, AddExtension, AddedOf;
    PassedHasModules(r, b, environment);
    var modules := AddAll(r, Module, b.modules.value, paths).value;
    var stored := AddAll(r, Function, MetricsOf(b.functions), functions).value;
    AdditionKeeps(r, Module, b.modules.value, paths);
    AdditionKeeps(r, Function, MetricsOf(b.functions), functions);
    var extensions := if b.extensions.Present? then b.extensions.value else [];
    AddedAppend(extensions, Provenance(revision, cohort, r.digest, modules.added, stored.added), kind);
    var before, added := AddedOf(extensions, kind), if kind.Module? then modules.added else stored.added;
    var v := Extended(r, b, paths, functions, revision, cohort, environment).value;
    assert forall id :: id in Thresholds(v, kind) <==> id in Thresholds(b, kind) || id in added;
    assert forall id :: id in added ==> id !in Thresholds(b, kind);
    assert AddedOf(v.extensions.value, kind) == before + added;
    CreditGrows(b, v, kind, first, before, added);
  }

  lemma CreditGrows(b: Baseline, v: Baseline, kind: Kind, first: set<string>, before: seq<string>, added: seq<string>)
    requires Credited(b, kind, first) && before == AddedOf(if b.extensions.Present? then b.extensions.value else [], kind)
    requires Distinct(added) && forall id :: id in added ==> id !in Thresholds(b, kind)
    requires forall id :: id in Thresholds(v, kind) <==> id in Thresholds(b, kind) || id in added
    requires v.extensions.Present? && AddedOf(v.extensions.value, kind) == before + added
    ensures Credited(v, kind, first)
  {
    hide Thresholds, AddedOf;
    forall id | id in added ensures id !in before && id !in first {
      assert id !in Thresholds(b, kind);
    }
    DistinctAppend(before, added);
    forall id ensures id in before + added <==> id in before || id in added {}
  }

  lemma DistinctAppend(a: seq<string>, b: seq<string>)
    requires Distinct(a) && Distinct(b)
    ensures (forall x :: x in b ==> x !in a) ==> Distinct(a + b)
  {
    if forall x :: x in b ==> x !in a {
      forall i, j | 0 <= i < j < |a + b| ensures (a + b)[i] != (a + b)[j] {
        if i < |a| && j >= |a| { assert (a + b)[j] == b[j - |a|] && b[j - |a|] in b && a[i] in a; }
      }
    }
  }

  /** Over a whole chain, the thresholds are those of the first baseline and the ones credited since, each once. */
  lemma {:induction false} ChainIsCredited(
    baselines: seq<Baseline>, steps: seq<Step>, environment: string, j: nat, kind: Kind, first: set<string>)
    requires Chain(baselines, steps, environment) && j < |baselines| && Credited(baselines[0], kind, first)
    ensures Credited(baselines[j], kind, first)
    decreases j
  {
    hide Credited;
    if j > 0 {
      ChainIsCredited(baselines, steps, environment, j - 1, kind, first);
      var s := steps[j - 1];
      ChainStep(baselines, steps, environment, j - 1);
      ExtensionIsCredited(s.r, baselines[j - 1], s.paths, s.functions, s.revision, s.cohort, environment, kind, first);
    }
  }

  // ---- The first baseline ---------------------------------------------------------------------------------------------

  function Made(r: Report, paths: seq<string>, functions: seq<string>, revision: string, cohort: string, environment: string)
    : Option<Baseline>
  {
    var modules, stored := AddAll(r, Module, map[], paths), AddAll(r, Function, map[], functions);
    if PythonBlank(revision) || PythonBlank(cohort) || paths == [] || !Distinct(paths) || !Distinct(functions) then None
    else if modules.None? || stored.None? then None
    else
      Some(Baseline(true, environment, true, Present(modules.value.metrics),
                    if stored.value.metrics == map[] then Missing else Present(stored.value.metrics), Missing))
  }

  method MakeBaseline(
    r: Report, paths: seq<string>, functions: seq<string>, revision: string, cohort: string, environment: string)
    returns (value: Option<Baseline>)
    ensures value == Made(r, paths, functions, revision, cohort, environment)
  {
    if PythonBlank(revision) || PythonBlank(cohort) { return None; }
    if paths == [] || !Distinct(paths) { return None; }
    var modules := AddMetrics(r, Module, map[], paths);
    if modules.None? { return None; }
    if !Distinct(functions) { return None; }
    var stored := AddMetrics(r, Function, map[], functions);
    if stored.None? { return None; }
    value := Some(Baseline(true, environment, true, Present(modules.value.metrics),
                           if stored.value.metrics == map[] then Missing else Present(stored.value.metrics), Missing));
  }

  /** A report passes the baseline made from it. */
  lemma FirstBaselinePassesItself(
    r: Report, paths: seq<string>, functions: seq<string>, revision: string, cohort: string, environment: string)
    requires Made(r, paths, functions, revision, cohort, environment).Some?
    ensures Passes(r, Made(r, paths, functions, revision, cohort, environment).value, environment, paths, functions)
  {
    hide Meets, AddAll;
    var b := Made(r, paths, functions, revision, cohort, environment).value;
    AdditionKeeps(r, Module, map[], paths);
    AdditionKeeps(r, Function, map[], functions);
    assert paths[0] in b.modules.value;
    forall kind: Kind ensures AllMeet(r, b, kind) {
      forall id | id in Thresholds(b, kind) ensures Meets(r, kind, id, Thresholds(b, kind)[id]) {
        MeetsItself(r, kind, id);
      }
    }
  }

  /** A chain can start from it: nothing has been added yet, so nothing needs credit. */
  lemma FirstBaselineIsCredited(
    r: Report, paths: seq<string>, functions: seq<string>, revision: string, cohort: string, environment: string, kind: Kind)
    requires Made(r, paths, functions, revision, cohort, environment).Some?
    ensures var b := Made(r, paths, functions, revision, cohort, environment).value;
            Credited(b, kind, Thresholds(b, kind).Keys)
  {
    hide AddAll, Thresholds;
  }

  function Asked(paths: seq<string>, functions: seq<string>, kind: Kind): set<string> {
    if kind.Module? then set id | id in paths else set id | id in functions
  }

  lemma MadeAsAsked(
    r: Report, paths: seq<string>, functions: seq<string>, revision: string, cohort: string, environment: string, kind: Kind)
    requires Made(r, paths, functions, revision, cohort, environment).Some?
    ensures Thresholds(Made(r, paths, functions, revision, cohort, environment).value, kind).Keys == Asked(paths, functions, kind)
  {
    hide AddAll;
    AdditionKeeps(r, Module, map[], paths);
    AdditionKeeps(r, Function, map[], functions);
  }

  /**
   * The whole life of a baseline: at every point, its thresholds are the items asked for at the start
   * and those named since, each named in exactly one provenance entry; and the first ones still stand.
   */
  lemma MadeChainIsCredited(
    baselines: seq<Baseline>, steps: seq<Step>, environment: string, j: nat, kind: Kind,
    r: Report, paths: seq<string>, functions: seq<string>, revision: string, cohort: string)
    requires Chain(baselines, steps, environment) && j < |baselines|
    requires Made(r, paths, functions, revision, cohort, environment) == Some(baselines[0])
    ensures Credited(baselines[j], kind, Asked(paths, functions, kind))
    ensures forall id :: id in Asked(paths, functions, kind) ==>
              && Measured(r, kind, id).Some? && id in Thresholds(baselines[j], kind)
              && Thresholds(baselines[j], kind)[id] == Some(SummaryOf(Measured(r, kind, id).value))
  {
    hide AddAll, Credited, Measured, Made, Thresholds;
    MadeAsAsked(r, paths, functions, revision, cohort, environment, kind);
    MadeAsMeasured(r, paths, functions, revision, cohort, environment, kind);
    FirstBaselineIsCredited(r, paths, functions, revision, cohort, environment, kind);
    ChainIsCredited(baselines, steps, environment, j, kind, Asked(paths, functions, kind));
    ChainKeepsThresholds(baselines, steps, environment, 0, j);
  }

  lemma MadeAsMeasured(
    r: Report, paths: seq<string>, functions: seq<string>, revision: string, cohort: string, environment: string, kind: Kind)
    requires Made(r, paths, functions, revision, cohort, environment).Some?
    ensures var b := Made(r, paths, functions, revision, cohort, environment).value;
            forall id :: id in Thresholds(b, kind) ==>
              Measured(r, kind, id).Some? && Thresholds(b, kind)[id] == Some(SummaryOf(Measured(r, kind, id).value))
  {
    hide AddAll;
    AdditionKeeps(r, Module, map[], paths);
    AdditionKeeps(r, Function, map[], functions);
  }
}
