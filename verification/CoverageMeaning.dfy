/**
 * What a coverage check decides, said of the counts that stand in the report and in the baseline.
 */
module CoverageMeaning {
  import opened Common
  import opened CoverageRatchet

  // ---- Reading a report ----------------------------------------------------------------------------------

  /** The report names each file once, whichever way its path is written. */
  ghost predicate Unambiguous(files: map<string, Option<FileItem>>) {
    forall a, b :: a in files && b in files && Slashed(a) == Slashed(b) ==> a == b
  }

  lemma SlashedIs(path: string)
    ensures |Slashed(path)| == |path|
    ensures forall i :: 0 <= i < |path| ==> Slashed(path)[i] == if path[i] == '\\' then '/' else path[i]
  {
  }

  /** The report has an entry for the file. */
  ghost predicate Lists(r: Report, path: string, item: FileItem) {
    && r.branch && r.files.Some? && Unambiguous(r.files.value)
    && exists p | p in r.files.value :: Slashed(p) == path && r.files.value[p] == Some(item)
  }

  /** The identifier is a path and a name on either side of the first double colon. */
  predicate Splits(id: string, path: string, name: string) {
    && path != "" && name != "" && id == path + "::" + name
    && forall i :: 0 <= i < |path| ==> !(id[i] == ':' && id[i + 1] == ':')
  }

  /** The report gives these counts for the item. */
  ghost predicate Reports(r: Report, kind: Kind, id: string, s: Summary) {
    match kind
    case Module => exists item :: Lists(r, id, item) && item.summary == Some(s)
    case Function =>
      && r.formatThree
      && exists path, name, item ::
           && Splits(id, path, name) && Lists(r, path, item)
           && item.functions.Some? && name in item.functions.value && item.functions.value[name] == Some(s)
  }

  /** Whole numbers with something to cover. */
  predicate Sound(s: Summary) {
    s.covered.Int? && s.total.Int? && 0 < s.total.n && 0 <= s.covered.n && s.covered.n <= s.total.n
  }

  lemma ValidatedIff(s: Summary)
    ensures ValidatedCounts(s).Some? <==> Sound(s)
    ensures ValidatedCounts(s).Some? ==> s == Summary(Int(ValidatedCounts(s).value.covered), Int(ValidatedCounts(s).value.total))
  {
  }

  lemma FilesIs(r: Report, path: string)
    ensures var files := Files(r);
            (exists item :: Lists(r, path, item)) <==> files.Some? && path in files.value && files.value[path].Some?
    ensures forall item :: Lists(r, path, item) ==> Files(r).value[path] == Some(item)
  {
    hide Slashed;
    if r.branch && r.files.Some? {
      var files := r.files.value;
      assert Unambiguous(files) <==> !Collides(files);
      if Files(r).Some? && path in Files(r).value && Files(r).value[path].Some? {
        var p :| p in files && Slashed(p) == path;
        assert Lists(r, path, files[p].value);
      }
    }
  }

  lemma SplitsIff(id: string, path: string, name: string)
    ensures var at := Separator(id, 0);
            Splits(id, path, name) <==>
              at.Some? && at.value != 0 && at.value + 2 != |id| && path == id[..at.value] && name == id[at.value + 2..]
  {
    var at := Separator(id, 0);
    if at.Some? && path == id[..at.value] && name == id[at.value + 2..] { SplitBack(id, at.value); }
    if Splits(id, path, name) { SplitAt(id, path, name); }
  }

  lemma SplitBack(id: string, k: nat)
    requires k + 2 <= |id| && id[k] == ':' && id[k + 1] == ':'
    ensures id == id[..k] + "::" + id[k + 2..]
  {
  }

  lemma SplitAt(id: string, path: string, name: string)
    requires Splits(id, path, name)
    ensures Separator(id, 0) == Some(|path|) && path == id[..|path|] && name == id[|path| + 2..]
  {
    assert id[|path|] == ':' && id[|path| + 1] == ':';
  }

  /** An item is measured exactly when the report gives sound counts for it, and by these. */
  lemma MeasuredIff(r: Report, kind: Kind, id: string, c: Counts)
    ensures Measured(r, kind, id) == Some(c) <==>
            var s := Summary(Int(c.covered), Int(c.total)); Reports(r, kind, id, s) && Sound(s)
  {
    hide Files, ValidatedCounts, Lists, Splits, Separator;
    match kind
    case Module =>
      FilesIs(r, id);
      ModuleMeasured(r, id, c);
    case Function => FunctionMeasured(r, id, c);
  }

  lemma ModuleMeasured(r: Report, id: string, c: Counts)
    ensures ModuleCounts(r, id) == Some(c) <==>
            var s := Summary(Int(c.covered), Int(c.total)); Reports(r, Module, id, s) && Sound(s)
  {
    hide Files, ValidatedCounts, Lists;
    FilesIs(r, id);
    var s := Summary(Int(c.covered), Int(c.total));
    ValidatedIff(s);
    if ModuleCounts(r, id) == Some(c) { ValidatedIff(Files(r).value[id].value.summary.value); }
    if Sound(s) { assert ValidatedCounts(s) == Some(c); }
  }

  lemma FunctionMeasured(r: Report, id: string, c: Counts)
    ensures FunctionCounts(r, id) == Some(c) <==>
            var s := Summary(Int(c.covered), Int(c.total)); Reports(r, Function, id, s) && Sound(s)
  {
    hide Files, ValidatedCounts, Lists, Splits;
    var s := Summary(Int(c.covered), Int(c.total));
    ValidatedIff(s);
    if Sound(s) { assert ValidatedCounts(s) == Some(c); }
    forall path, name ensures Splits(id, path, name) <==>
      var at := Separator(id, 0);
      at.Some? && at.value != 0 && at.value + 2 != |id| && path == id[..at.value] && name == id[at.value + 2..]
    {
      SplitsIff(id, path, name);
    }
    var at := Separator(id, 0);
    if at.Some? && at.value != 0 && at.value + 2 != |id| {
      var path, name := id[..at.value], id[at.value + 2..];
      assert Splits(id, path, name);
      FilesIs(r, path);
      if FunctionCounts(r, id) == Some(c) { ValidatedIff(Files(r).value[path].value.functions.value[name].value); }
    }
  }

  // ---- Passing a check --------------------------------------------------------------------------------------

  /** The rate that stands in the report is at least the one that stands in the baseline. */
  ghost predicate KeepsRate(r: Report, kind: Kind, id: string, target: Option<Summary>) {
    exists s ::
      && Reports(r, kind, id, s) && Sound(s) && target.Some? && Sound(target.value)
      && s.covered.n as real / s.total.n as real >= target.value.covered.n as real / target.value.total.n as real
  }

  lemma SoundMeans(s: Summary)
    requires Sound(s)
    ensures s.covered.Int? && s.total.Int? && 0 <= s.covered.n && 0 < s.total.n
    ensures s == Summary(Int(s.covered.n), Int(s.total.n))
  {
  }

  lemma MeetsIff(r: Report, kind: Kind, id: string, target: Option<Summary>)
    ensures Meets(r, kind, id, target) <==> KeepsRate(r, kind, id, target)
  {
    hide Reports, Measured, ValidatedCounts, FunctionCounts, Files;
    if target.Some? { ValidatedIff(target.value); }
    if Meets(r, kind, id, target) {
      var c := Measured(r, kind, id).value;
      MeasuredIff(r, kind, id, c);
      MeetsIsRational(r, kind, id, target.value);
      assert Reports(r, kind, id, Summary(Int(c.covered), Int(c.total)));
    }
    if KeepsRate(r, kind, id, target) {
      var s :| Reports(r, kind, id, s) && Sound(s) && target.Some? && Sound(target.value)
        && s.covered.n as real / s.total.n as real >= target.value.covered.n as real / target.value.total.n as real;
      SoundMeans(s);
      MeasuredIff(r, kind, id, Counts(s.covered.n, s.total.n));
      MeetsIsRational(r, kind, id, target.value);
    }
  }

  /** The thresholds of a section, none if it is missing. */
  predicate Demands(section: Section<map<string, Option<Summary>>>, id: string, target: Option<Summary>) {
    section.Present? && id in section.value && section.value[id] == target
  }

  /**
   * A report passes exactly when the baseline is of the right kind and names everything required, and
   * no rate in the report is missing or below the one that the baseline demands.
   */
  lemma PassesIff(r: Report, b: Baseline, environment: string, requiredModules: seq<string>, requiredFunctions: seq<string>)
    ensures Passes(r, b, environment, requiredModules, requiredFunctions) <==>
            && b.supported && b.traced && b.environment == environment
            && b.modules.Present? && |b.modules.value| > 0 && (b.functions.Missing? || b.functions.Present?)
            && (forall id :: id in requiredModules ==> exists target :: Demands(b.modules, id, target))
            && (forall id :: id in requiredFunctions ==> exists target :: Demands(b.functions, id, target))
            && (forall id, target :: Demands(b.modules, id, target) ==> KeepsRate(r, Module, id, target))
            && (forall id, target :: Demands(b.functions, id, target) ==> KeepsRate(r, Function, id, target))
  {
    hide Meets, KeepsRate;
    forall kind, id, target ensures Meets(r, kind, id, target) <==> KeepsRate(r, kind, id, target) {
      MeetsIff(r, kind, id, target);
    }
    NamesAll(b.modules, requiredModules);
    NamesAll(b.functions, requiredFunctions);
    MeetsAll(r, b, Module, b.modules);
    MeetsAll(r, b, Function, b.functions);
  }

  lemma NamesAll(section: Section<map<string, Option<Summary>>>, required: seq<string>)
    ensures (forall id :: id in required ==> id in MetricsOf(section)) <==>
            forall id :: id in required ==> exists target :: Demands(section, id, target)
  {
    forall id ensures id in MetricsOf(section) <==> exists target :: Demands(section, id, target) {
      if id in MetricsOf(section) { assert Demands(section, id, section.value[id]); }
    }
  }

  lemma MeetsAll(r: Report, b: Baseline, kind: Kind, section: Section<map<string, Option<Summary>>>)
    requires section == if kind.Module? then b.modules else b.functions
    requires forall id, target :: Meets(r, kind, id, target) <==> KeepsRate(r, kind, id, target)
    ensures AllMeet(r, b, kind) <==> forall id, target :: Demands(section, id, target) ==> KeepsRate(r, kind, id, target)
  {
    hide Meets, KeepsRate;
    forall id, target ensures Demands(section, id, target) <==> id in Thresholds(b, kind) && Thresholds(b, kind)[id] == target {}
    if AllMeet(r, b, kind) {
      forall id, target | Demands(section, id, target) ensures KeepsRate(r, kind, id, target) {
        assert Meets(r, kind, id, Thresholds(b, kind)[id]);
      }
    }
    if forall id, target :: Demands(section, id, target) ==> KeepsRate(r, kind, id, target) {
      forall id | id in Thresholds(b, kind) ensures Meets(r, kind, id, Thresholds(b, kind)[id]) {
        assert Demands(section, id, Thresholds(b, kind)[id]);
        assert Meets(r, kind, id, Thresholds(b, kind)[id]) <==> KeepsRate(r, kind, id, Thresholds(b, kind)[id]);
      }
    }
  }

  // ---- Extending and making a baseline ------------------------------------------------------------------------

  ghost predicate CanMeasure(r: Report, kind: Kind, id: string) {
    exists s :: Reports(r, kind, id, s) && Sound(s)
  }

  lemma CanMeasureIff(r: Report, kind: Kind, id: string)
    ensures CanMeasure(r, kind, id) <==> Measured(r, kind, id).Some?
  {
    hide Reports, Measured;
    if Measured(r, kind, id).Some? { MeasuredIff(r, kind, id, Measured(r, kind, id).value); }
    if CanMeasure(r, kind, id) {
      var s :| Reports(r, kind, id, s) && Sound(s);
      MeasuredIff(r, kind, id, Counts(s.covered.n, s.total.n));
    }
  }

  /** Adding succeeds exactly when everything new can be measured; the new ones are named in the order asked for. */
  lemma {:induction false} AddAllIff(r: Report, kind: Kind, metrics: map<string, Option<Summary>>, ids: seq<string>)
    ensures AddAll(r, kind, metrics, ids).Some? <==> forall id :: id in ids ==> id in metrics || CanMeasure(r, kind, id)
    decreases |ids|
  {
    hide CanMeasure, Measured;
    if ids != [] {
      var front, id := ids[..|ids| - 1], ids[|ids| - 1];
      AddAllIff(r, kind, metrics, front);
      CanMeasureIff(r, kind, id);
      assert ids == front + [id];
      if AddAll(r, kind, metrics, front).Some? {
        AdditionKeeps(r, kind, metrics, front);
        if id in AddAll(r, kind, metrics, front).value.metrics && id !in metrics { CanMeasureIff(r, kind, id); }
      }
    }
  }

  /** An extension succeeds for a report that passes, a named origin, and additions that can all be measured. */
  lemma ExtendedIff(
    r: Report, b: Baseline, paths: seq<string>, functions: seq<string>, revision: string, cohort: string, environment: string)
    ensures Extended(r, b, paths, functions, revision, cohort, environment).Some? <==>
            && Passes(r, b, environment, [], [])
            && !PythonBlank(revision) && !PythonBlank(cohort) && !b.extensions.Malformed?
            && (forall p :: p in paths ==> (exists target :: Demands(b.modules, p, target)) || CanMeasure(r, Module, p))
            && (forall f :: f in functions ==> (exists target :: Demands(b.functions, f, target)) || CanMeasure(r, Function, f))
  {
    hide AddAll, CanMeasure, Passes;
    if Passes(r, b, environment, [], []) {
      PassedHasModules(r, b, environment);
      AddAllIff(r, Module, b.modules.value, paths);
      AddAllIff(r, Function, MetricsOf(b.functions), functions);
      NamedIff(b.modules);
      NamedIff(b.functions);
      assert MetricsOf(b.modules) == b.modules.value;
      hide Demands;
    }
  }

  lemma NamedIff(section: Section<map<string, Option<Summary>>>)
    ensures forall id :: id in MetricsOf(section) <==> exists target :: Demands(section, id, target)
  {
    forall id ensures id in MetricsOf(section) <==> exists target :: Demands(section, id, target) {
      if id in MetricsOf(section) { assert Demands(section, id, section.value[id]); }
    }
  }

  /** Everything else about the baseline stays, and additions are put down under one entry of provenance. */
  lemma ExtendedKeeps(
    r: Report, b: Baseline, paths: seq<string>, functions: seq<string>, revision: string, cohort: string, environment: string)
    requires Extended(r, b, paths, functions, revision, cohort, environment).Some?
    ensures var v := Extended(r, b, paths, functions, revision, cohort, environment).value;
            var before := if b.extensions.Present? then b.extensions.value else [];
            && v.supported && v.traced && v.environment == environment
            && v.modules.Present? && v.functions.Present? && v.extensions.Present?
            && exists p: Provenance ::
                 && p.revision == revision && p.cohort == cohort && p.digest == r.digest
                 && (forall id :: id in p.addedModules <==> id in v.modules.value && id !in b.modules.value)
                 && (forall id :: id in p.addedFunctions <==> id in v.functions.value && id !in MetricsOf(b.functions))
                 && v.extensions.value == if p.addedModules == [] && p.addedFunctions == [] then before else before + [p]
  {
    hide AddAll, Measured;
    AdditionKeeps(r, Module, b.modules.value, paths);
    AdditionKeeps(r, Function, MetricsOf(b.functions), functions);
    var modules := AddAll(r, Module, b.modules.value, paths).value;
    var stored := AddAll(r, Function, MetricsOf(b.functions), functions).value;
    var p := Provenance(revision, cohort, r.digest, modules.added, stored.added);
    assert p.revision == revision;
  }

  /** The first baseline needs a named origin, modules and no repetition, and everything in it measured. */
  lemma MadeIff(r: Report, paths: seq<string>, functions: seq<string>, revision: string, cohort: string, environment: string)
    ensures var b := Made(r, paths, functions, revision, cohort, environment);
            && (b.Some? <==>
                  && !PythonBlank(revision) && !PythonBlank(cohort) && |paths| > 0
                  && |set p | p in paths| == |paths| && |set f | f in functions| == |functions|
                  && (forall p :: p in paths ==> CanMeasure(r, Module, p))
                  && (forall f :: f in functions ==> CanMeasure(r, Function, f)))
            && (b.Some? ==>
                  && b.value.supported && b.value.traced && b.value.environment == environment
                  && b.value.extensions.Missing? && b.value.modules.Present? && (b.value.functions.Missing? <==> functions == []))
  {
    hide AddAll, CanMeasure, Measured;
    AddAllIff(r, Module, map[], paths);
    AddAllIff(r, Function, map[], functions);
    DistinctIff(paths);
    DistinctIff(functions);
    if AddAll(r, Function, map[], functions).Some? {
      AdditionKeeps(r, Function, map[], functions);
      if functions != [] { assert functions[0] in AddAll(r, Function, map[], functions).value.metrics; }
    }
  }

  lemma {:induction false} DistinctIff(s: seq<string>)
    ensures |set x | x in s| <= |s|
    ensures Distinct(s) <==> |set x | x in s| == |s|
  {
    if s != [] {
      var n := |s| - 1;
      var front := s[..n];
      DistinctIff(front);
      assert s == front + [s[n]];
      assert (set x | x in s) == (set x | x in front) + {s[n]};
      if s[n] in front {
        var i :| 0 <= i < n && front[i] == s[n];
        assert s[i] == s[n];
        assert (set x | x in s) == set x | x in front;
      } else {
        assert forall i :: 0 <= i < n ==> s[i] == front[i] && s[i] in front;
        assert Distinct(front) ==> Distinct(s);
        assert Distinct(s) ==> Distinct(front);
      }
    }
  }
}
