/**
 * Concurrent service measurements: the runner that writes a level's record, and the comparison's
 * check that a record's samples really come in complete batches.
 */
module ServiceBatches {
  import opened Common
  import opened Decimal

  /** A JSON value where a number is expected, and one where an identifier is expected. */
  datatype Num = Number(value: real) | NotANumber
  datatype Id = Name(text: string) | NotText

  /** The fields of a level's record; `None` stands for a value that is not a list. */
  datatype Record = Record(
    samples: Option<seq<Num>>, sampleIds: Option<seq<Id>>, batchIds: Option<seq<Id>>,
    latencies: Option<seq<Option<seq<Num>>>>, idGroups: Option<seq<Option<seq<Id>>>>, throughputs: Option<seq<Num>>)

  datatype Observations = Observations(latencyByBatch: map<string, seq<real>>, throughputByBatch: map<string, real>)

  predicate Usable(id: Id) {
    id.Name? && !PythonBlank(id.text)
  }

  /** The decimal characters of Unicode; only these two facts about them matter. */
  ghost predicate Decimals(isDecimal: char -> bool) {
    (forall c: char :: IsDigit(c) ==> isDecimal(c)) && !isDecimal(':')
  }

  predicate AllDecimal(s: string, isDecimal: char -> bool) {
    s != "" && forall i :: 0 <= i < |s| ==> isDecimal(s[i])
  }

  function Prefix(level: nat): string {
    "context-pack-concurrency:" + Text(level) + ":"
  }

  function BatchPrefix(level: nat): string {
    Prefix(level) + "batch:"
  }

  function RequestId(level: nat, repetition: string, slot: nat): string {
    Prefix(level) + (repetition + ([':'] + Text(slot)))
  }

  function ExpectedIds(level: nat, repetition: string): set<string> {
    set slot | 0 <= slot < level :: RequestId(level, repetition, slot)
  }

  // ---- Identifiers can be taken apart -----------------------------------------------------------------

  lemma SameTail<T>(a: seq<T>, s: seq<T>, t: seq<T>)
    requires a + s == a + t
    ensures s == t
  {
    assert (a + s)[|a|..] == s && (a + t)[|a|..] == t;
  }

  lemma SplitAtColon(r: string, s: string, q: string, t: string)
    requires ':' !in r && ':' !in q && r + ([':'] + s) == q + ([':'] + t)
    ensures r == q && s == t
  {
    var x := r + ([':'] + s);
    assert x[|r|] == ':' && x[|q|] == ':';
    assert forall i :: 0 <= i < |r| ==> x[i] == r[i];
    assert forall i :: 0 <= i < |q| ==> x[i] == q[i];
    assert |r| == |q|;
    assert r == x[..|r|] && q == x[..|q|];
    assert x[|r| + 1..] == s && x[|q| + 1..] == t;
  }

  lemma DecimalHasNoColon(s: string, isDecimal: char -> bool)
    requires Decimals(isDecimal) && AllDecimal(s, isDecimal)
    ensures ':' !in s
  {
  }

  lemma RequestIdInjective(level: nat, r: string, i: nat, q: string, j: nat)
    requires ':' !in r && ':' !in q
    ensures RequestId(level, r, i) == RequestId(level, q, j) <==> r == q && i == j
  {
    hide Text;
    if RequestId(level, r, i) == RequestId(level, q, j) {
      SameTail(Prefix(level), r + ([':'] + Text(i)), q + ([':'] + Text(j)));
      SplitAtColon(r, Text(i), q, Text(j));
      TextInjective(i, j);
    }
  }

  lemma {:induction false} ExpectedCount(level: nat, slots: nat, repetition: string)
    requires ':' !in repetition
    ensures |set slot | 0 <= slot < slots :: RequestId(level, repetition, slot)| == slots
    decreases slots
  {
    hide RequestId;
    var ids := set slot | 0 <= slot < slots :: RequestId(level, repetition, slot);
    if slots > 0 {
      ExpectedCount(level, slots - 1, repetition);
      var front := set slot | 0 <= slot < slots - 1 :: RequestId(level, repetition, slot);
      var last := RequestId(level, repetition, slots - 1);
      if last in front {
        var slot :| 0 <= slot < slots - 1 && RequestId(level, repetition, slot) == last;
        RequestIdInjective(level, repetition, slot, repetition, slots - 1);
      }
      assert ids == front + {last};
    } else {
      assert ids == {};
    }
  }

  // ---- The check ----------------------------------------------------------------------------------------

  predicate Distinct<T(==)>(s: seq<T>) {
    forall i, j :: 0 <= i < j < |s| ==> s[i] != s[j]
  }

  predicate Measured(n: Num) {
    n.Number? && n.value >= 0.0
  }

  function RepetitionOf(level: nat, batchId: string): string
    requires BatchPrefix(level) <= batchId
  {
    batchId[|BatchPrefix(level)|..]
  }

  function Names(ids: seq<Id>): set<string> {
    set i | 0 <= i < |ids| && ids[i].Name? :: ids[i].text
  }

  /** One batch: its id names a repetition, and it has one sample and one request id for every slot. */
  predicate GroupAccepted(
    level: nat, batchId: Id, latencies: Option<seq<Num>>, ids: Option<seq<Id>>, throughput: Num, isDecimal: char -> bool)
  {
    && level > 0 && Usable(batchId) && BatchPrefix(level) <= batchId.text
    && AllDecimal(RepetitionOf(level, batchId.text), isDecimal)
    && latencies.Some? && |latencies.value| == level && (forall i :: 0 <= i < level ==> Measured(latencies.value[i]))
    && ids.Some? && |ids.value| == level && (forall i :: 0 <= i < level ==> Usable(ids.value[i]))
    && Names(ids.value) == ExpectedIds(level, RepetitionOf(level, batchId.text))
    && throughput.Number? && throughput.value > 0.0
  }

  function Flat<T>(groups: seq<Option<seq<T>>>): seq<T> {
    if groups == [] then []
    else Flat(groups[..|groups| - 1]) + if groups[|groups| - 1].Some? then groups[|groups| - 1].value else []
  }

  predicate WellShaped(r: Record) {
    && r.samples.Some? && r.sampleIds.Some? && r.batchIds.Some?
    && r.latencies.Some? && r.idGroups.Some? && r.throughputs.Some?
    && var n := |r.batchIds.value|;
       && n >= 1 && (forall i :: 0 <= i < n ==> Usable(r.batchIds.value[i])) && Distinct(r.batchIds.value)
       && |r.latencies.value| == n && |r.idGroups.value| == n && |r.throughputs.value| == n
       && |r.sampleIds.value| == |r.samples.value|
       && (forall i :: 0 <= i < |r.sampleIds.value| ==> Usable(r.sampleIds.value[i])) && Distinct(r.sampleIds.value)
  }

  /** The flat lists are the batches laid end to end, the samples in any order. */
  predicate Balanced(flatIds: seq<Id>, flatLatencies: seq<Num>, sampleIds: seq<Id>, samples: seq<Num>) {
    && Distinct(flatIds)
    && Names(flatIds) == Names(sampleIds)
    && (forall i :: 0 <= i < |samples| ==> Measured(samples[i]))
    && multiset(flatLatencies) == multiset(samples)
  }

  predicate Accepted(r: Record, level: nat, isDecimal: char -> bool) {
    && WellShaped(r)
    && (forall b :: 0 <= b < |r.batchIds.value| ==>
          GroupAccepted(level, r.batchIds.value[b], r.latencies.value[b], r.idGroups.value[b], r.throughputs.value[b], isDecimal))
    && Balanced(Flat(r.idGroups.value), Flat(r.latencies.value), r.sampleIds.value, r.samples.value)
  }

  function Values(ns: seq<Num>): (r: seq<real>)
    ensures |r| == |ns|
  {
    seq(|ns|, i requires 0 <= i < |ns| => if ns[i].Number? then ns[i].value else 0.0)
  }

  lemma FlatTake<T>(groups: seq<Option<seq<T>>>, b: nat)
    requires b < |groups| && groups[b].Some?
    ensures Flat(groups[..b + 1]) == Flat(groups[..b]) + groups[b].value
  {
    assert groups[..b + 1][..b] == groups[..b];
  }

  lemma FlatNothing<T>()
    ensures Flat<T>([]) == []
  {
  }

  /** What a dictionary holds once these values have been entered under these ids. */
  function Tabled<V>(ids: seq<Id>, values: seq<V>): map<string, V>
    requires |ids| == |values|
  {
    if ids == [] then map[]
    else
      var n := |ids| - 1;
      var before := Tabled(ids[..n], values[..n]);
      if ids[n].Name? then before[ids[n].text := values[n]] else before
  }

  lemma {:induction false} TabledAt<V>(ids: seq<Id>, values: seq<V>)
    requires |ids| == |values| && AllNames(ids) && Distinct(ids)
    ensures Tabled(ids, values).Keys == Names(ids)
    ensures forall i :: 0 <= i < |ids| ==> ids[i].text in Tabled(ids, values) && Tabled(ids, values)[ids[i].text] == values[i]
    decreases |ids|
  {
    if ids != [] {
      var n := |ids| - 1;
      var front, rest := ids[..n], values[..n];
      TabledAt(front, rest);
      NamesNext(ids);
      hide Names;
      assert Tabled(ids, values) == Tabled(front, rest)[ids[n].text := values[n]];
      hide Tabled;
      assert forall i :: 0 <= i < n ==> front[i] == ids[i] && rest[i] == values[i] && front[i] != ids[n];
    }
  }

  lemma NamesNext(ids: seq<Id>)
    requires ids != [] && ids[|ids| - 1].Name?
    ensures Names(ids) == Names(ids[..|ids| - 1]) + {ids[|ids| - 1].text}
  {
    var n := |ids| - 1;
    assert ids == ids[..n] + [ids[n]];
    NamesAppend(ids[..n], [ids[n]]);
    assert Names([ids[n]]) == {ids[n].text} by {
      assert [ids[n]][0] == ids[n];
    }
  }

  lemma TabledNext<V>(ids: seq<Id>, values: seq<V>, b: nat)
    requires b < |ids| == |values| && ids[b].Name?
    ensures Tabled(ids[..b + 1], values[..b + 1]) == Tabled(ids[..b], values[..b])[ids[b].text := values[b]]
  {
    assert ids[..b + 1][..b] == ids[..b] && values[..b + 1][..b] == values[..b];
  }

  lemma NothingTabled<V>()
    ensures Tabled<V>([], []) == map[]
  {
  }

  function LatencyLists(groups: seq<Option<seq<Num>>>): (r: seq<seq<real>>)
    ensures |r| == |groups|
  {
    seq(|groups|, b requires 0 <= b < |groups| => if groups[b].Some? then Values(groups[b].value) else [])
  }

  /** What an accepted record says of each of its batches. */
  function ObservationsOf(r: Record, level: nat, isDecimal: char -> bool): Option<Observations> {
    if !Accepted(r, level, isDecimal) then None
    else Some(Observations(Tabled(r.batchIds.value, LatencyLists(r.latencies.value)),
                           Tabled(r.batchIds.value, Values(r.throughputs.value))))
  }

  /** One entry for every batch, and no other. */
  lemma ObservedAt(r: Record, level: nat, isDecimal: char -> bool)
    requires Accepted(r, level, isDecimal)
    ensures var o := ObservationsOf(r, level, isDecimal).value;
            && o.latencyByBatch.Keys == o.throughputByBatch.Keys == Names(r.batchIds.value)
            && forall b :: 0 <= b < |r.batchIds.value| ==>
                 && r.batchIds.value[b].Name? && r.latencies.value[b].Some? && r.throughputs.value[b].Number?
                 && var id := r.batchIds.value[b].text;
                    && id in o.latencyByBatch && o.latencyByBatch[id] == Values(r.latencies.value[b].value)
                    && id in o.throughputByBatch && o.throughputByBatch[id] == r.throughputs.value[b].value
  {
    hide Names, Balanced, Tabled, Flat, BatchPrefix, ExpectedIds, AllDecimal, RepetitionOf;
    TabledAt(r.batchIds.value, LatencyLists(r.latencies.value));
    TabledAt(r.batchIds.value, Values(r.throughputs.value));
    forall b | 0 <= b < |r.batchIds.value|
      ensures r.batchIds.value[b].Name? && r.latencies.value[b].Some? && r.throughputs.value[b].Number?
    {
      Parts(level, r.batchIds.value[b], r.latencies.value[b], r.idGroups.value[b], r.throughputs.value[b], isDecimal);
    }
  }

  method ServiceBatchObservations(r: Record, level: nat, isDecimal: char -> bool) returns (o: Option<Observations>)
    ensures o.Some? <==> Accepted(r, level, isDecimal)
    ensures o == ObservationsOf(r, level, isDecimal)
    ensures o.Some? ==>
      && o.value.latencyByBatch.Keys == o.value.throughputByBatch.Keys == Names(r.batchIds.value)
      && forall b :: 0 <= b < |r.batchIds.value| ==>
        var id := r.batchIds.value[b].text;
        && id in o.value.latencyByBatch && o.value.latencyByBatch[id] == Values(r.latencies.value[b].value)
        && id in o.value.throughputByBatch && o.value.throughputByBatch[id] == r.throughputs.value[b].value
  {
    hide GroupAccepted, Usable, Names, Flat, Balanced, BatchPrefix, AllDecimal, RepetitionOf, ExpectedIds, Tabled;
    if !WellShaped(r) { return None; }
    var batchIds, latencies, groups, throughputs := r.batchIds.value, r.latencies.value, r.idGroups.value, r.throughputs.value;
    var flatLatencies: seq<Num>, flatIds: seq<Id> := [], [];
    var latencyByBatch: map<string, seq<real>>, throughputByBatch: map<string, real> := map[], map[];
    FlatNothing<Num>();
    FlatNothing<Id>();
    NothingTabled<seq<real>>();
    NothingTabled<real>();
    assert latencies[..0] == [] && groups[..0] == [];
    for b := 0 to |batchIds|
      invariant flatLatencies == Flat(latencies[..b]) && flatIds == Flat(groups[..b])
      invariant forall k :: 0 <= k < b ==>
                  GroupAccepted(level, batchIds[k], latencies[k], groups[k], throughputs[k], isDecimal)
      invariant latencyByBatch == Tabled(batchIds[..b], LatencyLists(latencies)[..b])
      invariant throughputByBatch == Tabled(batchIds[..b], Values(throughputs)[..b])
    {
      if !GroupAccepted(level, batchIds[b], latencies[b], groups[b], throughputs[b], isDecimal) { return None; }
      Parts(level, batchIds[b], latencies[b], groups[b], throughputs[b], isDecimal);
      var id := batchIds[b].text;
      TabledNext(batchIds, LatencyLists(latencies), b);
      TabledNext(batchIds, Values(throughputs), b);
      latencyByBatch := latencyByBatch[id := Values(latencies[b].value)];
      throughputByBatch := throughputByBatch[id := throughputs[b].value];
      FlatTake(latencies, b);
      FlatTake(groups, b);
      flatLatencies := flatLatencies + latencies[b].value;
      flatIds := flatIds + groups[b].value;
    }
    assert latencies[..|batchIds|] == latencies && groups[..|batchIds|] == groups && batchIds[..|batchIds|] == batchIds;
    assert LatencyLists(latencies)[..|batchIds|] == LatencyLists(latencies);
    assert Values(throughputs)[..|batchIds|] == Values(throughputs);
    if !Balanced(flatIds, flatLatencies, r.sampleIds.value, r.samples.value) { return None; }
    ObservedAt(r, level, isDecimal);
    o := Some(Observations(latencyByBatch, throughputByBatch));
  }

  lemma Parts(
    level: nat, batchId: Id, latencies: Option<seq<Num>>, ids: Option<seq<Id>>, throughput: Num, isDecimal: char -> bool)
    requires GroupAccepted(level, batchId, latencies, ids, throughput, isDecimal)
    ensures level > 0 && batchId.Name? && BatchPrefix(level) <= batchId.text
    ensures AllDecimal(RepetitionOf(level, batchId.text), isDecimal)
    ensures latencies.Some? && |latencies.value| == level && ids.Some? && |ids.value| == level && throughput.Number?
    ensures forall i :: 0 <= i < level ==> ids.value[i].Name?
    ensures Names(ids.value) == ExpectedIds(level, RepetitionOf(level, batchId.text))
  {
  }

  // ---- What an accepted record contains ----------------------------------------------------------------------

  predicate AllNames(ids: seq<Id>) {
    forall i :: 0 <= i < |ids| ==> ids[i].Name?
  }

  lemma {:induction false} NamesCount(ids: seq<Id>)
    requires AllNames(ids) && Distinct(ids)
    ensures |Names(ids)| == |ids|
    decreases |ids|
  {
    if ids == [] {
      assert Names(ids) == {};
    } else {
      var n := |ids| - 1;
      var front := ids[..n];
      NamesCount(front);
      assert Names(ids) == Names(front) + {ids[n].text} by {
        assert forall i :: 0 <= i < n ==> front[i] == ids[i];
      }
      assert ids[n].text !in Names(front);
    }
  }

  predicate GroupsOf(groups: seq<Option<seq<Id>>>, level: nat) {
    forall b :: 0 <= b < |groups| ==> groups[b].Some? && |groups[b].value| == level && AllNames(groups[b].value)
  }

  lemma Multiply(n: nat, k: nat)
    ensures (n + 1) * k == n * k + k
  {
  }

  lemma NamesAppend(a: seq<Id>, b: seq<Id>)
    ensures Names(a + b) == Names(a) + Names(b)
  {
    forall t | t in Names(b) ensures t in Names(a + b) {
      var i :| 0 <= i < |b| && b[i].Name? && b[i].text == t;
      assert (a + b)[|a| + i] == b[i];
    }
    forall t | t in Names(a) ensures t in Names(a + b) {
      var i :| 0 <= i < |a| && a[i].Name? && a[i].text == t;
      assert (a + b)[i] == a[i];
    }
  }

  ghost predicate InGroup(groups: seq<Option<seq<Id>>>, t: string) {
    exists b :: 0 <= b < |groups| && groups[b].Some? && t in Names(groups[b].value)
  }

  lemma {:induction false} FlatNames(groups: seq<Option<seq<Id>>>, level: nat, t: string)
    requires GroupsOf(groups, level)
    ensures |Flat(groups)| == |groups| * level && AllNames(Flat(groups))
    ensures t in Names(Flat(groups)) <==> InGroup(groups, t)
    decreases |groups|
  {
    hide Names;
    if groups == [] {
      NoNames(t);
    } else {
      var n := |groups| - 1;
      var front := groups[..n];
      FlatNames(front, level, t);
      NamesAppend(Flat(front), groups[n].value);
      Multiply(n, level);
      assert forall b :: 0 <= b < n ==> front[b] == groups[b];
      if InGroup(groups, t) && t !in Names(groups[n].value) {
        var b :| 0 <= b < |groups| && groups[b].Some? && t in Names(groups[b].value);
        assert front[b] == groups[b];
      }
    }
  }

  lemma NoNames(t: string)
    ensures t !in Names([])
  {
  }

  lemma DifferentRepetitions(level: nat, a: string, b: string)
    requires BatchPrefix(level) <= a && BatchPrefix(level) <= b && a != b
    ensures RepetitionOf(level, a) != RepetitionOf(level, b)
  {
    assert a == BatchPrefix(level) + RepetitionOf(level, a);
    assert b == BatchPrefix(level) + RepetitionOf(level, b);
  }

  lemma ExpectedDisjoint(level: nat, r: string, q: string)
    requires ':' !in r && ':' !in q && r != q
    ensures ExpectedIds(level, r) !! ExpectedIds(level, q)
  {
    hide RequestId;
    forall t | t in ExpectedIds(level, r) ensures t !in ExpectedIds(level, q) {
      var i: nat :| i < level && RequestId(level, r, i) == t;
      forall j: nat | j < level ensures RequestId(level, q, j) != t {
        RequestIdInjective(level, r, i, q, j);
      }
    }
  }

  function IdsOfBatch(r: Record, level: nat, b: nat): set<string>
    requires r.batchIds.Some? && b < |r.batchIds.value|
    requires r.batchIds.value[b].Name? && BatchPrefix(level) <= r.batchIds.value[b].text
  {
    ExpectedIds(level, RepetitionOf(level, r.batchIds.value[b].text))
  }

  /**
   * The request ids of an accepted record are cut by its batches into disjoint parts of exactly
   * `level` slots each, and its samples are the latencies of its batches, reordered.
   */
  lemma AcceptedIsPartitioned(r: Record, level: nat, isDecimal: char -> bool)
    requires Decimals(isDecimal) && Accepted(r, level, isDecimal)
    ensures var n := |r.batchIds.value|;
            && |r.sampleIds.value| == n * level
            && (forall b :: 0 <= b < n ==> r.batchIds.value[b].Name? && BatchPrefix(level) <= r.batchIds.value[b].text)
            && (forall b: nat :: b < n ==>
                  |IdsOfBatch(r, level, b)| == level && IdsOfBatch(r, level, b) <= Names(r.sampleIds.value))
            && (forall b: nat, c: nat :: b < c < n ==> IdsOfBatch(r, level, b) !! IdsOfBatch(r, level, c))
            && (forall t :: t in Names(r.sampleIds.value) ==> exists b: nat :: b < n && t in IdsOfBatch(r, level, b))
            && multiset(Flat(r.latencies.value)) == multiset(r.samples.value)
  {
    hide Usable, ExpectedIds, AllDecimal, GroupAccepted, Names, Distinct;
    var batchIds, groups := r.batchIds.value, r.idGroups.value;
    var n := |batchIds|;
    forall b | 0 <= b < n
      ensures batchIds[b].Name? && BatchPrefix(level) <= batchIds[b].text
      ensures groups[b].Some? && |groups[b].value| == level && AllNames(groups[b].value)
      ensures Names(groups[b].value) == IdsOfBatch(r, level, b) && ':' !in RepetitionOf(level, batchIds[b].text)
      ensures |IdsOfBatch(r, level, b)| == level
    {
      Parts(level, batchIds[b], r.latencies.value[b], groups[b], r.throughputs.value[b], isDecimal);
      DecimalHasNoColon(RepetitionOf(level, batchIds[b].text), isDecimal);
      ExpectedSize(level, RepetitionOf(level, batchIds[b].text));
    }
    forall b: nat, c: nat | b < c < n ensures IdsOfBatch(r, level, b) !! IdsOfBatch(r, level, c) {
      DistinctAt(batchIds, b, c);
      DifferentRepetitions(level, batchIds[b].text, batchIds[c].text);
      ExpectedDisjoint(level, RepetitionOf(level, batchIds[b].text), RepetitionOf(level, batchIds[c].text));
    }
    forall t ensures t in Names(r.sampleIds.value) <==> exists b: nat :: b < n && t in IdsOfBatch(r, level, b) {
      FlatNames(groups, level, t);
    }
    FlatNames(groups, level, "");
    NamesCount(Flat(groups));
    SampleIdsAreNames(r);
    NamesCount(r.sampleIds.value);
  }

  lemma ExpectedSize(level: nat, repetition: string)
    requires ':' !in repetition
    ensures |ExpectedIds(level, repetition)| == level
  {
    ExpectedCount(level, level, repetition);
  }

  lemma DistinctAt<T>(s: seq<T>, i: nat, j: nat)
    requires Distinct(s) && i < j < |s|
    ensures s[i] != s[j]
  {
  }

  lemma SampleIdsAreNames(r: Record)
    requires WellShaped(r)
    ensures AllNames(r.sampleIds.value) && Distinct(r.sampleIds.value)
  {
  }

  // ---- The runner ---------------------------------------------------------------------------------------------

  /** A repetition breaks at the barrier, or yields one latency for every slot. */
  datatype Batch = Broken | Finished(elapsed: seq<real>, seconds: real)

  predicate Timed(level: nat, batch: Batch) {
    batch.Finished? ==> |batch.elapsed| == level && forall i :: 0 <= i < level ==> batch.elapsed[i] >= 0.0
  }

  function Numbers(xs: seq<real>): (ns: seq<Num>)
    ensures |ns| == |xs|
  {
    seq(|xs|, i requires 0 <= i < |xs| => Number(xs[i]))
  }

  function SlotIds(level: nat, repetition: nat, slots: nat): (ids: seq<Id>)
    ensures |ids| == slots
  {
    seq(slots, i requires 0 <= i < slots => Name(RequestId(level, Text(repetition), i)))
  }

  function BatchId(level: nat, repetition: nat): Id {
    Name(BatchPrefix(level) + Text(repetition))
  }

  datatype Lists = Lists(
    samples: seq<Num>, sampleIds: seq<Id>, batchIds: seq<Id>,
    latencies: seq<Option<seq<Num>>>, idGroups: seq<Option<seq<Id>>>, throughputs: seq<Num>)

  /** What one more repetition adds to the runner's lists. */
  function Extended(before: Lists, level: nat, n: nat, batch: Batch): Lists {
    match batch
    case Broken => before
    case Finished(elapsed, seconds) =>
      Lists(
        before.samples + Numbers(elapsed), before.sampleIds + SlotIds(level, n, |elapsed|),
        before.batchIds + [BatchId(level, n)], before.latencies + [Some(Numbers(elapsed))],
        before.idGroups + [Some(SlotIds(level, n, |elapsed|))],
        before.throughputs + if seconds > 0.0 then [Number(level as real / seconds)] else [])
  }

  function ListsOf(level: nat, batches: seq<Batch>): Lists {
    if batches == [] then Lists([], [], [], [], [], [])
    else Extended(ListsOf(level, batches[..|batches| - 1]), level, |batches| - 1, batches[|batches| - 1])
  }

  function RecordOf(lists: Lists): Record {
    Record(Some(lists.samples), Some(lists.sampleIds), Some(lists.batchIds),
           Some(lists.latencies), Some(lists.idGroups), Some(lists.throughputs))
  }

  method Ask<T(0)>() returns (answer: T) {
    answer := *;
  }

  /** The milliseconds between two readings of a clock in seconds; none if it was set back. */
  predicate IsMilliseconds(started: real, ended: real, elapsed: real) {
    if ended <= started then elapsed == 0.0 else started + elapsed / 1000.0 == ended
  }

  /** The slots run concurrently; their latencies are collected in slot order. */
  method RunBatch(level: nat) returns (batch: Batch, ghost clock: seq<(real, real)>)
    ensures Timed(level, batch)
    ensures batch.Finished? ==>
              |clock| == level
              && forall i :: 0 <= i < level ==> IsMilliseconds(clock[i].0, clock[i].1, batch.elapsed[i])
  {
    clock := [];
    var broken := Ask<bool>();
    if broken { return Broken, []; }
    var elapsed: seq<real> := [];
    while |elapsed| < level
      invariant |elapsed| == |clock| <= level && forall i :: 0 <= i < |elapsed| ==> elapsed[i] >= 0.0
      invariant forall i :: 0 <= i < |elapsed| ==> IsMilliseconds(clock[i].0, clock[i].1, elapsed[i])
    {
      var started := Ask<real>();
      var ended := Ask<real>();
      clock := clock + [(started, ended)];
      elapsed := elapsed + [if ended >= started then 1000.0 * (ended - started) else 0.0];
    }
    var seconds := Ask<real>();
    batch := Finished(elapsed, seconds);
  }

  lemma NoLists(level: nat)
    ensures ListsOf(level, []) == Lists([], [], [], [], [], [])
  {
  }

  lemma ListsNext(level: nat, batches: seq<Batch>, batch: Batch)
    ensures ListsOf(level, batches + [batch]) == Extended(ListsOf(level, batches), level, |batches|, batch)
  {
    assert (batches + [batch])[..|batches|] == batches;
  }

  /** The results of a batch are appended slot by slot. */
  method AppendResults(level: nat, repetition: nat, elapsed: seq<real>) returns (samples: seq<Num>, ids: seq<Id>)
    ensures samples == Numbers(elapsed) && ids == SlotIds(level, repetition, |elapsed|)
  {
    samples, ids := [], [];
    for slot := 0 to |elapsed|
      invariant ids == SlotIds(level, repetition, slot) && samples == Numbers(elapsed)[..slot]
    {
      samples := samples + [Number(elapsed[slot])];
      ids := ids + [Name(RequestId(level, Text(repetition), slot))];
    }
  }

  method MeasureLevel(level: nat, repetitions: nat) returns (record: Record)
    ensures exists batches: seq<Batch> ::
      && |batches| == repetitions && (forall b :: b in batches ==> Timed(level, b))
      && record == RecordOf(ListsOf(level, batches))
  {
    var samples: seq<Num>, sampleIds: seq<Id>, batchIds: seq<Id> := [], [], [];
    var latencies: seq<Option<seq<Num>>>, idGroups: seq<Option<seq<Id>>>, throughputs: seq<Num> := [], [], [];
    ghost var batches: seq<Batch> := [];
    NoLists(level);
    hide ListsOf, Numbers, SlotIds, BatchId;
    for repetition := 0 to repetitions
      invariant |batches| == repetition && forall b :: b in batches ==> Timed(level, b)
      invariant ListsOf(level, batches) == Lists(samples, sampleIds, batchIds, latencies, idGroups, throughputs)
    {
      var batch, _ := RunBatch(level);
      ListsNext(level, batches, batch);
      batches := batches + [batch];
      if batch.Broken? { continue; }
      batchIds := batchIds + [BatchId(level, repetition)];
      if batch.seconds > 0.0 { throughputs := throughputs + [Number(level as real / batch.seconds)]; }
      latencies := latencies + [Some(Numbers(batch.elapsed))];
      var batchSamples, batchRequestIds := AppendResults(level, repetition, batch.elapsed);
      samples := samples + batchSamples;
      sampleIds := sampleIds + batchRequestIds;
      idGroups := idGroups + [Some(batchRequestIds)];
    }
    record := RecordOf(Lists(samples, sampleIds, batchIds, latencies, idGroups, throughputs));
  }

  // ---- The check accepts what the runner writes ------------------------------------------------------------------

  predicate IsFinished(batches: seq<Batch>, k: nat) {
    k < |batches| && batches[k].Finished?
  }

  /** The repetitions that finished, in order. */
  function FinishedOnes(batches: seq<Batch>): (ks: seq<nat>)
    ensures forall i :: 0 <= i < |ks| ==> IsFinished(batches, ks[i])
    ensures forall i, j :: 0 <= i < j < |ks| ==> ks[i] < ks[j]
    ensures forall k: nat :: IsFinished(batches, k) ==> k in ks
  {
    if batches == [] then []
    else
      var n := |batches| - 1;
      var ks := FinishedOnes(batches[..n]);
      assert forall k: nat :: k < n ==> IsFinished(batches[..n], k) == IsFinished(batches, k);
      if batches[n].Finished? then ks + [n] else ks
  }

  /** The lists, read through the finished repetitions. */
  ghost predicate Laid(level: nat, batches: seq<Batch>, ks: seq<nat>, lists: Lists)
    requires forall i :: 0 <= i < |ks| ==> IsFinished(batches, ks[i])
  {
    && |lists.batchIds| == |lists.latencies| == |lists.idGroups| == |ks|
    && (forall i :: 0 <= i < |ks| ==>
          && IsFinished(batches, ks[i])
          && lists.batchIds[i] == BatchId(level, ks[i])
          && lists.latencies[i] == Some(Numbers(batches[ks[i]].elapsed))
          && lists.idGroups[i] == Some(SlotIds(level, ks[i], level)))
    && lists.samples == Flat(lists.latencies) && lists.sampleIds == Flat(lists.idGroups)
  }

  lemma FlatAppend<T>(groups: seq<Option<seq<T>>>, last: seq<T>)
    ensures Flat(groups + [Some(last)]) == Flat(groups) + last
  {
    assert (groups + [Some(last)])[..|groups|] == groups;
  }

  lemma LaidNext(level: nat, batches: seq<Batch>, ks: seq<nat>, more: seq<nat>, before: Lists, after: Lists)
    requires batches != [] && more == ks + [|batches| - 1]
    requires forall i :: 0 <= i < |ks| ==> IsFinished(batches[..|batches| - 1], ks[i])
    requires Laid(level, batches[..|batches| - 1], ks, before)
    requires batches[|batches| - 1].Finished? && |batches[|batches| - 1].elapsed| == level
    requires var n := |batches| - 1; var elapsed := batches[n].elapsed;
      && after.samples == before.samples + Numbers(elapsed) && after.sampleIds == before.sampleIds + SlotIds(level, n, level)
      && after.batchIds == before.batchIds + [BatchId(level, n)]
      && after.latencies == before.latencies + [Some(Numbers(elapsed))]
      && after.idGroups == before.idGroups + [Some(SlotIds(level, n, level))]
    ensures forall i :: 0 <= i < |more| ==> IsFinished(batches, more[i])
    ensures Laid(level, batches, more, after)
  {
    hide Numbers, SlotIds, BatchId, Flat;
    var n := |batches| - 1;
    FlatAppend(before.latencies, Numbers(batches[n].elapsed));
    FlatAppend(before.idGroups, SlotIds(level, n, level));
    forall i | 0 <= i < |ks| ensures IsFinished(batches, ks[i]) && batches[..n][ks[i]] == batches[ks[i]] {
      assert IsFinished(batches[..n], ks[i]);
    }
  }

  lemma LaidStays(level: nat, batches: seq<Batch>, ks: seq<nat>, lists: Lists)
    requires batches != [] && forall i :: 0 <= i < |ks| ==> IsFinished(batches[..|batches| - 1], ks[i])
    requires Laid(level, batches[..|batches| - 1], ks, lists)
    ensures forall i :: 0 <= i < |ks| ==> IsFinished(batches, ks[i])
    ensures Laid(level, batches, ks, lists)
  {
    hide Numbers, SlotIds, BatchId, Flat;
    var n := |batches| - 1;
    forall i | 0 <= i < |ks| ensures IsFinished(batches, ks[i]) && batches[..n][ks[i]] == batches[ks[i]] {
      assert IsFinished(batches[..n], ks[i]);
    }
  }

  lemma {:induction false} RunnerLays(level: nat, batches: seq<Batch>)
    requires forall b :: b in batches ==> Timed(level, b)
    ensures Laid(level, batches, FinishedOnes(batches), ListsOf(level, batches))
    decreases |batches|
  {
    if batches != [] {
      var n := |batches| - 1;
      RunnerLays(level, batches[..n]);
      assert Timed(level, batches[n]);
      hide Laid;
      if batches[n].Finished? {
        LaidNext(level, batches, FinishedOnes(batches[..n]), FinishedOnes(batches),
                 ListsOf(level, batches[..n]), ListsOf(level, batches));
      } else {
        LaidStays(level, batches, FinishedOnes(batches[..n]), ListsOf(level, batches[..n]));
      }
    }
  }

  predicate Positive(batches: seq<Batch>) {
    forall k :: 0 <= k < |batches| && batches[k].Finished? ==> batches[k].seconds > 0.0
  }

  /** Every finished repetition has a throughput exactly when all took measurable time. */
  lemma {:induction false} ThroughputsMatchIff(level: nat, batches: seq<Batch>)
    requires level > 0
    ensures var lists := ListsOf(level, batches);
            && |lists.throughputs| <= |lists.batchIds|
            && (|lists.throughputs| == |lists.batchIds| <==> Positive(batches))
            && forall i :: 0 <= i < |lists.throughputs| ==> lists.throughputs[i].Number? && lists.throughputs[i].value > 0.0
    decreases |batches|
  {
    if batches != [] {
      var n := |batches| - 1;
      ThroughputsMatchIff(level, batches[..n]);
      assert forall k :: 0 <= k < n ==> batches[..n][k] == batches[k];
      if batches[n].Finished? && batches[n].seconds > 0.0 { PositiveRate(level as real, batches[n].seconds); }
    }
  }

  lemma PositiveRate(x: real, y: real)
    requires x > 0.0 && y > 0.0
    ensures x / y > 0.0
  {
  }

  lemma TextHasNoColon(n: nat)
    ensures ':' !in Text(n)
  {
  }

  predicate IsSlotId(level: nat, ks: seq<nat>, id: Id) {
    exists i, slot :: 0 <= i < |ks| && 0 <= slot < level && SlotId(level, ks[i], slot) == id
  }

  function SlotId(level: nat, repetition: nat, slot: nat): Id {
    Name(RequestId(level, Text(repetition), slot))
  }

  ghost predicate SlotGroups(level: nat, ks: seq<nat>, groups: seq<Option<seq<Id>>>) {
    && |groups| == |ks|
    && (forall i :: 0 <= i < |ks| ==> groups[i] == Some(SlotIds(level, ks[i], level)))
    && forall i, j :: 0 <= i < j < |ks| ==> ks[i] < ks[j]
  }

  lemma SlotIdInjective(level: nat, k: nat, i: nat, l: nat, j: nat)
    ensures SlotId(level, k, i) == SlotId(level, l, j) <==> k == l && i == j
  {
    TextHasNoColon(k);
    TextHasNoColon(l);
    RequestIdInjective(level, Text(k), i, Text(l), j);
    if Text(k) == Text(l) { TextInjective(k, l); }
  }

  lemma SlotIdsAre(level: nat, k: nat)
    ensures forall i :: 0 <= i < level ==> SlotIds(level, k, level)[i] == SlotId(level, k, i)
    ensures Distinct(SlotIds(level, k, level))
  {
    forall i: nat, j: nat | i < j < level ensures SlotIds(level, k, level)[i] != SlotIds(level, k, level)[j] {
      SlotIdInjective(level, k, i, k, j);
    }
  }

  lemma DistinctAppend<T>(a: seq<T>, b: seq<T>)
    requires Distinct(a) && Distinct(b) && forall x :: x in b ==> x !in a
    ensures Distinct(a + b)
  {
    forall i, j | 0 <= i < j < |a + b| ensures (a + b)[i] != (a + b)[j] {
      if i < |a| && j >= |a| { assert (a + b)[j] == b[j - |a|] && b[j - |a|] in b && a[i] in a; }
    }
  }

  /** No request id is written twice. */
  lemma {:induction false} FlatSlotIds(level: nat, ks: seq<nat>, groups: seq<Option<seq<Id>>>)
    requires SlotGroups(level, ks, groups)
    ensures Distinct(Flat(groups)) && |Flat(groups)| == |ks| * level
    ensures forall id :: id in Flat(groups) ==> IsSlotId(level, ks, id)
    decreases |ks|
  {
    hide SlotIds, SlotId, Distinct;
    if ks == [] {
      NothingRepeats<Id>();
    } else {
      var n := |ks| - 1;
      var front, last := groups[..n], SlotIds(level, ks[n], level);
      FlatSlotIds(level, ks[..n], front);
      SlotIdsAre(level, ks[n]);
      Multiply(n, level);
      forall id | id in last ensures id !in Flat(front) && IsSlotId(level, ks, id) {
        var slot: nat :| slot < |last| && last[slot] == id;
        assert SlotId(level, ks[n], slot) == id;
        NotAmongEarlier(level, ks, slot);
      }
      forall id | id in Flat(front) ensures IsSlotId(level, ks, id) {
        var i, slot :| 0 <= i < n && 0 <= slot < level && SlotId(level, ks[..n][i], slot) == id;
        assert SlotId(level, ks[i], slot) == id;
      }
      DistinctAppend(Flat(front), last);
    }
  }

  lemma NothingRepeats<T>()
    ensures Distinct<T>([])
  {
  }

  lemma NotAmongEarlier(level: nat, ks: seq<nat>, slot: nat)
    requires ks != [] && slot < level && forall i, j :: 0 <= i < j < |ks| ==> ks[i] < ks[j]
    ensures !IsSlotId(level, ks[..|ks| - 1], SlotId(level, ks[|ks| - 1], slot))
  {
    hide SlotId;
    var n := |ks| - 1;
    forall i: nat, j: nat | i < n && j < level ensures SlotId(level, ks[..n][i], j) != SlotId(level, ks[n], slot) {
      SlotIdInjective(level, ks[i], j, ks[n], slot);
    }
  }

  lemma NamesOfSlots(level: nat, k: nat)
    ensures Names(SlotIds(level, k, level)) == ExpectedIds(level, Text(k))
  {
    hide RequestId;
    var ids := SlotIds(level, k, level);
    forall t ensures t in Names(ids) <==> t in ExpectedIds(level, Text(k)) {
      if t in ExpectedIds(level, Text(k)) {
        var slot :| 0 <= slot < level && RequestId(level, Text(k), slot) == t;
        assert ids[slot] == Name(t);
      }
    }
  }

  /** Identifiers start with a letter, so they are never blank. */
  lemma PrefixIsUsable(level: nat, rest: string)
    ensures Usable(Name(Prefix(level) + rest))
  {
    assert (Prefix(level) + rest)[0] == 'c';
  }

  lemma BatchIdSplits(level: nat, k: nat)
    ensures BatchPrefix(level) <= BatchPrefix(level) + Text(k)
    ensures RepetitionOf(level, BatchPrefix(level) + Text(k)) == Text(k)
    ensures BatchPrefix(level) + Text(k) == Prefix(level) + ("batch:" + Text(k))
  {
    hide Text, Prefix;
  }

  lemma BatchIdUsable(level: nat, k: nat, isDecimal: char -> bool)
    requires Decimals(isDecimal)
    ensures BatchId(level, k).Name? && Usable(BatchId(level, k)) && BatchPrefix(level) <= BatchId(level, k).text
    ensures RepetitionOf(level, BatchId(level, k).text) == Text(k) && AllDecimal(Text(k), isDecimal)
  {
    hide Text, Prefix, Usable, BatchPrefix, RepetitionOf;
    BatchIdSplits(level, k);
    PrefixIsUsable(level, "batch:" + Text(k));
  }

  lemma BatchIdInjective(level: nat, k: nat, l: nat)
    ensures BatchId(level, k) == BatchId(level, l) <==> k == l
  {
    if BatchId(level, k) == BatchId(level, l) {
      SameTail(BatchPrefix(level), Text(k), Text(l));
      TextInjective(k, l);
    }
  }

  lemma SlotIdUsable(level: nat, k: nat, slot: nat)
    ensures Usable(SlotId(level, k, slot))
  {
    PrefixIsUsable(level, Text(k) + ([':'] + Text(slot)));
  }

  lemma {:induction false} LatenciesMeasured(level: nat, batches: seq<Batch>, ks: seq<nat>, groups: seq<Option<seq<Num>>>)
    requires |groups| == |ks| && forall i :: 0 <= i < |ks| ==>
      IsFinished(batches, ks[i]) && Timed(level, batches[ks[i]]) && groups[i] == Some(Numbers(batches[ks[i]].elapsed))
    ensures |Flat(groups)| == |ks| * level && forall x :: x in Flat(groups) ==> Measured(x)
    decreases |ks|
  {
    if ks != [] {
      var n := |ks| - 1;
      LatenciesMeasured(level, batches, ks[..n], groups[..n]);
      Multiply(n, level);
      assert IsFinished(batches, ks[n]) && Timed(level, batches[ks[n]]);
    }
  }

  lemma GroupIsAccepted(level: nat, k: nat, batch: Batch, throughput: Num, isDecimal: char -> bool)
    requires level > 0 && Decimals(isDecimal) && batch.Finished? && Timed(level, batch)
    requires throughput.Number? && throughput.value > 0.0
    ensures GroupAccepted(
              level, BatchId(level, k), Some(Numbers(batch.elapsed)), Some(SlotIds(level, k, level)), throughput, isDecimal)
  {
    hide Usable, AllDecimal, RepetitionOf, ExpectedIds, Names, BatchPrefix, BatchId;
    BatchIdUsable(level, k, isDecimal);
    NamesOfSlots(level, k);
    forall i | 0 <= i < level ensures Usable(SlotIds(level, k, level)[i]) { SlotIdUsable(level, k, i); }
  }

  /** The lists have the shape that is asked for when every finished repetition has its throughput. */
  lemma RunnerIsWellShaped(level: nat, batches: seq<Batch>, ks: seq<nat>, lists: Lists)
    requires level > 0 && ks != [] && forall i, j :: 0 <= i < j < |ks| ==> ks[i] < ks[j]
    requires forall i :: 0 <= i < |ks| ==> IsFinished(batches, ks[i]) && Timed(level, batches[ks[i]])
    requires Laid(level, batches, ks, lists) && |lists.throughputs| == |ks|
    ensures WellShaped(RecordOf(lists))
    ensures Balanced(Flat(lists.idGroups), Flat(lists.latencies), lists.sampleIds, lists.samples)
  {
    hide Usable, Flat, Names, SlotIds, BatchId;
    FlatSlotIds(level, ks, lists.idGroups);
    LatenciesMeasured(level, batches, ks, lists.latencies);
    forall i | 0 <= i < |ks| ensures Usable(lists.batchIds[i]) { BatchIdUsable(level, ks[i], c => IsDigit(c)); }
    forall i, j | 0 <= i < j < |ks| ensures lists.batchIds[i] != lists.batchIds[j] { BatchIdInjective(level, ks[i], ks[j]); }
    forall i | 0 <= i < |lists.sampleIds| ensures Usable(lists.sampleIds[i]) {
      assert lists.sampleIds[i] in Flat(lists.idGroups);
      var k, slot :| 0 <= k < |ks| && 0 <= slot < level && SlotId(level, ks[k], slot) == lists.sampleIds[i];
      SlotIdUsable(level, ks[k], slot);
    }
    forall i | 0 <= i < |lists.samples| ensures Measured(lists.samples[i]) {
      assert lists.samples[i] in Flat(lists.latencies);
    }
  }

  lemma SomeFinishedIff(batches: seq<Batch>)
    ensures FinishedOnes(batches) != [] <==> exists k: nat :: IsFinished(batches, k)
  {
    var ks := FinishedOnes(batches);
    if ks != [] { assert IsFinished(batches, ks[0]); }
  }

  lemma FinishedAreTimed(level: nat, batches: seq<Batch>)
    requires forall b :: b in batches ==> Timed(level, b)
    ensures var ks := FinishedOnes(batches);
            forall i :: 0 <= i < |ks| ==> IsFinished(batches, ks[i]) && Timed(level, batches[ks[i]])
  {
    hide Timed;
    var ks := FinishedOnes(batches);
    forall i | 0 <= i < |ks| ensures IsFinished(batches, ks[i]) && Timed(level, batches[ks[i]]) {
      assert IsFinished(batches, ks[i]);
      assert batches[ks[i]] in batches;
    }
  }

  /**
   * Runner and check agree: what the runner writes is accepted exactly when some repetition finished
   * and every finished one took measurable time.
   */
  lemma OwnRecordAcceptedIff(level: nat, batches: seq<Batch>, isDecimal: char -> bool)
    requires level > 0 && Decimals(isDecimal) && forall b :: b in batches ==> Timed(level, b)
    ensures Accepted(RecordOf(ListsOf(level, batches)), level, isDecimal)
            <==> (exists k: nat :: IsFinished(batches, k)) && Positive(batches)
  {
    hide ListsOf, FinishedOnes, GroupAccepted, Balanced, Positive, Numbers, SlotIds, BatchId, Flat, Timed;
    var lists := ListsOf(level, batches);
    var ks := FinishedOnes(batches);
    RunnerLays(level, batches);
    ThroughputsMatchIff(level, batches);
    SomeFinishedIff(batches);
    FinishedAreTimed(level, batches);
    if ks != [] && Positive(batches) {
      RunnerIsWellShaped(level, batches, ks, lists);
      forall i | 0 <= i < |ks|
        ensures GroupAccepted(level, lists.batchIds[i], lists.latencies[i], lists.idGroups[i], lists.throughputs[i], isDecimal)
      {
        GroupIsAccepted(level, ks[i], batches[ks[i]], lists.throughputs[i], isDecimal);
      }
    }
  }
}
