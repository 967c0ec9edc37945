/**
 * The order in which a level's record lists its batches and its samples has no influence: the check
 * and the observations only see what is listed.
 */
module ServiceShuffle {
  import opened Common
  import opened ServiceBatches

  // ---- Sequences with the same elements -------------------------------------------------------------------

  lemma TakeOut<T>(s: seq<T>, x: T) returns (i: nat)
    requires x in multiset(s)
    ensures i < |s| && s[i] == x && s == s[..i] + [x] + s[i + 1..]
    ensures multiset(s) == multiset(s[..i] + s[i + 1..]) + multiset{x}
  {
    i :| 0 <= i < |s| && s[i] == x;
    assert s == s[..i] + [x] + s[i + 1..];
  }

  /** Taking the last element of one sequence out of the other, wherever it stands there. */
  lemma TakeLast<T>(s: seq<T>, s': seq<T>) returns (i: nat)
    requires s != [] && multiset(s) == multiset(s')
    ensures i < |s'| && s'[i] == s[|s| - 1] && s' == s'[..i] + [s'[i]] + s'[i + 1..]
    ensures multiset(s[..|s| - 1]) == multiset(s'[..i] + s'[i + 1..])
  {
    var n := |s| - 1;
    assert s == s[..n] + [s[n]];
    assert s[n] in multiset(s);
    i := TakeOut(s', s[n]);
    Cancel(multiset(s[..n]), multiset(s'[..i] + s'[i + 1..]), s[n]);
  }

  lemma Cancel<T>(a: multiset<T>, b: multiset<T>, x: T)
    requires a + multiset{x} == b + multiset{x}
    ensures a == b
  {
    assert a == (a + multiset{x}) - multiset{x};
    assert b == (b + multiset{x}) - multiset{x};
  }

  lemma {:induction false} DistinctCounts<T>(s: seq<T>)
    ensures Distinct(s) <==> forall x :: multiset(s)[x] <= 1
  {
    if s != [] {
      var n := |s| - 1;
      DistinctCounts(s[..n]);
      assert s == s[..n] + [s[n]];
      assert multiset(s) == multiset(s[..n]) + multiset{s[n]};
      if Distinct(s) {
        assert s[n] !in s[..n];
        assert forall x :: multiset(s)[x] == multiset(s[..n])[x] + (if x == s[n] then 1 else 0);
      } else if Distinct(s[..n]) {
        assert s[n] in multiset(s[..n]);
        assert multiset(s)[s[n]] >= 2;
      } else {
        var x :| multiset(s[..n])[x] > 1;
        assert multiset(s)[x] > 1;
      }
    }
  }

  lemma DistinctShuffled<T>(s: seq<T>, s': seq<T>)
    requires multiset(s) == multiset(s') && Distinct(s)
    ensures Distinct(s')
  {
    DistinctCounts(s);
    DistinctCounts(s');
  }

  lemma SameElements<T>(s: seq<T>, s': seq<T>)
    requires multiset(s) == multiset(s')
    ensures |s| == |s'| && forall x :: x in s <==> x in s'
  {
    assert |multiset(s)| == |s| && |multiset(s')| == |s'|;
    assert forall x :: x in s <==> x in multiset(s);
    assert forall x :: x in s' <==> x in multiset(s');
  }

  function Image<A, B>(s: seq<A>, f: A -> B): (r: seq<B>)
    ensures |r| == |s| && forall i :: 0 <= i < |s| ==> r[i] == f(s[i])
  {
    seq(|s|, i requires 0 <= i < |s| => f(s[i]))
  }

  lemma {:induction false} ImageShuffled<A, B>(s: seq<A>, s': seq<A>, f: A -> B)
    requires multiset(s) == multiset(s')
    ensures multiset(Image(s, f)) == multiset(Image(s', f))
    decreases |s|
  {
    SameElements(s, s');
    if s != [] {
      var n := |s| - 1;
      var i := TakeLast(s, s');
      ImageShuffled(s[..n], s'[..i] + s'[i + 1..], f);
      ImageAround(s[..n], s[n], [], f);
      ImageAround(s'[..i], s[n], s'[i + 1..], f);
      assert s == s[..n] + [s[n]] + [] && s[..n] + [] == s[..n];
    }
  }

  lemma ImageAround<A, B>(a: seq<A>, x: A, b: seq<A>, f: A -> B)
    ensures multiset(Image(a + [x] + b, f)) == multiset(Image(a + b, f)) + multiset{f(x)}
  {
    ImageConcat(a + [x], b, f);
    ImageConcat(a, [x], f);
    ImageConcat(a, b, f);
    assert Image([x], f) == [f(x)];
  }

  lemma ImageConcat<A, B>(a: seq<A>, b: seq<A>, f: A -> B)
    ensures Image(a + b, f) == Image(a, f) + Image(b, f)
  {
  }

  lemma {:induction false} FlatConcat<T>(a: seq<Option<seq<T>>>, b: seq<Option<seq<T>>>)
    ensures Flat(a + b) == Flat(a) + Flat(b)
    decreases |b|
  {
    if b == [] {
      assert a + b == a;
    } else {
      var n := |b| - 1;
      FlatConcat(a, b[..n]);
      assert (a + b)[..|a + b| - 1] == a + b[..n] && (a + b)[|a + b| - 1] == b[n];
    }
  }

  function Group<T>(g: Option<seq<T>>): seq<T> { if g.Some? then g.value else [] }

  lemma {:induction false} FlatShuffled<T>(g: seq<Option<seq<T>>>, g': seq<Option<seq<T>>>)
    requires multiset(g) == multiset(g')
    ensures multiset(Flat(g)) == multiset(Flat(g'))
    decreases |g|
  {
    SameElements(g, g');
    if g != [] {
      var n := |g| - 1;
      var i := TakeLast(g, g');
      var before, after := g'[..i], g'[i + 1..];
      FlatShuffled(g[..n], before + after);
      FlatConcat(before, after);
      FlatConcat(before + [g[n]], after);
      FlatConcat(before, [g[n]]);
      assert Flat([g[n]]) == Group(g[n]) by { assert [g[n]][..0] == []; }
      assert Flat(g) == Flat(g[..n]) + Group(g[n]);
    }
  }

  // ---- Shuffled records -----------------------------------------------------------------------------------

  /** What a record lists under one batch. */
  datatype Row = Row(id: Id, latencies: Option<seq<Num>>, ids: Option<seq<Id>>, throughput: Num)

  predicate HasRows(r: Record) {
    && r.samples.Some? && r.sampleIds.Some? && r.batchIds.Some?
    && r.latencies.Some? && r.idGroups.Some? && r.throughputs.Some?
    && |r.latencies.value| == |r.batchIds.value| == |r.idGroups.value| == |r.throughputs.value|
  }

  function Rows(r: Record): (rows: seq<Row>)
    requires HasRows(r)
    ensures |rows| == |r.batchIds.value|
  {
    seq(|r.batchIds.value|, b requires 0 <= b < |r.batchIds.value| =>
      Row(r.batchIds.value[b], r.latencies.value[b], r.idGroups.value[b], r.throughputs.value[b]))
  }

  /** The same batches, the same samples and the same request ids, each in any order. */
  predicate Shuffled(r: Record, r': Record) {
    || r == r'
    || (&& HasRows(r) && HasRows(r') && multiset(Rows(r)) == multiset(Rows(r'))
        && multiset(r.samples.value) == multiset(r'.samples.value)
        && multiset(r.sampleIds.value) == multiset(r'.sampleIds.value))
  }

  lemma Columns(r: Record, r': Record)
    requires HasRows(r) && HasRows(r') && multiset(Rows(r)) == multiset(Rows(r'))
    ensures multiset(r.batchIds.value) == multiset(r'.batchIds.value)
    ensures multiset(r.latencies.value) == multiset(r'.latencies.value)
    ensures multiset(r.idGroups.value) == multiset(r'.idGroups.value)
  {
    ImageShuffled(Rows(r), Rows(r'), (row: Row) => row.id);
    ImageShuffled(Rows(r), Rows(r'), (row: Row) => row.latencies);
    ImageShuffled(Rows(r), Rows(r'), (row: Row) => row.ids);
    assert Image(Rows(r), (row: Row) => row.id) == r.batchIds.value;
    assert Image(Rows(r'), (row: Row) => row.id) == r'.batchIds.value;
    assert Image(Rows(r), (row: Row) => row.latencies) == r.latencies.value;
    assert Image(Rows(r'), (row: Row) => row.latencies) == r'.latencies.value;
    assert Image(Rows(r), (row: Row) => row.ids) == r.idGroups.value;
    assert Image(Rows(r'), (row: Row) => row.ids) == r'.idGroups.value;
  }

  /** Every batch of one record is a batch of the other. */
  lemma RowIn(r: Record, r': Record, b': nat) returns (b: nat)
    requires HasRows(r) && HasRows(r') && multiset(Rows(r)) == multiset(Rows(r')) && b' < |r'.batchIds.value|
    ensures b < |r.batchIds.value|
    ensures r.batchIds.value[b] == r'.batchIds.value[b'] && r.latencies.value[b] == r'.latencies.value[b']
    ensures r.idGroups.value[b] == r'.idGroups.value[b'] && r.throughputs.value[b] == r'.throughputs.value[b']
  {
    assert Rows(r')[b'] in multiset(Rows(r'));
    b :| 0 <= b < |Rows(r)| && Rows(r)[b] == Rows(r')[b'];
  }

  lemma UsableShuffled(ids: seq<Id>, ids': seq<Id>)
    requires multiset(ids) == multiset(ids') && forall i :: 0 <= i < |ids| ==> Usable(ids[i])
    ensures forall i :: 0 <= i < |ids'| ==> Usable(ids'[i])
  {
    SameElements(ids, ids');
    assert forall i :: 0 <= i < |ids'| ==> ids'[i] in ids';
  }

  lemma NamesShuffled(ids: seq<Id>, ids': seq<Id>)
    requires multiset(ids) == multiset(ids')
    ensures Names(ids) == Names(ids')
  {
    NamesWithin(ids, ids');
    NamesWithin(ids', ids);
  }

  lemma NamesWithin(ids: seq<Id>, ids': seq<Id>)
    requires multiset(ids) == multiset(ids')
    ensures Names(ids) <= Names(ids')
  {
    SameElements(ids, ids');
    forall t | t in Names(ids) ensures t in Names(ids') {
      var i :| 0 <= i < |ids| && ids[i].Name? && ids[i].text == t;
      assert ids[i] in ids';
    }
  }

  lemma MeasuredShuffled(ns: seq<Num>, ns': seq<Num>)
    requires multiset(ns) == multiset(ns') && forall i :: 0 <= i < |ns| ==> Measured(ns[i])
    ensures forall i :: 0 <= i < |ns'| ==> Measured(ns'[i])
  {
    SameElements(ns, ns');
    assert forall i :: 0 <= i < |ns'| ==> ns'[i] in ns';
  }

  lemma ShapeShuffled(r: Record, r': Record)
    requires HasRows(r) && HasRows(r') && Shuffled(r, r') && WellShaped(r)
    ensures WellShaped(r')
  {
    hide Usable, Distinct;
    if r != r' {
      Columns(r, r');
      SameElements(r.batchIds.value, r'.batchIds.value);
      SameElements(r.samples.value, r'.samples.value);
      SameElements(r.sampleIds.value, r'.sampleIds.value);
      UsableShuffled(r.batchIds.value, r'.batchIds.value);
      UsableShuffled(r.sampleIds.value, r'.sampleIds.value);
      DistinctShuffled(r.batchIds.value, r'.batchIds.value);
      DistinctShuffled(r.sampleIds.value, r'.sampleIds.value);
    }
  }

  lemma BalanceShuffled(r: Record, r': Record)
    requires HasRows(r) && HasRows(r') && Shuffled(r, r')
    requires Balanced(Flat(r.idGroups.value), Flat(r.latencies.value), r.sampleIds.value, r.samples.value)
    ensures Balanced(Flat(r'.idGroups.value), Flat(r'.latencies.value), r'.sampleIds.value, r'.samples.value)
  {
    hide Flat, Names, Distinct, Measured;
    if r != r' {
      Columns(r, r');
      FlatShuffled(r.idGroups.value, r'.idGroups.value);
      FlatShuffled(r.latencies.value, r'.latencies.value);
      DistinctShuffled(Flat(r.idGroups.value), Flat(r'.idGroups.value));
      NamesShuffled(Flat(r.idGroups.value), Flat(r'.idGroups.value));
      NamesShuffled(r.sampleIds.value, r'.sampleIds.value);
      MeasuredShuffled(r.samples.value, r'.samples.value);
    }
  }

  lemma ShuffledIsAccepted(r: Record, r': Record, level: nat, isDecimal: char -> bool)
    requires Shuffled(r, r') && Accepted(r, level, isDecimal)
    ensures Accepted(r', level, isDecimal)
  {
    hide GroupAccepted, Balanced;
    if r != r' {
      ShapeShuffled(r, r');
      BalanceShuffled(r, r');
      hide WellShaped;
      forall b' | 0 <= b' < |r'.batchIds.value|
        ensures GroupAccepted(level, r'.batchIds.value[b'], r'.latencies.value[b'], r'.idGroups.value[b'],
                              r'.throughputs.value[b'], isDecimal)
      {
        var b := RowIn(r, r', b');
      }
    }
  }

  /** A shuffled record is accepted exactly when the original is, with the same observations. */
  lemma ShuffleKeepsObservations(r: Record, r': Record, level: nat, isDecimal: char -> bool)
    requires Shuffled(r, r')
    ensures ObservationsOf(r, level, isDecimal) == ObservationsOf(r', level, isDecimal)
  {
    hide Accepted, Tabled, Shuffled;
    ShuffledBack(r, r');
    if Accepted(r, level, isDecimal) { ShuffledIsAccepted(r, r', level, isDecimal); }
    if Accepted(r', level, isDecimal) { ShuffledIsAccepted(r', r, level, isDecimal); }
    if Accepted(r, level, isDecimal) { SameObservations(r, r', level, isDecimal); }
  }

  lemma ShuffledBack(r: Record, r': Record)
    requires Shuffled(r, r')
    ensures Shuffled(r', r)
  {
  }

  /** The batch that an observation comes from. */
  lemma ObservedRow(r: Record, level: nat, isDecimal: char -> bool, t: string) returns (b: nat)
    requires Accepted(r, level, isDecimal) && t in ObservationsOf(r, level, isDecimal).value.latencyByBatch
    ensures HasRows(r) && b < |r.batchIds.value| && r.batchIds.value[b] == Name(t)
  {
    hide GroupAccepted, Balanced, Tabled, Flat;
    ObservedAt(r, level, isDecimal);
    b :| 0 <= b < |r.batchIds.value| && r.batchIds.value[b].Name? && r.batchIds.value[b].text == t;
  }

  lemma ObservedFrom(r: Record, level: nat, isDecimal: char -> bool, b: nat)
    requires Accepted(r, level, isDecimal) && HasRows(r) && b < |r.batchIds.value|
    ensures r.batchIds.value[b].Name? && r.latencies.value[b].Some? && r.throughputs.value[b].Number?
    ensures var o := ObservationsOf(r, level, isDecimal).value;
            var t := r.batchIds.value[b].text;
            && t in o.latencyByBatch && o.latencyByBatch[t] == Values(r.latencies.value[b].value)
            && t in o.throughputByBatch && o.throughputByBatch[t] == r.throughputs.value[b].value
  {
    hide GroupAccepted, Balanced, Tabled, Flat, Names, WellShaped;
    ObservedAt(r, level, isDecimal);
  }

  lemma SameObservation(r: Record, r': Record, level: nat, isDecimal: char -> bool, t: string)
    requires Shuffled(r, r') && Accepted(r, level, isDecimal) && Accepted(r', level, isDecimal)
    requires t in ObservationsOf(r', level, isDecimal).value.latencyByBatch
    ensures var o, o' := ObservationsOf(r, level, isDecimal).value, ObservationsOf(r', level, isDecimal).value;
            && t in o.latencyByBatch && o.latencyByBatch[t] == o'.latencyByBatch[t]
            && t in o.throughputByBatch && t in o'.throughputByBatch && o.throughputByBatch[t] == o'.throughputByBatch[t]
  {
    hide Accepted, Tabled, Values, Rows;
    var b' := ObservedRow(r', level, isDecimal, t);
    var b := b';
    if r != r' { b := RowIn(r, r', b'); }
    ObservedFrom(r, level, isDecimal, b);
    ObservedFrom(r', level, isDecimal, b');
  }

  lemma SameObservations(r: Record, r': Record, level: nat, isDecimal: char -> bool)
    requires Shuffled(r, r') && Accepted(r, level, isDecimal) && Accepted(r', level, isDecimal)
    ensures ObservationsOf(r, level, isDecimal) == ObservationsOf(r', level, isDecimal)
  {
    hide Accepted, Tabled, Shuffled;
    SameKeys(r, level, isDecimal);
    SameKeys(r', level, isDecimal);
    ShuffledBack(r, r');
    var o, o' := ObservationsOf(r, level, isDecimal).value, ObservationsOf(r', level, isDecimal).value;
    forall t | t in o'.latencyByBatch
      ensures t in o.latencyByBatch && o.latencyByBatch[t] == o'.latencyByBatch[t]
      ensures t in o.throughputByBatch && o.throughputByBatch[t] == o'.throughputByBatch[t]
    {
      SameObservation(r, r', level, isDecimal, t);
    }
    forall t | t in o.latencyByBatch ensures t in o'.latencyByBatch {
      SameObservation(r', r, level, isDecimal, t);
    }
    assert o.latencyByBatch == o'.latencyByBatch && o.throughputByBatch == o'.throughputByBatch;
  }

  lemma SameKeys(r: Record, level: nat, isDecimal: char -> bool)
    requires Accepted(r, level, isDecimal)
    ensures var o := ObservationsOf(r, level, isDecimal).value; o.latencyByBatch.Keys == o.throughputByBatch.Keys
  {
    hide Accepted, Tabled;
    ObservedAt(r, level, isDecimal);
  }
}
