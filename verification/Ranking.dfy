/**
 * Ranking metrics over an arbitrary positional discount: any function that is positive and
 * strictly decreasing, as 1 / log2(rank + 1) is.
 */
module Ranking {
  import opened Common

  type Discount = nat -> real

  ghost predicate Discounting(d: Discount) {
    && (forall i: nat :: i >= 1 ==> d(i) > 0.0)
    && (forall i: nat, j: nat :: 1 <= i < j ==> d(i) > d(j))
  }

  // ---- Rankings without repeats ---------------------------------------------------------------------

  predicate Distinct<T(==)>(s: seq<T>) {
    forall i, j :: 0 <= i < j < |s| ==> s[i] != s[j]
  }

  /** Each item once, where it first occurs. */
  function Deduplicated<T(==)>(s: seq<T>): seq<T> {
    if s == [] then []
    else
      var n := |s| - 1;
      Deduplicated(s[..n]) + if s[n] in s[..n] then [] else [s[n]]
  }

  function FirstIndex<T(==)>(s: seq<T>, x: T): (i: nat)
    requires x in s
    ensures i < |s| && s[i] == x && x !in s[..i]
  {
    if s[0] == x then 0 else
      assert s == [s[0]] + s[1..];
      var k := FirstIndex(s[1..], x);
      assert s[..k + 1] == [s[0]] + s[1..][..k];
      1 + k
  }

  /** `kept` has the items of `all`, each once, in the order in which they first occur. */
  ghost predicate FirstOccurrences<T(!new)>(all: seq<T>, kept: seq<T>) {
    && Distinct(kept)
    && (forall x :: x in kept <==> x in all)
    && forall i, j :: 0 <= i < j < |kept| ==> FirstIndex(all, kept[i]) < FirstIndex(all, kept[j])
  }

  lemma FirstIndexIs<T>(s: seq<T>, x: T, i: nat)
    requires i < |s| && s[i] == x && x !in s[..i]
    ensures FirstIndex(s, x) == i
  {
    var k := FirstIndex(s, x);
    assert forall m :: 0 <= m < i ==> s[..i][m] == s[m];
    assert forall m :: 0 <= m < k ==> s[..k][m] == s[m];
  }

  lemma FirstIndexStays<T>(s: seq<T>, last: T, x: T)
    requires x in s
    ensures FirstIndex(s + [last], x) == FirstIndex(s, x)
  {
    var i := FirstIndex(s, x);
    assert (s + [last])[..i] == s[..i];
    FirstIndexIs(s + [last], x, i);
  }

  lemma {:induction false} DeduplicatedKeepsFirst<T(!new)>(s: seq<T>)
    ensures FirstOccurrences(s, Deduplicated(s))
    decreases |s|
  {
    if s != [] {
      var n := |s| - 1;
      var kept := Deduplicated(s[..n]);
      DeduplicatedKeepsFirst(s[..n]);
      assert s == s[..n] + [s[n]];
      forall x | x in kept ensures FirstIndex(s, x) == FirstIndex(s[..n], x) {
        FirstIndexStays(s[..n], s[n], x);
      }
      if s[n] !in s[..n] { FirstIndexIs(s, s[n], n); }
    }
  }

  // ---- Gain of a ranking, position by position --------------------------------------------------------

  function Flags<T(==)>(ranked: seq<T>, relevant: set<T>): (f: seq<bool>)
    ensures |f| == |ranked|
  {
    seq(|ranked|, i requires 0 <= i < |ranked| => ranked[i] in relevant)
  }

  /** The discounted gain of the first `n` positions. */
  function Gain(flags: seq<bool>, d: Discount, n: nat): real
    requires n <= |flags|
  {
    if n == 0 then 0.0 else Gain(flags, d, n - 1) + if flags[n - 1] then d(n) else 0.0
  }

  /** The gain of `n` relevant items in the first `n` positions. */
  function Ideal(d: Discount, n: nat): real {
    if n == 0 then 0.0 else Ideal(d, n - 1) + d(n)
  }

  function Hits(flags: seq<bool>, n: nat): (c: nat)
    requires n <= |flags|
    ensures c <= n
  {
    if n == 0 then 0 else Hits(flags, n - 1) + if flags[n - 1] then 1 else 0
  }

  predicate AllSet(flags: seq<bool>, n: nat)
    requires n <= |flags|
  {
    forall i :: 0 <= i < n ==> flags[i]
  }

  lemma {:induction false} IdealGrows(d: Discount, m: nat, n: nat)
    requires Discounting(d) && m <= n
    ensures Ideal(d, m) <= Ideal(d, n)
    ensures m < n ==> Ideal(d, m) < Ideal(d, n)
    ensures Ideal(d, n) >= 0.0
    decreases n
  {
    if m < n { IdealGrows(d, m, n - 1); }
    else if n > 0 { IdealGrows(d, n - 1, n - 1); }
  }

  /** No arrangement of as many relevant items gains more, and only the one that puts them first gains as much. */
  lemma {:induction false} GainIsBounded(flags: seq<bool>, d: Discount, n: nat)
    requires Discounting(d) && n <= |flags|
    ensures Gain(flags, d, n) <= Ideal(d, Hits(flags, n))
    ensures Gain(flags, d, n) == Ideal(d, Hits(flags, n)) <==> AllSet(flags, Hits(flags, n))
  {
    if n > 0 {
      GainIsBounded(flags, d, n - 1);
      var c := Hits(flags, n - 1);
      if flags[n - 1] {
        assert c + 1 < n ==> d(c + 1) > d(n);
        if c + 1 < n && AllSet(flags, c + 1) { HitsAtLeast(flags, c + 1, n - 1); }
      }
    }
  }

  lemma {:induction false} HitsAreAll(flags: seq<bool>, n: nat)
    requires n <= |flags|
    ensures Hits(flags, n) == n <==> AllSet(flags, n)
  {
    if n > 0 { HitsAreAll(flags, n - 1); }
  }

  /** With everything relevant in front, the rest is irrelevant. */
  lemma {:induction false} HitsAtLeast(flags: seq<bool>, m: nat, n: nat)
    requires m <= n <= |flags| && AllSet(flags, m)
    ensures Hits(flags, n) >= m
  {
    if m < n { HitsAtLeast(flags, m, n - 1); } else { HitsAreAll(flags, m); }
  }

  /**
   * The bound behind nDCG <= 1: with at most `m` relevant items, the gain is at most the ideal gain of
   * `m` of them, and reaches it exactly when the first `m` positions are relevant.
   */
  lemma GainAtMostIdeal(flags: seq<bool>, d: Discount, m: nat)
    requires Discounting(d) && Hits(flags, |flags|) <= m <= |flags|
    ensures Gain(flags, d, |flags|) <= Ideal(d, m)
    ensures Gain(flags, d, |flags|) == Ideal(d, m) <==> AllSet(flags, m)
  {
    var c := Hits(flags, |flags|);
    GainIsBounded(flags, d, |flags|);
    IdealGrows(d, c, m);
    if AllSet(flags, m) { HitsAtLeast(flags, m, |flags|); }
  }

  // ---- The metrics -----------------------------------------------------------------------------------------

  function RelevantIn<T(==)>(ranked: seq<T>, relevant: set<T>): set<T> {
    set x | x in relevant && x in ranked
  }

  lemma FoundNext<T>(front: seq<T>, x: T, relevant: set<T>)
    requires x !in front
    ensures |RelevantIn(front + [x], relevant)| == |RelevantIn(front, relevant)| + if x in relevant then 1 else 0
  {
    var before := RelevantIn(front, relevant);
    assert RelevantIn(front + [x], relevant) == if x in relevant then before + {x} else before;
  }

  lemma NoneFound<T>(relevant: set<T>)
    ensures RelevantIn([], relevant) == {}
  {
  }

  lemma {:induction false} HitsAreFound<T>(ranked: seq<T>, relevant: set<T>, n: nat)
    requires Distinct(ranked) && n <= |ranked|
    ensures Hits(Flags(ranked, relevant), n) == |RelevantIn(ranked[..n], relevant)|
    decreases n
  {
    hide RelevantIn;
    if n == 0 {
      NoneFound(relevant);
      assert ranked[..0] == [];
    } else {
      HitsAreFound(ranked, relevant, n - 1);
      var front, x := ranked[..n - 1], ranked[n - 1];
      assert ranked[..n] == front + [x];
      forall i | 0 <= i < n - 1 ensures front[i] != x {
        assert front[i] == ranked[i];
      }
      FoundNext(front, x, relevant);
      assert Flags(ranked, relevant)[n - 1] <==> x in relevant;
    }
  }

  lemma SubsetSize<T>(a: set<T>, b: set<T>)
    requires a <= b
    ensures |a| <= |b|
  {
    assert b == a + (b - a);
  }

  function Min(a: nat, b: nat): nat { if a <= b then a else b }

  /** nDCG of a ranking without repeats never exceeds one, and is one exactly when it starts with relevant items only. */
  lemma NdcgAtMostOne<T>(ranked: seq<T>, relevant: set<T>, d: Discount)
    requires Discounting(d) && Distinct(ranked) && relevant != {}
    ensures var m := Min(|relevant|, |ranked|); var flags := Flags(ranked, relevant);
            && Gain(flags, d, |ranked|) <= Ideal(d, m)
            && (Gain(flags, d, |ranked|) == Ideal(d, m) <==> forall i :: 0 <= i < m ==> ranked[i] in relevant)
  {
    var flags := Flags(ranked, relevant);
    HitsAreFound(ranked, relevant, |ranked|);
    assert ranked[..|ranked|] == ranked;
    SubsetSize(RelevantIn(ranked, relevant), relevant);
    GainAtMostIdeal(flags, d, Min(|relevant|, |ranked|));
    assert forall i :: 0 <= i < |ranked| ==> flags[i] == (ranked[i] in relevant);
  }

  // ---- Better placement never hurts -------------------------------------------------------------------------

  lemma {:induction false} GainUpdated(flags: seq<bool>, d: Discount, k: nat, b: bool, n: nat)
    requires k < |flags| && n <= |flags|
    ensures Gain(flags[k := b], d, n)
            == Gain(flags, d, n) + (if k < n then (if b then d(k + 1) else 0.0) - (if flags[k] then d(k + 1) else 0.0) else 0.0)
  {
    if n > 0 { GainUpdated(flags, d, k, b, n - 1); }
  }

  function Swapped<T>(s: seq<T>, i: nat, j: nat): seq<T>
    requires i < |s| && j < |s|
  {
    s[i := s[j]][j := s[i]]
  }

  /** The rank of the first relevant item, counted from one. */
  function FirstRank<T(==)>(ranked: seq<T>, relevant: set<T>, from: nat): (r: Option<nat>)
    requires from <= |ranked|
    ensures r.None? <==> forall i :: from <= i < |ranked| ==> ranked[i] !in relevant
    ensures r.Some? ==> from < r.value <= |ranked| && ranked[r.value - 1] in relevant
    ensures r.Some? ==> forall i :: from <= i < r.value - 1 ==> ranked[i] !in relevant
    decreases |ranked| - from
  {
    if from == |ranked| then None
    else if ranked[from] in relevant then Some(from + 1)
    else FirstRank(ranked, relevant, from + 1)
  }

  function Reciprocal(rank: Option<nat>): real {
    if rank.Some? && rank.value > 0 then 1.0 / rank.value as real else 0.0
  }

  lemma ReciprocalAntitone(a: nat, b: nat)
    requires 1 <= a <= b
    ensures 1.0 / a as real >= 1.0 / b as real
  {
    var x, y := a as real, b as real;
    assert 1.0 / x - 1.0 / y == (y - x) / (x * y);
  }

  /**
   * Moving a relevant item up, in exchange for an irrelevant one, raises the gain, never lowers the
   * reciprocal rank, and changes neither the items found nor the length.
   */
  lemma PromotionHelps<T>(ranked: seq<T>, relevant: set<T>, d: Discount, i: nat, j: nat)
    requires Discounting(d) && i < j < |ranked| && ranked[i] !in relevant && ranked[j] in relevant
    ensures var better := Swapped(ranked, i, j);
            && |better| == |ranked|
            && RelevantIn(better, relevant) == RelevantIn(ranked, relevant)
            && Gain(Flags(better, relevant), d, |ranked|) > Gain(Flags(ranked, relevant), d, |ranked|)
            && Reciprocal(FirstRank(better, relevant, 0)) >= Reciprocal(FirstRank(ranked, relevant, 0))
  {
    var better := Swapped(ranked, i, j);
    var flags := Flags(ranked, relevant);
    assert Flags(better, relevant) == flags[i := true][j := false];
    GainUpdated(flags, d, i, true, |ranked|);
    GainUpdated(flags[i := true], d, j, false, |ranked|);
    assert d(i + 1) > d(j + 1);
    SwapKeepsItems(ranked, i, j);
    assert RelevantIn(better, relevant) == RelevantIn(ranked, relevant);
    var first, promoted := FirstRank(ranked, relevant, 0), FirstRank(better, relevant, 0);
    assert ranked[j] in relevant && better[i] in relevant;
    assert promoted.value <= first.value by {
      var k := first.value - 1;
      if k != j { assert better[k] == ranked[k]; }
    }
    ReciprocalAntitone(promoted.value, first.value);
  }

  lemma SwapKeepsItems<T>(s: seq<T>, i: nat, j: nat)
    requires i < |s| && j < |s|
    ensures forall x :: x in Swapped(s, i, j) <==> x in s
  {
    var t := Swapped(s, i, j);
    forall x ensures x in t <==> x in s {
      if x in s {
        var k :| 0 <= k < |s| && s[k] == x;
        assert t[if k == i then j else if k == j then i else k] == x;
      }
      if x in t {
        var k :| 0 <= k < |t| && t[k] == x;
        assert s[if k == i then j else if k == j then i else k] == x;
      }
    }
  }

  // ---- The two evaluations -------------------------------------------------------------------------------------

  /** `None` stands for a metric that is not defined. */
  datatype Metrics = Metrics(
    recall: Option<real>, precision: Option<real>, reciprocalRank: Option<real>, ndcg: Option<real>,
    negativeCorrect: Option<bool>)

  function Ratio(a: real, b: real): real {
    if b == 0.0 then 0.0 else a / b
  }

  function MetricsOf<T(==)>(ranked: seq<T>, relevant: set<T>, d: Discount): Metrics {
    if relevant == {} then Metrics(None, None, None, None, Some(ranked == []))
    else
      Metrics(
        Some(|RelevantIn(ranked, relevant)| as real / |relevant| as real),
        Some(Ratio(|RelevantIn(ranked, relevant)| as real, |ranked| as real)),
        Some(Reciprocal(FirstRank(ranked, relevant, 0))),
        Some(Ratio(Gain(Flags(ranked, relevant), d, |ranked|), Ideal(d, Min(|relevant|, |ranked|)))),
        None)
  }

  /** Every metric of a ranking without repeats lies between zero and one. */
  lemma MetricsAreProportions<T>(ranked: seq<T>, relevant: set<T>, d: Discount)
    requires Discounting(d) && Distinct(ranked) && relevant != {}
    ensures var m := MetricsOf(ranked, relevant, d);
            && 0.0 <= m.recall.value <= 1.0 && 0.0 <= m.precision.value <= 1.0
            && 0.0 <= m.reciprocalRank.value <= 1.0 && 0.0 <= m.ndcg.value <= 1.0
            && (m.recall.value == 1.0 <==> forall x :: x in relevant ==> x in ranked)
            && (m.ndcg.value == 1.0 <==>
                  ranked != [] && forall i :: 0 <= i < Min(|relevant|, |ranked|) ==> ranked[i] in relevant)
  {
    hide RelevantIn, Flags, Gain, Ideal, FirstRank, Reciprocal;
    FoundIsProportion(ranked, relevant);
    ReciprocalIsProportion(ranked, relevant);
    GainIsProportion(ranked, relevant, d);
  }

  lemma FoundIsProportion<T>(ranked: seq<T>, relevant: set<T>)
    requires Distinct(ranked) && relevant != {}
    ensures var found, all := |RelevantIn(ranked, relevant)| as real, |relevant| as real;
            && 0.0 <= found / all <= 1.0 && 0.0 <= Ratio(found, |ranked| as real) <= 1.0
            && (found / all == 1.0 <==> forall x :: x in relevant ==> x in ranked)
  {
    var found := RelevantIn(ranked, relevant);
    SubsetSize(found, relevant);
    HitsAreFound(ranked, relevant, |ranked|);
    assert ranked[..|ranked|] == ranked;
    if |found| == |relevant| { SameSize(found, relevant); }
    assert (forall x :: x in relevant ==> x in ranked) <==> found == relevant;
    hide RelevantIn, Flags;
    Proportion(|found| as real, |relevant| as real);
    if ranked != [] { Proportion(|found| as real, |ranked| as real); }
  }

  lemma ReciprocalIsProportion<T>(ranked: seq<T>, relevant: set<T>)
    ensures 0.0 <= Reciprocal(FirstRank(ranked, relevant, 0)) <= 1.0
  {
    var first := FirstRank(ranked, relevant, 0);
    if first.Some? { ReciprocalAntitone(1, first.value); ReciprocalPositive(first.value); }
  }

  lemma GainIsProportion<T>(ranked: seq<T>, relevant: set<T>, d: Discount)
    requires Discounting(d) && Distinct(ranked) && relevant != {}
    ensures var m := Min(|relevant|, |ranked|);
            var ndcg := Ratio(Gain(Flags(ranked, relevant), d, |ranked|), Ideal(d, m));
            && 0.0 <= ndcg <= 1.0
            && (ndcg == 1.0 <==> ranked != [] && forall i :: 0 <= i < m ==> ranked[i] in relevant)
  {
    var m := Min(|relevant|, |ranked|);
    NdcgAtMostOne(ranked, relevant, d);
    IdealGrows(d, 0, m);
    GainNonNegative(Flags(ranked, relevant), d, |ranked|);
    if ranked != [] { Proportion(Gain(Flags(ranked, relevant), d, |ranked|), Ideal(d, m)); }
  }

  lemma ReciprocalPositive(n: nat)
    requires n > 0
    ensures 1.0 / n as real > 0.0
  {
  }

  lemma Proportion(a: real, b: real)
    requires 0.0 <= a <= b && b > 0.0
    ensures 0.0 <= a / b <= 1.0 && (a / b == 1.0 <==> a == b)
  {
    assert a / b * b == a;
  }

  lemma SameSize<T>(a: set<T>, b: set<T>)
    requires a <= b && |a| == |b|
    ensures a == b
  {
    assert b == a + (b - a);
  }

  lemma {:induction false} GainNonNegative(flags: seq<bool>, d: Discount, n: nat)
    requires Discounting(d) && n <= |flags|
    ensures Gain(flags, d, n) >= 0.0
  {
    if n > 0 { GainNonNegative(flags, d, n - 1); }
  }

  /** The results that are objects with a text path, in order. */
  function Paths(results: seq<Option<string>>): seq<string> {
    if results == [] then []
    else
      var n := |results| - 1;
      Paths(results[..n]) + if results[n].Some? then [results[n].value] else []
  }

  function Relevant<T(==)>(ids: seq<T>): set<T> {
    set x | x in ids
  }

  method EvaluateCase(results: seq<Option<string>>, expected: seq<string>, d: Discount) returns (metrics: Metrics)
    ensures metrics == MetricsOf(Deduplicated(Paths(results)), Relevant(expected), d)
  {
    var ranked: seq<string> := [];
    for i := 0 to |results|
      invariant ranked == Deduplicated(Paths(results[..i]))
      invariant forall x :: x in ranked <==> x in Paths(results[..i])
    {
      ghost var before := Paths(results[..i]);
      assert results[..i + 1][..i] == results[..i];
      var item := results[i];
      if item.Some? {
        assert Paths(results[..i + 1]) == before + [item.value];
        assert (before + [item.value])[..|before|] == before;
        if item.value !in ranked { ranked := ranked + [item.value]; }
      } else {
        assert Paths(results[..i + 1]) == before;
      }
    }
    assert results[..|results|] == results;
    metrics := MetricsOf(ranked, Relevant(expected), d);
  }

  /** The reranker's evaluation removes repeats by building a dictionary, and says nothing about negatives. */
  function EvaluateRanking(rankedIds: seq<string>, relevantIds: seq<string>, d: Discount): Metrics {
    MetricsOf(Deduplicated(rankedIds), Relevant(relevantIds), d).(negativeCorrect := None)
  }

  /** Whatever is searched or reranked, the metrics are proportions. */
  lemma EvaluationsAreProportions(ids: seq<string>, relevantIds: seq<string>, d: Discount)
    requires Discounting(d) && relevantIds != []
    ensures var m := EvaluateRanking(ids, relevantIds, d);
            && m.recall.Some? && m.precision.Some? && m.reciprocalRank.Some? && m.ndcg.Some?
            && 0.0 <= m.recall.value <= 1.0 && 0.0 <= m.precision.value <= 1.0
            && 0.0 <= m.reciprocalRank.value <= 1.0 && 0.0 <= m.ndcg.value <= 1.0
  {
    DeduplicatedKeepsFirst(ids);
    assert relevantIds[0] in Relevant(relevantIds);
    MetricsAreProportions(Deduplicated(ids), Relevant(relevantIds), d);
  }

  // ---- Ranking metrics that keep repeats ----------------------------------------------------------------------

  /** The repository benchmark cuts the list at `k` without removing repeats. */
  function RepeatedDcg<T(==)>(observed: seq<T>, relevant: set<T>, k: nat, d: Discount): real {
    var ranked := observed[..Min(k, |observed|)];
    Gain(Flags(ranked, relevant), d, |ranked|)
  }

  /** Its recall, before rounding. */
  function RepeatedHits<T(==)>(observed: seq<T>, relevant: set<T>, k: nat): nat {
    var ranked := observed[..Min(k, |observed|)];
    Hits(Flags(ranked, relevant), |ranked|)
  }

  /**
   * Its gain stays below the ideal one under every discount exactly when it counts no more relevant
   * positions than there are relevant items.
   */
  lemma BoundedUnderEveryDiscountIff<T>(observed: seq<T>, relevant: set<T>, k: nat)
    requires k > 0
    ensures (forall d: Discount :: Discounting(d) ==> RepeatedDcg(observed, relevant, k, d) <= Ideal(d, Min(k, |relevant|)))
            <==> RepeatedHits(observed, relevant, k) <= |relevant|
  {
    var ranked := observed[..Min(k, |observed|)];
    var flags := Flags(ranked, relevant);
    var c := Hits(flags, |flags|);
    if c <= |relevant| {
      forall d: Discount | Discounting(d) ensures RepeatedDcg(observed, relevant, k, d) <= Ideal(d, Min(k, |relevant|)) {
        GainIsBounded(flags, d, |flags|);
        IdealGrows(d, c, Min(k, |relevant|));
      }
    } else {
      var d := Flat(c);
      FlatDiscounts(c);
      FlatGain(flags, c, |flags|);
      FlatIdeal(c, Min(k, |relevant|));
    }
  }

  function FlatAt(c: nat, i: nat): (r: real)
    ensures 1.0 < r <= 1.0 + 1.0 / (c as real + 1.0)
  {
    var e := 1.0 / (c as real + 1.0);
    Shrinks(e, i);
    1.0 + e / (i as real + 1.0)
  }

  lemma Shrinks(e: real, i: nat)
    requires e > 0.0
    ensures 0.0 < e / (i as real + 1.0) <= e
  {
    var x := i as real + 1.0;
    assert e / x * x == e;
    assert e / x * x >= e / x;
  }

  lemma ShrinksMore(e: real, i: nat, j: nat)
    requires e > 0.0 && i < j
    ensures e / (j as real + 1.0) < e / (i as real + 1.0)
  {
    var x, y := i as real + 1.0, j as real + 1.0;
    assert e / x - e / y == e * (y - x) / (x * y);
  }

  /** A discount that is almost flat. */
  function Flat(c: nat): Discount {
    (i: nat) => FlatAt(c, i)
  }

  lemma FlatDiscounts(c: nat)
    ensures Discounting(Flat(c))
  {
    forall i: nat, j: nat | 1 <= i < j ensures Flat(c)(i) > Flat(c)(j) {
      ShrinksMore(1.0 / (c as real + 1.0), i, j);
    }
  }

  lemma {:induction false} FlatGain(flags: seq<bool>, c: nat, n: nat)
    requires n <= |flags|
    ensures Gain(flags, Flat(c), n) >= Hits(flags, n) as real
  {
    if n > 0 {
      FlatGain(flags, c, n - 1);
      assert Flat(c)(n) == FlatAt(c, n);
    }
  }

  lemma {:induction false} FlatIdealBound(c: nat, n: nat, e: real)
    requires e == 1.0 / (c as real + 1.0)
    ensures Ideal(Flat(c), n) <= n as real * (1.0 + e)
  {
    if n > 0 {
      FlatIdealBound(c, n - 1, e);
      assert Flat(c)(n) == FlatAt(c, n) <= 1.0 + e;
      OneMore((n - 1) as real, 1.0 + e);
    }
  }

  lemma OneMore(x: real, y: real)
    ensures x * y + y == (x + 1.0) * y
  {
  }

  lemma ProductGrows(x: real, y: real, e: real)
    requires x < y && e > 0.0
    ensures x * e < y * e
  {
  }

  lemma Distributes(x: real, e: real, p: real)
    requires p == x * e
    ensures x * (1.0 + e) == x + p
  {
  }

  lemma BelowOne(x: real, y: real, e: real)
    requires 0.0 <= x < y && e > 0.0 && y * e == 1.0
    ensures x * (1.0 + e) < x + 1.0
  {
    ProductGrows(x, y, e);
    var p := x * e;
    Distributes(x, e, p);
    assert p < 1.0;
  }

  lemma FlatIdeal(c: nat, n: nat)
    requires n < c
    ensures Ideal(Flat(c), n) < n as real + 1.0
  {
    var e := 1.0 / (c as real + 1.0);
    FlatIdealBound(c, n, e);
    BelowOne(n as real, c as real + 1.0, e);
  }

  /** One relevant item, observed twice, has a gain above the ideal one under every discount. */
  lemma RepeatExceedsIdeal(d: Discount)
    requires Discounting(d)
    ensures RepeatedDcg(["a", "a"], {"a"}, 10, d) > Ideal(d, Min(10, |{"a"}|))
    ensures RepeatedHits(["a", "a"], {"a"}, 10) > |{"a"}|
  {
    var ranked := ["a", "a"][..2];
    assert ranked == ["a", "a"];
    assert Flags(ranked, {"a"}) == [true, true];
    assert Gain([true, true], d, 2) == d(1) + d(2);
  }
}
