/** What each ranking metric counts. */
module RankingMeaning {
  import opened Common
  import opened Ranking

  /** The positions that hold a relevant item. */
  function Positions<T(==)>(ranked: seq<T>, relevant: set<T>): set<nat> {
    set i: nat | i < |ranked| && ranked[i] in relevant
  }

  lemma {:induction false} HitsArePositions<T>(ranked: seq<T>, relevant: set<T>, n: nat)
    requires n <= |ranked|
    ensures Hits(Flags(ranked, relevant), n) == |Positions(ranked[..n], relevant)|
    decreases n
  {
    if n == 0 {
      assert Positions(ranked[..0], relevant) == {};
    } else {
      HitsArePositions(ranked, relevant, n - 1);
      var front := ranked[..n - 1];
      assert ranked[..n] == front + [ranked[n - 1]];
      assert Positions(ranked[..n], relevant) == Positions(front, relevant) + if ranked[n - 1] in relevant then {n - 1} else {};
      assert n - 1 !in Positions(front, relevant);
    }
  }

  /** The discounts of the positions that are set, counting ranks upwards from `rank`. */
  function Discounted(flags: seq<bool>, d: Discount, rank: nat): real {
    if flags == [] then 0.0 else (if flags[0] then d(rank) else 0.0) + Discounted(flags[1..], d, rank + 1)
  }

  lemma {:induction false} DiscountedAppend(flags: seq<bool>, last: bool, d: Discount, rank: nat)
    ensures Discounted(flags + [last], d, rank) == Discounted(flags, d, rank) + if last then d(rank + |flags|) else 0.0
  {
    if flags != [] {
      assert (flags + [last])[1..] == flags[1..] + [last];
      DiscountedAppend(flags[1..], last, d, rank + 1);
    } else {
      assert [last][1..] == [];
    }
  }

  /** The gain adds the discounts of the relevant ranks, from rank one on. */
  lemma {:induction false} GainIs(flags: seq<bool>, d: Discount, n: nat)
    requires n <= |flags|
    ensures Gain(flags, d, n) == Discounted(flags[..n], d, 1)
  {
    if n > 0 {
      GainIs(flags, d, n - 1);
      assert flags[..n] == flags[..n - 1] + [flags[n - 1]];
      DiscountedAppend(flags[..n - 1], flags[n - 1], d, 1);
    } else {
      assert flags[..0] == [];
    }
  }

  lemma {:induction false} IdealIs(d: Discount, n: nat)
    ensures Ideal(d, n) == Discounted(seq(n, (i: nat) => true), d, 1)
  {
    if n > 0 {
      IdealIs(d, n - 1);
      assert seq(n, (i: nat) => true) == seq(n - 1, (i: nat) => true) + [true];
      DiscountedAppend(seq(n - 1, (i: nat) => true), true, d, 1);
    }
  }

  /** So many times the whole is the part. */
  predicate IsShare(share: real, part: real, whole: real) { share * whole == part }

  lemma RatioIsShare(a: real, b: real)
    requires b == 0.0 ==> a == 0.0
    ensures IsShare(Ratio(a, b), a, b)
    ensures b != 0.0 ==> IsShare(a / b, a, b)
    ensures a == 0.0 ==> Ratio(a, b) == 0.0
  {
    if b != 0.0 { assert a / b * b == a; }
  }

  /** The flags of a ranking, and those of one with as many relevant items as it can hold in front. */
  function Found<T(==)>(ranked: seq<T>, relevant: set<T>): seq<bool> {
    seq(|ranked|, i requires 0 <= i < |ranked| => ranked[i] in relevant)
  }

  function Best<T(==)>(ranked: seq<T>, relevant: set<T>): seq<bool> {
    seq(if |relevant| <= |ranked| then |relevant| else |ranked|, (i: nat) => true)
  }

  /**
   * Recall is the share of the relevant items that were found, precision the share of the ranking that
   * is relevant, the reciprocal rank that of the first relevant item, and nDCG the discounted gain as a
   * share of the gain of the best ranking of that length.
   */
  lemma MetricsAre<T>(ranked: seq<T>, relevant: set<T>, d: Discount)
    requires Discounting(d) && Ranking.Distinct(ranked) && relevant != {}
    ensures var m, found := MetricsOf(ranked, relevant, d), Positions(ranked, relevant);
            && m.recall.Some? && IsShare(m.recall.value, |found| as real, |relevant| as real)
            && m.precision.Some? && IsShare(m.precision.value, |found| as real, |ranked| as real)
            && m.reciprocalRank.Some?
            && (forall i :: i in found && (forall j :: j in found ==> i <= j) ==>
                  IsShare(m.reciprocalRank.value, 1.0, (i + 1) as real))
            && m.ndcg.Some?
            && IsShare(m.ndcg.value, Discounted(Found(ranked, relevant), d, 1), Discounted(Best(ranked, relevant), d, 1))
            && (found == {} ==> m.precision.value == m.reciprocalRank.value == m.ndcg.value == 0.0)
            && m.negativeCorrect.None?
  {
    var n, found := |ranked|, Positions(ranked, relevant);
    assert ranked[..n] == ranked;
    HitsArePositions(ranked, relevant, n);
    HitsAreFound(ranked, relevant, n);
    FirstIs(ranked, relevant);
    NdcgIs(ranked, relevant, d);
    if n == 0 { assert found == {}; }
    hide RelevantIn, Positions, FirstRank, Reciprocal, Gain, Ideal, Discounted, Flags, Hits, IsShare, Ratio, Found, Best;
    RatioIsShare(|found| as real, |relevant| as real);
    RatioIsShare(|found| as real, n as real);
  }

  lemma FirstIs<T>(ranked: seq<T>, relevant: set<T>)
    ensures var found, r := Positions(ranked, relevant), Reciprocal(FirstRank(ranked, relevant, 0));
            && (found == {} ==> r == 0.0)
            && forall i :: i in found && (forall j :: j in found ==> i <= j) ==> IsShare(r, 1.0, (i + 1) as real)
  {
    hide IsShare;
    var found, first := Positions(ranked, relevant), FirstRank(ranked, relevant, 0);
    if first.Some? { assert first.value - 1 in found; }
    forall i | i in found && forall j :: j in found ==> i <= j
      ensures IsShare(Reciprocal(first), 1.0, (i + 1) as real)
    {
      assert first.Some? && first.value == i + 1;
      RatioIsShare(1.0, first.value as real);
    }
  }

  lemma NothingGained(flags: seq<bool>, d: Discount)
    ensures Ideal(d, 0) == 0.0 && Gain(flags, d, 0) == 0.0
  {
  }

  lemma NdcgIs<T>(ranked: seq<T>, relevant: set<T>, d: Discount)
    requires Discounting(d) && relevant != {}
    ensures var ndcg := Ratio(Gain(Flags(ranked, relevant), d, |ranked|), Ideal(d, Min(|relevant|, |ranked|)));
            && IsShare(ndcg, Discounted(Found(ranked, relevant), d, 1), Discounted(Best(ranked, relevant), d, 1))
            && (Positions(ranked, relevant) == {} ==> ndcg == 0.0)
  {
    hide IsShare, Discounted, Gain, Ideal, Ratio;
    var n, flags := |ranked|, Found(ranked, relevant);
    assert flags == Flags(ranked, relevant) && flags[..n] == flags;
    GainIs(flags, d, n);
    IdealIs(d, Min(|relevant|, n));
    IdealGrows(d, 0, Min(|relevant|, n));
    NothingGained(flags, d);
    if Positions(ranked, relevant) == {} {
      forall i: nat | i < n ensures !flags[i] { assert i !in Positions(ranked, relevant); }
      NoGain(flags, d, n);
    }
    RatioIsShare(Gain(flags, d, n), Ideal(d, Min(|relevant|, n)));
  }

  lemma {:induction false} NoGain(flags: seq<bool>, d: Discount, n: nat)
    requires n <= |flags| && forall i :: 0 <= i < n ==> !flags[i]
    ensures Gain(flags, d, n) == 0.0
  {
    if n > 0 { NoGain(flags, d, n - 1); }
  }

  /** With nothing relevant, the only question is whether nothing was found. */
  lemma NegativeIs<T>(ranked: seq<T>, d: Discount)
    ensures var m := MetricsOf(ranked, {}, d);
            && m.recall.None? && m.precision.None? && m.reciprocalRank.None? && m.ndcg.None?
            && m.negativeCorrect == Some(|ranked| == 0)
  {
  }

  /** The results that have a path, in their order. */
  lemma {:induction false} PathsAre(results: seq<Option<string>>, more: seq<Option<string>>)
    ensures Paths(results + more) == Paths(results) + Paths(more)
    ensures forall path :: Paths([Some(path)]) == [path]
    ensures Paths([None]) == []
    decreases |more|
  {
    forall path ensures Paths([Some(path)]) == [path] { assert [Some(path)][..0] == []; }
    var nothing: seq<Option<string>> := [None];
    assert nothing[..0] == [];
    if more == [] {
      assert results + more == results;
    } else {
      var n := |more| - 1;
      assert (results + more)[..|results + more| - 1] == results + more[..n];
      PathsAre(results, more[..n]);
    }
  }

  /** The metrics that keep repeats count positions among the first `k`. */
  lemma RepeatedAre<T>(observed: seq<T>, relevant: set<T>, k: nat, d: Discount)
    ensures var cut := observed[..if k <= |observed| then k else |observed|];
            && RepeatedHits(observed, relevant, k) == |Positions(cut, relevant)|
            && RepeatedDcg(observed, relevant, k, d) == Discounted(Found(cut, relevant), d, 1)
  {
    var cut := observed[..Min(k, |observed|)];
    assert cut[..|cut|] == cut && Flags(cut, relevant)[..|cut|] == Found(cut, relevant);
    HitsArePositions(cut, relevant, |cut|);
    GainIs(Flags(cut, relevant), d, |cut|);
  }
}
