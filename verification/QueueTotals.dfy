/** What the queue benchmark accumulates from its repetitions, one concurrency level at a time. */
module QueueTotals {
  import opened Common

  datatype Sample = Sample(level: nat, repetition: nat, slot: nat, enqueued: bool, rejected: bool, degraded: bool)

  datatype Outcome = Outcome(elapsed: real, errorType: Option<string>, errorCode: Option<string>, sample: Sample)

  /** One repetition: an outcome for every slot, and what the queue looked like afterwards. */
  datatype Round = Round(outcomes: seq<Outcome>, peak: nat, queued: Option<int>, running: Option<int>, seconds: real)

  datatype Burst = Burst(repetition: nat, offered: nat, observed: nat, queued: Option<int>, running: Option<int>, drained: bool)

  datatype Totals = Totals(
    samples: seq<real>, cold: seq<real>, warm: seq<real>,
    errors: nat, errorTypes: set<string>, errorCodes: set<string>)

  /** The saved state of a level. */
  datatype Item = Item(next: nat, totals: Totals, seconds: real, decisions: seq<Sample>, bursts: seq<Burst>)

  const NOTHING: Totals := Totals([], [], [], 0, {}, {})

  /** The round is what `level` slots of this repetition produced. */
  predicate Genuine(level: nat, repetition: nat, round: Round) {
    && |round.outcomes| == level
    && forall i :: 0 <= i < level ==>
         var s := round.outcomes[i].sample;
         s.level == level && s.repetition == repetition && s.slot == i
  }

  predicate AllGenuine(level: nat, rounds: seq<Round>) {
    forall r :: 0 <= r < |rounds| ==> Genuine(level, r, rounds[r])
  }

  function BurstOf(level: nat, repetition: nat, round: Round): Burst {
    Burst(repetition, level, round.peak, round.queued, round.running,
          round.queued == Some(0) && round.running == Some(0))
  }

  // ---- Accumulating ---------------------------------------------------------------------------------

  function Counted(t: Totals, first: bool, o: Outcome): Totals {
    Totals(
      t.samples + [o.elapsed],
      if first then t.cold + [o.elapsed] else t.cold,
      if first then t.warm else t.warm + [o.elapsed],
      if o.errorType.Some? && o.errorType.value != "" then t.errors + 1 else t.errors,
      if o.errorType.Some? && o.errorType.value != "" then t.errorTypes + {o.errorType.value} else t.errorTypes,
      if o.errorCode.Some? && o.errorCode.value != "" then t.errorCodes + {o.errorCode.value} else t.errorCodes)
  }

  function CountedAll(t: Totals, first: bool, outcomes: seq<Outcome>): Totals {
    if outcomes == [] then t
    else Counted(CountedAll(t, first, outcomes[..|outcomes| - 1]), first, outcomes[|outcomes| - 1])
  }

  function SamplesOf(outcomes: seq<Outcome>): seq<Sample> {
    seq(|outcomes|, i requires 0 <= i < |outcomes| => outcomes[i].sample)
  }

  function ElapsedOf(outcomes: seq<Outcome>): seq<real> {
    seq(|outcomes|, i requires 0 <= i < |outcomes| => outcomes[i].elapsed)
  }

  /** The state after these repetitions and no others. */
  function ItemOf(level: nat, rounds: seq<Round>): (item: Item)
    ensures item.next == |rounds|
  {
    if rounds == [] then Item(0, NOTHING, 0.0, [], [])
    else
      var n := |rounds| - 1;
      var before := ItemOf(level, rounds[..n]);
      var round := rounds[n];
      Item(n + 1, CountedAll(before.totals, n == 0, round.outcomes), before.seconds + round.seconds,
           before.decisions + SamplesOf(round.outcomes), before.bursts + [BurstOf(level, n, round)])
  }

  lemma ItemNext(level: nat, rounds: seq<Round>, round: Round)
    ensures var before, item := ItemOf(level, rounds), ItemOf(level, rounds + [round]);
            && item.totals == CountedAll(before.totals, |rounds| == 0, round.outcomes)
            && item.seconds == before.seconds + round.seconds
            && item.decisions == before.decisions + SamplesOf(round.outcomes)
            && item.bursts == before.bursts + [BurstOf(level, |rounds|, round)]
  {
    assert (rounds + [round])[..|rounds|] == rounds;
  }

  // ---- What a saved level contains ----------------------------------------------------------------------

  lemma CountedAllNext(t: Totals, first: bool, outcomes: seq<Outcome>)
    requires outcomes != []
    ensures var n := |outcomes| - 1;
            CountedAll(t, first, outcomes) == Counted(CountedAll(t, first, outcomes[..n]), first, outcomes[n])
  {
  }

  lemma ElapsedNext(outcomes: seq<Outcome>)
    requires outcomes != []
    ensures var n := |outcomes| - 1; ElapsedOf(outcomes) == ElapsedOf(outcomes[..n]) + [outcomes[n].elapsed]
  {
  }

  lemma Associative<T>(a: seq<T>, b: seq<T>, c: seq<T>)
    ensures (a + b) + c == a + (b + c)
  {
  }

  lemma NoneCounted(t: Totals, first: bool)
    ensures CountedAll(t, first, []) == t && ElapsedOf([]) == []
  {
  }

  lemma {:induction false} CountedAllAppends(t: Totals, first: bool, outcomes: seq<Outcome>)
    ensures var u := CountedAll(t, first, outcomes);
            && u.samples == t.samples + ElapsedOf(outcomes)
            && u.cold == (if first then t.cold + ElapsedOf(outcomes) else t.cold)
            && u.warm == (if first then t.warm else t.warm + ElapsedOf(outcomes))
    decreases |outcomes|
  {
    hide CountedAll, ElapsedOf;
    if outcomes != [] {
      var n := |outcomes| - 1;
      CountedAllAppends(t, first, outcomes[..n]);
      CountedAllNext(t, first, outcomes);
      ElapsedNext(outcomes);
      var front, last := ElapsedOf(outcomes[..n]), [outcomes[n].elapsed];
      Associative(t.samples, front, last);
      Associative(t.cold, front, last);
      Associative(t.warm, front, last);
    } else {
      NoneCounted(t, first);
    }
  }

  lemma Product(n: nat, level: nat)
    ensures (n + 1) * level == n * level + level
  {
  }

  /** Sizes of the saved lists, and the cold samples. */
  ghost predicate Shaped(level: nat, rounds: seq<Round>, item: Item) {
    && |item.totals.samples| == |item.decisions| == |rounds| * level
    && |item.bursts| == |rounds|
    && item.totals.samples == item.totals.cold + item.totals.warm
    && item.totals.cold == (if rounds == [] then [] else ElapsedOf(rounds[0].outcomes))
    && (rounds == [] ==> item.totals.warm == [])
  }

  /** One more repetition keeps the shape. */
  lemma ShapedNext(level: nat, rounds: seq<Round>, round: Round, before: Item, item: Item)
    requires Shaped(level, rounds, before) && |round.outcomes| == level
    requires item.totals == CountedAll(before.totals, rounds == [], round.outcomes)
    requires item.decisions == before.decisions + SamplesOf(round.outcomes)
    requires item.bursts == before.bursts + [BurstOf(level, |rounds|, round)]
    ensures Shaped(level, rounds + [round], item)
  {
    CountedAllAppends(before.totals, rounds == [], round.outcomes);
    hide CountedAll, BurstOf;
    ShapedSizes(level, |rounds|, |before.decisions|, |item.decisions|);
    assert |rounds + [round]| == |rounds| + 1;
    assert |item.totals.samples| == |item.decisions|;
    ShapedLists(rounds, round, before.totals, item.totals);
  }

  lemma ShapedSizes(level: nat, n: nat, before: nat, after: nat)
    requires before == n * level && after == before + level
    ensures after == (n + 1) * level
  {
  }

  lemma ShapedLists(rounds: seq<Round>, round: Round, before: Totals, after: Totals)
    requires before.samples == before.cold + before.warm
    requires before.cold == (if rounds == [] then [] else ElapsedOf(rounds[0].outcomes))
    requires after.samples == before.samples + ElapsedOf(round.outcomes)
    requires after.cold == (if rounds == [] then before.cold + ElapsedOf(round.outcomes) else before.cold)
    requires after.warm == (if rounds == [] then before.warm else before.warm + ElapsedOf(round.outcomes))
    requires rounds == [] ==> before.warm == []
    ensures after.samples == after.cold + after.warm
    ensures after.cold == ElapsedOf((rounds + [round])[0].outcomes)
  {
    hide ElapsedOf;
    if rounds != [] { assert (rounds + [round])[0] == rounds[0]; }
  }

  /** Sizes of the saved lists, and the cold samples, whatever happened between the saves. */
  lemma {:induction false} ItemShape(level: nat, rounds: seq<Round>)
    requires AllGenuine(level, rounds)
    ensures var item := ItemOf(level, rounds);
            && |item.totals.samples| == |item.decisions| == |rounds| * level
            && |item.bursts| == |rounds|
            && item.totals.samples == item.totals.cold + item.totals.warm
            && item.totals.cold == (if rounds == [] then [] else ElapsedOf(rounds[0].outcomes))
    decreases |rounds|
  {
    hide CountedAll, BurstOf, SamplesOf, ElapsedOf;
    if rounds != [] {
      var n := |rounds| - 1;
      ItemShape(level, rounds[..n]);
      assert Genuine(level, n, rounds[n]);
      assert rounds == rounds[..n] + [rounds[n]];
      ItemNext(level, rounds[..n], rounds[n]);
      hide ItemOf, Genuine;
      ShapedNext(level, rounds[..n], rounds[n], ItemOf(level, rounds[..n]), ItemOf(level, rounds));
    }
  }

  lemma {:induction false} BurstAt(level: nat, rounds: seq<Round>, r: nat)
    requires AllGenuine(level, rounds) && r < |rounds|
    ensures var bursts := ItemOf(level, rounds).bursts; r < |bursts| && bursts[r] == BurstOf(level, r, rounds[r])
    decreases |rounds|
  {
    hide ItemOf, BurstOf, ElapsedOf;
    var n := |rounds| - 1;
    var front := rounds[..n];
    ItemShape(level, front);
    assert rounds == front + [rounds[n]];
    ItemNext(level, front, rounds[n]);
    if r < n { BurstAt(level, front, r); }
  }

  lemma InFront(r: nat, n: nat, level: nat, slot: nat)
    requires r < n && slot < level
    ensures 0 <= r * level + slot < n * level
  {
    Product(r, level);
    MultiplesGrow(r + 1, n, level);
    MultiplesGrow(0, r, level);
  }

  lemma {:induction false} MultiplesGrow(a: nat, b: nat, k: nat)
    requires a <= b
    ensures a * k <= b * k
    decreases b
  {
    if a < b {
      MultiplesGrow(a, b - 1, k);
      Product(b - 1, k);
    }
  }

  /** The samples of a repetition lie together, slot by slot. */
  lemma {:induction false} DecisionAt(level: nat, rounds: seq<Round>, r: nat, slot: nat)
    requires AllGenuine(level, rounds) && r < |rounds| && slot < level
    ensures var decisions := ItemOf(level, rounds).decisions;
            0 <= r * level + slot < |decisions| && decisions[r * level + slot] == rounds[r].outcomes[slot].sample
    decreases |rounds|
  {
    hide ItemOf, ElapsedOf;
    var n := |rounds| - 1;
    var front := rounds[..n];
    var before := ItemOf(level, front).decisions;
    ItemShape(level, front);
    assert rounds == front + [rounds[n]];
    ItemNext(level, front, rounds[n]);
    assert Genuine(level, n, rounds[n]);
    if r < n {
      DecisionAt(level, front, r, slot);
      InFront(r, n, level, slot);
    }
  }

  predicate Failed(o: Outcome) {
    o.errorType.Some? && o.errorType.value != ""
  }

  predicate AllWell(outcomes: seq<Outcome>) {
    forall i :: 0 <= i < |outcomes| ==> !Failed(outcomes[i])
  }

  lemma {:induction false} CountedErrors(t: Totals, first: bool, outcomes: seq<Outcome>)
    ensures CountedAll(t, first, outcomes).errors == t.errors <==> AllWell(outcomes)
    ensures CountedAll(t, first, outcomes).errors >= t.errors
    decreases |outcomes|
  {
    hide CountedAll;
    if outcomes != [] {
      var n := |outcomes| - 1;
      CountedErrors(t, first, outcomes[..n]);
      CountedAllNext(t, first, outcomes);
      assert AllWell(outcomes) <==> AllWell(outcomes[..n]) && !Failed(outcomes[n]);
    } else {
      NoneCounted(t, first);
    }
  }

  /** The error count is zero exactly when no attempt of any repetition failed. */
  lemma {:induction false} NoErrorsIff(level: nat, rounds: seq<Round>)
    ensures ItemOf(level, rounds).totals.errors == 0 <==> forall r :: 0 <= r < |rounds| ==> AllWell(rounds[r].outcomes)
    decreases |rounds|
  {
    hide CountedAll, AllWell, BurstOf, SamplesOf;
    if rounds != [] {
      var n := |rounds| - 1;
      var front := rounds[..n];
      NoErrorsIff(level, front);
      CountedErrors(ItemOf(level, front).totals, n == 0, rounds[n].outcomes);
      assert rounds == front + [rounds[n]];
      ItemNext(level, front, rounds[n]);
      hide ItemOf;
      assert forall r :: 0 <= r < n ==> front[r] == rounds[r];
    }
  }
}
