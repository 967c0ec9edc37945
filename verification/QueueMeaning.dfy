/** What the saved state of a queue level says of the attempts that it stands for. */
module QueueMeaning {
  import opened Common
  import opened QueueTotals
  import opened QueueResume

  /** The attempt ended with an error of some type. */
  predicate Fails(o: Outcome) { o.errorType.Some? && |o.errorType.value| > 0 }

  /** The slots whose attempt failed. */
  function FailedSlots(outcomes: seq<Outcome>): set<nat> {
    set slot: nat | slot < |outcomes| && Fails(outcomes[slot])
  }

  /** How many attempts failed in all repetitions. */
  function Failures(rounds: seq<Round>): nat {
    if rounds == [] then 0 else |FailedSlots(rounds[0].outcomes)| + Failures(rounds[1..])
  }

  /** Some attempt ended with this error type, or code. */
  predicate HasType(outcomes: seq<Outcome>, text: string) {
    text != "" && exists slot :: 0 <= slot < |outcomes| && outcomes[slot].errorType == Some(text)
  }

  predicate HasCode(outcomes: seq<Outcome>, text: string) {
    text != "" && exists slot :: 0 <= slot < |outcomes| && outcomes[slot].errorCode == Some(text)
  }

  // ---- One repetition ------------------------------------------------------------------------------------

  lemma FailsIff(o: Outcome)
    ensures Fails(o) <==> o.errorType.Some? && o.errorType.value != ""
  {
  }

  lemma {:induction false} ErrorsOfRound(t: Totals, first: bool, outcomes: seq<Outcome>)
    ensures CountedAll(t, first, outcomes).errors == t.errors + |FailedSlots(outcomes)|
    decreases |outcomes|
  {
    hide CountedAll, Fails;
    if outcomes == [] {
      NoneCounted(t, first);
      assert FailedSlots(outcomes) == {};
    } else {
      var n := |outcomes| - 1;
      var front := outcomes[..n];
      ErrorsOfRound(t, first, front);
      CountedAllNext(t, first, outcomes);
      FailsIff(outcomes[n]);
      assert forall i :: 0 <= i < n ==> front[i] == outcomes[i];
      assert FailedSlots(outcomes) == FailedSlots(front) + (if Fails(outcomes[n]) then {n} else {});
      assert n !in FailedSlots(front);
    }
  }

  lemma {:induction false} TextsOfRound(t: Totals, first: bool, outcomes: seq<Outcome>, text: string)
    ensures var u := CountedAll(t, first, outcomes);
            && (text in u.errorTypes <==> text in t.errorTypes || HasType(outcomes, text))
            && (text in u.errorCodes <==> text in t.errorCodes || HasCode(outcomes, text))
    decreases |outcomes|
  {
    hide CountedAll;
    if outcomes == [] {
      NoneCounted(t, first);
    } else {
      var n := |outcomes| - 1;
      var front := outcomes[..n];
      TextsOfRound(t, first, front, text);
      CountedAllNext(t, first, outcomes);
      assert forall i :: 0 <= i < n ==> front[i] == outcomes[i];
      assert outcomes == front + [outcomes[n]];
    }
  }

  // ---- All repetitions -------------------------------------------------------------------------------------

  lemma {:induction false} FailuresAppend(rounds: seq<Round>, round: Round)
    ensures Failures(rounds + [round]) == Failures(rounds) + |FailedSlots(round.outcomes)|
  {
    hide FailedSlots;
    if rounds != [] {
      assert (rounds + [round])[1..] == rounds[1..] + [round];
      FailuresAppend(rounds[1..], round);
    } else {
      assert [round][1..] == [];
    }
  }

  /** The error count is the number of attempts that failed. */
  lemma {:induction false} ErrorsAre(level: nat, rounds: seq<Round>)
    ensures ItemOf(level, rounds).totals.errors == Failures(rounds)
    decreases |rounds|
  {
    hide CountedAll, FailedSlots, BurstOf, SamplesOf;
    if rounds != [] {
      var n := |rounds| - 1;
      var front, round := rounds[..n], rounds[n];
      ErrorsAre(level, front);
      assert rounds == front + [round];
      ItemNext(level, front, round);
      ErrorsOfRound(ItemOf(level, front).totals, n == 0, round.outcomes);
      hide ItemOf;
      FailuresAppend(front, round);
    }
  }

  /** The error types and codes are those that occurred, the empty ones aside. */
  lemma {:induction false} TextsAre(level: nat, rounds: seq<Round>, text: string)
    ensures var totals := ItemOf(level, rounds).totals;
            && (text in totals.errorTypes <==> exists r :: 0 <= r < |rounds| && HasType(rounds[r].outcomes, text))
            && (text in totals.errorCodes <==> exists r :: 0 <= r < |rounds| && HasCode(rounds[r].outcomes, text))
    decreases |rounds|
  {
    hide CountedAll, HasType, HasCode, BurstOf, SamplesOf;
    if rounds != [] {
      var n := |rounds| - 1;
      var front, round := rounds[..n], rounds[n];
      TextsAre(level, front, text);
      assert rounds == front + [round];
      ItemNext(level, front, round);
      TextsOfRound(ItemOf(level, front).totals, n == 0, round.outcomes, text);
      hide ItemOf;
      assert forall r :: 0 <= r < n ==> front[r] == rounds[r];
    }
  }

  /** The latencies lie by repetition and slot; those of the first repetition are the cold ones. */
  lemma {:induction false} SampleAt(level: nat, rounds: seq<Round>, r: nat, slot: nat)
    requires AllGenuine(level, rounds) && r < |rounds| && slot < level
    ensures var totals := ItemOf(level, rounds).totals;
            && 0 <= r * level + slot < |totals.samples|
            && totals.samples[r * level + slot] == rounds[r].outcomes[slot].elapsed
    decreases |rounds|
  {
    hide ItemOf, CountedAll, BurstOf, SamplesOf;
    var n := |rounds| - 1;
    var front := rounds[..n];
    var before := ItemOf(level, front).totals;
    ItemShape(level, front);
    assert rounds == front + [rounds[n]];
    ItemNext(level, front, rounds[n]);
    CountedAllAppends(before, n == 0, rounds[n].outcomes);
    assert Genuine(level, n, rounds[n]);
    var last, samples := ElapsedOf(rounds[n].outcomes), ItemOf(level, rounds).totals.samples;
    assert samples == before.samples + last && |before.samples| == n * level;
    if r < n {
      SampleAt(level, front, r, slot);
      InFront(r, n, level, slot);
      assert samples[r * level + slot] == before.samples[r * level + slot];
    } else {
      assert samples[n * level + slot] == last[slot];
    }
  }

  /** What was offered, what the queue held afterwards, and whether it was found empty. */
  lemma BurstIs(level: nat, rounds: seq<Round>, r: nat)
    requires AllGenuine(level, rounds) && r < |rounds|
    ensures var bursts := ItemOf(level, rounds).bursts;
            && |bursts| == |rounds|
            && bursts[r].repetition == r && bursts[r].offered == level && bursts[r].observed == rounds[r].peak
            && bursts[r].queued == rounds[r].queued && bursts[r].running == rounds[r].running
            && (bursts[r].drained <==> rounds[r].queued == Some(0) && rounds[r].running == Some(0))
  {
    hide ItemOf;
    BurstAt(level, rounds, r);
    ItemShape(level, rounds);
  }

  function SecondsOf(rounds: seq<Round>): real {
    if rounds == [] then 0.0 else rounds[0].seconds + SecondsOf(rounds[1..])
  }

  lemma {:induction false} SecondsAppend(rounds: seq<Round>, round: Round)
    ensures SecondsOf(rounds + [round]) == SecondsOf(rounds) + round.seconds
  {
    if rounds != [] {
      assert (rounds + [round])[1..] == rounds[1..] + [round];
      SecondsAppend(rounds[1..], round);
    } else {
      assert [round][1..] == [];
    }
  }

  lemma {:induction false} SecondsAre(level: nat, rounds: seq<Round>)
    ensures ItemOf(level, rounds).seconds == SecondsOf(rounds)
    decreases |rounds|
  {
    hide CountedAll, BurstOf, SamplesOf;
    if rounds != [] {
      var n := |rounds| - 1;
      SecondsAre(level, rounds[..n]);
      assert rounds == rounds[..n] + [rounds[n]];
      ItemNext(level, rounds[..n], rounds[n]);
      hide ItemOf;
      SecondsAppend(rounds[..n], rounds[n]);
    }
  }

  // ---- Reports -----------------------------------------------------------------------------------------------

  /** The report has the state of every level, and counts the errors of all together. */
  lemma {:induction false} ReportHolds(levels: seq<nat>, world: World, moments: Moments)
    requires Distinct(levels) && forall level :: level in levels ==> level in moments
    ensures var stage := Report(levels, world, moments);
            && stage.levels.Keys == (set level | level in levels)
            && (forall level :: level in levels ==> stage.levels[level] == ItemOf(level, RoundsAt(world, level, moments[level])))
            && stage.errors == AllFailures(levels, world, moments)
    decreases |levels|
  {
    hide ItemOf, RoundsAt, Report, Failures;
    if levels != [] {
      var n := |levels| - 1;
      var front, level := levels[..n], levels[n];
      ReportHolds(front, world, moments);
      ReportNext(levels, world, moments);
      assert levels == front + [level];
      assert level !in front;
      ErrorsAre(level, RoundsAt(world, level, moments[level]));
    } else {
      NoReport(world, moments);
    }
  }

  ghost function AllFailures(levels: seq<nat>, world: World, moments: Moments): nat
    requires forall level :: level in levels ==> level in moments
  {
    if levels == [] then 0
    else
      var n := |levels| - 1;
      AllFailures(levels[..n], world, moments) + Failures(RoundsAt(world, levels[n], moments[levels[n]]))
  }
}
