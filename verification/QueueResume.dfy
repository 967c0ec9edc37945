/**
 * The queue benchmark with its checkpoint: progress is saved after every batch of repetitions, the
 * process may die at any moment, and the next process continues from what was saved.
 */
module QueueResume {
  import opened Common
  import opened QueueTotals

  type Progress = map<nat, Item>

  /** The outcome of a finished run. */
  datatype Stage = Stage(passed: bool, samples: seq<real>, cold: seq<real>, warm: seq<real>, errors: nat, levels: map<nat, Item>)

  function Drained(item: Item): bool {
    forall b :: b in item.bursts ==> b.drained
  }

  /** What the levels add up to, in the order in which they are configured. */
  function StageOf(levels: seq<nat>, items: map<nat, Item>): Stage
    requires forall level :: level in levels ==> level in items
  {
    if levels == [] then Stage(true, [], [], [], 0, map[])
    else
      var n := |levels| - 1;
      var before := StageOf(levels[..n], items);
      var item := items[levels[n]];
      var errors := before.errors + item.totals.errors;
      Stage(
        before.passed && item.totals.errors == 0 && Drained(item),
        before.samples + item.totals.samples, before.cold + item.totals.cold, before.warm + item.totals.warm,
        errors, before.levels[levels[n] := item])
  }

  // ---- What the world answers -------------------------------------------------------------------------

  datatype Reading = Reading(peak: nat, queued: Option<int>, running: Option<int>, seconds: real)

  /**
   * Answers depend on the moment, counted in executed repetitions, on level and repetition, and for
   * an attempt on its slot; so executing a repetition again may give anything.
   */
  datatype World = World(attempt: (nat, nat, nat, nat) -> Outcome, reading: (nat, nat, nat) -> Reading)

  /** One slot submits a job and cancels it; the sample carries the labels of the slot. */
  function Attempt(world: World, at: nat, level: nat, repetition: nat, slot: nat): Outcome {
    var outcome := world.attempt(at, level, repetition, slot);
    outcome.(sample := outcome.sample.(level := level, repetition := repetition, slot := slot))
  }

  function RoundAt(world: World, at: nat, level: nat, repetition: nat): (round: Round)
    ensures Genuine(level, repetition, round)
  {
    var r := world.reading(at, level, repetition);
    Round(seq(level, (slot: nat) => Attempt(world, at, level, repetition, slot)), r.peak, r.queued, r.running, r.seconds)
  }

  /** The repetitions of a level, executed at these moments. */
  function RoundsAt(world: World, level: nat, moments: seq<nat>): (rounds: seq<Round>)
    ensures |rounds| == |moments| && AllGenuine(level, rounds)
  {
    seq(|moments|, r requires 0 <= r < |moments| => RoundAt(world, moments[r], level, r))
  }

  lemma RoundsNext(world: World, level: nat, moments: seq<nat>, at: nat)
    ensures RoundsAt(world, level, moments + [at])
            == RoundsAt(world, level, moments) + [RoundAt(world, at, level, |moments|)]
  {
    hide RoundAt;
  }

  /** When the repetitions of each level were executed that its state stands for. */
  type Moments = map<nat, seq<nat>>

  /** One after the other, before `clock`. */
  ghost predicate Ordered(moments: seq<nat>, clock: nat) {
    && (forall r: nat :: r < |moments| ==> moments[r] < clock)
    && (forall q: nat, r: nat :: q < r < |moments| ==> moments[q] < moments[r])
  }

  /** Moments that follow each other without a gap. */
  ghost function Upto(from: nat, count: nat): (moments: seq<nat>)
    ensures |moments| == count
  {
    seq(count, (i: nat) => from + i)
  }

  lemma UptoNext(done: seq<nat>, from: nat, m: nat, n: nat)
    ensures done + Upto(from, m) + Upto(from + m, n) == done + Upto(from, m + n)
  {
    assert Upto(from, m) + Upto(from + m, n) == Upto(from, m + n);
    assert done + Upto(from, m) + Upto(from + m, n) == done + (Upto(from, m) + Upto(from + m, n));
  }

  // ---- Memory and file ----------------------------------------------------------------------------------

  /** `clock` counts the repetitions ever executed, lost or not. */
  datatype Snapshot = Snapshot(progress: Progress, file: Progress, moments: Moments, saved: Moments, clock: nat)

  class Checkpoint {
    var progress: Progress
    var file: Progress
    ghost var moments: Moments
    ghost var saved: Moments
    var clock: nat

    ghost function Now(): Snapshot
      reads this
    {
      Snapshot(progress, file, moments, saved, clock)
    }

    constructor ()
      ensures Now() == Snapshot(map[], map[], map[], map[], 0)
    {
      progress, file, moments, saved, clock := map[], map[], map[], map[], 0;
    }

    /** A new process reads the file. */
    method Load()
      modifies this`progress, this`moments
      ensures Now() == old(Now()).(progress := file, moments := saved)
    {
      progress := file;
      moments := saved;
    }

    /** The file is replaced in one step; the process may die before that step. */
    method Save() returns (died: bool)
      modifies this`file, this`saved
      ensures Now() == if died then old(Now()) else old(Now()).(file := progress, saved := moments)
    {
      died := Dies();
      if !died {
        file := progress;
        saved := moments;
      }
    }
  }

  method Dies() returns (died: bool) {
    died := *;
  }

  /** The state of a level is that after the repetitions executed at these moments, in order. */
  ghost predicate Saved(world: World, level: nat, item: Item, moments: seq<nat>, repetitions: nat, clock: nat) {
    |moments| <= repetitions && item == ItemOf(level, RoundsAt(world, level, moments)) && Ordered(moments, clock)
  }

  /** Saved work is never lost: what a level had is the start of what it has. */
  ghost predicate Extends(before: Moments, after: Moments) {
    forall level :: level in before ==> level in after && before[level] <= after[level]
  }

  lemma SavedStays(world: World, level: nat, item: Item, moments: seq<nat>, repetitions: nat, before: nat, after: nat)
    requires Saved(world, level, item, moments, repetitions, before) && before <= after
    ensures Saved(world, level, item, moments, repetitions, after)
  {
  }

  // ---- One batch ----------------------------------------------------------------------------------------

  method Repeat(world: World, at: nat, level: nat, repetition: nat) returns (round: Round)
    ensures round == RoundAt(world, at, level, repetition)
  {
    var outcomes: seq<Outcome> := [];
    for slot := 0 to level
      invariant outcomes == seq(slot, (i: nat) => Attempt(world, at, level, repetition, i))
    {
      outcomes := outcomes + [Attempt(world, at, level, repetition, slot)];
    }
    var r := world.reading(at, level, repetition);
    round := Round(outcomes, r.peak, r.queued, r.running, r.seconds);
  }

  /** The outcomes of one repetition are added one by one. */
  method Count(totals: Totals, first: bool, outcomes: seq<Outcome>) returns (t: Totals, samples: seq<Sample>)
    ensures t == CountedAll(totals, first, outcomes) && samples == SamplesOf(outcomes)
  {
    t, samples := totals, [];
    for i := 0 to |outcomes|
      invariant t == CountedAll(totals, first, outcomes[..i]) && samples == SamplesOf(outcomes[..i])
    {
      var o := outcomes[i];
      assert outcomes[..i + 1][..i] == outcomes[..i];
      samples := samples + [o.sample];
      t := t.(samples := t.samples + [o.elapsed]);
      if first { t := t.(cold := t.cold + [o.elapsed]); } else { t := t.(warm := t.warm + [o.elapsed]); }
      if o.errorType.Some? && o.errorType.value != "" {
        t := t.(errors := t.errors + 1, errorTypes := t.errorTypes + {o.errorType.value});
      }
      if o.errorCode.Some? && o.errorCode.value != "" {
        t := t.(errorCodes := t.errorCodes + {o.errorCode.value});
      }
    }
    assert outcomes[..|outcomes|] == outcomes;
  }

  lemma NoMoments(done: seq<nat>, from: nat)
    ensures done + Upto(from, 0) == done
  {
  }

  lemma OneMoment(done: seq<nat>, from: nat, m: nat)
    ensures done + Upto(from, m) + [from + m] == done + Upto(from, m + 1)
  {
    UptoNext(done, from, m, 1);
  }

  /** A batch of repetitions; its results reach the item only at the end, except bursts and samples. */
  method RunBatch(world: World, item: Item, level: nat, count: nat, clock: nat, ghost done: seq<nat>)
    returns (died: bool, next: Item, after: nat, ghost more: seq<nat>)
    requires item == ItemOf(level, RoundsAt(world, level, done)) && Ordered(done, clock)
    ensures clock <= after <= clock + count
    ensures !died ==>
              && more == done + Upto(clock, count) && after == clock + count
              && next == ItemOf(level, RoundsAt(world, level, more)) && Ordered(more, after)
  {
    hide ItemOf, RoundsAt, RoundAt, CountedAll, SamplesOf, Upto;
    next, more, after := item, done, clock;
    NoMoments(done, clock);
    var totals, seconds := item.totals, item.seconds;
    for repetition := item.next to item.next + count
      invariant more == done + Upto(clock, repetition - item.next) && after == clock + repetition - item.next
      invariant |more| == repetition && Ordered(more, after)
      invariant var now := ItemOf(level, RoundsAt(world, level, more));
                && totals == now.totals && seconds == now.seconds
                && next.bursts == now.bursts && next.decisions == now.decisions
    {
      died := Dies();
      if died { return; }
      var round := Repeat(world, after, level, repetition);
      RoundsNext(world, level, more, after);
      ItemNext(level, RoundsAt(world, level, more), round);
      OneMoment(done, clock, repetition - item.next);
      more := more + [after];
      after := after + 1;
      next := next.(bursts := next.bursts + [BurstOf(level, repetition, round)]);
      seconds := seconds + round.seconds;
      var samples;
      totals, samples := Count(totals, repetition == 0, round.outcomes);
      next := next.(decisions := next.decisions + samples);
    }
    died := false;
    next := next.(next := item.next + count, totals := totals, seconds := seconds);
  }

  // ---- What every step keeps ----------------------------------------------------------------------------

  ghost predicate Sound(world: World, progress: Progress, moments: Moments, repetitions: nat, clock: nat) {
    && progress.Keys == moments.Keys
    && forall level :: level in progress ==> Saved(world, level, progress[level], moments[level], repetitions, clock)
  }

  ghost predicate Valid(world: World, s: Snapshot, repetitions: nat) {
    Sound(world, s.file, s.saved, repetitions, s.clock)
  }

  /** How many repetitions of a level these moments stand for. */
  ghost function Level(moments: Moments, level: nat): nat {
    if level in moments then |moments[level]| else 0
  }

  /** Between batches, memory and file stand for equally many repetitions. */
  ghost predicate Even(s: Snapshot) {
    forall level :: Level(s.moments, level) == Level(s.saved, level)
  }

  /** The memory of a process between two batches. */
  ghost predicate Loaded(world: World, s: Snapshot, repetitions: nat) {
    && Valid(world, s, repetitions) && Sound(world, s.progress, s.moments, repetitions, s.clock)
    && Extends(s.saved, s.moments) && Even(s)
  }

  lemma ValidStays(world: World, s: Snapshot, t: Snapshot, repetitions: nat)
    requires Valid(world, s, repetitions) && s.clock <= t.clock && t.file == s.file && t.saved == s.saved
    ensures Valid(world, t, repetitions)
  {
  }

  lemma LoadedIsSaved(world: World, s: Snapshot, repetitions: nat, level: nat)
    requires Loaded(world, s, repetitions) && level in s.progress
    ensures level in s.moments && s.progress[level] == ItemOf(level, RoundsAt(world, level, s.moments[level]))
    ensures Ordered(s.moments[level], s.clock) && |s.moments[level]| <= repetitions && Valid(world, s, repetitions)
    ensures s.progress[level].next == |s.moments[level]| == Level(s.saved, level) && Extends(s.saved, s.moments)
  {
    hide ItemOf, RoundsAt;
    assert Level(s.moments, level) == Level(s.saved, level);
  }

  /** Repetitions were executed for one level: what memory and file gain pays for them, up to `lost`. */
  ghost predicate Paid(level: nat, s: Snapshot, t: Snapshot, lost: nat) {
    t.clock - s.clock <= Level(t.saved, level) - Level(s.saved, level) + lost
  }

  /** The file stays valid and only gains repetitions. */
  ghost predicate Onward(world: World, s: Snapshot, t: Snapshot, repetitions: nat) {
    s.clock <= t.clock && Extends(s.saved, t.saved) && Valid(world, t, repetitions)
  }

  lemma OnwardTwice(world: World, s: Snapshot, t: Snapshot, u: Snapshot, repetitions: nat)
    requires Onward(world, s, t, repetitions) && Onward(world, t, u, repetitions)
    ensures Onward(world, s, u, repetitions)
  {
  }

  lemma OnwardItself(world: World, s: Snapshot, repetitions: nat)
    requires Loaded(world, s, repetitions)
    ensures Onward(world, s, s, repetitions)
  {
  }

  /** The process got on with a level, and with no other. */
  ghost predicate Advanced(world: World, s: Snapshot, t: Snapshot, level: nat, repetitions: nat) {
    && Loaded(world, t, repetitions) && level in t.progress
    && t.progress - {level} == s.progress - {level} && t.moments - {level} == s.moments - {level}
  }

  /** The moments of a level since `s` follow each other. */
  ghost predicate Straight(s: Snapshot, t: Snapshot, level: nat) {
    && s.clock <= t.clock && level in t.moments
    && t.moments[level] == (if level in s.moments then s.moments[level] else []) + Upto(s.clock, t.clock - s.clock)
  }

  lemma StraightTwice(s: Snapshot, t: Snapshot, u: Snapshot, level: nat)
    requires Straight(s, t, level) && Straight(t, u, level)
    ensures Straight(s, u, level)
  {
    UptoNext(if level in s.moments then s.moments[level] else [], s.clock, t.clock - s.clock, u.clock - t.clock);
  }

  lemma AdvancedTwice(world: World, s: Snapshot, t: Snapshot, u: Snapshot, level: nat, repetitions: nat)
    requires Advanced(world, s, t, level, repetitions) && Advanced(world, t, u, level, repetitions)
    ensures Advanced(world, s, u, level, repetitions)
  {
  }

  lemma AdvancedMeans(world: World, s: Snapshot, t: Snapshot, level: nat, repetitions: nat)
    requires Advanced(world, s, t, level, repetitions)
    ensures Loaded(world, t, repetitions) && level in t.progress && t.progress - {level} == s.progress - {level}
    ensures t.progress[level].next == |t.moments[level]| <= repetitions
  {
    LoadedIsSaved(world, t, repetitions, level);
  }

  /** The memory and the file after a level has been brought up to date and saved. */
  lemma SavedIsLoaded(world: World, s: Snapshot, t: Snapshot, repetitions: nat, level: nat, item: Item, more: seq<nat>)
    requires Loaded(world, s, repetitions) && s.clock <= t.clock
    requires level in s.moments ==> s.moments[level] <= more
    requires Saved(world, level, item, more, repetitions, t.clock)
    requires t.progress == s.progress[level := item] && t.moments == s.moments[level := more]
    ensures Sound(world, t.progress, t.moments, repetitions, t.clock) && Extends(s.moments, t.moments)
    ensures t.progress - {level} == s.progress - {level} && t.moments - {level} == s.moments - {level}
  {
    hide Saved;
    forall l | l in t.progress ensures Saved(world, l, t.progress[l], t.moments[l], repetitions, t.clock) {
      if l != level { SavedStays(world, l, s.progress[l], s.moments[l], repetitions, s.clock, t.clock); }
    }
  }

  lemma Written(world: World, s: Snapshot, t: Snapshot, repetitions: nat, level: nat)
    requires Sound(world, t.progress, t.moments, repetitions, t.clock) && level in t.progress
    requires t.progress - {level} == s.progress - {level} && t.moments - {level} == s.moments - {level}
    requires Extends(s.saved, s.moments) && Extends(s.moments, t.moments) && s.clock <= t.clock
    requires t.file == t.progress && t.saved == t.moments
    ensures Advanced(world, s, t, level, repetitions) && Onward(world, s, t, repetitions)
  {
    hide Saved;
  }

  method NextBatch(c: Checkpoint, world: World, level: nat, repetitions: nat, batch: nat) returns (died: bool)
    requires batch > 0 && Loaded(world, c.Now(), repetitions) && level in c.progress && c.progress[level].next < repetitions
    modifies c
    ensures Onward(world, old(c.Now()), c.Now(), repetitions)
    ensures Paid(level, old(c.Now()), c.Now(), if died then batch else 0)
    ensures !died ==>
              && Advanced(world, old(c.Now()), c.Now(), level, repetitions) && Straight(old(c.Now()), c.Now(), level)
              && old(c.progress)[level].next < c.progress[level].next
  {
    hide Loaded, Valid, Ordered, ItemOf, RoundsAt, Extends, Sound, Advanced, Onward;
    ghost var s := c.Now();
    LoadedIsSaved(world, s, repetitions, level);
    OnwardItself(world, s, repetitions);
    var item := c.progress[level];
    ghost var done := c.moments[level];
    var count := if batch <= repetitions - item.next then batch else repetitions - item.next;
    ghost var more;
    died, item, c.clock, more := RunBatch(world, item, level, count, c.clock, done);
    Delayed(world, s, c.Now(), repetitions);
    if died { return true; }
    c.progress := c.progress[level := item];
    c.moments := c.moments[level := more];
    ghost var t := c.Now();
    SavedIsLoaded(world, s, t, repetitions, level, item, more);
    Delayed(world, s, t, repetitions);
    died := c.Save();
    if !died { Written(world, s, c.Now(), repetitions, level); }
  }

  /** Time that passes, and work that is only in memory, leave the file as it is. */
  lemma Delayed(world: World, s: Snapshot, t: Snapshot, repetitions: nat)
    requires Valid(world, s, repetitions) && s.clock <= t.clock && t.file == s.file && t.saved == s.saved
    ensures Onward(world, s, t, repetitions)
  {
    ValidStays(world, s, t, repetitions);
  }

  method RunLevel(c: Checkpoint, world: World, level: nat, repetitions: nat, batch: nat) returns (died: bool)
    requires batch > 0 && Loaded(world, c.Now(), repetitions)
    modifies c
    ensures Onward(world, old(c.Now()), c.Now(), repetitions)
    ensures Paid(level, old(c.Now()), c.Now(), if died then batch else 0)
    ensures !died ==>
              && Advanced(world, old(c.Now()), c.Now(), level, repetitions) && Straight(old(c.Now()), c.Now(), level)
              && c.progress[level].next == repetitions
  {
    hide Loaded, Valid, Onward, Saved, Advanced, ItemOf, Level, Straight;
    ghost var s := c.Now();
    OnwardItself(world, s, repetitions);
    if level !in c.progress {
      c.progress := c.progress[level := Item(0, NOTHING, 0.0, [], [])];
      c.moments := c.moments[level := []];
      StartOfLevel(world, s, level, repetitions);
    } else {
      AlreadyStarted(world, s, level, repetitions);
    }
    AdvancedMeans(world, s, c.Now(), level, repetitions);
    while c.progress[level].next < repetitions
      invariant Onward(world, s, c.Now(), repetitions) && Advanced(world, s, c.Now(), level, repetitions)
      invariant Paid(level, s, c.Now(), 0) && Straight(s, c.Now(), level)
      invariant Loaded(world, c.Now(), repetitions) && level in c.progress && c.progress[level].next <= repetitions
      decreases repetitions - c.progress[level].next
    {
      ghost var t := c.Now();
      died := NextBatch(c, world, level, repetitions, batch);
      OnwardTwice(world, s, t, c.Now(), repetitions);
      if died { return true; }
      AdvancedTwice(world, s, t, c.Now(), level, repetitions);
      StraightTwice(s, t, c.Now(), level);
      AdvancedMeans(world, t, c.Now(), level, repetitions);
    }
    died := false;
  }

  lemma AlreadyStarted(world: World, s: Snapshot, level: nat, repetitions: nat)
    requires Loaded(world, s, repetitions) && level in s.progress
    ensures Advanced(world, s, s, level, repetitions) && Straight(s, s, level)
  {
    NoMoments(s.moments[level], s.clock);
  }

  lemma EmptyLevel(world: World, level: nat, repetitions: nat, clock: nat)
    ensures Saved(world, level, Item(0, NOTHING, 0.0, [], []), [], repetitions, clock)
  {
    assert RoundsAt(world, level, []) == [];
  }

  lemma StartIsEven(s: Snapshot, level: nat)
    requires Even(s) && Extends(s.saved, s.moments) && level !in s.moments
    ensures var t := s.(moments := s.moments[level := []]); Even(t) && Extends(s.saved, t.moments)
    ensures Straight(s, s.(moments := s.moments[level := []]), level)
  {
    NoMoments([], s.clock);
  }

  lemma StartOfLevel(world: World, s: Snapshot, level: nat, repetitions: nat)
    requires Loaded(world, s, repetitions) && level !in s.progress
    ensures var t := s.(progress := s.progress[level := Item(0, NOTHING, 0.0, [], [])], moments := s.moments[level := []]);
            Advanced(world, s, t, level, repetitions) && Onward(world, s, t, repetitions) && Straight(s, t, level)
  {
    hide Saved, Level, Upto, RoundsAt, ItemOf;
    var item := Item(0, NOTHING, 0.0, [], []);
    var t := s.(progress := s.progress[level := item], moments := s.moments[level := []]);
    EmptyLevel(world, level, repetitions, s.clock);
    SavedIsLoaded(world, s, t, repetitions, level, item, []);
    StartIsEven(s, level);
    Delayed(world, s, t, repetitions);
  }

  // ---- Whole runs ---------------------------------------------------------------------------------------

  predicate Distinct(levels: seq<nat>) {
    forall i, j :: 0 <= i < j < |levels| ==> levels[i] != levels[j]
  }

  /** Every level stands at its full number of repetitions. */
  ghost predicate Complete(world: World, s: Snapshot, levels: seq<nat>, repetitions: nat) {
    && Loaded(world, s, repetitions)
    && forall level :: level in levels ==> level in s.progress && s.progress[level].next == repetitions
  }

  lemma {:induction false} StageFrame(levels: seq<nat>, items: Progress, others: Progress)
    requires forall level :: level in levels ==> level in items && level in others && items[level] == others[level]
    ensures StageOf(levels, items) == StageOf(levels, others)
  {
    if levels != [] { StageFrame(levels[..|levels| - 1], items, others); }
  }

  lemma StageNext(levels: seq<nat>, i: nat, items: Progress, others: Progress)
    requires i < |levels| && Distinct(levels) && others - {levels[i]} == items - {levels[i]} && levels[i] in others
    requires forall level :: level in levels[..i] ==> level in items
    ensures forall level :: level in levels[..i] ==> level in others && others[level] == items[level]
    ensures forall level :: level in levels[..i + 1] ==> level in others
    ensures var before := StageOf(levels[..i], items); var item := others[levels[i]];
            StageOf(levels[..i + 1], others)
            == Stage(before.passed && item.totals.errors == 0 && Drained(item),
                     before.samples + item.totals.samples, before.cold + item.totals.cold,
                     before.warm + item.totals.warm, before.errors + item.totals.errors, before.levels[levels[i] := item])
  {
    forall level | level in levels[..i] ensures level in others && others[level] == items[level] {
      var k :| 0 <= k < i && levels[..i][k] == level;
      assert levels[k] != levels[i];
      assert level in items - {levels[i]};
      assert level in others - {levels[i]} && (others - {levels[i]})[level] == others[level];
      assert (items - {levels[i]})[level] == items[level];
    }
    assert levels[..i + 1] == levels[..i] + [levels[i]];
    assert levels[..i + 1][..i] == levels[..i];
    StageFrame(levels[..i], items, others);
  }

  /** The repetitions that the state of these levels stands for. */
  ghost function Size(levels: seq<nat>, moments: Moments): nat {
    if levels == [] then 0 else Size(levels[..|levels| - 1], moments) + Level(moments, levels[|levels| - 1])
  }

  /** A level that gains is a gain of all levels together, because none loses. */
  lemma {:induction false} SizeGains(levels: seq<nat>, before: Moments, after: Moments, level: nat)
    requires Extends(before, after)
    ensures Size(levels, before) <= Size(levels, after)
    ensures level in levels ==> Level(after, level) - Level(before, level) <= Size(levels, after) - Size(levels, before)
  {
    if levels != [] {
      SizeGains(levels[..|levels| - 1], before, after, level);
      assert levels == levels[..|levels| - 1] + [levels[|levels| - 1]];
    }
  }

  lemma {:induction false} SizeComplete(levels: seq<nat>, moments: Moments, repetitions: nat)
    requires forall level :: level in levels ==> Level(moments, level) == repetitions
    ensures Size(levels, moments) == |levels| * repetitions
  {
    if levels != [] {
      SizeComplete(levels[..|levels| - 1], moments, repetitions);
      Product(|levels| - 1, repetitions);
    }
  }

  /** All executed repetitions are in the file, but for `lost`. */
  ghost predicate Accounted(levels: seq<nat>, s: Snapshot, lost: nat) {
    s.clock <= Size(levels, s.saved) + lost
  }

  lemma PaidInFull(world: World, levels: seq<nat>, s: Snapshot, t: Snapshot, level: nat, repetitions: nat, lost: nat, more: nat)
    requires Accounted(levels, s, lost) && Onward(world, s, t, repetitions) && level in levels && Paid(level, s, t, more)
    ensures Accounted(levels, t, lost + more)
  {
    SizeGains(levels, s.saved, t.saved, level);
  }

  /** How many levels are configured before this one. */
  ghost function Before(levels: seq<nat>, level: nat): nat {
    if levels == [] || levels[0] == level then 0 else 1 + Before(levels[1..], level)
  }

  lemma {:induction false} BeforeIs(levels: seq<nat>, i: nat)
    requires Distinct(levels) && i < |levels|
    ensures Before(levels, levels[i]) == i
  {
    if i > 0 {
      BeforeIs(levels[1..], i - 1);
      assert levels[1..][i - 1] == levels[i] != levels[0];
    }
  }

  /** When one process executes that never dies: each repetition as soon as the one before it is done. */
  ghost function StraightOn(levels: seq<nat>, repetitions: nat): (moments: Moments)
    ensures moments.Keys == set level | level in levels
    ensures forall level :: level in levels ==> |moments[level]| == repetitions
  {
    map level | level in levels :: Upto(Before(levels, level) * repetitions, repetitions)
  }

  /** The first levels were executed like that, and nothing else was. */
  ghost predicate StraightOnUntil(levels: seq<nat>, i: nat, repetitions: nat, s: Snapshot)
    requires i <= |levels|
  {
    && s.clock == i * repetitions && s.moments.Keys == (set k | 0 <= k < i :: levels[k])
    && forall k :: 0 <= k < i ==> s.moments[levels[k]] == Upto(k * repetitions, repetitions)
  }

  lemma StraightOnNext(world: World, levels: seq<nat>, i: nat, repetitions: nat, s: Snapshot, t: Snapshot)
    requires i < |levels| && Distinct(levels) && StraightOnUntil(levels, i, repetitions, s)
    requires Advanced(world, s, t, levels[i], repetitions) && Straight(s, t, levels[i])
    requires |t.moments[levels[i]]| == repetitions
    ensures StraightOnUntil(levels, i + 1, repetitions, t)
  {
    hide Loaded, Upto;
    var level := levels[i];
    assert level !in s.moments;
    assert [] + Upto(s.clock, t.clock - s.clock) == Upto(s.clock, t.clock - s.clock);
    assert t.clock - s.clock == repetitions;
    Product(i, repetitions);
    forall k | 0 <= k < i ensures levels[k] in t.moments && t.moments[levels[k]] == s.moments[levels[k]] {
      assert levels[k] != level && levels[k] in s.moments - {level} && levels[k] in t.moments - {level};
      assert (t.moments - {level})[levels[k]] == (s.moments - {level})[levels[k]];
    }
    assert forall l :: l in t.moments && l != level ==> l in t.moments - {level};
    assert forall l :: l in s.moments - {level} ==> l in s.moments;
    assert t.moments.Keys == set k | 0 <= k < i + 1 :: levels[k];
  }

  lemma StraightOnToEnd(levels: seq<nat>, repetitions: nat, s: Snapshot)
    requires Distinct(levels) && StraightOnUntil(levels, |levels|, repetitions, s)
    ensures s.moments == StraightOn(levels, repetitions)
  {
    hide Upto;
    var m := StraightOn(levels, repetitions);
    assert forall k :: 0 <= k < |levels| ==> levels[k] in levels;
    forall level | level in levels ensures level in s.moments && s.moments[level] == m[level] {
      var k :| 0 <= k < |levels| && levels[k] == level;
      BeforeIs(levels, k);
    }
  }

  method Run(c: Checkpoint, world: World, levels: seq<nat>, repetitions: nat, batch: nat, ghost lost: nat)
    returns (died: bool, stage: Stage)
    requires batch > 0 && Distinct(levels) && Loaded(world, c.Now(), repetitions) && Accounted(levels, c.Now(), lost)
    modifies c
    ensures Onward(world, old(c.Now()), c.Now(), repetitions)
    ensures Accounted(levels, c.Now(), lost + if died then batch else 0)
    ensures !died ==> Complete(world, c.Now(), levels, repetitions) && stage == StageOf(levels, c.progress)
    ensures !died && StraightOnUntil(levels, 0, repetitions, old(c.Now())) ==>
              StraightOnUntil(levels, |levels|, repetitions, c.Now())
  {
    hide Loaded, Onward, Advanced, StageOf, Valid, Accounted, Paid, Straight, StraightOnUntil;
    ghost var start := c.Now();
    stage := Stage(true, [], [], [], 0, map[]);
    NoStage(c.progress);
    OnwardItself(world, c.Now(), repetitions);
    for i := 0 to |levels|
      invariant Onward(world, old(c.Now()), c.Now(), repetitions) && Loaded(world, c.Now(), repetitions)
      invariant Accounted(levels, c.Now(), lost)
      invariant StraightOnUntil(levels, 0, repetitions, start) ==> StraightOnUntil(levels, i, repetitions, c.Now())
      invariant forall level :: level in levels[..i] ==> level in c.progress && c.progress[level].next == repetitions
      invariant stage == StageOf(levels[..i], c.progress)
    {
      var level := levels[i];
      ghost var s := c.Now();
      died := RunLevel(c, world, level, repetitions, batch);
      OnwardTwice(world, old(c.Now()), s, c.Now(), repetitions);
      PaidInFull(world, levels, s, c.Now(), level, repetitions, lost, if died then batch else 0);
      if died { return; }
      AdvancedMeans(world, s, c.Now(), level, repetitions);
      if StraightOnUntil(levels, i, repetitions, s) { StraightOnNext(world, levels, i, repetitions, s, c.Now()); }
      StageNext(levels, i, s.progress, c.progress);
      var item := c.progress[level];
      stage := Stage(stage.passed && item.totals.errors == 0 && Drained(item),
                     stage.samples + item.totals.samples, stage.cold + item.totals.cold,
                     stage.warm + item.totals.warm, stage.errors + item.totals.errors, stage.levels[level := item]);
    }
    died := false;
    assert levels[..|levels|] == levels;
  }

  lemma NoStage(items: Progress)
    ensures StageOf([], items) == Stage(true, [], [], [], 0, map[])
  {
  }

  // ---- Campaigns ----------------------------------------------------------------------------------------

  /** Each repetition of each level was executed once for good, in order, among `executed` executions. */
  ghost predicate Finished(levels: seq<nat>, repetitions: nat, moments: Moments, executed: nat) {
    forall level :: level in levels ==>
      level in moments && |moments[level]| == repetitions && Ordered(moments[level], executed)
  }

  /** What is reported when the repetitions were executed at these moments. */
  ghost function Report(levels: seq<nat>, world: World, moments: Moments): Stage
    requires forall level :: level in levels ==> level in moments
  {
    StageOf(levels, map level | level in levels :: ItemOf(level, RoundsAt(world, level, moments[level])))
  }

  /** Executing a repetition gives the same whenever it is done. */
  ghost predicate Steady(world: World) {
    forall at, level, repetition :: RoundAt(world, at, level, repetition) == RoundAt(world, 0, level, repetition)
  }

  /** What one process reports that never dies: every repetition is executed as soon as the one before it is done. */
  ghost function Undisturbed(levels: seq<nat>, repetitions: nat, world: World): Stage {
    Report(levels, world, StraightOn(levels, repetitions))
  }

  /**
   * Processes are started one after the other until one of them gets to the end. Wherever they die,
   * what is reported comes from exactly one execution of each repetition, in order; a death costs at
   * most one batch; and if outcomes do not depend on the moment, no trace of the deaths is left.
   */
  method Campaign(levels: seq<nat>, repetitions: nat, batch: nat, processes: nat, world: World)
    returns (stage: Option<Stage>, executed: nat, deaths: nat, ghost moments: Moments)
    requires batch > 0 && Distinct(levels)
    ensures deaths <= processes && (stage.None? ==> deaths == processes)
    ensures stage.Some? ==> Finished(levels, repetitions, moments, executed) && stage.value == Report(levels, world, moments)
    ensures stage.Some? ==> executed <= |levels| * repetitions + deaths * batch
    ensures stage.Some? && (deaths == 0 || Steady(world)) ==> stage.value == Undisturbed(levels, repetitions, world)
  {
    hide StageOf, Report, Steady, ItemOf, Loaded, Accounted, RoundAt, RoundsAt, Complete, Ordered;
    var c := new Checkpoint();
    stage, deaths, moments := None, 0, map[];
    FreshStart(world, levels, c.Now(), repetitions);
    for i := 0 to processes
      invariant Valid(world, c.Now(), repetitions) && deaths == i && Accounted(levels, c.Now(), deaths * batch)
      invariant deaths == 0 ==> c.Now() == Snapshot(map[], map[], map[], map[], 0)
    {
      ghost var before := c.Now();
      c.Load();
      FreshlyLoaded(world, levels, before, c.Now(), repetitions, deaths * batch);
      var died, result := Run(c, world, levels, repetitions, batch, deaths * batch);
      if !died {
        CompleteMeans(world, c.Now(), levels, repetitions);
        WorkDone(world, c.Now(), levels, repetitions, deaths * batch);
        if deaths == 0 { StraightOnToEnd(levels, repetitions, c.Now()); }
        if Steady(world) { CrashesAreTransparent(levels, repetitions, world, c.moments); }
        return Some(result), c.clock, deaths, c.moments;
      }
      Product(deaths, batch);
      deaths := deaths + 1;
    }
    executed := c.clock;
  }

  lemma FreshStart(world: World, levels: seq<nat>, s: Snapshot, repetitions: nat)
    requires s == Snapshot(map[], map[], map[], map[], 0)
    ensures Valid(world, s, repetitions) && Accounted(levels, s, 0)
  {
  }

  lemma FreshlyLoaded(world: World, levels: seq<nat>, s: Snapshot, t: Snapshot, repetitions: nat, lost: nat)
    requires Valid(world, s, repetitions) && Accounted(levels, s, lost) && t == s.(progress := s.file, moments := s.saved)
    ensures Loaded(world, t, repetitions) && Accounted(levels, t, lost)
  {
  }

  /** A complete snapshot reports what its moments say. */
  lemma CompleteMeans(world: World, s: Snapshot, levels: seq<nat>, repetitions: nat)
    requires Complete(world, s, levels, repetitions)
    ensures Finished(levels, repetitions, s.moments, s.clock)
    ensures StageOf(levels, s.progress) == Report(levels, world, s.moments)
  {
    hide ItemOf, RoundsAt, StageOf, Loaded, Ordered;
    forall level | level in levels
      ensures level in s.moments && |s.moments[level]| == repetitions && Ordered(s.moments[level], s.clock)
      ensures s.progress[level] == ItemOf(level, RoundsAt(world, level, s.moments[level]))
    {
      LoadedIsSaved(world, s, repetitions, level);
    }
    StageFrame(levels, s.progress, map level | level in levels :: ItemOf(level, RoundsAt(world, level, s.moments[level])));
  }

  lemma WorkDone(world: World, s: Snapshot, levels: seq<nat>, repetitions: nat, lost: nat)
    requires Complete(world, s, levels, repetitions) && Accounted(levels, s, lost)
    ensures s.clock <= |levels| * repetitions + lost
  {
    forall level | level in levels ensures Level(s.saved, level) == repetitions {
      LoadedIsSaved(world, s, repetitions, level);
    }
    SizeComplete(levels, s.saved, repetitions);
  }

  /** If outcomes do not depend on the moment, neither does what is reported. */
  lemma CrashesAreTransparent(levels: seq<nat>, repetitions: nat, world: World, moments: Moments)
    requires Steady(world) && forall level :: level in levels ==> level in moments && |moments[level]| == repetitions
    ensures Report(levels, world, moments) == Undisturbed(levels, repetitions, world)
  {
    hide StageOf, ItemOf, RoundAt, StraightOn;
    var others := StraightOn(levels, repetitions);
    forall level | level in levels ensures RoundsAt(world, level, moments[level]) == RoundsAt(world, level, others[level]) {
      forall r: nat | r < repetitions
        ensures RoundAt(world, moments[level][r], level, r) == RoundAt(world, others[level][r], level, r)
      {
        assert RoundAt(world, moments[level][r], level, r) == RoundAt(world, 0, level, r);
        assert RoundAt(world, others[level][r], level, r) == RoundAt(world, 0, level, r);
      }
    }
    StageFrame(levels,
      map level | level in levels :: ItemOf(level, RoundsAt(world, level, moments[level])),
      map level | level in levels :: ItemOf(level, RoundsAt(world, level, others[level])));
  }

  // ---- What a report says -------------------------------------------------------------------------------

  function Sum(levels: seq<nat>): nat {
    if levels == [] then 0 else Sum(levels[..|levels| - 1]) + levels[|levels| - 1]
  }

  lemma {:induction false} ReportNext(levels: seq<nat>, world: World, moments: Moments)
    requires levels != [] && forall level :: level in levels ==> level in moments
    ensures var n := |levels| - 1;
            var before := Report(levels[..n], world, moments);
            var item := ItemOf(levels[n], RoundsAt(world, levels[n], moments[levels[n]]));
            && Report(levels, world, moments).passed == (before.passed && item.totals.errors == 0 && Drained(item))
            && Report(levels, world, moments).samples == before.samples + item.totals.samples
            && Report(levels, world, moments).cold == before.cold + item.totals.cold
            && Report(levels, world, moments).warm == before.warm + item.totals.warm
            && Report(levels, world, moments).errors == before.errors + item.totals.errors
            && Report(levels, world, moments).levels == before.levels[levels[n] := item]
  {
    hide ItemOf, RoundsAt, Drained;
    var n := |levels| - 1;
    StageFrame(levels[..n],
      map level | level in levels :: ItemOf(level, RoundsAt(world, level, moments[level])),
      map level | level in levels[..n] :: ItemOf(level, RoundsAt(world, level, moments[level])));
  }

  /** A finished campaign always has the configured number of samples, and the cold ones are one per slot. */
  lemma {:induction false} SampleCountMatches(levels: seq<nat>, repetitions: nat, world: World, moments: Moments)
    requires forall level :: level in levels ==> level in moments && |moments[level]| == repetitions
    ensures var stage := Report(levels, world, moments);
            && |stage.samples| == repetitions * Sum(levels) == |stage.cold| + |stage.warm|
            && (repetitions > 0 ==> |stage.cold| == Sum(levels))
    decreases |levels|
  {
    hide ItemOf, RoundsAt, Genuine, Report;
    if levels != [] {
      var n := |levels| - 1;
      SampleCountMatches(levels[..n], repetitions, world, moments);
      ReportNext(levels, world, moments);
      var level := levels[n];
      var rounds := RoundsAt(world, level, moments[level]);
      ItemShape(level, rounds);
      Distribute(repetitions, Sum(levels[..n]), level);
      if repetitions > 0 { assert Genuine(level, 0, rounds[0]); GenuineSize(level, 0, rounds[0]); }
    } else {
      NoReport(world, moments);
    }
  }

  lemma NoReport(world: World, moments: Moments)
    ensures Report([], world, moments) == Stage(true, [], [], [], 0, map[])
  {
  }

  lemma GenuineSize(level: nat, repetition: nat, round: Round)
    requires Genuine(level, repetition, round)
    ensures |ElapsedOf(round.outcomes)| == level
  {
  }

  lemma Distribute(a: nat, b: nat, c: nat)
    ensures a * (b + c) == a * b + a * c
  {
  }

  predicate Clean(round: Round) {
    round.queued == Some(0) && round.running == Some(0) && AllWell(round.outcomes)
  }

  /** A finished campaign passes exactly when no attempt failed and the queue was empty after every repetition. */
  lemma {:induction false} PassedIff(levels: seq<nat>, repetitions: nat, world: World, moments: Moments)
    requires forall level :: level in levels ==> level in moments && |moments[level]| == repetitions
    ensures Report(levels, world, moments).passed
            <==> forall level, r: nat :: level in levels && r < repetitions ==> Clean(RoundAt(world, moments[level][r], level, r))
    decreases |levels|
  {
    hide Report, ItemOf, RoundAt, Clean, RoundsAt;
    if levels != [] {
      var n := |levels| - 1;
      var level := levels[n];
      PassedIff(levels[..n], repetitions, world, moments);
      ReportNext(levels, world, moments);
      CleanLevel(world, level, moments[level]);
      assert levels == levels[..n] + [level];
    } else {
      NoReport(world, moments);
    }
  }

  lemma CleanLevel(world: World, level: nat, moments: seq<nat>)
    ensures var item := ItemOf(level, RoundsAt(world, level, moments));
            item.totals.errors == 0 && Drained(item)
            <==> forall r: nat :: r < |moments| ==> Clean(RoundAt(world, moments[r], level, r))
  {
    hide RoundAt, Clean, ItemOf, Genuine;
    var rounds := RoundsAt(world, level, moments);
    assert forall r: nat :: r < |rounds| ==> rounds[r] == RoundAt(world, moments[r], level, r);
    CleanItem(level, rounds);
  }

  lemma CleanItem(level: nat, rounds: seq<Round>)
    requires AllGenuine(level, rounds)
    ensures ItemOf(level, rounds).totals.errors == 0 && Drained(ItemOf(level, rounds))
            <==> forall r: nat :: r < |rounds| ==> Clean(rounds[r])
  {
    hide ItemOf, AllGenuine, AllWell;
    NoErrorsIff(level, rounds);
    ItemShape(level, rounds);
    var bursts := ItemOf(level, rounds).bursts;
    forall r: nat | r < |rounds| ensures bursts[r] == BurstOf(level, r, rounds[r]) {
      BurstAt(level, rounds, r);
    }
    assert forall b :: b in bursts <==> exists r: nat :: r < |rounds| && bursts[r] == b;
    assert Drained(ItemOf(level, rounds)) <==> forall r: nat :: r < |rounds| ==> bursts[r].drained;
  }
}
