/**
 * When a benchmark's scratch directory may be deleted: only after every thread the benchmark owns
 * has ended and no HTTP handler is active. While the checks run, threads and handlers may still
 * register threads, and closing the application only stops those that test for it.
 */
module ScratchReaper {
  /** `spawner`: the code of the thread can register further threads. */
  datatype Thread = Thread(id: nat, spawner: bool)

  /**
   * HTTP handlers; or helper threads that the owner does not list, such as a timer that has taken
   * itself off the list, or the thread that wakes queued jobs after a release of resources.
   */
  datatype Outside = Absent | Present | Busy

  /**
   * The threads ever listed by the owner, those running and those registered but not yet started.
   * Busy ones have passed their last test for shutdown and have a thread to register or to start.
   * `shut`: everything that registers threads has been told to shut down.
   */
  datatype World = World(
    registered: set<Thread>, running: set<Thread>, starting: set<Thread>, busy: set<Thread>,
    handlers: Outside, helpers: Outside, shut: bool)

  predicate Live(w: World, t: Thread) {
    t in w.running || t in w.starting
  }

  predicate SomeoneBusy(w: World) {
    (exists t :: t in w.running && t in w.busy) || w.handlers.Busy? || w.helpers.Busy?
  }

  /** Somebody may still register a thread: whoever is busy, and before shutdown whoever can. */
  predicate MayRegister(w: World) {
    || SomeoneBusy(w)
    || (!w.shut && ((exists t :: t in w.running && t.spawner) || !w.handlers.Absent? || !w.helpers.Absent?))
  }

  predicate Sane(w: World) {
    && w.running <= w.registered && w.starting <= w.registered && w.running !! w.starting
    && w.busy <= w.registered && w.busy !! w.starting && (forall t :: t in w.busy ==> t.spawner)
    && (w.starting != {} ==> SomeoneBusy(w))
  }

  /**
   * What can happen in the background: threads start and end for good, handlers finish for good,
   * and while somebody may, threads are registered. After shutdown nobody else becomes busy.
   */
  predicate Evolves(w: World, v: World) {
    && w.registered <= v.registered
    && (forall t :: t in w.registered && !Live(w, t) ==> !Live(v, t))
    && w.running !! v.starting
    && (v.registered != w.registered ==> MayRegister(w))
    && (w.handlers.Absent? ==> v.handlers.Absent?)
    && (w.helpers.Absent? && !MayRegister(w) ==> v.helpers.Absent?)
    && (w.shut ==> v.shut && v.busy <= w.busy)
    && (w.shut && v.handlers.Busy? ==> w.handlers.Busy?)
    && (w.shut && v.helpers.Busy? ==> w.helpers.Busy?)
  }

  /** A snapshot lists at least the registered threads that run or are about to start. */
  predicate Shows(w: World, snapshot: set<Thread>) {
    w.running + w.starting <= snapshot <= w.registered
  }

  /** What a check between `w` and `v` finds: whatever was running has ended, and no handler is active. */
  predicate Checked(w: World, threads: set<Thread>, v: World) {
    Found(w, threads, v) && v.handlers.Absent?
  }

  /** Each of the threads was found not to be running at some moment between `w` and `v`. */
  predicate Found(w: World, threads: set<Thread>, v: World) {
    forall t :: t in threads && t in w.running ==> !Live(v, t)
  }

  /** Nothing the benchmark owns is running or about to run. */
  predicate Quiescent(w: World) {
    w.running == {} && w.starting == {} && w.handlers.Absent?
  }

  lemma MayRegisterBefore(w: World, v: World)
    requires Sane(w) && Sane(v) && Evolves(w, v) && MayRegister(v)
    ensures MayRegister(w)
  {
    if !w.helpers.Absent? && v.helpers.Busy? {
      assert !w.shut || w.helpers.Busy?;
    } else if v.handlers.Busy? {
      assert !w.shut || w.handlers.Busy?;
    } else if t :| t in v.running && (t in v.busy || (!v.shut && t.spawner)) {
      if t in w.registered { assert Live(w, t); }
    }
  }

  lemma EvolvesTwice(u: World, v: World, w: World)
    requires Sane(u) && Sane(v) && Sane(w) && Evolves(u, v) && Evolves(v, w)
    ensures Evolves(u, w)
  {
    if MayRegister(v) { MayRegisterBefore(u, v); }
  }

  lemma EvolvesItself(w: World)
    requires Sane(w)
    ensures Evolves(w, w)
  {
  }

  // ---- What snapshots prove -----------------------------------------------------------------------------

  lemma NobodyRegisters(w: World, v: World)
    requires Sane(w) && Sane(v) && Evolves(w, v) && !MayRegister(w)
    ensures v.registered == w.registered && v.running <= w.running && v.starting == {} && !MayRegister(v)
  {
    if MayRegister(v) { MayRegisterBefore(w, v); }
    assert forall t :: t in v.running ==> Live(w, t);
  }

  lemma ThenQuiescent(w: World, snapshot: set<Thread>, v: World)
    requires Sane(w) && Sane(v) && Evolves(w, v) && !MayRegister(w) && Shows(w, snapshot) && Checked(w, snapshot, v)
    ensures Quiescent(v)
  {
    NobodyRegisters(w, v);
    assert forall t :: t in v.running ==> t in w.running;
  }

  lemma FreshId(threads: set<Thread>) returns (n: nat)
    ensures forall t :: t in threads ==> t.id < n
    decreases threads
  {
    n := 0;
    if t :| t in threads {
      var m := FreshId(threads - {t});
      assert forall u :: u in threads && u != t ==> u in threads - {t};
      n := if t.id < m then m else t.id + 1;
    }
  }

  /** Everything listed so far has ended, no handler is active, and one new thread runs. */
  function OneRuns(w: World, child: Thread): World {
    World(w.registered + {child}, {child}, {}, {}, Absent, Absent, w.shut)
  }

  lemma LateChild(w: World, spawner: bool) returns (child: Thread, v: World)
    requires Sane(w) && MayRegister(w)
    ensures v == OneRuns(w, child) && child.spawner == spawner && child !in w.registered
    ensures Sane(v) && Evolves(w, v) && !Quiescent(v)
    ensures forall threads :: Checked(w, threads, v)
  {
    var id := FreshId(w.registered);
    child := Thread(id, spawner);
    v := OneRuns(w, child);
    assert child in v.running;
  }

  /**
   * One snapshot followed by a check is conclusive exactly when nobody could register a thread at
   * the time of the snapshot.
   */
  lemma OneSnapshotSufficesIff(w: World, snapshot: set<Thread>)
    requires Sane(w) && Shows(w, snapshot)
    ensures (forall v: World :: Sane(v) && Evolves(w, v) && Checked(w, snapshot, v) ==> Quiescent(v))
            <==> !MayRegister(w)
  {
    if MayRegister(w) {
      var child, v := LateChild(w, false);
      assert Checked(w, snapshot, v);
    } else {
      forall v: World | Sane(v) && Evolves(w, v) && Checked(w, snapshot, v) ensures Quiescent(v) {
        ThenQuiescent(w, snapshot, v);
      }
    }
  }

  /** A first check of `first` between `w` and `ended`, a later snapshot in `x`, and its check until `v`. */
  predicate CheckedTwice(w: World, first: set<Thread>, ended: World, x: World, second: set<Thread>, v: World) {
    && Sane(ended) && Sane(x) && Sane(v)
    && Evolves(w, ended) && Checked(w, first, ended)
    && Evolves(ended, x) && Shows(x, second)
    && Evolves(x, v) && Checked(x, second, v)
  }

  /** After shutdown, and with no helper busy, nobody is left who could register once a check has passed. */
  lemma FirstCheckDrains(w: World, first: set<Thread>, ended: World)
    requires Sane(w) && Sane(ended) && Shows(w, first) && Evolves(w, ended) && Checked(w, first, ended)
    requires w.shut && !w.helpers.Busy?
    ensures !MayRegister(ended)
  {
    forall t | t in ended.running ensures t !in ended.busy {
      assert t in w.busy ==> t in w.registered && t !in w.starting;
      assert t in w.registered ==> Live(w, t);
    }
  }

  /**
   * A second snapshot, taken after a first check has passed and then checked too, is conclusive
   * exactly when nobody could register at the first snapshot, or shutdown had begun by then and no
   * unlisted helper was busy.
   */
  lemma TwoSnapshotsSufficeIff(w: World, first: set<Thread>)
    requires Sane(w) && Shows(w, first)
    ensures (forall ended: World, x: World, second: set<Thread>, v: World ::
               CheckedTwice(w, first, ended, x, second, v) ==> Quiescent(v))
            <==> !MayRegister(w) || (w.shut && !w.helpers.Busy?)
  {
    if !MayRegister(w) || (w.shut && !w.helpers.Busy?) {
      forall ended: World, x: World, second: set<Thread>, v: World | CheckedTwice(w, first, ended, x, second, v)
        ensures Quiescent(v)
      {
        TwoSnapshotsSuffice(w, first, ended, x, second, v);
      }
    } else if w.shut {
      var ended := World(w.registered, {}, {}, {}, Absent, Busy, true);
      var child, v := LateChild(ended, false);
      EvolvesItself(ended);
      assert CheckedTwice(w, first, ended, ended, {}, v);
    } else {
      GrandchildrenEscape(w, first);
    }
  }

  lemma TwoSnapshotsSuffice(w: World, first: set<Thread>, ended: World, x: World, second: set<Thread>, v: World)
    requires Sane(w) && Shows(w, first) && CheckedTwice(w, first, ended, x, second, v)
    requires !MayRegister(w) || (w.shut && !w.helpers.Busy?)
    ensures Quiescent(v)
  {
    if MayRegister(w) { FirstCheckDrains(w, first, ended); } else { NobodyRegisters(w, ended); }
    NobodyRegisters(ended, x);
    ThenQuiescent(x, second, v);
  }

  /** Before shutdown a grandchild can outlive both checks, without any handler or helper. */
  lemma GrandchildrenEscape(w: World, first: set<Thread>)
    requires Sane(w) && Shows(w, first) && !w.shut && MayRegister(w)
    ensures exists ended: World, second: set<Thread>, v: World ::
              && CheckedTwice(w, first, ended, ended, second, v)
              && ended.handlers.Absent? && ended.helpers.Absent? && !Quiescent(v)
  {
    var child, ended := LateChild(w, true);
    EvolvesItself(ended);
    assert child in ended.running;
    var grandchild, v := LateChild(ended, false);
    assert CheckedTwice(w, first, ended, ended, {child}, v);
  }

  // ---- The checks as they run -----------------------------------------------------------------------------

  method Ask<T(0)>() returns (answer: T) {
    answer := *;
  }

  class Machine {
    var world: World

    /** Time passes: anything that can happen may have happened. */
    method Background()
      requires Sane(world)
      modifies this
      ensures Sane(world) && Evolves(old(world), world)
    {
      EvolvesItself(world);
      var later := Ask<World>();
      if Sane(later) && Evolves(world, later) { world := later; }
    }

    /** The threads that the owner knows of at this moment. */
    method OwnedThreads() returns (snapshot: set<Thread>)
      requires Sane(world)
      modifies this
      ensures Sane(world) && Evolves(old(world), world) && Shows(world, snapshot)
    {
      Background();
      var gone := Ask<set<Thread>>();
      snapshot := world.running + world.starting + (world.registered * gone);
    }

    /** The threads are asked one after the other whether they are running. */
    method AnyAlive(threads: set<Thread>) returns (any: bool)
      requires Sane(world)
      modifies this
      ensures Sane(world) && Evolves(old(world), world)
      ensures !any ==> Found(old(world), threads, world)
    {
      var pending := threads;
      EvolvesItself(world);
      while pending != {}
        invariant Sane(world) && Evolves(old(world), world)
        invariant pending <= threads && Found(old(world), threads - pending, world)
        decreases pending
      {
        var t :| t in pending;
        ghost var before := world;
        Background();
        EvolvesTwice(old(world), before, world);
        FoundLater(old(world), threads - pending, before, world);
        if t in world.running { return true; }
        assert threads - (pending - {t}) == threads - pending + {t};
        pending := pending - {t};
      }
      any := false;
    }

    method HandlersActive() returns (active: bool)
      requires Sane(world)
      modifies this
      ensures Sane(world) && Evolves(old(world), world) && active == !world.handlers.Absent?
    {
      Background();
      active := !world.handlers.Absent?;
    }

    /** Waits for the handlers, polling until a deadline. */
    method WaitForHandlers(polls: nat) returns (stopped: bool)
      requires Sane(world)
      modifies this
      ensures Sane(world) && Evolves(old(world), world) && (stopped ==> world.handlers.Absent?)
    {
      EvolvesItself(world);
      for i := 0 to polls
        invariant Sane(world) && Evolves(old(world), world)
      {
        ghost var before := world;
        var active := HandlersActive();
        EvolvesTwice(old(world), before, world);
        if !active { return true; }
      }
      stopped := false;
    }

    /**
     * The end of a run: `true` means that the scratch is deleted, `false` that it is retained. The
     * snapshot is taken once, in the state `seen`.
     */
    method CleanupScratch(prior: set<Thread>, related: set<Thread>, polls: nat)
      returns (deleted: bool, observed: set<Thread>, ghost seen: World)
      requires Sane(world) && prior <= world.registered && related <= world.registered
      modifies this
      ensures Sane(world) && Evolves(old(world), seen) && Evolves(seen, world)
      ensures Sane(seen) && Shows(seen, observed) && prior + related <= observed
      ensures deleted ==> Checked(seen, observed, world)
      ensures deleted && !MayRegister(seen) ==> Quiescent(world)
    {
      var current := OwnedThreads();
      observed := prior + current + related;
      seen := world;
      var active := HandlersActive();
      var stopped := true;
      ghost var asked := world;
      if active {
        stopped := WaitForHandlers(polls);
        EvolvesTwice(seen, asked, world);
      }
      ghost var waited := world;
      var alive := AnyAlive(observed);
      EvolvesTwice(seen, waited, world);
      deleted := !alive && stopped;
      if deleted {
        FoundSince(seen, observed, waited, world);
        if !MayRegister(seen) { ThenQuiescent(seen, observed, world); }
      }
    }

    /** Take a snapshot, ask every thread seen so far, then ask for active handlers. */
    method Look(before: set<Thread>) returns (observed: set<Thread>, passed: bool, ghost seen: World)
      requires Sane(world) && before <= world.registered
      modifies this
      ensures Sane(seen) && Sane(world) && Evolves(old(world), seen) && Evolves(seen, world)
      ensures before <= observed && Shows(seen, observed)
      ensures passed ==> Checked(seen, observed, world)
    {
      var current := OwnedThreads();
      observed := before + current;
      seen := world;
      var live := AnyAlive(observed);
      ghost var w := world;
      var active := HandlersActive();
      EvolvesTwice(seen, w, world);
      passed := !live && !active;
      if passed { FoundLater(seen, observed, w, world); }
    }

    /**
     * One retained scratch: look until everything has ended, confirm that with a second look, or take
     * a last snapshot when time is up. `seen` is the state of the snapshot that decided; with
     * `Waiting` the reaper is still at work.
     */
    method Reap(prior: set<Thread>, related: set<Thread>, rounds: nat)
      returns (outcome: Outcome, observed: set<Thread>, ghost seen: World)
      requires Sane(world) && prior <= world.registered && related <= world.registered
      modifies this
      ensures Sane(world) && Evolves(old(world), world) && prior + related <= observed <= world.registered
      ensures outcome.Deleted? ==>
                && Sane(seen) && Evolves(old(world), seen) && Evolves(seen, world)
                && Shows(seen, observed) && Checked(seen, observed, world)
      ensures outcome.Deleted? && !MayRegister(seen) ==> Quiescent(world)
      ensures outcome == Deleted(true) && old(world).shut && !old(world).helpers.Busy? ==> Quiescent(world)
    {
      hide Found, Quiescent, MayRegister, SomeoneBusy, Sane;
      observed := prior + related;
      seen := world;
      ghost var start, before, ended, first := world, world, world, {};
      EvolvesItself(world);
      var confirmed, decided, round := false, false, 0;
      while !decided && round < rounds
        invariant Sane(world) && Evolves(start, world) && prior + related <= observed <= world.registered
        invariant decided ==> Sane(seen) && Evolves(start, seen) && Evolves(seen, world) && Shows(seen, observed)
        invariant confirmed ==> decided && Passed(start, before, first, ended) && Evolves(ended, seen)
      {
        round := round + 1;
        ghost var w0 := world;
        var passed;
        observed, passed, before := Look(observed);
        EvolvesTwice(start, w0, before);
        EvolvesTwice(start, before, world);
        first, ended := observed, world;
        if passed {
          observed, confirmed, seen := Look(observed);
          EvolvesTwice(start, ended, seen);
          EvolvesTwice(start, seen, world);
          decided := confirmed;
        } else {
          var expired := Ask<bool>();
          if expired {
            var last := OwnedThreads();
            observed, seen, decided := observed + last, world, true;
            EvolvesItself(world);
          } else {
            Background();
          }
          EvolvesTwice(start, ended, world);
        }
      }
      if !decided { return Waiting, observed, seen; }
      ghost var w3 := world;
      var alive := AnyAlive(observed);
      ghost var w4 := world;
      var active := HandlersActive();
      EvolvesTwice(w3, w4, world);
      EvolvesTwice(start, w3, world);
      EvolvesTwice(seen, w3, world);
      if alive || active { return Retained, observed, seen; }
      FoundLater(w3, observed, w4, world);
      FoundSince(seen, observed, w3, world);
      outcome := Deleted(confirmed);
      if !MayRegister(seen) {
        ThenQuiescent(seen, observed, world);
      } else if confirmed && start.shut && !start.helpers.Busy? {
        TwoSnapshotsSuffice(before, first, ended, seen, observed, world);
      }
    }
  }

  /** `Deleted(true)` was confirmed by a second snapshot. */
  datatype Outcome = Deleted(confirmed: bool) | Retained | Waiting

  ghost predicate Passed(start: World, seen: World, observed: set<Thread>, ended: World) {
    && Sane(seen) && Sane(ended) && Evolves(start, seen) && Evolves(seen, ended)
    && Shows(seen, observed) && Checked(seen, observed, ended)
  }

  lemma FoundLater(u: World, threads: set<Thread>, v: World, w: World)
    requires Sane(u) && Sane(v) && Found(u, threads, v) && Evolves(u, v) && Evolves(v, w)
    ensures Found(u, threads, w)
  {
  }

  lemma FoundSince(u: World, threads: set<Thread>, v: World, w: World)
    requires Sane(u) && Sane(v) && Evolves(u, v) && Found(v, threads, w) && Evolves(v, w)
    ensures Found(u, threads, w)
  {
    forall t | t in threads && t in u.running ensures !Live(w, t) {
      if t !in v.running { assert !Live(v, t); }
    }
  }

  // ---- Runs one at a time -------------------------------------------------------------------------------------

  datatype Phase = Idle | Reaping | Running

  /** The run lock, as the phase of its holder, and the scratch directories that are retained. */
  datatype Harness = Harness(phase: Phase, retained: seq<nat>)

  /** `Finish` carries the scratch of the run when it could not be deleted. */
  datatype Event = Refused | Enter | Reaped(kept: seq<nat>) | Finish(scratch: seq<nat>)

  predicate Step(h: Harness, e: Event, g: Harness) {
    match e
    case Refused => !h.phase.Idle? && g == h
    case Enter => h.phase.Idle? && g == h.(phase := Reaping)
    case Reaped(kept) =>
      && h.phase.Reaping? && multiset(kept) <= multiset(h.retained)
      && g == Harness(if kept == [] then Running else Idle, kept)
    case Finish(scratch) =>
      h.phase.Running? && |scratch| <= 1 && g == Harness(Idle, h.retained + scratch)
  }

  predicate Run(states: seq<Harness>, events: seq<Event>) {
    && |states| == |events| + 1 && states[0] == Harness(Idle, [])
    && forall i :: 0 <= i < |events| ==> Step(states[i], events[i], states[i + 1])
  }

  /** In every run at most one scratch is retained, and none while a benchmark is running. */
  lemma {:induction false} AtMostOneRetained(states: seq<Harness>, events: seq<Event>, i: nat)
    requires Run(states, events) && i < |states|
    ensures |states[i].retained| <= 1
    ensures states[i].phase.Running? ==> states[i].retained == []
    decreases i
  {
    if i > 0 {
      AtMostOneRetained(states, events, i - 1);
      assert Step(states[i - 1], events[i - 1], states[i]);
      if events[i - 1].Reaped? {
        var kept := events[i - 1].kept;
        assert |multiset(kept)| == |kept| && |multiset(states[i - 1].retained)| == |states[i - 1].retained|;
        Fewer(multiset(kept), multiset(states[i - 1].retained));
      }
    }
  }

  lemma Fewer(a: multiset<nat>, b: multiset<nat>)
    requires a <= b
    ensures |a| <= |b|
  {
    assert b == a + (b - a);
  }
}
