/**
 * The hub's capture endpoints as they run: shared tables updated in place under one lock.
 *
 * Every method is a locked region, or a helper called inside one, and is proved to take a
 * transition of `CaptureServer.Step`; what holds of all runs of that machine holds of this code.
 */
module CaptureHub {
  import opened Common
  import opened CaptureServer

  // ---- Dropping the oldest records -------------------------------------------------------------------

  /** `kept` is what remains of `all` once records beyond the capacity are dropped, oldest first. */
  ghost predicate Trimmed(all: map<RequestId, Terminal>, kept: map<RequestId, Terminal>) {
    && kept.Keys <= all.Keys
    && (forall r :: r in kept ==> kept[r] == all[r])
    && |kept| <= TERMINAL_CAPACITY
    && (|all| <= TERMINAL_CAPACITY ==> kept == all)
    && (forall q, r :: q in all && q !in kept && r in kept ==> all[q].createdAt <= kept[r].createdAt)
  }

  predicate Eldest(m: map<RequestId, Terminal>, oldest: RequestId) {
    oldest in m && forall r :: r in m ==> m[oldest].createdAt <= m[r].createdAt
  }

  lemma {:induction false} LeastExists(ages: map<string, real>) returns (least: string)
    requires ages != map[]
    ensures least in ages && forall k :: k in ages ==> ages[least] <= ages[k]
    decreases |ages|
  {
    var first :| first in ages;
    var rest := ages - {first};
    assert forall k :: k in ages ==> k == first || (k in rest && rest[k] == ages[k]);
    least := first;
    if rest != map[] {
      var other := LeastExists(rest);
      if ages[other] < ages[first] { least := other; }
    } else {
      forall k | k in ages ensures k == first {
        assert k !in rest;
      }
    }
  }

  lemma EldestExists(m: map<RequestId, Terminal>)
    requires m != map[]
    ensures exists oldest :: Eldest(m, oldest)
  {
    var ages := map r | r in m :: m[r].createdAt;
    var r :| r in m;
    assert r in ages;
    var oldest := LeastExists(ages);
    assert forall q :: q in m ==> ages[q] == m[q].createdAt;
    assert Eldest(m, oldest);
  }

  /** One more record, stamped no earlier than the others, can be added after trimming or before. */
  lemma TrimLater(all: map<RequestId, Terminal>, kept: map<RequestId, Terminal>,
                  r: RequestId, e: Terminal, after: map<RequestId, Terminal>)
    requires Trimmed(all, kept) && Trimmed(kept[r := e], after)
    requires forall q :: q in all ==> all[q].createdAt <= e.createdAt
    ensures Trimmed(all[r := e], after)
  {
    if |all[r := e]| <= TERMINAL_CAPACITY {
      assert all.Keys <= all[r := e].Keys;
      SmallerSet(all.Keys, all[r := e].Keys);
    }
    forall p, q | p in all[r := e] && p !in after && q in after ensures all[r := e][p].createdAt <= after[q].createdAt {
      assert after[q] == kept[r := e][q];
      if p in kept[r := e] {
        assert kept[r := e][p] == all[r := e][p];
      } else if q != r {
        assert p in all && p !in kept && q in kept;
      }
    }
  }

  lemma {:induction false} SmallerSet<T>(a: set<T>, b: set<T>)
    requires a <= b
    ensures |a| <= |b|
    decreases a
  {
    if x :| x in a { SmallerSet(a - {x}, b - {x}); }
  }

  /** The tables while the staged captures in `pending` have not been looked at yet. */
  ghost function CapsAfter(s: Server, at: real, pending: set<RequestId>): map<Token, Capability> {
    map c | c in s.caps ::
      if Released(s, c, at) && s.caps[c].reserved.value !in pending
      then s.caps[c].(used := true, reserved := None) else s.caps[c]
  }

  /** The capability is burnt if it is reserved for the request. */
  ghost function Freed(caps: map<Token, Capability>, c: Token, r: RequestId): map<Token, Capability> {
    if c in caps && caps[c].reserved == Some(r) then caps[c := caps[c].(used := true, reserved := None)] else caps
  }

  ghost function StagesAfter(s: Server, at: real, pending: set<RequestId>): map<RequestId, Stage> {
    map r | r in s.stages && (r in pending || !Lapsed(s, r, at)) ::
      if r !in pending && s.stages[r].expiresAt <= at then s.stages[r].(cancelRequested := true) else s.stages[r]
  }

  ghost function RecordsAfter(s: Server, at: real, pending: set<RequestId>): map<RequestId, Terminal> {
    (map r | r in s.terminals && at < s.terminals[r].expiresAt :: s.terminals[r])
    + (map r | r in s.stages && r !in pending && Lapsed(s, r, at) :: Expiry(s, r, at))
  }

  lemma NothingDone(s: Server, at: real)
    ensures CapsAfter(s, at, s.stages.Keys) == s.caps && StagesAfter(s, at, s.stages.Keys) == s.stages
    ensures RecordsAfter(s, at, s.stages.Keys) == map r | r in s.terminals && at < s.terminals[r].expiresAt :: s.terminals[r]
  {
  }

  lemma AllDone(s: Server, at: real)
    ensures Cleanup(s, at) == s.(now := at, caps := CapsAfter(s, at, {}), stages := StagesAfter(s, at, {}),
                                 terminals := RecordsAfter(s, at, {}))
  {
    AllReleased(s, at);
    hide Lapsed, Released, Expiry, CapsAfter;
    assert StagesAfter(s, at, {}) == Cleanup(s, at).stages;
    assert RecordsAfter(s, at, {}) == Cleanup(s, at).terminals by {
      assert (map r | r in s.stages && r !in {} && Lapsed(s, r, at) :: Expiry(s, r, at))
          == (map r | r in s.stages && Lapsed(s, r, at) :: Expiry(s, r, at));
    }
  }

  lemma AllReleased(s: Server, at: real)
    ensures CapsAfter(s, at, {}) == Cleanup(s, at).caps
  {
    hide Expiry, StagesAfter, RecordsAfter;
  }

  lemma Untouched(s: Server, at: real, pending: set<RequestId>, r: RequestId)
    requires r in pending && pending <= s.stages.Keys && !Lapsed(s, r, at)
    ensures CapsAfter(s, at, pending - {r}) == CapsAfter(s, at, pending)
    ensures RecordsAfter(s, at, pending - {r}) == RecordsAfter(s, at, pending)
  {
    assert forall q :: q in s.stages && Lapsed(s, q, at) ==> (q in pending - {r} <==> q in pending);
    assert (map q | q in s.stages && q !in pending && Lapsed(s, q, at) :: Expiry(s, q, at))
        == (map q | q in s.stages && q !in pending - {r} && Lapsed(s, q, at) :: Expiry(s, q, at));
  }

  lemma LookedAt(s: Server, at: real, pending: set<RequestId>, r: RequestId)
    requires r in pending && pending <= s.stages.Keys && !Lapsed(s, r, at)
    ensures r in StagesAfter(s, at, pending) && StagesAfter(s, at, pending)[r] == s.stages[r]
    ensures StagesAfter(s, at, pending - {r})
            == if s.stages[r].expiresAt <= at
               then StagesAfter(s, at, pending)[r := s.stages[r].(cancelRequested := true)]
               else StagesAfter(s, at, pending)
  {
  }

  lemma Expired(s: Server, at: real, pending: set<RequestId>, r: RequestId)
    requires r in pending && pending <= s.stages.Keys && Lapsed(s, r, at)
    ensures StagesAfter(s, at, pending - {r}) == StagesAfter(s, at, pending) - {r}
    ensures RecordsAfter(s, at, pending - {r}) == RecordsAfter(s, at, pending)[r := Expiry(s, r, at)]
  {
    hide Expiry;
  }

  lemma Burnt(s: Server, at: real, pending: set<RequestId>, r: RequestId)
    requires r in pending && pending <= s.stages.Keys && Lapsed(s, r, at)
    ensures CapsAfter(s, at, pending - {r}) == Freed(CapsAfter(s, at, pending), s.stages[r].cap, r)
  {
  }

  lemma RecordsInPast(s: Server, at: real, pending: set<RequestId>)
    requires forall r :: r in s.terminals ==> s.terminals[r].createdAt <= at
    ensures forall r :: r in RecordsAfter(s, at, pending) ==> RecordsAfter(s, at, pending)[r].createdAt <= at
  {
  }

  /** The cleanup is done except for the stages in `pending`. */
  ghost predicate Swept(s: Server, at: real, pending: set<RequestId>, t: Server) {
    && pending <= t.stages.Keys
    && t == s.(caps := CapsAfter(s, at, pending), stages := StagesAfter(s, at, pending), terminals := t.terminals)
    && Trimmed(RecordsAfter(s, at, pending), t.terminals)
    && forall r :: r in s.terminals ==> s.terminals[r].createdAt <= at
  }

  lemma SweepStarts(s: Server, at: real, live: map<RequestId, Terminal>)
    requires |live| <= TERMINAL_CAPACITY && forall r :: r in s.terminals ==> s.terminals[r].createdAt <= at
    requires live == map r | r in s.terminals && at < s.terminals[r].expiresAt :: s.terminals[r]
    ensures Swept(s, at, s.stages.Keys, s.(terminals := live))
  {
    NothingDone(s, at);
  }

  lemma SweepReaches(s: Server, at: real, pending: set<RequestId>, t: Server, r: RequestId)
    requires Swept(s, at, pending, t) && r in pending
    ensures r in t.stages && r in s.stages && t.stages[r] == s.stages[r] && pending <= s.stages.Keys
  {
  }

  lemma SweepKeeps(s: Server, at: real, pending: set<RequestId>, t: Server, r: RequestId)
    requires Swept(s, at, pending, t) && r in pending && r in t.stages && !Lapsed(t, r, at)
    ensures t.stages[r].expiresAt > at ==> Swept(s, at, pending - {r}, t)
    ensures t.stages[r].expiresAt <= at ==>
      Swept(s, at, pending - {r}, t.(stages := t.stages[r := t.stages[r].(cancelRequested := true)]))
  {
    hide CapsAfter, StagesAfter, RecordsAfter, Trimmed;
    SweepReaches(s, at, pending, t, r);
    Untouched(s, at, pending, r);
    LookedAt(s, at, pending, r);
  }

  lemma SweepExpires(s: Server, at: real, pending: set<RequestId>, t: Server, r: RequestId, u: Server)
    requires Swept(s, at, pending, t) && r in pending && r in t.stages && Lapsed(t, r, at)
    requires u == t.(stages := t.stages - {r}, caps := Freed(t.caps, t.stages[r].cap, r), terminals := u.terminals)
    requires Trimmed(t.terminals[r := Expiry(t, r, at)], u.terminals)
    ensures Swept(s, at, pending - {r}, u)
  {
    hide CapsAfter, StagesAfter, RecordsAfter, Trimmed;
    SweepReaches(s, at, pending, t, r);
    Expired(s, at, pending, r);
    Burnt(s, at, pending, r);
    RecordsInPast(s, at, pending);
    TrimLater(RecordsAfter(s, at, pending), t.terminals, r, Expiry(s, r, at), u.terminals);
  }

  lemma SweepEnds(s: Server, at: real, t: Server)
    requires Swept(s, at, {}, t) && s.now == at
    ensures Evicted(Cleanup(s, at), t)
  {
    AllDone(s, at);
  }

  /** After the cleanup no record is out of date. */
  lemma Live(s: Server, at: real, t: Server)
    requires Evicted(Cleanup(s, at), t)
    ensures forall r :: r in t.terminals ==> at < t.terminals[r].expiresAt
  {
    hide Evicted;
    LiveAfterCleanup(s, at);
    EvictedKeeps(Cleanup(s, at), t);
  }

  lemma TimeoutsIgnoreClock(s: Server, u: Server, at: real)
    requires u == s.(now := at)
    ensures forall r :: Lapsed(u, r, at) == Lapsed(s, r, at)
    ensures forall c :: Released(u, c, at) == Released(s, c, at)
  {
  }

  lemma CleanupIgnoresClock(s: Server, u: Server, at: real)
    requires u == s.(now := at)
    ensures Cleanup(u, at) == Cleanup(s, at)
  {
    TimeoutsIgnoreClock(s, u, at);
    hide Lapsed, Released;
    assert Cleanup(u, at).caps == Cleanup(s, at).caps;
    assert Cleanup(u, at).stages == Cleanup(s, at).stages;
    assert Cleanup(u, at).terminals == Cleanup(s, at).terminals by {
      assert (map r | r in u.stages && Lapsed(u, r, at) :: Expiry(u, r, at))
          == (map r | r in s.stages && Lapsed(s, r, at) :: Expiry(s, r, at));
    }
  }

  lemma TrimmedIsEvicted(s: Server, t: Server)
    requires t == s.(terminals := t.terminals) && Trimmed(s.terminals, t.terminals)
    ensures Evicted(s, t)
  {
  }

  lemma TimerExpires(s: Server, c: Token, id: RequestId, t: Server)
    requires id in s.stages && s.stages[id].cap == c && s.stages[id].expiresAt <= s.now
    requires !s.stages[id].committing && id !in s.batches
    requires t == s.(stages := s.stages - {id}, caps := Freed(s.caps, c, id), terminals := t.terminals)
    requires Trimmed(s.terminals[id := Expiry(s, id, s.now)], t.terminals)
    ensures Evicted(TimerBody(s, c, id), t)
  {
    hide Trimmed, Evicted;
    assert s.batches - {id} == s.batches;
    TrimmedIsEvicted(TimerBody(s, c, id), t);
  }

  lemma NothingEvicted(s: Server)
    requires |s.terminals| <= TERMINAL_CAPACITY
    ensures Evicted(s, s)
  {
  }

  lemma CleanupSetsClock(s: Server, at: real)
    ensures Cleanup(s, at).now == at
  {
  }

  /** What the cleanup at the start of a locked region establishes; it does not matter that the clock moved before. */
  lemma Opened(s: Server, at: real, mid: Server)
    requires Evicted(Cleanup(s.(now := at), at), mid) && s.now <= at
    ensures Tidied(s, at, mid) && mid.now == at
    ensures forall r :: r in mid.terminals ==> at < mid.terminals[r].expiresAt
  {
    hide Evicted, Cleanup;
    CleanupIgnoresClock(s, s.(now := at), at);
    CleanupSetsClock(s, at);
    Live(s, at, mid);
    EvictedKeeps(Cleanup(s, at), mid);
  }

  lemma LiveAfterCleanup(s: Server, at: real)
    ensures forall r :: r in Cleanup(s, at).terminals ==> at < Cleanup(s, at).terminals[r].expiresAt
  {
  }

  lemma EvictedKeeps(s: Server, t: Server)
    requires Evicted(s, t)
    ensures t == s.(terminals := t.terminals)
    ensures forall r :: r in t.terminals ==> r in s.terminals && t.terminals[r] == s.terminals[r]
  {
  }

  /** Dropping the eldest of what is left keeps every dropped record older than every kept one. */
  lemma DropEldest(all: map<RequestId, Terminal>, left: map<RequestId, Terminal>, oldest: RequestId)
    requires left.Keys <= all.Keys && (forall r :: r in left ==> left[r] == all[r]) && Eldest(left, oldest)
    requires forall q, r :: q in all && q !in left && r in left ==> all[q].createdAt <= left[r].createdAt
    ensures forall q, r :: q in all && q !in left - {oldest} && r in left - {oldest} ==> all[q].createdAt <= left[r].createdAt
    ensures (left - {oldest}).Keys < left.Keys
  {
    assert oldest in left.Keys && oldest !in (left - {oldest}).Keys;
  }

  predicate EldestCapability(m: map<Token, Capability>, oldest: Token) {
    oldest in m && forall d :: d in m ==> m[oldest].createdAt <= m[d].createdAt
  }

  lemma EldestCapabilityExists(m: map<Token, Capability>)
    requires m != map[]
    ensures exists oldest :: EldestCapability(m, oldest)
  {
    var ages := map c | c in m :: m[c].createdAt;
    var c :| c in m;
    assert c in ages;
    var oldest := LeastExists(ages);
    assert forall d :: d in m ==> ages[d] == m[d].createdAt;
    assert EldestCapability(m, oldest);
  }

  lemma IssuedBy(s: Server, c: Token, k: Capability, live: map<Token, Capability>, kept: map<Token, Capability>, t: Server)
    requires c !in s.issued && c !in s.caps && !k.used && k.reserved.None?
    requires live == map d | d in s.caps && !Stale(s.caps[d], s.now) :: s.caps[d]
    requires if |live| < CAPABILITY_CAPACITY then kept == live else WithoutEldest(live, kept)
    requires t == s.(caps := kept[c := k], issued := s.issued + {c})
    ensures Issued(s, c, k, t)
  {
    assert t.caps - {c} == kept;
    assert t.caps == (t.caps - {c})[c := k];
  }

  lemma CleanupKeepsTokens(s: Server, at: real, t: Server)
    requires Tidied(s, at, t)
    ensures t.caps.Keys == s.caps.Keys && t.issued == s.issued
  {
  }

  class Hub {
    var now: real
    var caps: map<Token, Capability>
    var stages: map<RequestId, Stage>
    var terminals: map<RequestId, Terminal>
    var batches: map<RequestId, Batch>
    var direct: map<Token, Payload>
    var stored: map<Token, Payload>
    var issued: set<Token>
    var admitted: map<Token, RequestId>

    ghost function State(): Server
      reads this
    {
      Server(now, caps, stages, terminals, batches, direct, stored, issued, admitted)
    }

    ghost predicate Valid()
      reads this
    {
      && |terminals| <= TERMINAL_CAPACITY
      && forall r :: r in terminals ==> terminals[r].createdAt <= now
    }

    method Monotonic() returns (t: real)
      modifies this`now
      ensures t == now >= old(now)
    {
      var elapsed: real := *;
      if elapsed > 0.0 { now := now + elapsed; }
      t := now;
    }

    method RememberTerminal(id: RequestId, c: Token, result: Reply, at: real)
      requires Valid() && at <= now
      modifies this`terminals
      ensures Valid() && Trimmed(old(terminals)[id := Terminal(c, WithId(result, id), at, at + TERMINAL_TTL)], terminals)
    {
      terminals := terminals[id := Terminal(c, WithId(result, id), at, at + TERMINAL_TTL)];
      ghost var all := terminals;
      while |terminals| > TERMINAL_CAPACITY
        invariant terminals.Keys <= all.Keys && forall r :: r in terminals ==> terminals[r] == all[r]
        invariant |all| <= TERMINAL_CAPACITY ==> terminals == all
        invariant forall q, r :: q in all && q !in terminals && r in terminals ==> all[q].createdAt <= terminals[r].createdAt
        decreases terminals.Keys
      {
        EldestExists(terminals);
        var oldest :| Eldest(terminals, oldest);
        DropEldest(all, terminals, oldest);
        terminals := terminals - {oldest};
      }
    }

    method DropExpiredRecords(at: real)
      modifies this`terminals
      ensures terminals == map r | r in old(terminals) && at < old(terminals)[r].expiresAt :: old(terminals)[r]
      ensures |terminals| <= |old(terminals)|
    {
      ghost var all := terminals;
      var pending := terminals.Keys;
      while pending != {}
        invariant pending <= terminals.Keys
        invariant terminals == map r | r in all && (r in pending || at < all[r].expiresAt) :: all[r]
        decreases |pending|
      {
        var r :| r in pending;
        pending := pending - {r};
        if terminals[r].expiresAt <= at { terminals := terminals - {r}; }
      }
      SmallerSet(terminals.Keys, all.Keys);
    }

    /** A stage that ran out of time leaves the table and burns the capability reserved for it. */
    method Expire(r: RequestId, at: real)
      requires Valid() && at <= now && r in stages
      modifies this`caps, this`stages, this`terminals
      ensures Valid() && stages == old(stages) - {r} && caps == Freed(old(caps), old(stages)[r].cap, r)
      ensures Trimmed(old(terminals)[r := Expiry(old(State()), r, at)], terminals)
    {
      var stage := stages[r];
      stages := stages - {r};
      if stage.cap in caps && caps[stage.cap].reserved == Some(r) {
        caps := caps[stage.cap := caps[stage.cap].(used := true, reserved := None)];
      }
      RememberTerminal(r, stage.cap, Refusal("capture_expired", 408), at);
    }

    method CleanupStaged(at: real)
      requires Valid() && at == now
      modifies this`caps, this`stages, this`terminals
      ensures Valid() && Evicted(Cleanup(old(State()), at), State())
    {
      hide Swept, Trimmed, Freed, Evicted, Cleanup, Expiry;
      ghost var s := State();
      DropExpiredRecords(at);
      SweepStarts(s, at, terminals);
      var pending := stages.Keys;
      while pending != {}
        invariant Valid() && Swept(s, at, pending, State())
        decreases |pending|
      {
        var r :| r in pending;
        ghost var before, t := pending, State();
        SweepReaches(s, at, before, t, r);
        pending := pending - {r};
        if stages[r].expiresAt <= at {
          if stages[r].committing {
            SweepKeeps(s, at, before, t, r);
            stages := stages[r := stages[r].(cancelRequested := true)];
          } else {
            Expire(r, at);
            SweepExpires(s, at, before, t, r, State());
          }
        } else {
          SweepKeeps(s, at, before, t, r);
        }
      }
      SweepEnds(s, at, State());
    }

    /** A recorded outcome; an outdated record is dropped. */
    method TerminalResult(id: RequestId, c: Token, at: real) returns (result: Option<Reply>)
      modifies this`terminals
      ensures terminals == (if id in old(terminals) && old(terminals)[id].expiresAt <= at then old(terminals) - {id}
                            else old(terminals))
      ensures result == Recorded(State(), id, c)
    {
      if id !in terminals { return None; }
      if terminals[id].expiresAt <= at {
        terminals := terminals - {id};
        return None;
      }
      if terminals[id].cap != c { return Some(Refusal("request_id_conflict", 409)); }
      return Some(terminals[id].reply);
    }

    /** The capability check; `None` means that the request is allowed. */
    method ValidateRequest(c: Token, req: Request, consume: bool, id: Option<RequestId>) returns (refused: Option<Reply>)
      modifies this`now, this`caps
      ensures old(now) <= now
      ensures (State(), refused) == Validate(old(State()).(now := now), c, req, consume, id)
      ensures refused.None? ==> c in caps
    {
      if c !in caps { return Some(Refusal("invalid_capability", 403)); }
      var record := caps[c];
      assert caps[c := record] == caps;
      if record.used { return Some(Refusal("capability_replayed", 403)); }
      var at := Monotonic();
      if at >= record.expiresAt {
        caps := caps[c := record.(used := true)];
        return Some(Refusal("capability_expired", 403));
      }
      if record.reserved.Some? && record.reserved != id { return Some(Refusal("capability_replayed", 403)); }
      if req.origin != record.origin { return Some(Refusal("origin_mismatch", 403)); }
      if req.tab.None? || PythonBlank(req.tab.value) { return Some(Refusal("missing_tab_id", 400)); }
      if req.tab.value != record.tab { return Some(Refusal("tab_mismatch", 409)); }
      if PythonBlank(req.window) { return Some(Refusal("missing_window_id", 400)); }
      if req.window != record.window { return Some(Refusal("window_mismatch", 409)); }
      if consume {
        caps := caps[c := record.(used := true, reserved := None)];
      } else if id.Some? {
        caps := caps[c := record.(reserved := id)];
      }
      return None;
    }

    /** Opens a locked region: the clock is read and everything overdue is cleaned up. */
    method Open() returns (at: real, ghost mid: Server)
      requires Valid()
      modifies this`now, this`caps, this`stages, this`terminals
      ensures Valid() && mid == State() && mid.now == at && Tidied(old(State()), at, mid)
      ensures caps.Keys == old(caps.Keys) && issued == old(issued)
      ensures forall r :: r in terminals ==> at < terminals[r].expiresAt
    {
      hide Cleanup, Evicted;
      at := Monotonic();
      CleanupStaged(at);
      mid := State();
      Opened(old(State()), at, mid);
      CleanupKeepsTokens(old(State()), at, mid);
    }

    method Admit(at: real, c: Token, id: RequestId, req: Request, payload: Payload, verdict: Option<Reply>, ttl: real)
      returns (reply: Reply)
      requires Valid() && at == now && forall r :: r in terminals ==> at < terminals[r].expiresAt
      modifies this
      ensures Valid() && old(now) <= now
      ensures StageBody(old(State()), now, c, id, req, payload, verdict, ttl) == (State(), reply)
    {
      hide Validate;
      var terminal := TerminalResult(id, c, at);
      if terminal.Some? { return terminal.value; }
      if id in stages {
        var existing := stages[id];
        if existing.cap != c { return Refusal("request_id_conflict", 409); }
        if existing.committing { return Refusal("capture_in_progress", 409); }
        return Reply(true, Some(id), None, None, 200, false);
      }
      var refused := ValidateRequest(c, req, false, Some(id));
      if refused.Some? { return refused.value; }
      if verdict.Some? {
        caps := caps[c := caps[c].(reserved := None)];
        return verdict.value;
      }
      if |stages| >= STAGE_CAPACITY {
        caps := caps[c := caps[c].(reserved := None)];
        return Refusal("staging_capacity", 429);
      }
      var expiry := if caps[c].expiresAt <= at + ttl then caps[c].expiresAt else at + ttl;
      stages := stages[id := Stage(c, payload, expiry, false, false)];
      admitted := admitted[c := id];
      reply := Reply(true, Some(id), None, None, 200, false);
    }

    method StageCapture(c: Token, id: RequestId, req: Request, payload: Payload, verdict: Option<Reply>, ttl: real)
      returns (reply: Reply, ghost mid: Server)
      requires Valid() && (verdict.Some? ==> !verdict.value.success)
      modifies this
      ensures Valid() && Step(old(State()), StageCall(mid, c, id, req, payload, verdict, ttl, reply), State())
    {
      hide Tidied, StageBody;
      var at;
      at, mid := Open();
      reply := Admit(at, c, id, req, payload, verdict, ttl);
    }

    // Ends a stage: it is taken off the table and its outcome is recorded.
    method Settle(c: Token, id: RequestId, spend: bool, reply: Reply, at: real)
      requires Valid() && at <= now
      modifies this`caps, this`stages, this`batches, this`terminals
      ensures Valid() && Evicted(CaptureServer.Settle(old(State()), c, id, spend, reply, at), State())
    {
      stages := stages - {id};
      batches := batches - {id};
      if spend && c in caps { caps := caps[c := caps[c].(used := true, reserved := None)]; }
      RememberTerminal(id, c, reply, at);
      TrimmedIsEvicted(CaptureServer.Settle(old(State()), c, id, spend, reply, at), State());
    }

    method BeginCommit(at: real, c: Token, id: RequestId, req: Request) returns (answer: Option<Reply>, ghost before: Server)
      requires Valid() && at == now && forall r :: r in terminals ==> at < terminals[r].expiresAt
      modifies this
      ensures Valid() && old(now) <= now
      ensures CommitBody(old(State()), now, c, id, req) == (before, answer) && Evicted(before, State())
    {
      hide Validate, Evicted;
      var terminal := TerminalResult(id, c, at);
      NothingEvicted(State());
      if terminal.Some? { return terminal, State(); }
      if id !in stages { return Some(Refusal("capture_stage_missing", 409)), State(); }
      if stages[id].cap != c { return Some(Refusal("request_id_conflict", 409)), State(); }
      var refused := ValidateRequest(c, req, false, Some(id));
      NothingEvicted(State());
      if refused.Some? { return refused, State(); }
      if stages[id].committing { return Some(Refusal("capture_in_progress", 409)), State(); }
      if stages[id].cancelRequested {
        var result := Refusal("capture_cancelled", 409);
        before := CaptureServer.Settle(State(), c, id, true, result, at);
        Settle(c, id, true, result, at);
        return Some(result), before;
      }
      stages := stages[id := stages[id].(committing := true)];
      batches := batches[id := Started];
      NothingEvicted(State());
      answer, before := None, State();
    }

    method CommitStaged(c: Token, id: RequestId, req: Request) returns (answer: Option<Reply>, ghost mid: Server)
      requires Valid()
      modifies this
      ensures Valid() && Step(old(State()), CommitCall(mid, c, id, req, answer), State())
    {
      hide Tidied, CommitBody, Evicted;
      var at;
      at, mid := Open();
      ghost var before;
      answer, before := BeginCommit(at, c, id, req);
    }

    /** The second locked region of a commit, once the batch has ended with `result`. */
    method FinishCommit(c: Token, id: RequestId, result: Reply) returns (reply: Reply, ghost mid: Server)
      requires Valid() && id in stages && stages[id].cap == c
      requires id in batches && (batches[id].Written? || batches[id].Failed?) && result == Outcome(batches[id])
      modifies this
      ensures Valid() && Step(old(State()), Tick, mid) && Step(mid, Finish(id, reply), State())
    {
      hide Evicted, Cleanup, CaptureServer.Settle, Tidied;
      var at := Monotonic();
      mid := State();
      if result.success || result.code == Some("capture_cancelled") || !result.retryable {
        Settle(c, id, true, result, at);
      } else {
        stages := stages[id := stages[id].(committing := false)];
        batches := batches - {id};
        NothingEvicted(State());
      }
      reply := WithId(result, id);
    }

    method Discard(at: real, c: Token, id: RequestId, req: Request) returns (reply: Reply, ghost before: Server)
      requires Valid() && at == now && forall r :: r in terminals ==> at < terminals[r].expiresAt
      modifies this
      ensures Valid() && old(now) <= now
      ensures AbandonBody(old(State()), now, c, id, req) == (before, reply) && Evicted(before, State())
    {
      hide Validate, Evicted;
      var terminal := TerminalResult(id, c, at);
      NothingEvicted(State());
      if terminal.Some? { return terminal.value, State(); }
      if id !in stages { return Refusal("capture_stage_missing", 409), State(); }
      if stages[id].cap != c { return Refusal("request_id_conflict", 409), State(); }
      var refused := ValidateRequest(c, req, false, Some(id));
      NothingEvicted(State());
      if refused.Some? { return refused.value, State(); }
      reply := Reply(true, Some(id), None, None, 200, false);
      if stages[id].committing {
        stages := stages[id := stages[id].(cancelRequested := true)];
        NothingEvicted(State());
        return reply, State();
      }
      before := CaptureServer.Settle(State(), c, id, true, reply, at);
      Settle(c, id, true, reply, at);
    }

    method AbandonStaged(c: Token, id: RequestId, req: Request) returns (reply: Reply, ghost mid: Server)
      requires Valid()
      modifies this
      ensures Valid() && Step(old(State()), AbandonCall(mid, c, id, req, reply), State())
    {
      hide Tidied, AbandonBody, Evicted;
      var at;
      at, mid := Open();
      ghost var before;
      reply, before := Discard(at, c, id, req);
    }

    /** The timer started with a stage; it does nothing unless the stage is still there and overdue. */
    method ExpireStaged(id: RequestId, c: Token) returns (ghost mid: Server)
      requires Valid() && forall r :: r in batches ==> r in stages && stages[r].committing
      modifies this
      ensures Valid() && Step(old(State()), Tick, mid) && Step(mid, Timer(c, id), State())
    {
      var at := Monotonic();
      mid := State();
      NothingEvicted(State());
      if id !in stages || stages[id].cap != c || stages[id].expiresAt > at { return; }
      hide Evicted, Trimmed, Freed, Expiry;
      if stages[id].committing {
        stages := stages[id := stages[id].(cancelRequested := true)];
        NothingEvicted(State());
        return;
      }
      Expire(id, at);
      TimerExpires(mid, c, id, State());
    }

    /** The one-shot endpoint: the capability is consumed before anything is written. */
    method CaptureDirectly(c: Token, req: Request, payload: Payload) returns (answer: Option<Reply>, ghost mid: Server)
      requires Valid()
      modifies this
      ensures Valid() && Step(old(State()), DirectCall(mid, c, req, payload, answer), State())
    {
      hide Tidied, Validate;
      var at;
      at, mid := Open();
      answer := ValidateRequest(c, req, true, None);
      if answer.None? { direct := direct[c := payload]; }
    }

    method DropStale(at: real)
      modifies this`caps
      ensures caps == map d | d in old(caps) && !Stale(old(caps)[d], at) :: old(caps)[d]
    {
      ghost var all := caps;
      var pending := caps.Keys;
      while pending != {}
        invariant pending <= caps.Keys
        invariant caps == map d | d in all && (d in pending || !Stale(all[d], at)) :: all[d]
        decreases |pending|
      {
        var d :| d in pending;
        pending := pending - {d};
        if caps[d].used || caps[d].expiresAt <= at { caps := caps - {d}; }
      }
    }

    method MakeRoom()
      modifies this`caps
      ensures if |old(caps)| < CAPABILITY_CAPACITY then caps == old(caps) else WithoutEldest(old(caps), caps)
    {
      ghost var live := caps;
      if |caps| >= CAPABILITY_CAPACITY {
        EldestCapabilityExists(caps);
        var oldest :| EldestCapability(caps, oldest);
        caps := caps - {oldest};
        assert WithoutEldest(live, caps) by { assert oldest in live && caps == live - {oldest}; }
      }
    }

    method Enroll(c: Token, record: Capability, at: real)
      requires c !in issued && c !in caps && at == now && !record.used && record.reserved.None?
      modifies this`caps, this`issued
      ensures Issued(old(State()), c, record, State())
    {
      hide Issued, Stale, WithoutEldest;
      ghost var s := State();
      DropStale(at);
      ghost var live := caps;
      MakeRoom();
      ghost var kept := caps;
      caps := caps[c := record];
      issued := issued + {c};
      IssuedBy(s, c, record, live, kept, State());
    }

    /**
     * A fresh token replaces the stale ones, and the eldest one when the table is full. `permitted`
     * tells whether the settings allow the origin or the API token makes up for it.
     */
    method IssueCapability(
      enabled: bool, permitted: bool, c: Token, origin: string, tab: Option<string>, window: Option<string>, ttl: real)
      returns (refused: Option<Reply>, ghost mid: Server)
      requires Valid() && c !in issued && caps.Keys <= issued
      modifies this
      ensures Valid() && refused == IssueRefusal(enabled, permitted, origin, tab, window)
      ensures refused.Some? ==> State() == old(State())
      ensures refused.None? ==>
                var lifetime := if ttl < 1.0 then 1.0 else ttl;
                tab.Some? && window.Some? && !PythonBlank(tab.value) && !PythonBlank(window.value)
                && Step(old(State()),
                        Issue(mid, c, Capability(origin, tab.value, window.value, mid.now, mid.now + lifetime, false, None)),
                        State())
    {
      hide Tidied, Issued, PythonBlank;
      mid := State();
      if !enabled { return Some(Refusal("unsupported", 501)), mid; }
      if origin == "" || !permitted { return Some(Refusal("permission_denied", 403)), mid; }
      if tab.None? || PythonBlank(tab.value) { return Some(Refusal("missing_tab_id", 400)), mid; }
      if window.None? || PythonBlank(window.value) { return Some(Refusal("missing_window_id", 400)), mid; }
      var lifetime := if ttl < 1.0 then 1.0 else ttl;
      var at;
      at, mid := Open();
      Enroll(c, Capability(origin, tab.value, window.value, at, at + lifetime, false, None), at);
      refused := None;
    }
  }
}
