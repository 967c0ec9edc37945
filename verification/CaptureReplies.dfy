/**
 * What each request to the capture endpoints does and answers, by the state it meets: one case for
 * every outcome, and what every outcome leaves alone.
 */
module CaptureReplies {
  import opened Common
  import opened CaptureServer
  import opened CaptureInvariant
  import opened CaptureSteps
  import opened CapabilityCheck

  function Refused(code: string, status: nat): Reply { Reply(false, None, None, Some(code), status, false) }

  function Accepted(id: RequestId): Reply { Reply(true, Some(id), None, None, 200, false) }

  /** The reply that names its request, for the record of it. */
  predicate Names(named: Reply, reply: Reply, id: RequestId) {
    named == Reply(reply.success, if reply.id.Some? then reply.id else Some(id),
                   reply.bundle, reply.code, reply.status, reply.retryable)
  }

  /** A record kept for an hour. */
  predicate RecordOf(e: Terminal, c: Token, id: RequestId, reply: Reply, now: real) {
    e.cap == c && Names(e.reply, reply, id) && e.createdAt == now && e.expiresAt == now + 3600.0
  }

  // ---- Ending a stage --------------------------------------------------------------------------------------

  /** The stage and its batch are gone, the outcome is recorded, and the capability is spent if so asked. */
  predicate EndsStage(s: Server, t: Server, c: Token, id: RequestId, spend: bool, reply: Reply, now: real) {
    && t.stages == s.stages - {id} && t.batches == s.batches - {id}
    && id in t.terminals && RecordOf(t.terminals[id], c, id, reply, now)
    && t.terminals - {id} == s.terminals - {id}
    && t.caps == (if spend && c in s.caps then s.caps[c := s.caps[c].(used := true, reserved := None)] else s.caps)
    && t == s.(caps := t.caps, stages := t.stages, batches := t.batches, terminals := t.terminals)
  }

  lemma SettleEnds(s: Server, c: Token, id: RequestId, spend: bool, reply: Reply, now: real)
    ensures EndsStage(s, Settle(s, c, id, spend, reply, now), c, id, spend, reply, now)
  {
  }

  // ---- Staging -----------------------------------------------------------------------------------------------

  /** A request whose outcome is recorded is answered from the record, if the capability is the same. */
  lemma RecordedIs(s: Server, id: RequestId, c: Token)
    ensures id !in s.terminals <==> Recorded(s, id, c).None?
    ensures id in s.terminals && s.terminals[id].cap == c ==> Recorded(s, id, c) == Some(s.terminals[id].reply)
    ensures id in s.terminals && s.terminals[id].cap != c ==> Recorded(s, id, c) == Some(Refused("request_id_conflict", 409))
  {
  }

  /** A request that is already known changes nothing. */
  lemma StageAgain(
    s: Server, later: real, c: Token, id: RequestId, req: Request, payload: Payload, verdict: Option<Reply>, ttl: real)
    requires id in s.terminals || id in s.stages
    ensures var (t, reply) := StageBody(s, later, c, id, req, payload, verdict, ttl);
            && t == s.(now := later)
            && (id in s.terminals && s.terminals[id].cap == c ==> reply == s.terminals[id].reply)
            && (id in s.terminals && s.terminals[id].cap != c ==> reply == Refused("request_id_conflict", 409))
            && (id !in s.terminals && s.stages[id].cap != c ==> reply == Refused("request_id_conflict", 409))
            && (id !in s.terminals && s.stages[id].cap == c ==>
                  reply == if s.stages[id].committing then Refused("capture_in_progress", 409) else Accepted(id))
  {
    hide Validate;
  }

  /**
   * A new request is staged exactly when its capability admits it, the payload is sound and fewer than
   * 128 captures wait; the stage lasts for the given time, but not longer than the capability.
   */
  lemma StageNew(
    s: Server, later: real, c: Token, id: RequestId, req: Request, payload: Payload, verdict: Option<Reply>, ttl: real)
    requires id !in s.terminals && id !in s.stages
    ensures var (t, reply) := StageBody(s, later, c, id, req, payload, verdict, ttl);
            var admitted := Admits(s, later, c, req, Some(id));
            && t == s.(now := later, caps := t.caps, stages := t.stages, admitted := t.admitted)
            && (admitted && verdict.None? && |s.stages| < 128 ==>
                  && reply == Accepted(id) && t.admitted == s.admitted[c := id]
                  && t.caps == s.caps[c := s.caps[c].(reserved := Some(id))]
                  && exists expiry ::
                       && t.stages == s.stages[id := Stage(c, payload, expiry, false, false)]
                       && expiry <= s.now + ttl && expiry <= s.caps[c].expiresAt
                       && (expiry == s.now + ttl || expiry == s.caps[c].expiresAt))
            && (!(admitted && verdict.None? && |s.stages| < 128) ==> t.stages == s.stages && t.admitted == s.admitted)
            && (admitted && (verdict.Some? || |s.stages| >= 128) ==>
                  t.caps == s.caps[c := s.caps[c].(reserved := None)])
            && (admitted && verdict.Some? ==> reply == verdict.value)
            && (admitted && verdict.None? && |s.stages| >= 128 ==> reply == Refused("staging_capacity", 429))
            && (!admitted ==> Validate(s.(now := later), c, req, false, Some(id)) == (t, Some(reply)))
  {
    hide *;
    if !Admits(s, later, c, req, Some(id)) {
      StageUnadmitted(s, later, c, id, req, payload, verdict, ttl);
    } else {
      StageAdmitted(s, later, c, id, req, payload, verdict, ttl);
    }
  }

  lemma StageUnadmitted(
    s: Server, later: real, c: Token, id: RequestId, req: Request, payload: Payload, verdict: Option<Reply>, ttl: real)
    requires id !in s.terminals && id !in s.stages && !Admits(s, later, c, req, Some(id))
    ensures var (t, reply) := StageBody(s, later, c, id, req, payload, verdict, ttl);
            t == s.(now := later, caps := t.caps) && Validate(s.(now := later), c, req, false, Some(id)) == (t, Some(reply))
  {
    hide Validate, Matches, Usable, Refusal;
    var u := s.(now := later);
    ValidateTouchesCaps(u, c, req, id);
    AllowedIff(u, c, req, false, Some(id));
    assert Recorded(u, id, c).None?;
  }

  lemma StageAdmitted(
    s: Server, later: real, c: Token, id: RequestId, req: Request, payload: Payload, verdict: Option<Reply>, ttl: real)
    requires id !in s.terminals && id !in s.stages && Admits(s, later, c, req, Some(id))
    ensures var (t, reply) := StageBody(s, later, c, id, req, payload, verdict, ttl);
            if verdict.Some? || |s.stages| >= 128 then
              && t == s.(now := later, caps := s.caps[c := s.caps[c].(reserved := None)])
              && reply == if verdict.Some? then verdict.value else Refused("staging_capacity", 429)
            else
              && reply == Accepted(id)
              && exists expiry ::
                   && t == s.(now := later, caps := s.caps[c := s.caps[c].(reserved := Some(id))],
                              stages := s.stages[id := Stage(c, payload, expiry, false, false)],
                              admitted := s.admitted[c := id])
                   && expiry <= s.now + ttl && expiry <= s.caps[c].expiresAt
                   && (expiry == s.now + ttl || expiry == s.caps[c].expiresAt)
  {
    hide Validate, Matches, Usable;
    var u := s.(now := later);
    ValidateTouchesCaps(u, c, req, id);
    AllowedIff(u, c, req, false, Some(id));
    AllowedLeaves(u, c, req, false, Some(id));
    assert Recorded(u, id, c).None?;
  }

  // ---- Committing ---------------------------------------------------------------------------------------------

  /** A commit of something that is not waiting under this capability changes nothing. */
  lemma CommitElsewhere(s: Server, later: real, c: Token, id: RequestId, req: Request)
    requires id in s.terminals || id !in s.stages || s.stages[id].cap != c
    ensures var (t, answer) := CommitBody(s, later, c, id, req);
            && t == s.(now := later) && answer.Some?
            && (id in s.terminals && s.terminals[id].cap == c ==> answer.value == s.terminals[id].reply)
            && (id in s.terminals && s.terminals[id].cap != c ==> answer.value == Refused("request_id_conflict", 409))
            && (id !in s.terminals && id !in s.stages ==> answer.value == Refused("capture_stage_missing", 409))
            && (id !in s.terminals && id in s.stages ==> answer.value == Refused("request_id_conflict", 409))
  {
    hide Validate;
  }

  /** A batch is started exactly for a stage that is neither committing nor cancelled; a cancelled one ends here. */
  lemma CommitOwn(s: Server, later: real, c: Token, id: RequestId, req: Request)
    requires id !in s.terminals && id in s.stages && s.stages[id].cap == c
    ensures var (t, answer) := CommitBody(s, later, c, id, req);
            var admitted, stage := Admits(s, later, c, req, Some(id)), s.stages[id];
            var checked := s.(now := later, caps := t.caps);
            && (!admitted ==> Validate(s.(now := later), c, req, false, Some(id)) == (t, answer) && answer.Some?)
            && (admitted && stage.committing ==> t == checked && answer == Some(Refused("capture_in_progress", 409)))
            && (admitted && !stage.committing && stage.cancelRequested ==>
                  && answer == Some(Refused("capture_cancelled", 409))
                  && EndsStage(s.(now := later), t, c, id, true, answer.value, s.now))
            && (admitted && !stage.committing && !stage.cancelRequested ==>
                  && answer.None?
                  && t == checked.(stages := s.stages[id := Stage(c, stage.payload, stage.expiresAt, true, false)],
                                   batches := s.batches[id := Started]))
            && (admitted && !(stage.cancelRequested && !stage.committing) ==>
                  t.caps == s.caps[c := s.caps[c].(reserved := Some(id))])
  {
    RecordedIs(s, id, c);
    assert Recorded(s.(now := later), id, c) == Recorded(s, id, c);
    hide Validate, Recorded, Matches, Usable, Settle, RecordOf;
    var u := s.(now := later);
    ValidateTouchesCaps(u, c, req, id);
    AllowedIff(u, c, req, false, Some(id));
    if Admits(s, later, c, req, Some(id)) {
      AllowedLeaves(u, c, req, false, Some(id));
      var v := Validate(u, c, req, false, Some(id)).0;
      SettleEnds(v, c, id, true, Refusal("capture_cancelled", 409), s.now);
      assert v.caps[c].(used := true, reserved := None) == s.caps[c].(used := true, reserved := None);
    }
  }

  /** A batch that has ended ends its stage, unless it failed in a way that may be tried again. */
  lemma FinishIs(s: Server, id: RequestId)
    requires id in s.stages && id in s.batches && (s.batches[id].Written? || s.batches[id].Failed?)
    ensures var (t, reply) := FinishBody(s, id);
            var outcome := if s.batches[id].Written? then Reply(true, None, Some(s.batches[id].bundle), None, 200, false)
                           else s.batches[id].reply;
            && Names(reply, outcome, id)
            && if !outcome.success && outcome.retryable && outcome.code != Some("capture_cancelled") then
                 t == s.(stages := s.stages[id := s.stages[id].(committing := false)], batches := s.batches - {id})
               else EndsStage(s, t, s.stages[id].cap, id, true, outcome, s.now)
  {
    hide Settle, RecordOf;
    SettleEnds(s, s.stages[id].cap, id, true, Outcome(s.batches[id]), s.now);
  }

  // ---- Abandoning, timers, and the direct endpoint ---------------------------------------------------------------

  lemma AbandonElsewhere(s: Server, later: real, c: Token, id: RequestId, req: Request)
    requires id in s.terminals || id !in s.stages || s.stages[id].cap != c
    ensures var (t, reply) := AbandonBody(s, later, c, id, req);
            && t == s.(now := later)
            && (id in s.terminals && s.terminals[id].cap == c ==> reply == s.terminals[id].reply)
            && (id in s.terminals && s.terminals[id].cap != c ==> reply == Refused("request_id_conflict", 409))
            && (id !in s.terminals && id !in s.stages ==> reply == Refused("capture_stage_missing", 409))
            && (id !in s.terminals && id in s.stages ==> reply == Refused("request_id_conflict", 409))
  {
    hide Validate;
  }

  /** An abandoned stage ends at once, or is marked for its running batch to cancel. */
  lemma AbandonOwn(s: Server, later: real, c: Token, id: RequestId, req: Request)
    requires id !in s.terminals && id in s.stages && s.stages[id].cap == c
    ensures var (t, reply) := AbandonBody(s, later, c, id, req);
            var admitted, stage := Admits(s, later, c, req, Some(id)), s.stages[id];
            && (!admitted ==> Validate(s.(now := later), c, req, false, Some(id)) == (t, Some(reply)))
            && (admitted ==> reply == Accepted(id))
            && (admitted && stage.committing ==>
                  t == s.(now := later, caps := s.caps[c := s.caps[c].(reserved := Some(id))],
                          stages := s.stages[id := Stage(c, stage.payload, stage.expiresAt, true, true)]))
            && (admitted && !stage.committing ==> EndsStage(s.(now := later), t, c, id, true, reply, s.now))
  {
    RecordedIs(s, id, c);
    assert Recorded(s.(now := later), id, c) == Recorded(s, id, c);
    hide Validate, Recorded, Matches, Usable, Settle, RecordOf;
    var u := s.(now := later);
    ValidateTouchesCaps(u, c, req, id);
    AllowedIff(u, c, req, false, Some(id));
    if Admits(s, later, c, req, Some(id)) {
      AllowedLeaves(u, c, req, false, Some(id));
      var v := Validate(u, c, req, false, Some(id)).0;
      SettleEnds(v, c, id, true, Accepted(id), s.now);
      assert v.caps[c].(used := true, reserved := None) == s.caps[c].(used := true, reserved := None);
    }
  }

  /** The timer of a stage ends it once its time is over, or marks it while its batch runs. */
  lemma TimerIs(s: Server, c: Token, id: RequestId)
    ensures var t := TimerBody(s, c, id);
            var due := id in s.stages && s.stages[id].cap == c && s.stages[id].expiresAt <= s.now;
            && (!due ==> t == s)
            && (due && s.stages[id].committing ==> t == s.(stages := s.stages[id := s.stages[id].(cancelRequested := true)]))
            && (due && !s.stages[id].committing ==>
                  EndsStage(s, t, c, id, c in s.caps && s.caps[c].reserved == Some(id), Refused("capture_expired", 408), s.now))
  {
    hide Settle, RecordOf;
    SettleEnds(s, c, id, c in s.caps && s.caps[c].reserved == Some(id), Refusal("capture_expired", 408), s.now);
  }

  /** The direct endpoint starts writing exactly when the capability admits it, and uses it up. */
  lemma DirectIs(s: Server, later: real, c: Token, req: Request, payload: Payload)
    ensures var (t, answer) := DirectBody(s, later, c, req, payload);
            if Admits(s, later, c, req, None) then
              && answer.None?
              && t == s.(now := later, direct := s.direct[c := payload],
                         caps := s.caps[c := s.caps[c].(used := true, reserved := None)])
            else answer.Some? && Validate(s.(now := later), c, req, true, None) == (t, answer)
  {
    hide Validate, Matches, Usable;
    AllowedIff(s.(now := later), c, req, true, None);
    if Admits(s, later, c, req, None) { AllowedLeaves(s.(now := later), c, req, true, None); }
  }

  // ---- Housekeeping ------------------------------------------------------------------------------------------------

  /** Stages whose time is over and that are not committing are gone, and with them their capabilities. */
  lemma CleanupOfStage(s: Server, now: real, r: RequestId)
    requires r in s.stages
    ensures var t, stage := Cleanup(s, now), s.stages[r];
            && (now < stage.expiresAt ==> r in t.stages && t.stages[r] == stage)
            && (stage.expiresAt <= now && stage.committing ==>
                  r in t.stages && t.stages[r] == stage.(cancelRequested := true))
            && (stage.expiresAt <= now && !stage.committing ==>
                  && r !in t.stages && r in t.terminals
                  && RecordOf(t.terminals[r], stage.cap, r, Refused("capture_expired", 408), now))
  {
  }

  lemma CleanupOfRest(s: Server, now: real)
    ensures var t := Cleanup(s, now);
            && t.now == now && t.stages.Keys <= s.stages.Keys && t.caps.Keys == s.caps.Keys
            && t == s.(now := now, caps := t.caps, stages := t.stages, terminals := t.terminals)
            && (forall r :: r in s.terminals && r !in s.stages ==>
                  (r in t.terminals <==> now < s.terminals[r].expiresAt)
                  && (r in t.terminals ==> t.terminals[r] == s.terminals[r]))
            && (forall r :: r in t.terminals ==> r in s.terminals || r in s.stages)
  {
  }

  /** A capability is spent by the housekeeping exactly when the stage it is reserved for has just expired. */
  lemma CleanupOfCapability(s: Server, now: real, c: Token)
    requires c in s.caps
    ensures var t := Cleanup(s, now);
            var expired := exists r | r in s.stages ::
              s.caps[c].reserved == Some(r) && s.stages[r].cap == c && s.stages[r].expiresAt <= now && !s.stages[r].committing;
            t.caps[c] == if expired then s.caps[c].(used := true, reserved := None) else s.caps[c]
  {
  }

  /** At most 4096 records are kept, the latest ones; records are dropped only beyond that. */
  lemma EvictionIs(s: Server, t: Server)
    requires Evicted(s, t)
    ensures |t.terminals| <= 4096 && t.terminals.Keys <= s.terminals.Keys && t == s.(terminals := t.terminals)
    ensures forall r :: r in t.terminals ==> t.terminals[r] == s.terminals[r]
    ensures |s.terminals| <= 4096 ==> t == s
    ensures forall q, r :: q in s.terminals - t.terminals.Keys && r in t.terminals ==>
              s.terminals[q].createdAt <= s.terminals[r].createdAt
  {
  }

  // ---- Issuing -----------------------------------------------------------------------------------------------------

  lemma IssueRefusalIs(enabled: bool, permitted: bool, origin: string, tab: Option<string>, window: Option<string>)
    ensures var refused := IssueRefusal(enabled, permitted, origin, tab, window);
            var allowed := enabled && permitted && origin != "";
            && (!enabled ==> refused == Some(Refused("unsupported", 501)))
            && (enabled && !allowed ==> refused == Some(Refused("permission_denied", 403)))
            && (allowed && (tab.None? || PythonBlank(tab.value)) ==> refused == Some(Refused("missing_tab_id", 400)))
            && (allowed && tab.Some? && !PythonBlank(tab.value) && (window.None? || PythonBlank(window.value)) ==>
                  refused == Some(Refused("missing_window_id", 400)))
            && (refused.None? <==>
                  allowed && tab.Some? && !PythonBlank(tab.value) && window.Some? && !PythonBlank(window.value))
  {
  }

  /** The capabilities that can still be used. */
  function Live(s: Server): set<Token> {
    set d | d in s.caps && !s.caps[d].used && s.now < s.caps[d].expiresAt
  }

  function LiveOnes(s: Server): map<Token, Capability> {
    map d | d in s.caps && !Stale(s.caps[d], s.now) :: s.caps[d]
  }

  lemma LiveIs(s: Server)
    ensures LiveOnes(s).Keys == Live(s) && |LiveOnes(s)| == |Live(s)|
    ensures forall d :: d in Live(s) ==> d in s.caps && LiveOnes(s)[d] == s.caps[d]
  {
    assert LiveOnes(s).Keys == Live(s);
    assert |LiveOnes(s)| == |LiveOnes(s).Keys|;
  }

  /** The new capability, and what is kept of the others. */
  lemma IssuedParts(s: Server, c: Token, k: Capability, t: Server) returns (kept: map<Token, Capability>)
    requires Issued(s, c, k, t)
    ensures c !in s.issued && !k.used && k.reserved.None?
    ensures t == s.(caps := kept[c := k], issued := s.issued + {c}) && c !in kept
    ensures if |LiveOnes(s)| < 1024 then kept == LiveOnes(s) else WithoutEldest(LiveOnes(s), kept)
  {
    hide Stale, WithoutEldest;
    kept := t.caps - {c};
  }

  lemma EldestLeaves(live: map<Token, Capability>, kept: map<Token, Capability>)
    requires WithoutEldest(live, kept)
    ensures forall d :: d in kept ==> d in live && kept[d] == live[d]
    ensures exists eldest | eldest in live.Keys ::
              && kept.Keys == live.Keys - {eldest}
              && forall d :: d in live.Keys ==> live[eldest].createdAt <= live[d].createdAt
  {
    var eldest :| eldest in live && kept == live - {eldest}
      && forall d :: d in live ==> live[eldest].createdAt <= live[d].createdAt;
    assert kept.Keys == live.Keys - {eldest};
  }

  /** The kept ones are live ones, all of them or all but a single oldest one. */
  predicate KeptOf(s: Server, kept: set<Token>) {
    if |Live(s)| < 1024 then kept == Live(s)
    else exists eldest | eldest in Live(s) ::
           kept == Live(s) - {eldest} && forall d :: d in Live(s) ==> s.caps[eldest].createdAt <= s.caps[d].createdAt
  }

  lemma KeptAre(s: Server, kept: map<Token, Capability>)
    requires if |LiveOnes(s)| < 1024 then kept == LiveOnes(s) else WithoutEldest(LiveOnes(s), kept)
    ensures KeptOf(s, kept.Keys) && forall d :: d in kept ==> d in s.caps && kept[d] == s.caps[d]
  {
    LiveIs(s);
    hide LiveOnes, WithoutEldest, Live;
    if |LiveOnes(s)| >= 1024 { EldestLeaves(LiveOnes(s), kept); }
  }

  /** A new capability is open; stale ones go, and of 1024 or more live ones a single oldest one. */
  lemma IssuedIs(s: Server, c: Token, k: Capability, t: Server) returns (kept: map<Token, Capability>)
    requires Issued(s, c, k, t)
    ensures c !in s.issued && !k.used && k.reserved.None? && c !in kept
    ensures t == s.(caps := kept[c := k], issued := s.issued + {c})
    ensures KeptOf(s, kept.Keys) && forall d :: d in kept ==> d in s.caps && kept[d] == s.caps[d]
  {
    hide *;
    kept := IssuedParts(s, c, k, t);
    KeptAre(s, kept);
  }
}
