/**
 * Where a stored capture comes from: a request that matched its capability as it was issued, and for
 * a staged one also a later commit that matched it.
 */
module CaptureProvenance {
  import opened Common
  import opened CaptureServer
  import opened CaptureInvariant
  import opened CaptureSteps
  import opened CapturePermanence
  import opened CommitAgreement
  import opened CapabilityCheck
  import opened CaptureReplies

  // ---- One locked region --------------------------------------------------------------------------------

  /** A capture is newly staged only for a request that its capability admits. */
  lemma StagingIsAllowed(
    s: Server, later: real, c: Token, id: RequestId, req: Request,
    payload: Payload, verdict: Option<Reply>, ttl: real, d: Token)
    ensures var t := StageBody(s, later, c, id, req, payload, verdict, ttl).0;
            && t.batches == s.batches && t.stored == s.stored && t.direct == s.direct && t.issued == s.issued
            && (d in t.admitted && (d !in s.admitted || t.admitted[d] != s.admitted[d]) ==>
                  && d == c && t.admitted[d] == id && Admits(s, later, c, req, Some(id)) && verdict.None?
                  && id in t.stages && t.stages[id].cap == c && t.stages[id].payload == payload && !t.stages[id].committing)
  {
    hide *;
    if id in s.terminals || id in s.stages {
      StageAgain(s, later, c, id, req, payload, verdict, ttl);
    } else {
      StageNew(s, later, c, id, req, payload, verdict, ttl);
    }
  }

  /** A batch is newly started only for a commit that the capability of its stage admits. */
  lemma CommitIsAllowed(s: Server, later: real, c: Token, id: RequestId, req: Request, r: RequestId)
    ensures var t := CommitBody(s, later, c, id, req).0;
            && t.admitted == s.admitted && t.stored == s.stored && t.direct == s.direct && t.issued == s.issued
            && (r in t.batches && r !in s.batches ==>
                  && r == id && id in t.stages && t.stages[id].cap == c && Admits(s, later, c, req, Some(id)))
  {
    hide CommitBody, Validate, Usable, Matches, Admits, RecordOf, Settle, PythonBlank;
    if id in s.terminals || id !in s.stages || s.stages[id].cap != c {
      CommitElsewhere(s, later, c, id, req);
    } else {
      CommitOwn(s, later, c, id, req);
      if !Admits(s, later, c, req, Some(id)) { RefusedLeaves(s.(now := later), c, req, false, Some(id)); }
    }
  }

  lemma DirectIsAllowed(s: Server, later: real, c: Token, req: Request, payload: Payload, d: Token)
    ensures var t := DirectBody(s, later, c, req, payload).0;
            && t.admitted == s.admitted && t.stored == s.stored && t.batches == s.batches && t.issued == s.issued
            && (d in t.direct && !(d in s.direct && t.direct[d] == s.direct[d]) ==>
                  d == c && t.direct[d] == payload && Admits(s, later, c, req, None))
  {
    hide Validate, Matches, Usable;
    ConsumeShape(s.(now := later), c, req);
    AllowedIff(s.(now := later), c, req, true, None);
  }

  // ---- One step -------------------------------------------------------------------------------------------

  /** Nothing is issued, admitted, started or stored. */
  predicate NothingNew(s: Server, t: Server) {
    && t.issued == s.issued && t.admitted == s.admitted && t.stored == s.stored
    && t.batches.Keys <= s.batches.Keys
    && forall c :: c in t.direct ==> c in s.direct && t.direct[c] == s.direct[c]
  }

  lemma TidyAddsNothing(s: Server, now: real, t: Server)
    requires Tidied(s, now, t)
    ensures NothingNew(s, t)
  {
    hide Lapsed, Released, Expiry;
  }

  lemma SettleAddsNothing(s: Server, c: Token, id: RequestId, spend: bool, reply: Reply, now: real)
    ensures NothingNew(s, Settle(s, c, id, spend, reply, now))
  {
    hide Settle;
    SettleTables(s, c, id, spend, reply, now);
  }

  lemma NothingNewThen(s: Server, t: Server, u: Server)
    requires NothingNew(s, t) && NothingNew(t, u)
    ensures NothingNew(s, u)
  {
  }

  lemma EvictAddsNothing(s: Server, t: Server)
    requires Evicted(s, t)
    ensures NothingNew(s, t)
  {
  }

  lemma CapsAddNothing(s: Server, t: Server)
    requires t == s.(now := t.now, caps := t.caps, stages := t.stages)
    ensures NothingNew(s, t)
  {
  }

  lemma AbandonAddsNothing(s: Server, later: real, c: Token, id: RequestId, req: Request)
    ensures NothingNew(s, AbandonBody(s, later, c, id, req).0)
  {
    hide Validate, Recorded, Settle, Refusal, NothingNew;
    var u := s.(now := later);
    ValidateTouchesCaps(u, c, req, id);
    var v := Validate(u, c, req, false, Some(id)).0;
    CapsAddNothing(s, u);
    CapsAddNothing(s, v);
    SettleAddsNothing(v, c, id, true, Reply(true, Some(id), None, None, 200, false), s.now);
    if id in v.stages { CapsAddNothing(s, v.(stages := v.stages[id := v.stages[id].(cancelRequested := true)])); }
    NothingNewThen(s, v, Settle(v, c, id, true, Reply(true, Some(id), None, None, 200, false), s.now));
  }

  lemma TimerAddsNothing(s: Server, c: Token, id: RequestId)
    ensures NothingNew(s, TimerBody(s, c, id))
  {
    hide Settle;
    var spend := c in s.caps && s.caps[c].reserved == Some(id);
    SettleAddsNothing(s, c, id, spend, Refusal("capture_expired", 408), s.now);
  }

  lemma FinishAddsNothing(s: Server, id: RequestId)
    requires id in s.stages && id in s.batches && (s.batches[id].Written? || s.batches[id].Failed?)
    ensures NothingNew(s, FinishBody(s, id).0)
  {
    hide Settle, Outcome, WithId;
    SettleAddsNothing(s, s.stages[id].cap, id, true, Outcome(s.batches[id]), s.now);
  }

  lemma OtherStepsAddNothing(s: Server, e: Event, t: Server)
    requires Step(s, e, t)
    requires e.Tick? || e.Finish? || e.AbandonCall? || e.Timer? || e.BatchCheck? || e.BatchCancel? || e.BatchFail?
             || e.DirectFail? || e.Restart?
    ensures NothingNew(s, t)
  {
    hide FinishBody, AbandonBody, TimerBody, Tidied, Evicted, BatchFailure;
    match e
    case AbandonCall(mid, c, id, req, _) => AbandonStepAddsNothing(s, mid, c, id, req, t);
    case Finish(id, _) =>
      FinishAddsNothing(s, id);
      EvictAddsNothing(FinishBody(s, id).0, t);
    case Timer(c, id) =>
      TimerAddsNothing(s, c, id);
      EvictAddsNothing(TimerBody(s, c, id), t);
    case _ =>
  }

  lemma AbandonStepAddsNothing(s: Server, mid: Server, c: Token, id: RequestId, req: Request, t: Server)
    requires Tidied(s, mid.now, mid) && Evicted(AbandonBody(mid, t.now, c, id, req).0, t)
    ensures NothingNew(s, t)
  {
    hide *;
    var u := AbandonBody(mid, t.now, c, id, req).0;
    TidyAddsNothing(s, mid.now, mid);
    AbandonAddsNothing(mid, t.now, c, id, req);
    EvictAddsNothing(u, t);
    NothingNewThen(s, mid, u);
    NothingNewThen(s, u, t);
  }

  /** What a step adds for a token, and the event that it came with. */
  ghost predicate Origins(s: Server, e: Event, t: Server, c: Token) {
    && (c in t.issued && c !in s.issued ==> e.Issue? && e.c == c && c in t.caps && t.caps[c] == e.k)
    && (c in t.admitted && c !in s.admitted ==>
          && e.StageCall? && e.c == c && t.admitted[c] == e.id && Admits(e.mid, t.now, c, e.req, Some(e.id))
          && (HasStage(t, c) ==> t.stages[e.id].payload == e.payload && !t.stages[e.id].committing))
    && (c in t.direct && !(c in s.direct && t.direct[c] == s.direct[c]) ==>
          e.DirectCall? && e.c == c && t.direct[c] == e.payload && Admits(e.mid, t.now, c, e.req, None))
    && (HasStage(t, c) && t.admitted[c] in t.batches && t.admitted[c] !in s.batches ==>
          e.CommitCall? && e.c == c && e.id == t.admitted[c] && Admits(e.mid, t.now, c, e.req, Some(e.id)))
    && (c in t.stored && c !in s.stored ==>
          || (c in s.direct && t.stored[c] == s.direct[c])
          || (HasStage(s, c) && s.admitted[c] in s.batches && t.stored[c] == s.stages[s.admitted[c]].payload))
  }

  lemma AdditionsOfNothing(s: Server, e: Event, t: Server, c: Token)
    requires NothingNew(s, t)
    ensures Origins(s, e, t, c)
  {
  }

  lemma StageOrigins(s: Server, e: Event, t: Server, c: Token)
    requires Step(s, e, t) && e.StageCall?
    ensures Origins(s, e, t, c)
  {
    hide StageBody, Tidied, Admits;
    match e
    case StageCall(mid, d, id, req, payload, verdict, ttl, _) =>
      TidyAddsNothing(s, mid.now, mid);
      StagingIsAllowed(mid, t.now, d, id, req, payload, verdict, ttl, c);
  }

  lemma CommitOrigins(s: Server, e: Event, t: Server, c: Token)
    requires Step(s, e, t) && e.CommitCall?
    ensures Origins(s, e, t, c)
  {
    hide CommitBody, Tidied, Admits;
    match e
    case CommitCall(mid, d, id, req, _) =>
      TidyAddsNothing(s, mid.now, mid);
      CommitIsAllowed(mid, t.now, d, id, req, if HasStage(t, c) then t.admitted[c] else id);
  }

  lemma DirectOrigins(s: Server, e: Event, t: Server, c: Token)
    requires Step(s, e, t) && e.DirectCall?
    ensures Origins(s, e, t, c)
  {
    hide DirectBody, Tidied, Admits;
    match e
    case DirectCall(mid, d, req, payload, _) =>
      TidyAddsNothing(s, mid.now, mid);
      DirectIsAllowed(mid, t.now, d, req, payload, c);
  }

  lemma IssueAdds(s: Server, c: Token, k: Capability, t: Server)
    requires Issued(s, c, k, t)
    ensures c !in s.issued && c in t.caps && t.caps[c] == k && t == s.(caps := t.caps, issued := s.issued + {c})
  {
    hide Stale, WithoutEldest;
  }

  lemma IssueOrigins(s: Server, e: Event, t: Server, c: Token)
    requires Step(s, e, t) && e.Issue?
    ensures Origins(s, e, t, c)
  {
    hide Tidied, Issued;
    match e
    case Issue(mid, d, k) =>
      TidyAddsNothing(s, mid.now, mid);
      IssueAdds(mid, d, k, t);
  }

  lemma StoreOrigins(s: Server, e: Event, t: Server, c: Token)
    requires Inv(s) && Step(s, e, t) && (e.BatchStore? || e.DirectStore?)
    ensures Origins(s, e, t, c)
  {
    hide Known, Batches, Settled, Terminals;
  }

  lemma StepOrigins(s: Server, e: Event, t: Server, c: Token)
    requires Inv(s) && Step(s, e, t)
    ensures Origins(s, e, t, c)
  {
    hide Inv, Step, Origins;
    if e.StageCall? {
      StageOrigins(s, e, t, c);
    } else if e.CommitCall? {
      CommitOrigins(s, e, t, c);
    } else if e.DirectCall? {
      DirectOrigins(s, e, t, c);
    } else if e.Issue? {
      IssueOrigins(s, e, t, c);
    } else if e.BatchStore? || e.DirectStore? {
      StoreOrigins(s, e, t, c);
    } else {
      OtherStepsAddNothing(s, e, t);
      AdditionsOfNothing(s, e, t, c);
    }
  }

  // ---- Whole runs -------------------------------------------------------------------------------------------

  ghost predicate IsEventRun(run: seq<Server>, events: seq<Event>) {
    |run| == |events| + 1 && forall i :: 0 <= i < |events| ==> Step(run[i], events[i], run[i + 1])
  }

  /** An earlier event issued the token for this origin, tab and window, with this lifetime. */
  predicate IssuedBefore(events: seq<Event>, n: nat, c: Token, k: Capability) {
    exists j | 0 <= j < n && j < |events| :: events[j].Issue? && events[j].c == c && SameBinding(events[j].k, k)
  }

  /** At event `i` the capability admits the request, and it is as it was issued. */
  ghost predicate Allowed(run: seq<Server>, events: seq<Event>, i: nat, c: Token, id: Option<RequestId>)
    requires |run| == |events| + 1 && i < |events|
    requires events[i].StageCall? || events[i].CommitCall? || events[i].DirectCall?
  {
    var e := events[i];
    e.c == c && Admits(e.mid, run[i + 1].now, c, e.req, id) && IssuedBefore(events, i, c, e.mid.caps[c])
  }

  ghost predicate StagesAt(run: seq<Server>, events: seq<Event>, i: nat, c: Token, id: RequestId, payload: Payload)
    requires |run| == |events| + 1 && i < |events|
  {
    events[i].StageCall? && events[i].id == id && events[i].payload == payload && Allowed(run, events, i, c, Some(id))
  }

  ghost predicate CommitsAt(run: seq<Server>, events: seq<Event>, l: nat, c: Token, id: RequestId)
    requires |run| == |events| + 1 && l < |events|
  {
    events[l].CommitCall? && events[l].id == id && Allowed(run, events, l, c, Some(id))
  }

  ghost predicate SendsAt(run: seq<Server>, events: seq<Event>, i: nat, c: Token, payload: Payload)
    requires |run| == |events| + 1 && i < |events|
  {
    events[i].DirectCall? && events[i].payload == payload && Allowed(run, events, i, c, None)
  }

  /** Before position `n`, an allowed request staged the payload. */
  ghost predicate Staged(run: seq<Server>, events: seq<Event>, n: nat, c: Token, id: RequestId, payload: Payload)
    requires |run| == |events| + 1 && n <= |events|
  {
    exists i | 0 <= i < n :: StagesAt(run, events, i, c, id, payload)
  }

  /** And a later one, allowed as well, committed it. */
  ghost predicate Committed(run: seq<Server>, events: seq<Event>, n: nat, c: Token, id: RequestId, payload: Payload)
    requires |run| == |events| + 1 && n <= |events|
  {
    exists i, l | 0 <= i < l < n :: StagesAt(run, events, i, c, id, payload) && CommitsAt(run, events, l, c, id)
  }

  ghost predicate Sent(run: seq<Server>, events: seq<Event>, n: nat, c: Token, payload: Payload)
    requires |run| == |events| + 1 && n <= |events|
  {
    exists i | 0 <= i < n :: SendsAt(run, events, i, c, payload)
  }

  /** The payload came in one allowed request, or was staged by one and committed by a later one. */
  ghost predicate StoredBy(run: seq<Server>, events: seq<Event>, n: nat, c: Token, payload: Payload)
    requires |run| == |events| + 1 && n <= |events|
  {
    || (exists i | 0 <= i < n :: SendsAt(run, events, i, c, payload))
    || exists i, l | 0 <= i < l < n ::
         && events[i].StageCall? && StagesAt(run, events, i, c, events[i].id, payload)
         && CommitsAt(run, events, l, c, events[i].id)
  }

  /** What the tables hold for a token came with allowed requests. */
  ghost predicate History(run: seq<Server>, events: seq<Event>, n: nat, c: Token)
    requires |run| == |events| + 1 && n <= |events|
  {
    var s := run[n];
    && (c in s.caps ==> IssuedBefore(events, n, c, s.caps[c]))
    && (HasStage(s, c) ==>
          var id := s.admitted[c];
          && Staged(run, events, n, c, id, s.stages[id].payload)
          && (id in s.batches ==> Committed(run, events, n, c, id, s.stages[id].payload)))
    && (c in s.direct ==> Sent(run, events, n, c, s.direct[c]))
    && (c in s.stored ==> StoredBy(run, events, n, c, s.stored[c]))
  }

  /** The capability that a locked region sees is as it was issued. */
  lemma MidIsIssued(run: seq<Server>, events: seq<Event>, n: nat, mid: Server, c: Token)
    requires |run| == |events| + 1 && n < |events| && Inv(run[n]) && Tidied(run[n], mid.now, mid)
    requires c in run[n].caps ==> IssuedBefore(events, n, c, run[n].caps[c])
    ensures c in mid.caps ==> IssuedBefore(events, n, c, mid.caps[c])
  {
    hide Tidied, Step, Stages, Batches, Settled, Terminals, Cleanup;
    TidyForward(run[n], mid.now, mid, c);
    TidyAddsNothing(run[n], mid.now, mid);
    TidyKeepsInv(run[n], mid.now, mid);
  }

  lemma IssuedStep(run: seq<Server>, events: seq<Event>, n: nat, c: Token)
    requires |run| == |events| + 1 && n < |events| && Inv(run[n + 1])
    requires Forward(run[n], run[n + 1], c) && Origins(run[n], events[n], run[n + 1], c)
    requires c in run[n].caps ==> IssuedBefore(events, n, c, run[n].caps[c])
    ensures c in run[n + 1].caps ==> IssuedBefore(events, n + 1, c, run[n + 1].caps[c])
  {
    hide Admits, HasStage, Hazard, Quiet;
  }

  lemma {:induction false} HistoryHolds(run: seq<Server>, events: seq<Event>, n: nat, c: Token)
    requires IsEventRun(run, events) && Inv(run[0]) && c !in run[0].issued && n <= |events|
    ensures Inv(run[n]) && History(run, events, n, c)
  {
    hide Inv, Step, History;
    if n == 0 {
      NoHistory(run, events, c);
    } else {
      HistoryHolds(run, events, n - 1, c);
      var s, e, t := run[n - 1], events[n - 1], run[n];
      StepKeepsInv(s, e, t);
      HistoryStep(run, events, n - 1, c);
    }
  }

  lemma NoHistory(run: seq<Server>, events: seq<Event>, c: Token)
    requires |run| == |events| + 1 && Inv(run[0]) && c !in run[0].issued
    ensures History(run, events, 0, c)
  {
  }

  /** A request that its capability admits is allowed, as the capability is as it was issued. */
  lemma AdmittedIsAllowed(run: seq<Server>, events: seq<Event>, n: nat, c: Token, id: Option<RequestId>)
    requires |run| == |events| + 1 && n < |events| && Inv(run[n]) && Step(run[n], events[n], run[n + 1])
    requires c in run[n].caps ==> IssuedBefore(events, n, c, run[n].caps[c])
    requires events[n].StageCall? || events[n].CommitCall? || events[n].DirectCall?
    requires events[n].c == c && Admits(events[n].mid, run[n + 1].now, c, events[n].req, id)
    ensures Allowed(run, events, n, c, id)
  {
    hide Inv, Tidied, StageBody, CommitBody, DirectBody, Evicted, IssuedBefore;
    MidIsIssued(run, events, n, events[n].mid, c);
  }

  lemma StillStaged(run: seq<Server>, events: seq<Event>, n: nat, c: Token, id: RequestId, payload: Payload)
    requires |run| == |events| + 1 && n < |events|
    ensures Staged(run, events, n, c, id, payload) ==> Staged(run, events, n + 1, c, id, payload)
    ensures Committed(run, events, n, c, id, payload) ==> Committed(run, events, n + 1, c, id, payload)
    ensures Sent(run, events, n, c, payload) ==> Sent(run, events, n + 1, c, payload)
    ensures StoredBy(run, events, n, c, payload) ==> StoredBy(run, events, n + 1, c, payload)
  {
    hide StagesAt, CommitsAt, SendsAt;
  }

  lemma CommittedIsStoredBy(run: seq<Server>, events: seq<Event>, n: nat, c: Token, id: RequestId, payload: Payload)
    requires |run| == |events| + 1 && n <= |events|
    requires Committed(run, events, n, c, id, payload) || Sent(run, events, n, c, payload)
    ensures StoredBy(run, events, n, c, payload)
  {
    hide Allowed;
  }

  /** What one step requires of the history so far. */
  ghost predicate Continues(run: seq<Server>, events: seq<Event>, n: nat, c: Token) {
    && IsEventRun(run, events) && n < |events|
    && Inv(run[n]) && Inv(run[n + 1]) && History(run, events, n, c)
    && Forward(run[n], run[n + 1], c) && Origins(run[n], events[n], run[n + 1], c)
  }

  lemma NowStaged(run: seq<Server>, events: seq<Event>, n: nat, c: Token, id: RequestId, payload: Payload)
    requires |run| == |events| + 1 && n < |events| && StagesAt(run, events, n, c, id, payload)
    ensures Staged(run, events, n + 1, c, id, payload)
  {
  }

  lemma NowSent(run: seq<Server>, events: seq<Event>, n: nat, c: Token, payload: Payload)
    requires |run| == |events| + 1 && n < |events| && SendsAt(run, events, n, c, payload)
    ensures Sent(run, events, n + 1, c, payload)
  {
  }

  lemma StagedStep(run: seq<Server>, events: seq<Event>, n: nat, c: Token)
    requires Continues(run, events, n, c) && HasStage(run[n + 1], c)
    ensures var t := run[n + 1]; Staged(run, events, n + 1, c, t.admitted[c], t.stages[t.admitted[c]].payload)
  {
    hide Inv, Step, Allowed, IssuedBefore, Staged, Committed, Sent, Hazard, Quiet, Blocked;
    var s, t := run[n], run[n + 1];
    var id := t.admitted[c];
    var payload := t.stages[id].payload;
    if c in s.admitted {
      StillStaged(run, events, n, c, id, payload);
    } else {
      AdmittedIsAllowed(run, events, n, c, Some(id));
      NowStaged(run, events, n, c, id, payload);
    }
  }

  lemma NewStageHasNoBatch(s: Server, id: RequestId)
    requires Inv(s) && id in s.batches
    ensures id in s.stages && s.stages[id].committing
  {
  }

  lemma CommittedStep(run: seq<Server>, events: seq<Event>, n: nat, c: Token)
    requires Continues(run, events, n, c) && HasStage(run[n + 1], c) && run[n + 1].admitted[c] in run[n + 1].batches
    ensures var t := run[n + 1]; Committed(run, events, n + 1, c, t.admitted[c], t.stages[t.admitted[c]].payload)
  {
    hide Inv, Step, Allowed, IssuedBefore, Staged, Committed, Sent, Hazard, Quiet, Blocked;
    var s, t := run[n], run[n + 1];
    var id := t.admitted[c];
    var payload := t.stages[id].payload;
    NewStageHasNoBatch(t, id);
    assert HasStage(s, c) && s.admitted[c] == id && s.stages[id].payload == payload;
    if id in s.batches {
      StillStaged(run, events, n, c, id, payload);
    } else {
      AdmittedIsAllowed(run, events, n, c, Some(id));
      assert CommitsAt(run, events, n, c, id);
      StagedThenCommitted(run, events, n, c, id, payload);
    }
  }

  lemma StagedThenCommitted(run: seq<Server>, events: seq<Event>, n: nat, c: Token, id: RequestId, payload: Payload)
    requires |run| == |events| + 1 && n < |events|
    requires Staged(run, events, n, c, id, payload) && CommitsAt(run, events, n, c, id)
    ensures Committed(run, events, n + 1, c, id, payload)
  {
    hide StagesAt, CommitsAt;
    var i :| 0 <= i < n && StagesAt(run, events, i, c, id, payload);
  }

  lemma SentStep(run: seq<Server>, events: seq<Event>, n: nat, c: Token)
    requires Continues(run, events, n, c) && c in run[n + 1].direct
    ensures Sent(run, events, n + 1, c, run[n + 1].direct[c])
  {
    hide Inv, Step, Allowed, IssuedBefore, Staged, Committed, Sent, Hazard, Quiet, Blocked, HasStage;
    var s, payload := run[n], run[n + 1].direct[c];
    if c in s.direct && s.direct[c] == payload {
      StillStaged(run, events, n, c, "", payload);
    } else {
      AdmittedIsAllowed(run, events, n, c, None);
      NowSent(run, events, n, c, payload);
    }
  }

  lemma StoredStep(run: seq<Server>, events: seq<Event>, n: nat, c: Token)
    requires Continues(run, events, n, c) && c in run[n + 1].stored
    ensures StoredBy(run, events, n + 1, c, run[n + 1].stored[c])
  {
    hide Inv, Step, Allowed, IssuedBefore, Staged, Committed, Sent, StoredBy, Hazard, Quiet, Blocked;
    var s, payload := run[n], run[n + 1].stored[c];
    if c !in s.stored {
      var id := if HasStage(s, c) && s.admitted[c] in s.batches then s.admitted[c] else "";
      CommittedIsStoredBy(run, events, n, c, id, payload);
    }
    StillStaged(run, events, n, c, "", payload);
  }

  lemma HistoryStep(run: seq<Server>, events: seq<Event>, n: nat, c: Token)
    requires IsEventRun(run, events) && n < |events| && Inv(run[n]) && Inv(run[n + 1]) && History(run, events, n, c)
    ensures History(run, events, n + 1, c)
  {
    hide Inv, Step, Forward, Origins, IssuedBefore, Staged, Committed, Sent, StoredBy;
    StepForward(run[n], events[n], run[n + 1], c);
    StepOrigins(run[n], events[n], run[n + 1], c);
    IssuedStep(run, events, n, c);
    var t := run[n + 1];
    if c in t.direct { SentStep(run, events, n, c); }
    if c in t.stored { StoredStep(run, events, n, c); }
    if HasStage(t, c) {
      StagedStep(run, events, n, c);
      if t.admitted[c] in t.batches { CommittedStep(run, events, n, c); }
    }
  }

  // ---- The theorem ------------------------------------------------------------------------------------------

  lemma IssueStep(s: Server, e: Event, t: Server)
    requires Step(s, e, t) && e.Issue?
    ensures e.c !in s.issued && e.c in t.issued
  {
    hide Tidied, Issued;
    match e
    case Issue(mid, c, k) =>
      TidyAddsNothing(s, mid.now, mid);
      IssueAdds(mid, c, k, t);
  }

  lemma EventRunIsRun(run: seq<Server>, events: seq<Event>)
    requires IsEventRun(run, events)
    ensures IsRun(run)
  {
    hide Step;
    forall i | 0 <= i < |run| - 1 ensures Steps(run[i], run[i + 1]) {
      assert Step(run[i], events[i], run[i + 1]);
    }
  }

  /** A token is issued once. */
  lemma IssuedOnce(run: seq<Server>, events: seq<Event>, j: nat, k: nat)
    requires IsEventRun(run, events) && Inv(run[0]) && j < |events| && k < |events|
    requires events[j].Issue? && events[k].Issue? && events[j].c == events[k].c
    ensures j == k
  {
    hide Inv, Step, IsRun;
    var c := events[j].c;
    EventRunIsRun(run, events);
    assert Step(run[j], events[j], run[j + 1]) && Step(run[k], events[k], run[k + 1]);
    IssueStep(run[j], events[j], run[j + 1]);
    IssueStep(run[k], events[k], run[k + 1]);
    if j < k { RunForward(run, j + 1, k, c); } else if k < j { RunForward(run, k + 1, j, c); }
  }

  /** What an allowed request says when the token was issued at event `j`. */
  lemma AllowedMeans(run: seq<Server>, events: seq<Event>, j: nat, i: nat, c: Token, id: Option<RequestId>)
    requires IsEventRun(run, events) && Inv(run[0]) && j < |events| && events[j].Issue? && events[j].c == c
    requires i < |events| && (events[i].StageCall? || events[i].CommitCall? || events[i].DirectCall?)
    requires Allowed(run, events, i, c, id)
    ensures j < i && c in events[i].mid.caps && !events[i].mid.caps[c].used
    ensures events[i].req == Request(events[j].k.origin, Some(events[j].k.tab), events[j].k.window)
    ensures run[i + 1].now < events[j].k.expiresAt
  {
    hide Inv, IsEventRun;
    var k :| 0 <= k < i && k < |events|
      && events[k].Issue? && events[k].c == c && SameBinding(events[k].k, events[i].mid.caps[c]);
    IssuedOnce(run, events, j, k);
  }

  lemma AllowedWasIssued(run: seq<Server>, events: seq<Event>, i: nat, c: Token, id: Option<RequestId>) returns (j: nat)
    requires |run| == |events| + 1 && i < |events|
    requires events[i].StageCall? || events[i].CommitCall? || events[i].DirectCall?
    requires Allowed(run, events, i, c, id)
    ensures j < i && events[j].Issue? && events[j].c == c
  {
    j :| 0 <= j < i && j < |events|
      && events[j].Issue? && events[j].c == c && SameBinding(events[j].k, events[i].mid.caps[c]);
  }

  /**
   * The token was issued at event `j`, and at event `i` a request for the origin, tab and window of
   * that issue brought the payload while the capability was unused and unexpired.
   */
  ghost predicate Brought(run: seq<Server>, events: seq<Event>, c: Token, payload: Payload, j: nat, i: nat)
    requires |run| == |events| + 1
  {
    && j < i < |events| && events[j].Issue? && events[j].c == c
    && (events[i].StageCall? || events[i].DirectCall?)
    && var k, e := events[j].k, events[i];
       && e.c == c && e.payload == payload && e.req == Request(k.origin, Some(k.tab), k.window)
       && run[i + 1].now < k.expiresAt && c in e.mid.caps && !e.mid.caps[c].used
  }

  /** At event `l` the same request committed it, before the capability expired. */
  ghost predicate Confirmed(run: seq<Server>, events: seq<Event>, c: Token, j: nat, i: nat, l: nat)
    requires |run| == |events| + 1 && j < |events| && events[j].Issue? && i < |events| && events[i].StageCall?
  {
    && i < l < |events| && events[l].CommitCall? && events[l].c == c && events[l].id == events[i].id
    && events[l].req == events[i].req && run[l + 1].now < events[j].k.expiresAt
  }

  lemma AllowedToken(run: seq<Server>, events: seq<Event>, i: nat, c: Token, id: Option<RequestId>)
    requires |run| == |events| + 1 && i < |events|
    requires events[i].StageCall? || events[i].CommitCall? || events[i].DirectCall?
    requires Allowed(run, events, i, c, id)
    ensures events[i].c == c
  {
  }

  lemma SentWasBrought(run: seq<Server>, events: seq<Event>, c: Token, payload: Payload, i: nat) returns (j: nat)
    requires IsEventRun(run, events) && Inv(run[0]) && i < |events| && SendsAt(run, events, i, c, payload)
    ensures Brought(run, events, c, payload, j, i) && events[i].DirectCall?
  {
    hide Inv, Step, Allowed;
    j := AllowedWasIssued(run, events, i, c, None);
    AllowedMeans(run, events, j, i, c, None);
    AllowedToken(run, events, i, c, None);
  }

  lemma StagedWasBrought(run: seq<Server>, events: seq<Event>, c: Token, payload: Payload, i: nat, l: nat) returns (j: nat)
    requires IsEventRun(run, events) && Inv(run[0]) && i < l < |events| && events[i].StageCall?
    requires StagesAt(run, events, i, c, events[i].id, payload) && CommitsAt(run, events, l, c, events[i].id)
    ensures Brought(run, events, c, payload, j, i) && Confirmed(run, events, c, j, i, l)
  {
    hide Inv, Step, Allowed;
    var id := Some(events[i].id);
    j := AllowedWasIssued(run, events, i, c, id);
    AllowedMeans(run, events, j, i, c, id);
    AllowedMeans(run, events, j, l, c, id);
    AllowedToken(run, events, i, c, id);
    AllowedToken(run, events, l, c, id);
  }

  /**
   * Whatever the hub stores for a token came from a request that matched the token's capability as it
   * had been issued; and if it was staged, a later commit of the same request matched as well.
   */
  lemma StoredIsAllowed(run: seq<Server>, events: seq<Event>, c: Token) returns (j: nat, i: nat)
    requires IsEventRun(run, events) && Inv(run[0]) && c !in run[0].issued && c in run[|events|].stored
    ensures Brought(run, events, c, run[|events|].stored[c], j, i)
    ensures events[i].StageCall? ==> exists l :: Confirmed(run, events, c, j, i, l)
  {
    hide Inv, Step, Brought, Confirmed, StagesAt, CommitsAt, SendsAt;
    HistoryHolds(run, events, |events|, c);
    var payload := run[|events|].stored[c];
    if n :| 0 <= n < |events| && SendsAt(run, events, n, c, payload) {
      i := n;
      j := SentWasBrought(run, events, c, payload, i);
    } else {
      var n, l :| 0 <= n < l < |events| && events[n].StageCall? && StagesAt(run, events, n, c, events[n].id, payload)
        && CommitsAt(run, events, l, c, events[n].id);
      i := n;
      j := StagedWasBrought(run, events, c, payload, i, l);
    }
  }
}
