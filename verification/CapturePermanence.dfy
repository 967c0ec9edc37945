/** What no later step can undo: a stored capture, and a token that can no longer be stored. */
module CapturePermanence {
  import opened Common
  import opened CaptureServer
  import opened CaptureInvariant
  import opened CaptureSteps

  /** The token cannot pass the capability check again and no running batch can store it. */
  predicate Quiet(s: Server, c: Token) {
    c in s.issued && Blocked(s, c) && !Hazard(s, c)
  }

  /**
   * Blocked tokens stay blocked, stored captures stay as they are, quiet tokens stay
   * quiet; capabilities keep their binding and stages their request and payload.
   */
  predicate Forward(s: Server, t: Server, c: Token) {
    && (c in s.issued ==> c in t.issued)
    && (c in s.issued && Blocked(s, c) ==> Blocked(t, c))
    && (c in s.stored ==> c in t.stored && t.stored[c] == s.stored[c])
    && (Quiet(s, c) ==> Quiet(t, c))
    && (c in s.issued && c in t.caps ==> c in s.caps && SameBinding(s.caps[c], t.caps[c]))
    && (c in s.admitted ==>
          && c in t.admitted && t.admitted[c] == s.admitted[c]
          && (HasStage(t, c) ==>
                HasStage(s, c) && t.stages[t.admitted[c]].payload == s.stages[t.admitted[c]].payload))
  }

  lemma ForwardTrans(s: Server, t: Server, u: Server, c: Token)
    requires Forward(s, t, c) && Forward(t, u, c)
    ensures Forward(s, u, c)
  {
  }

  lemma CleanupForward(s: Server, now: real, c: Token)
    requires Inv(s) && s.now <= now
    ensures Forward(s, Cleanup(s, now), c)
  {
    CleanupOfToken(s, now, c);
  }

  lemma EvictForward(s: Server, t: Server, c: Token)
    requires Evicted(s, t)
    ensures Forward(s, t, c)
  {
  }

  lemma TidyForward(s: Server, now: real, t: Server, c: Token)
    requires Inv(s) && Tidied(s, now, t)
    ensures Forward(s, t, c)
  {
    hide Inv, Forward;
    CleanupForward(s, now, c);
    EvictForward(Cleanup(s, now), t, c);
    ForwardTrans(s, Cleanup(s, now), t, c);
  }

  /** Changes of capabilities alone that open none. */
  lemma CapsForward(s: Server, t: Server, c: Token)
    requires t == s.(now := t.now, caps := t.caps) && (Blocked(s, c) ==> Blocked(t, c))
    requires c in t.caps ==> c in s.caps && SameBinding(s.caps[c], t.caps[c])
    ensures Forward(s, t, c)
  {
  }

  lemma AdmitForward(s: Server, d: Token, id: RequestId, payload: Payload, expiry: real, c: Token)
    requires Inv(s) && !Blocked(s, d) && s.caps[d].reserved == Some(id) && id !in s.stages
    ensures Forward(s, Admit(s, d, id, payload, expiry), c)
  {
    FreshToken(s, d, id);
  }

  lemma SettleForward(s: Server, d: Token, id: RequestId, spend: bool, reply: Reply, now: real, c: Token)
    requires Inv(s) && id in s.stages && s.stages[id].cap == d && (spend || Blocked(s, d))
    ensures Forward(s, Settle(s, d, id, spend, reply, now), c)
  {
    hide Inv, Settle, Blocked;
    SettleOfToken(s, d, id, spend, reply, now, c);
    SettleFrame(s, d, id, spend, reply, now, c);
  }

  lemma CancelMarkForward(s: Server, id: RequestId, c: Token)
    requires id in s.stages
    ensures Forward(s, s.(stages := s.stages[id := s.stages[id].(cancelRequested := true)]), c)
  {
  }

  lemma BeginForward(s: Server, id: RequestId, c: Token)
    requires id in s.stages && !Blocked(s, s.stages[id].cap)
    ensures Forward(s, s.(stages := s.stages[id := s.stages[id].(committing := true)],
                          batches := s.batches[id := Started]), c)
  {
  }

  lemma ValidateForward(s: Server, later: real, d: Token, id: RequestId, req: Request, c: Token)
    requires s.now <= later
    ensures var u := s.(now := later);
            Forward(s, u, c) && Forward(s, Validate(u, d, req, false, Some(id)).0, c)
  {
    hide Forward, Validate, RefusalOf;
    var u := s.(now := later);
    ValidateShape(u, d, req, id);
    CapsForward(s, u, c);
    CapsForward(s, Validate(u, d, req, false, Some(id)).0, c);
  }

  lemma ReserveForward(s: Server, d: Token, later: Server, c: Token)
    requires Forward(s, later, c) && d in later.caps
    ensures Forward(s, Reserve(later, d, None), c)
  {
    hide Forward;
    CapsForward(later, Reserve(later, d, None), c);
    ForwardTrans(s, later, Reserve(later, d, None), c);
  }

  lemma StageForward(
    s: Server, later: real, d: Token, id: RequestId, req: Request,
    payload: Payload, verdict: Option<Reply>, ttl: real, c: Token)
    requires Inv(s) && s.now <= later
    ensures Forward(s, StageBody(s, later, d, id, req, payload, verdict, ttl).0, c)
  {
    hide Inv, Forward, Validate, RefusalOf, SameBinding, Spend, WithId;
    var u := s.(now := later);
    ValidateShape(u, d, req, id);
    LaterKeepsInv(s, later);
    ValidateKeepsInv(u, d, req, id);
    var (v, refused) := Validate(u, d, req, false, Some(id));
    ValidateForward(s, later, d, id, req, c);
    if Recorded(u, id, d).None? && id !in u.stages && refused.None? {
      ReserveForward(s, d, v, c);
      var expiry := if v.caps[d].expiresAt <= s.now + ttl then v.caps[d].expiresAt else s.now + ttl;
      AdmitForward(v, d, id, payload, expiry, c);
      ForwardTrans(s, v, Admit(v, d, id, payload, expiry), c);
    }
  }

  lemma CommitForward(s: Server, later: real, d: Token, id: RequestId, req: Request, c: Token)
    requires Inv(s) && s.now <= later
    ensures Forward(s, CommitBody(s, later, d, id, req).0, c)
  {
    hide Inv, Forward, Validate, RefusalOf, SameBinding, Spend, WithId;
    var u := s.(now := later);
    ValidateShape(u, d, req, id);
    LaterKeepsInv(s, later);
    ValidateKeepsInv(u, d, req, id);
    var (v, refused) := Validate(u, d, req, false, Some(id));
    ValidateForward(s, later, d, id, req, c);
    if Recorded(u, id, d).None? && id in u.stages && u.stages[id].cap == d && refused.None?
       && !v.stages[id].committing {
      if v.stages[id].cancelRequested {
        SettleForward(v, d, id, true, Refusal("capture_cancelled", 409), s.now, c);
      } else {
        BeginForward(v, id, c);
      }
      ForwardTrans(s, v, CommitBody(s, later, d, id, req).0, c);
    }
  }

  lemma AbandonForward(s: Server, later: real, d: Token, id: RequestId, req: Request, c: Token)
    requires Inv(s) && s.now <= later
    ensures Forward(s, AbandonBody(s, later, d, id, req).0, c)
  {
    hide Inv, Forward, Validate, RefusalOf, SameBinding, Spend, WithId;
    var u := s.(now := later);
    ValidateShape(u, d, req, id);
    LaterKeepsInv(s, later);
    ValidateKeepsInv(u, d, req, id);
    var (v, refused) := Validate(u, d, req, false, Some(id));
    ValidateForward(s, later, d, id, req, c);
    if Recorded(u, id, d).None? && id in u.stages && u.stages[id].cap == d && refused.None? {
      CancelMarkForward(v, id, c);
      SettleForward(v, d, id, true, Reply(true, Some(id), None, None, 200, false), s.now, c);
      ForwardTrans(s, v, AbandonBody(s, later, d, id, req).0, c);
    }
  }

  lemma TimerForward(s: Server, d: Token, id: RequestId, c: Token)
    requires Inv(s)
    ensures Forward(s, TimerBody(s, d, id), c)
  {
    hide Forward;
    CapsForward(s, s, c);
    if id in s.stages && s.stages[id].cap == d {
      CancelMarkForward(s, id, c);
      var spend := d in s.caps && s.caps[d].reserved == Some(id);
      SettleForward(s, d, id, spend, Refusal("capture_expired", 408), s.now, c);
    }
  }

  lemma DirectForward(s: Server, later: real, d: Token, req: Request, payload: Payload, c: Token)
    requires s.now <= later
    ensures Forward(s, DirectBody(s, later, d, req, payload).0, c)
  {
    hide Forward;
    var u := s.(now := later);
    ConsumeShape(u, d, req);
    var (v, refused) := Validate(u, d, req, true, None);
    CapsForward(s, v, c);
    if refused.None? {
      if d == c { OpenDirectForward(s, v.(direct := v.direct[d := payload]), c); }
      else { OtherDirectForward(v, d, payload, c); ForwardTrans(s, v, v.(direct := v.direct[d := payload]), c); }
    }
  }

  lemma OpenDirectForward(s: Server, t: Server, c: Token)
    requires !Blocked(s, c) && c in t.caps && t == s.(now := t.now, caps := t.caps, direct := t.direct)
    requires SameBinding(s.caps[c], t.caps[c])
    ensures Forward(s, t, c)
  {
  }

  lemma OtherDirectForward(s: Server, d: Token, payload: Payload, c: Token)
    requires d != c
    ensures Forward(s, s.(direct := s.direct[d := payload]), c)
  {
  }

  /** Every step moves forward for every token. */
  lemma StepForward(s: Server, e: Event, t: Server, c: Token)
    requires Inv(s) && Step(s, e, t)
    ensures Forward(s, t, c)
  {
    hide Inv, Forward, Tidied, Evicted, Issued, StageBody, CommitBody, FinishBody, AbandonBody, TimerBody, DirectBody;
    match e
    case StageCall(mid, d, id, req, payload, verdict, ttl, reply) =>
      TidyKeepsInv(s, mid.now, mid);
      TidyForward(s, mid.now, mid, c);
      StageForward(mid, t.now, d, id, req, payload, verdict, ttl, c);
      ForwardTrans(s, mid, t, c);
    case CommitCall(mid, d, id, req, answer) =>
      TidyKeepsInv(s, mid.now, mid);
      TidyForward(s, mid.now, mid, c);
      CommitForward(mid, t.now, d, id, req, c);
      ForwardTrans(s, mid, CommitBody(mid, t.now, d, id, req).0, c);
      EvictForward(CommitBody(mid, t.now, d, id, req).0, t, c);
      ForwardTrans(s, CommitBody(mid, t.now, d, id, req).0, t, c);
    case AbandonCall(mid, d, id, req, reply) =>
      TidyKeepsInv(s, mid.now, mid);
      TidyForward(s, mid.now, mid, c);
      AbandonForward(mid, t.now, d, id, req, c);
      ForwardTrans(s, mid, AbandonBody(mid, t.now, d, id, req).0, c);
      EvictForward(AbandonBody(mid, t.now, d, id, req).0, t, c);
      ForwardTrans(s, AbandonBody(mid, t.now, d, id, req).0, t, c);
    case Finish(id, reply) =>
      SettleForward(s, s.stages[id].cap, id, true, Outcome(s.batches[id]), s.now, c);
      FinishSettles(s, id);
      EvictForward(FinishBody(s, id).0, t, c);
      ForwardTrans(s, FinishBody(s, id).0, t, c);
    case Timer(d, id) =>
      TimerForward(s, d, id, c);
      EvictForward(TimerBody(s, d, id), t, c);
      ForwardTrans(s, TimerBody(s, d, id), t, c);
    case DirectCall(mid, d, req, payload, answer) =>
      TidyKeepsInv(s, mid.now, mid);
      TidyForward(s, mid.now, mid, c);
      DirectForward(mid, t.now, d, req, payload, c);
      ForwardTrans(s, mid, t, c);
    case Issue(mid, d, k) =>
      TidyForward(s, mid.now, mid, c);
      IssueForward(mid, d, k, t, c);
      ForwardTrans(s, mid, t, c);
    case _ => PlainForward(s, e, t, c);
  }

  lemma IssueForward(s: Server, d: Token, k: Capability, t: Server, c: Token)
    requires Issued(s, d, k, t)
    ensures Forward(s, t, c)
  {
    hide Issued, Forward;
    IssueEnrolls(s, d, k, t);
    EnrolledForward(s, d, t, c);
  }

  lemma EnrolledForward(s: Server, d: Token, t: Server, c: Token)
    requires Enrolled(s, d, t)
    ensures Forward(s, t, c)
  {
  }

  /** No batch result is retryable, so a finished batch always ends its stage. */
  lemma FinishSettles(s: Server, id: RequestId)
    requires Inv(s) && id in s.stages && id in s.batches && (s.batches[id].Written? || s.batches[id].Failed?)
    ensures FinishBody(s, id) ==
            (Settle(s, s.stages[id].cap, id, true, Outcome(s.batches[id]), s.now), WithId(Outcome(s.batches[id]), id))
  {
  }

  /** A durable write hits a token that was never stored before: each token is stored at most once. */
  lemma StoreForward(s: Server, id: RequestId, bundle: string, c: Token)
    requires Inv(s) && id in s.batches && s.batches[id].Checked? && id in s.stages
    ensures s.stages[id].cap !in s.stored
    ensures Forward(s, s.(batches := s.batches[id := Written(bundle)],
                          stored := s.stored[s.stages[id].cap := s.stages[id].payload]), c)
  {
  }

  lemma DirectEndForward(s: Server, d: Token, durable: bool, c: Token)
    requires Inv(s) && d in s.direct
    ensures d !in s.stored
    ensures Forward(s, s.(direct := s.direct - {d},
                          stored := if durable then s.stored[d := s.direct[d]] else s.stored), c)
  {
  }

  lemma BatchForward(s: Server, id: RequestId, batch: Batch, c: Token)
    requires id in s.batches && id in s.stages
    requires s.batches[id].Started? || s.batches[id].Checked?
    requires batch.Failed? || (batch.Checked? && s.batches[id].Started? && !s.stages[id].cancelRequested)
    ensures Forward(s, s.(batches := s.batches[id := batch]), c)
  {
  }

  /** Steps outside the locked regions. */
  lemma PlainForward(s: Server, e: Event, t: Server, c: Token)
    requires Inv(s) && Step(s, e, t)
    requires e.Tick? || e.BatchCheck? || e.BatchCancel? || e.BatchFail? || e.BatchStore?
             || e.DirectStore? || e.DirectFail? || e.Restart?
    ensures Forward(s, t, c)
  {
    hide Forward, Tidied, Evicted, Issued, StageBody, CommitBody, FinishBody, AbandonBody, TimerBody, DirectBody;
    hide BatchFailure, Blank, Known, Settled, Terminals;
    match e
    case Tick => CapsForward(s, t, c);
    case BatchCheck(id) => BatchForward(s, id, Checked, c);
    case BatchCancel(id) => BatchForward(s, id, Failed(Refusal("capture_cancelled", 409)), c);
    case BatchFail(id, reply) => BatchForward(s, id, Failed(reply), c);
    case BatchStore(id, bundle) => StoreForward(s, id, bundle, c);
    case DirectStore(d) => DirectEndForward(s, d, true, c);
    case DirectFail(d) => DirectEndForward(s, d, false, c);
    case Restart => RestartForward(s, c);
  }

  lemma RestartForward(s: Server, c: Token)
    ensures Forward(s, s.(caps := map[], stages := map[], terminals := map[], batches := map[], direct := map[]), c)
  {
  }

  // ---- Whole runs -----------------------------------------------------------------------------

  ghost predicate Steps(s: Server, t: Server) {
    exists e :: Step(s, e, t)
  }

  ghost predicate IsRun(run: seq<Server>) {
    |run| > 0 && forall i :: 0 <= i < |run| - 1 ==> Steps(run[i], run[i + 1])
  }

  lemma ForwardRefl(s: Server, c: Token)
    ensures Forward(s, s, c)
  {
  }

  lemma {:induction false} RunForward(run: seq<Server>, i: nat, j: nat, c: Token)
    requires IsRun(run) && Inv(run[0]) && i <= j < |run|
    ensures Inv(run[j]) && Forward(run[i], run[j], c)
    decreases j
  {
    hide Inv, Forward, Step;
    ForwardRefl(run[j], c);
    if j > 0 {
      RunForward(run, 0, j - 1, c);
      assert Steps(run[j - 1], run[j - 1 + 1]);
      var e :| Step(run[j - 1], e, run[j]);
      StepKeepsInv(run[j - 1], e, run[j]);
      if i < j {
        RunForward(run, i, j - 1, c);
        StepForward(run[j - 1], e, run[j], c);
        ForwardTrans(run[i], run[j - 1], run[j], c);
      }
    }
  }

  ghost predicate NeverStored(s: Server, c: Token) {
    forall run: seq<Server> :: IsRun(run) && run[0] == s ==> c !in run[|run| - 1].stored
  }

  lemma StoreStep(s: Server, c: Token) returns (t: Server)
    requires HasStage(s, c) && s.admitted[c] in s.batches && s.batches[s.admitted[c]].Checked?
    ensures Steps(s, t) && c in t.stored
  {
    var r := s.admitted[c];
    assert !Blank("b") by { assert "b"[0] == 'b'; }
    t := s.(batches := s.batches[r := Written("b")], stored := s.stored[c := s.stages[r].payload]);
    assert Step(s, BatchStore(r, "b"), t);
  }

  lemma CheckStep(s: Server, c: Token) returns (t: Server)
    requires CanStore(s, c) && s.batches[s.admitted[c]].Started?
    ensures Steps(s, t)
    ensures HasStage(t, c) && t.admitted[c] in t.batches && t.batches[t.admitted[c]].Checked?
  {
    var r := s.admitted[c];
    t := s.(batches := s.batches[r := Checked]);
    assert Step(s, BatchCheck(r), t);
  }

  lemma DirectStoreStep(s: Server, c: Token) returns (t: Server)
    requires c in s.direct
    ensures Steps(s, t) && c in t.stored
  {
    t := s.(direct := s.direct - {c}, stored := s.stored[c := s.direct[c]]);
    assert Step(s, DirectStore(c), t);
  }

  /** A running batch that is not bound to be cancelled can still store its capture. */
  lemma HazardCanStore(s: Server, c: Token) returns (run: seq<Server>)
    requires Hazard(s, c)
    ensures IsRun(run) && run[0] == s && c in run[|run| - 1].stored
  {
    hide Step;
    if c in s.stored {
      run := [s];
    } else if c in s.direct {
      var t := DirectStoreStep(s, c);
      run := [s, t];
    } else if s.batches[s.admitted[c]].Checked? {
      var t := StoreStep(s, c);
      run := [s, t];
    } else {
      var u := CheckStep(s, c);
      var t := StoreStep(u, c);
      run := [s, u, t];
    }
  }

  /** For a blocked token, "never stored in any continuation" is exactly "no hazard now". */
  lemma BlockedNeverStoredIff(s: Server, c: Token)
    requires Inv(s) && c in s.issued && Blocked(s, c)
    ensures NeverStored(s, c) <==> !Hazard(s, c)
  {
    if Hazard(s, c) {
      var run := HazardCanStore(s, c);
    } else {
      forall run: seq<Server> | IsRun(run) && run[0] == s ensures c !in run[|run| - 1].stored {
        RunForward(run, 0, |run| - 1, c);
      }
    }
  }

  predicate Stores(s: Server, e: Event, c: Token) {
    match e
    case BatchStore(id, _) => id in s.stages && s.stages[id].cap == c
    case DirectStore(d) => d == c
    case _ => false
  }

  /** No run stores the capture of one capability twice, whichever endpoint was used. */
  lemma StoredAtMostOnce(run: seq<Server>, i: nat, j: nat, e: Event, f: Event, c: Token)
    requires IsRun(run) && Inv(run[0]) && i < j < |run| - 1
    requires Step(run[i], e, run[i + 1]) && Step(run[j], f, run[j + 1])
    requires Stores(run[i], e, c)
    ensures !Stores(run[j], f, c)
  {
    RunForward(run, i + 1, j, c);
    assert c in run[i + 1].stored;
    match f
    case BatchStore(id, bundle) => StoreForward(run[j], id, bundle, c);
    case DirectStore(d) => DirectEndForward(run[j], d, true, c);
    case _ =>
  }
}
