/**
 * One extension commit, composed with the real hub and a network that may lose,
 * delay, reorder and repeat messages, while other clients, timers, evictions and
 * restarts interleave freely.
 */
module CommitAgreement {
  import opened Common
  import opened CaptureServer
  import opened CaptureInvariant
  import opened CaptureSteps
  import opened CapturePermanence
  import opened BridgeReplies

  /** The constants of one capture: its capability, request id, page binding and payload. */
  datatype Session = Session(c: Token, id: RequestId, req: Request, payload: Payload)

  datatype Message = StageMessage | CommitMessage | AbandonMessage

  datatype Result = Unstaged | Withdrawn | OutcomeUnknown | Committed(body: Body) | Refused(body: Body)

  datatype Phase = Staging | Rechecking | FirstCommit | SecondCommit | Done(result: Result)

  /** A reply to our commit, and whether our capture was (or could still be) stored when it was made. */
  datatype Answer = Answer(reply: Reply, hazard: bool)

  datatype System = System(
    hub: Server, phase: Phase, sent: set<Message>, stageReplies: set<Reply>, answers: set<Answer>)

  function FieldOf(o: Option<string>): Field {
    match o case None => Undefined case Some(s) => Text(s)
  }

  function BodyOf(reply: Reply): Body {
    Object(Some(reply.success), FieldOf(reply.id), FieldOf(reply.bundle), FieldOf(reply.code))
  }

  /** What the extension sees of a reply to a commit. */
  function Delivered(reply: Reply): PostResult {
    Post(reply.status, BodyOf(reply), true)
  }

  datatype Move =
    | Hub(e: Event)
    | StageReply(reply: Reply)
    | StageFails(abandon: bool)
    | Withdraw
    | SendCommit
    | CommitReply(r: PostResult)

  /** Hub requests that carry our capability are copies of messages we sent. */
  predicate Ours(x: Session, s: System, e: Event) {
    match e
    case StageCall(_, c, id, req, payload, _, _, _) =>
      c == x.c ==> StageMessage in s.sent && id == x.id && req == x.req && payload == x.payload
    case CommitCall(_, c, id, req, _) => c == x.c ==> CommitMessage in s.sent && id == x.id && req == x.req
    case AbandonCall(_, c, id, req, _) => c == x.c ==> AbandonMessage in s.sent && id == x.id && req == x.req
    case DirectCall(_, c, _, _, _) => c != x.c
    case _ => true
  }

  function StageRepliesOf(x: Session, e: Event): set<Reply> {
    if e.StageCall? && e.c == x.c then {e.reply} else {}
  }

  function AnswersOf(x: Session, s: Server, e: Event, t: Server): set<Answer> {
    match e
    case CommitCall(_, c, _, _, answer) =>
      if c == x.c && answer.Some? then {Answer(answer.value, Hazard(t, x.c))} else {}
    case Finish(id, reply) =>
      if id in s.stages && s.stages[id].cap == x.c then {Answer(reply, Hazard(t, x.c))} else {}
    case _ => {}
  }

  /** The network loses replies and may mangle them, but does not forge a decisive one. */
  ghost predicate Deliverable(x: Session, s: System, r: PostResult) {
    || r.Thrown?
    || !IsValid(r.body, x.id) || (IsAmbiguous(r.body) && r.body.success == Some(false))
    || exists a :: a in s.answers && Delivered(a.reply) == r
  }

  function Ended(body: Body): Result
    requires body.Object? && body.success.Some?
  {
    if body.success.value then Committed(body) else Refused(body)
  }

  ghost predicate Next(x: Session, s: System, m: Move, t: System) {
    match m
    case Hub(e) =>
      && Step(s.hub, e, t.hub) && Ours(x, s, e)
      && t == s.(hub := t.hub,
                 stageReplies := s.stageReplies + StageRepliesOf(x, e),
                 answers := s.answers + AnswersOf(x, s.hub, e, t.hub))
    case StageReply(reply) =>
      s.phase == Staging && reply in s.stageReplies && reply.success && t == s.(phase := Rechecking)
    case StageFails(abandon) =>
      s.phase == Staging
      && t == s.(phase := Done(Unstaged), sent := if abandon then s.sent + {AbandonMessage} else s.sent)
    case Withdraw =>
      s.phase == Rechecking && t == s.(phase := Done(Withdrawn), sent := s.sent + {AbandonMessage})
    case SendCommit =>
      s.phase == Rechecking && t == s.(phase := FirstCommit, sent := s.sent + {CommitMessage})
    case CommitReply(r) =>
      && (s.phase.FirstCommit? || s.phase.SecondCommit?) && Deliverable(x, s, r)
      && match (if s.phase.FirstCommit? then FirstReply(r, x.id) else SecondReply(r, x.id))
         case Replay => t == s.(phase := SecondCommit)
         case Unknown => t == s.(phase := Done(OutcomeUnknown))
         case Returned(body) =>
           body.Object? && body.success.Some?
           && t == s.(phase := Done(Ended(body)),
                      sent := if body.success.value then s.sent else s.sent + {AbandonMessage})
  }

  /** The capability has just been issued to us for the right tab, and nothing was sent yet. */
  ghost predicate Init(x: Session, s: System) {
    && Inv(s.hub) && x.c in s.hub.issued
    && (x.c in s.hub.caps ==> Matches(s.hub.caps[x.c], x.req))
    && x.c !in s.hub.admitted && x.c !in s.hub.stored && x.c !in s.hub.direct
    && s.phase == Staging && s.sent == {StageMessage} && s.stageReplies == {} && s.answers == {}
  }

  // ---- The invariant of the composition --------------------------------------------------------

  /** What a recorded answer guarantees from then on. */
  predicate AnswerHolds(x: Session, hub: Server, a: Answer) {
    && (a.reply.success && a.reply.bundle.Some? ==> x.c in hub.stored)
    && (!a.reply.success && !IsAmbiguous(BodyOf(a.reply)) ==>
          && Blocked(hub, x.c)
          && (!a.hazard ==> !Hazard(hub, x.c)))
    && (!a.reply.success && a.reply.id.Some? ==> !a.hazard)
    && (!a.reply.success && a.reply.code == Some("artifact_store_error") ==> a.reply.status == 503)
  }

  predicate Ownership(x: Session, hub: Server) {
    && x.c in hub.issued && x.c !in hub.direct
    && (x.c in hub.caps ==> Matches(hub.caps[x.c], x.req))
    && (x.c in hub.admitted ==> hub.admitted[x.c] == x.id)
    && (HasStage(hub, x.c) ==> hub.stages[x.id].payload == x.payload)
    && (x.c in hub.stored ==> hub.stored[x.c] == x.payload)
  }

  ghost predicate Conversation(x: Session, s: System) {
    && (CommitMessage in s.sent || s.phase == Rechecking ==> x.c in s.hub.admitted)
    && (s.phase == FirstCommit || s.phase == SecondCommit ==> CommitMessage in s.sent)
    && (CommitMessage in s.sent ==>
          && s.phase != Staging && s.phase != Rechecking
          && s.phase != Done(Unstaged) && s.phase != Done(Withdrawn)
          && (AbandonMessage in s.sent ==> s.phase.Done? && s.phase.result.Refused?))
    && (AbandonMessage in s.sent ==> s.phase.Done?)
    && (forall reply :: reply in s.stageReplies && reply.success ==> x.c in s.hub.admitted)
    && (forall a :: a in s.answers ==> AnswerHolds(x, s.hub, a))
  }

  ghost predicate Outcomes(x: Session, s: System) {
    && (s.phase.Done? && s.phase.result.Committed? ==> x.c in s.hub.stored)
    && (s.phase.Done? && s.phase.result.Refused? ==>
          exists a :: a in s.answers && Justifies(a, s.phase.result.body))
  }

  /** The refusal the extension reports is the refusal the hub gave. */
  predicate Justifies(a: Answer, body: Body) {
    && !a.reply.success && !IsAmbiguous(BodyOf(a.reply))
    && Delivered(a.reply) == Got(body)
  }

  ghost predicate SysInv(x: Session, s: System) {
    Inv(s.hub) && Ownership(x, s.hub) && Conversation(x, s) && Outcomes(x, s)
  }

  // ---- Hub steps -----------------------------------------------------------------------------------

  /** The parts of the hub that a locked region leaves alone. */
  predicate SameRecords(s: Server, t: Server) {
    t.direct == s.direct && t.stored == s.stored && t.admitted == s.admitted
  }

  lemma SettleRecords(s: Server, c: Token, id: RequestId, spend: bool, reply: Reply, now: real)
    ensures SameRecords(s, Settle(s, c, id, spend, reply, now))
  {
    SettleTables(s, c, id, spend, reply, now);
  }

  lemma CommitRecords(s: Server, later: real, c: Token, id: RequestId, req: Request)
    ensures SameRecords(s, CommitBody(s, later, c, id, req).0)
  {
    hide Validate, Recorded, Settle;
    ValidateTouchesCaps(s.(now := later), c, req, id);
    var v := Validate(s.(now := later), c, req, false, Some(id)).0;
    SettleRecords(v, c, id, true, Refusal("capture_cancelled", 409), s.now);
  }

  lemma AbandonRecords(s: Server, later: real, c: Token, id: RequestId, req: Request)
    ensures SameRecords(s, AbandonBody(s, later, c, id, req).0)
  {
    hide Validate, Recorded, Settle;
    ValidateTouchesCaps(s.(now := later), c, req, id);
    var v := Validate(s.(now := later), c, req, false, Some(id)).0;
    SettleRecords(v, c, id, true, Reply(true, Some(id), None, None, 200, false), s.now);
  }

  lemma DirectRecords(s: Server, later: real, c: Token, req: Request, payload: Payload)
    ensures var t := DirectBody(s, later, c, req, payload).0;
            t.stored == s.stored && t.admitted == s.admitted
            && forall d :: d in t.direct ==> d == c || d in s.direct
  {
    hide Validate;
    ConsumeShape(s.(now := later), c, req);
  }

  /** Staging admits the capability it names, for the request and payload it carries. */
  lemma StageRecords(
    s: Server, later: real, c: Token, id: RequestId, req: Request,
    payload: Payload, verdict: Option<Reply>, ttl: real, d: Token)
    ensures var (t, reply) := StageBody(s, later, c, id, req, payload, verdict, ttl);
            && t.stored == s.stored && t.direct == s.direct
            && (t.admitted == s.admitted
                || (d in t.admitted && d !in s.admitted ==>
                      d == c && t.admitted[d] == id && reply.success && id in t.stages
                      && t.stages[id].payload == payload))
  {
    hide Validate, Recorded, Refusal;
    ValidateTouchesCaps(s.(now := later), c, req, id);
  }

  lemma TidyRecords(s: Server, now: real, t: Server)
    requires Tidied(s, now, t)
    ensures SameRecords(s, t)
  {
  }

  lemma StoreRecords(s: Server, e: Event, t: Server, c: Token)
    requires Inv(s) && Step(s, e, t) && (e.BatchStore? || e.DirectStore?)
    ensures t.admitted == s.admitted && t.direct.Keys <= s.direct.Keys
    ensures c in t.stored && c !in s.stored && c !in s.direct ==>
              HasStage(s, c) && t.stored[c] == s.stages[s.admitted[c]].payload
  {
  }

  lemma TimerRecords(s: Server, c: Token, id: RequestId)
    ensures SameRecords(s, TimerBody(s, c, id))
  {
    hide Settle;
    var spend := c in s.caps && s.caps[c].reserved == Some(id);
    SettleRecords(s, c, id, spend, Refusal("capture_expired", 408), s.now);
  }

  lemma EvictedRecords(s: Server, t: Server)
    requires Evicted(s, t)
    ensures SameRecords(s, t)
  {
  }

  lemma IssueRecords(s: Server, c: Token, k: Capability, t: Server)
    requires Issued(s, c, k, t)
    ensures SameRecords(s, t)
  {
  }

  lemma FinishRecords(s: Server, id: RequestId)
    requires id in s.stages && id in s.batches && (s.batches[id].Written? || s.batches[id].Failed?)
    ensures SameRecords(s, FinishBody(s, id).0)
  {
  }

  lemma QuietRecords(s: Server, e: Event, t: Server)
    requires Step(s, e, t)
    requires !e.StageCall? && !e.DirectCall? && !e.BatchStore? && !e.DirectStore? && !e.DirectFail? && !e.Restart?
    ensures SameRecords(s, t)
  {
    hide CommitBody, AbandonBody, TimerBody, FinishBody, Tidied, Evicted, Issued;
    match e
    case CommitCall(mid, d, id, req, answer) =>
      TidyRecords(s, mid.now, mid);
      CommitRecords(mid, t.now, d, id, req);
      EvictedRecords(CommitBody(mid, t.now, d, id, req).0, t);
    case AbandonCall(mid, d, id, req, reply) =>
      TidyRecords(s, mid.now, mid);
      AbandonRecords(mid, t.now, d, id, req);
      EvictedRecords(AbandonBody(mid, t.now, d, id, req).0, t);
    case Finish(id, reply) =>
      FinishRecords(s, id);
      EvictedRecords(FinishBody(s, id).0, t);
    case Issue(mid, d, k) =>
      TidyRecords(s, mid.now, mid);
      IssueRecords(mid, d, k, t);
    case Timer(d, id) =>
      TimerRecords(s, d, id);
      EvictedRecords(TimerBody(s, d, id), t);
    case _ =>
  }

  /** Where a new record of a token can come from. */
  ghost predicate Traced(s: Server, e: Event, t: Server, c: Token) {
    && (c in t.direct && c !in s.direct ==> e.DirectCall? && e.c == c)
    && (c in t.admitted && c !in s.admitted ==>
          e.StageCall? && e.c == c && t.admitted[c] == e.id && e.reply.success
          && e.id in t.stages && t.stages[e.id].payload == e.payload)
    && (c in t.stored && c !in s.stored && c !in s.direct ==>
          HasStage(s, c) && t.stored[c] == s.stages[s.admitted[c]].payload)
  }

  lemma StageTraced(s: Server, e: Event, t: Server, c: Token)
    requires Step(s, e, t) && e.StageCall?
    ensures Traced(s, e, t, c)
  {
    hide StageBody, Tidied, HasStage;
    TidyRecords(s, e.mid.now, e.mid);
    StageRecords(e.mid, t.now, e.c, e.id, e.req, e.payload, e.verdict, e.ttl, c);
  }

  lemma DirectTraced(s: Server, e: Event, t: Server, c: Token)
    requires Step(s, e, t) && e.DirectCall?
    ensures Traced(s, e, t, c)
  {
    hide DirectBody, Tidied, HasStage;
    TidyRecords(s, e.mid.now, e.mid);
    DirectRecords(e.mid, t.now, e.c, e.req, e.payload);
  }

  lemma DropTraced(s: Server, e: Event, t: Server, c: Token)
    requires Step(s, e, t) && (e.DirectFail? || e.Restart?)
    ensures Traced(s, e, t, c)
  {
  }

  lemma SameTraced(s: Server, e: Event, t: Server, c: Token)
    requires SameRecords(s, t)
    ensures Traced(s, e, t, c)
  {
  }

  lemma NewRecords(s: Server, e: Event, t: Server, c: Token)
    requires Inv(s) && Step(s, e, t)
    ensures Traced(s, e, t, c)
  {
    hide Inv, Step;
    if e.StageCall? {
      StageTraced(s, e, t, c);
    } else if e.DirectCall? {
      DirectTraced(s, e, t, c);
    } else if e.BatchStore? || e.DirectStore? {
      StoreRecords(s, e, t, c);
    } else if e.DirectFail? || e.Restart? {
      DropTraced(s, e, t, c);
    } else {
      QuietRecords(s, e, t);
      SameTraced(s, e, t, c);
    }
  }

  lemma HubKeepsOwnership(x: Session, s: System, e: Event, t: System)
    requires SysInv(x, s) && Next(x, s, Hub(e), t)
    ensures Ownership(x, t.hub)
  {
    hide Inv, Step;
    StepForward(s.hub, e, t.hub, x.c);
    NewRecords(s.hub, e, t.hub, x.c);
  }

  // ---- What the replies to a commit mean -------------------------------------------------------------

  /** With no live stage of ours, our capability is spent and nothing is running for it. */
  lemma UnstagedIsBlocked(x: Session, s: Server)
    requires Inv(s) && Ownership(x, s) && x.c in s.admitted && !HasStage(s, x.c)
    ensures Blocked(s, x.c) && !CanStore(s, x.c)
  {
  }

  lemma RecordedAnswer(x: Session, s: Server)
    requires Inv(s) && Ownership(x, s) && x.c in s.admitted && Recorded(s, x.id, x.c).Some?
    ensures AnswerHolds(x, s, Answer(Recorded(s, x.id, x.c).value, Hazard(s, x.c)))
  {
    UnstagedIsBlocked(x, s);
  }

  /** Our own check can only be refused because the capability is spent, expired or gone. */
  lemma RefusedIsBlocked(x: Session, s: Server, reply: Reply)
    requires Inv(s) && Ownership(x, s) && HasStage(s, x.c) && RefusalOf(s, x.c, x.req, x.id, reply)
    ensures Blocked(s, x.c)
  {
  }

  lemma StagedCommitAnswer(x: Session, s: Server, later: real)
    requires Inv(s) && Ownership(x, s) && x.c in s.admitted && s.now <= later
    requires Recorded(s.(now := later), x.id, x.c).None? && HasStage(s.(now := later), x.c)
    ensures var (t, answer) := CommitBody(s, later, x.c, x.id, x.req);
            answer.Some? ==> AnswerHolds(x, t, Answer(answer.value, Hazard(t, x.c)))
  {
    hide Inv, Validate;
    var u := s.(now := later);
    LaterKeepsInv(s, later);
    ValidateShape(u, x.c, x.req, x.id);
    ValidateKeepsInv(u, x.c, x.req, x.id);
    var (v, refused) := Validate(u, x.c, x.req, false, Some(x.id));
    if refused.Some? {
      RefusedIsBlocked(x, u, refused.value);
    } else if !v.stages[x.id].committing && v.stages[x.id].cancelRequested {
      StageFacts(v, x.id);
      SettleOfToken(v, x.c, x.id, true, Refusal("capture_cancelled", 409), s.now, x.c);
    }
  }

  lemma CommitAnswer(x: Session, s: Server, later: real)
    requires Inv(s) && Ownership(x, s) && x.c in s.admitted && s.now <= later
    ensures var (t, answer) := CommitBody(s, later, x.c, x.id, x.req);
            answer.Some? ==> AnswerHolds(x, t, Answer(answer.value, Hazard(t, x.c)))
  {
    hide Inv, Validate, AnswerHolds, Hazard;
    var u := s.(now := later);
    LaterKeepsInv(s, later);
    if Recorded(u, x.id, x.c).Some? {
      RecordedAnswer(x, u);
    } else if !HasStage(u, x.c) {
      UnstagedCommitAnswer(x, s, later);
    } else {
      StagedCommitAnswer(x, s, later);
    }
  }

  lemma UnstagedCommitAnswer(x: Session, s: Server, later: real)
    requires Inv(s) && Ownership(x, s) && x.c in s.admitted && s.now <= later
    requires Recorded(s.(now := later), x.id, x.c).None? && !HasStage(s.(now := later), x.c)
    ensures var (t, answer) := CommitBody(s, later, x.c, x.id, x.req);
            answer.Some? ==> AnswerHolds(x, t, Answer(answer.value, Hazard(t, x.c)))
  {
    hide Inv, Validate;
    var u := s.(now := later);
    LaterKeepsInv(s, later);
    UnstagedIsBlocked(x, u);
  }

  lemma FinishAnswer(x: Session, s: Server, id: RequestId)
    requires Inv(s) && Ownership(x, s) && x.c in s.admitted
    requires id in s.stages && s.stages[id].cap == x.c && id in s.batches
    requires s.batches[id].Written? || s.batches[id].Failed?
    ensures var (t, reply) := FinishBody(s, id);
            AnswerHolds(x, t, Answer(reply, Hazard(t, x.c)))
  {
    FinishSettles(s, id);
    SettleOfToken(s, x.c, id, true, Outcome(s.batches[id]), s.now, x.c);
    SettleFrame(s, x.c, id, true, Outcome(s.batches[id]), s.now, x.c);
  }

  /** Guarantees given by a reply are never taken back. */
  lemma AnswerKept(x: Session, s: Server, t: Server, a: Answer)
    requires AnswerHolds(x, s, a) && Forward(s, t, x.c) && x.c in s.issued
    ensures AnswerHolds(x, t, a)
  {
  }

  // ---- Every move keeps the invariant of the composition ------------------------------------------------

  lemma NewAnswers(x: Session, s: System, e: Event, t: System, a: Answer)
    requires SysInv(x, s) && Next(x, s, Hub(e), t) && a in AnswersOf(x, s.hub, e, t.hub)
    ensures AnswerHolds(x, t.hub, a)
  {
    hide Inv, Step, Validate, CommitBody, FinishBody;
    if e.CommitCall? {
      LockedCommitAnswer(x, s.hub, e, t.hub);
    } else {
      FinishedAnswer(x, s.hub, e, t.hub);
    }
  }

  lemma LockedCommitAnswer(x: Session, s: Server, e: Event, t: Server)
    requires Inv(s) && Ownership(x, s) && x.c in s.admitted && Step(s, e, t)
    requires e.CommitCall? && e.c == x.c && e.id == x.id && e.req == x.req && e.answer.Some?
    ensures AnswerHolds(x, t, Answer(e.answer.value, Hazard(t, x.c)))
  {
    hide Inv, Validate, CommitBody, Ownership;
    TidyKeepsInv(s, e.mid.now, e.mid);
    TidyOwnership(x, s, e.mid.now, e.mid);
    CommitAnswer(x, e.mid, t.now);
  }

  lemma TidyOwnership(x: Session, s: Server, now: real, t: Server)
    requires Ownership(x, s) && Tidied(s, now, t)
    ensures Ownership(x, t) && t.admitted == s.admitted
  {
    hide Expiry, Matches;
    if x.c in t.caps { MatchesBinding(s, now, t, x); }
  }

  lemma MatchesBinding(s: Server, now: real, t: Server, x: Session)
    requires Tidied(s, now, t) && x.c in t.caps
    ensures x.c in s.caps && (Matches(t.caps[x.c], x.req) <==> Matches(s.caps[x.c], x.req))
  {
    hide Expiry, Lapsed, Released;
  }

  lemma FinishedAnswer(x: Session, s: Server, e: Event, t: Server)
    requires Inv(s) && Ownership(x, s) && Step(s, e, t)
    requires e.Finish? && e.id in s.stages && s.stages[e.id].cap == x.c
    ensures AnswerHolds(x, t, Answer(e.reply, Hazard(t, x.c)))
  {
    hide Inv, Ownership, FinishBody, Evicted, AnswerHolds, Hazard;
    StagedIsAdmitted(s, e.id);
    FinishAnswer(x, s, e.id);
    EvictedAnswer(x, FinishBody(s, e.id).0, t, e.reply);
  }

  lemma EvictedAnswer(x: Session, s: Server, t: Server, reply: Reply)
    requires Evicted(s, t) && AnswerHolds(x, s, Answer(reply, Hazard(s, x.c)))
    ensures AnswerHolds(x, t, Answer(reply, Hazard(t, x.c)))
  {
  }

  lemma StagedIsAdmitted(s: Server, id: RequestId)
    requires Inv(s) && id in s.stages
    ensures s.stages[id].cap in s.admitted
  {
  }

  lemma HubKeepsConversation(x: Session, s: System, e: Event, t: System)
    requires SysInv(x, s) && Next(x, s, Hub(e), t)
    ensures Conversation(x, t)
  {
    hide Inv, Step, AnswerHolds, Ownership, Forward;
    StepForward(s.hub, e, t.hub, x.c);
    OwnedIsIssued(x, s.hub);
    AdmittedStays(s.hub, t.hub, x.c);
    forall a | a in t.answers ensures AnswerHolds(x, t.hub, a) {
      if a in s.answers { AnswerKept(x, s.hub, t.hub, a); } else { NewAnswers(x, s, e, t, a); }
    }
    forall reply | reply in t.stageReplies && reply.success ensures x.c in t.hub.admitted {
      if reply !in s.stageReplies { StagedReply(x, s.hub, e, t.hub); }
    }
  }

  lemma OwnedIsIssued(x: Session, s: Server)
    requires Ownership(x, s)
    ensures x.c in s.issued
  {
  }

  lemma AdmittedStays(s: Server, t: Server, c: Token)
    requires Forward(s, t, c)
    ensures c in s.admitted ==> c in t.admitted
  {
  }

  lemma StageSuccessAdmits(
    s: Server, later: real, c: Token, id: RequestId, req: Request,
    payload: Payload, verdict: Option<Reply>, ttl: real)
    requires Inv(s) && (verdict.Some? ==> !verdict.value.success)
    ensures var (t, reply) := StageBody(s, later, c, id, req, payload, verdict, ttl);
            reply.success ==> c in t.admitted
  {
    hide Inv, Validate, RefusalOf, Blocked, SameBinding;
    var u := s.(now := later);
    RecordedIsAdmitted(s, id, c);
    if id in s.stages { StagedIsAdmitted(s, id); }
    ValidateCaps(u, c, req, id);
    ValidateVerdict(u, c, req, id);
    var refused := Validate(u, c, req, false, Some(id)).1;
    if refused.Some? { RefusalFails(u, c, req, id, refused.value); }
  }

  lemma RefusalFails(s: Server, c: Token, req: Request, id: RequestId, reply: Reply)
    requires RefusalOf(s, c, req, id, reply)
    ensures !reply.success
  {
  }

  /** A successful reply to staging means the capability has been admitted. */
  lemma StagedReply(x: Session, s: Server, e: Event, t: Server)
    requires Inv(s) && Step(s, e, t) && e.StageCall? && e.c == x.c && e.reply.success
    ensures x.c in t.admitted
  {
    hide Inv, StageBody;
    TidyKeepsInv(s, e.mid.now, e.mid);
    StageSuccessAdmits(e.mid, t.now, e.c, e.id, e.req, e.payload, e.verdict, e.ttl);
  }

  lemma RecordedIsAdmitted(s: Server, id: RequestId, c: Token)
    requires Inv(s)
    ensures Recorded(s, id, c).Some? && Recorded(s, id, c).value.success ==> c in s.admitted
  {
  }

  lemma HubKeepsOutcomes(x: Session, s: System, e: Event, t: System)
    requires SysInv(x, s) && Next(x, s, Hub(e), t)
    ensures Outcomes(x, t)
  {
    hide Inv, Step, Justifies, Ownership;
    StepForward(s.hub, e, t.hub, x.c);
    if s.phase.Done? && s.phase.result.Refused? {
      var a :| a in s.answers && Justifies(a, s.phase.result.body);
      assert a in t.answers;
    }
  }

  /** A decisive reply that reached the extension is one the hub gave. */
  lemma Decisive(x: Session, s: System, r: PostResult, body: Body)
    requires Conversation(x, s) && Deliverable(x, s, r)
    requires FirstReply(r, x.id) == Returned(body) || SecondReply(r, x.id) == Returned(body)
    ensures body.Object? && body.success.Some?
    ensures body.success.value ==> x.c in s.hub.stored
    ensures !body.success.value ==> exists a :: a in s.answers && Justifies(a, body)
  {
    assert r == Got(body) && IsValid(body, x.id);
    var a :| a in s.answers && Delivered(a.reply) == r;
    assert AnswerHolds(x, s.hub, a);
    if !body.success.value { assert Justifies(a, body); }
  }

  lemma ClientKeepsSysInv(x: Session, s: System, m: Move, t: System)
    requires SysInv(x, s) && Next(x, s, m, t) && !m.Hub?
    ensures SysInv(x, t)
  {
    hide Inv, Ownership, AnswerHolds, Justifies, FirstReply, SecondReply, Deliverable;
    if m.CommitReply? {
      var verdict := if s.phase.FirstCommit? then FirstReply(m.r, x.id) else SecondReply(m.r, x.id);
      if verdict.Returned? { Decisive(x, s, m.r, verdict.body); }
    }
  }

  lemma NextKeepsSysInv(x: Session, s: System, m: Move, t: System)
    requires SysInv(x, s) && Next(x, s, m, t)
    ensures SysInv(x, t)
  {
    hide Inv, Step, Ownership, Conversation, Outcomes;
    if m.Hub? {
      StepKeepsInv(s.hub, m.e, t.hub);
      HubKeepsOwnership(x, s, m.e, t);
      HubKeepsConversation(x, s, m.e, t);
      HubKeepsOutcomes(x, s, m.e, t);
    } else {
      ClientKeepsSysInv(x, s, m, t);
    }
  }

  // ---- Agreement over whole runs --------------------------------------------------------------------------

  ghost predicate Moves(x: Session, s: System, t: System) {
    exists m :: Next(x, s, m, t)
  }

  ghost predicate IsSystemRun(x: Session, run: seq<System>) {
    |run| > 0 && Init(x, run[0]) && forall i :: 0 <= i < |run| - 1 ==> Moves(x, run[i], run[i + 1])
  }

  lemma InitKeepsSysInv(x: Session, s: System)
    requires Init(x, s)
    ensures SysInv(x, s)
  {
  }

  lemma {:induction false} RunKeepsSysInv(x: Session, run: seq<System>, i: nat)
    requires IsSystemRun(x, run) && i < |run|
    ensures SysInv(x, run[i])
  {
    hide SysInv, Init, Next;
    if i == 0 {
      InitKeepsSysInv(x, run[0]);
    } else {
      RunKeepsSysInv(x, run, i - 1);
      assert Moves(x, run[i - 1], run[i - 1 + 1]);
      var m :| Next(x, run[i - 1], m, run[i]);
      NextKeepsSysInv(x, run[i - 1], m, run[i]);
    }
  }

  function Last<T>(run: seq<T>): T
    requires |run| > 0
  {
    run[|run| - 1]
  }

  /** A success passed on by the extension means the hub durably stored exactly our payload. */
  lemma CommittedIsStored(x: Session, run: seq<System>, body: Body)
    requires IsSystemRun(x, run) && Last(run).phase == Done(Committed(body))
    ensures x.c in Last(run).hub.stored && Last(run).hub.stored[x.c] == x.payload
  {
    RunKeepsSysInv(x, run, |run| - 1);
  }

  /** A refusal that names the request is final: no continuation of the hub ever stores the capture. */
  lemma NamedRefusalIsFinal(x: Session, run: seq<System>, body: Body)
    requires IsSystemRun(x, run) && Last(run).phase == Done(Refused(body))
    requires body.Object? && body.requestId != Undefined
    ensures NeverStored(Last(run).hub, x.c)
  {
    var s := Last(run);
    RunKeepsSysInv(x, run, |run| - 1);
    var a :| a in s.answers && Justifies(a, body);
    assert AnswerHolds(x, s.hub, a);
    BlockedNeverStoredIff(s.hub, x.c);
  }

  /** Any refusal is final exactly when nothing is stored and no batch can still store the capture. */
  lemma RefusalIsFinalIff(x: Session, run: seq<System>, body: Body)
    requires IsSystemRun(x, run) && Last(run).phase == Done(Refused(body))
    ensures NeverStored(Last(run).hub, x.c) <==> !Hazard(Last(run).hub, x.c)
  {
    var s := Last(run);
    RunKeepsSysInv(x, run, |run| - 1);
    var a :| a in s.answers && Justifies(a, body);
    assert AnswerHolds(x, s.hub, a);
    BlockedNeverStoredIff(s.hub, x.c);
  }

  /** A storage failure is answered with status 503, so the extension never passes it on. */
  lemma StorageFailureIsUnknown(x: Session, run: seq<System>, body: Body)
    requires IsSystemRun(x, run) && Last(run).phase == Done(Refused(body))
    ensures body.Object? && body.errorCode != Text("artifact_store_error")
  {
    var s := Last(run);
    RunKeepsSysInv(x, run, |run| - 1);
    var a :| a in s.answers && Justifies(a, body);
    assert AnswerHolds(x, s.hub, a);
  }

  /** Once a commit was sent, a run ends with a stored capture, a refusal, or an unknown outcome. */
  lemma CommitEnds(x: Session, run: seq<System>)
    requires IsSystemRun(x, run) && CommitMessage in Last(run).sent && Last(run).phase.Done?
    ensures var result := Last(run).phase.result;
            && (result.Committed? || result.Refused? || result == OutcomeUnknown)
            && (AbandonMessage in Last(run).sent ==> result.Refused?)
  {
    RunKeepsSysInv(x, run, |run| - 1);
  }

  lemma RecordIsNamed(s: Server, id: RequestId)
    requires Inv(s) && id in s.terminals
    ensures s.terminals[id].reply.id == Some(id)
    ensures forall c :: HasStage(s, c) ==> s.admitted[c] != id
  {
  }

  /**
   * Where a hazardous refusal comes from: the capability check failed although the batch of an
   * earlier copy of the commit may still store, or the record of a stored capture is gone.
   */
  lemma HazardousRefusal(x: Session, s: Server, later: real)
    requires Inv(s) && Ownership(x, s) && x.c in s.admitted && s.now <= later
    requires CommitBody(s, later, x.c, x.id, x.req).1.Some?
    ensures var (t, answer) := CommitBody(s, later, x.c, x.id, x.req);
            !answer.value.success && !IsAmbiguous(BodyOf(answer.value)) ==>
              (Hazard(t, x.c) <==>
                 || (HasStage(s, x.c) && s.stages[x.id].committing && Hazard(s, x.c))
                 || (!HasStage(s, x.c) && x.c in s.stored && x.id !in s.terminals)
                 || (!HasStage(s, x.c) && x.c in s.stored && s.terminals[x.id].cap != x.c))
  {
    hide Inv, Validate;
    var u := s.(now := later);
    LaterKeepsInv(s, later);
    if Recorded(u, x.id, x.c).Some? {
      RecordedAnswer(x, u);
      RecordIsNamed(u, x.id);
    } else if !HasStage(u, x.c) {
      UnstagedIsBlocked(x, u);
    }
    if HasStage(u, x.c) {
      StageFacts(u, x.id);
      ValidateShape(u, x.c, x.req, x.id);
      ValidateKeepsInv(u, x.c, x.req, x.id);
      var (v, refused) := Validate(u, x.c, x.req, false, Some(x.id));
      if refused.None? && !v.stages[x.id].committing && v.stages[x.id].cancelRequested {
        SettleOfToken(v, x.c, x.id, true, Refusal("capture_cancelled", 409), s.now, x.c);
      }
    }
  }
}
