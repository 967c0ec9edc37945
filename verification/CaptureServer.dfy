/**
 * The capture endpoints of the local hub: capabilities, staged captures, the
 * two-phase commit and the terminal records that make a commit idempotent.
 *
 * Every transition below is one region executed under the capability lock, or
 * one step of an artifact batch that runs outside the lock, so an interleaving
 * of requests, timers and batches is a sequence of transitions.
 */
module CaptureServer {
  import opened Common

  type Token = string
  type RequestId = string
  type Payload = string

  const STAGE_CAPACITY := 128
  const TERMINAL_CAPACITY := 4096
  const TERMINAL_TTL := 3600.0
  const CAPABILITY_CAPACITY := 1024

  datatype Request = Request(origin: string, tab: Option<string>, window: string)

  datatype Reply = Reply(
    success: bool, id: Option<RequestId>, bundle: Option<string>, code: Option<string>,
    status: nat, retryable: bool)

  datatype Capability = Capability(
    origin: string, tab: string, window: string,
    createdAt: real, expiresAt: real, used: bool, reserved: Option<RequestId>)

  datatype Stage = Stage(
    cap: Token, payload: Payload, expiresAt: real, committing: bool, cancelRequested: bool)

  datatype Terminal = Terminal(cap: Token, reply: Reply, createdAt: real, expiresAt: real)

  /** An artifact batch: before its last cancellation check, past it, durable, or rolled back. */
  datatype Batch = Started | Checked | Written(bundle: string) | Failed(reply: Reply)

  /**
   * `stored` (what the artifact store durably holds) survives a restart; `issued`
   * remembers every token ever issued and `admitted` the request that staged it.
   */
  datatype Server = Server(
    now: real,
    caps: map<Token, Capability>,
    stages: map<RequestId, Stage>,
    terminals: map<RequestId, Terminal>,
    batches: map<RequestId, Batch>,
    direct: map<Token, Payload>,
    stored: map<Token, Payload>,
    issued: set<Token>,
    admitted: map<Token, RequestId>)

  function Refusal(code: string, status: nat): Reply {
    Reply(false, None, None, Some(code), status, false)
  }

  function WithId(reply: Reply, id: RequestId): Reply {
    if reply.id.None? then reply.(id := Some(id)) else reply
  }

  function Success(bundle: string): Reply {
    Reply(true, None, Some(bundle), None, 200, false)
  }

  // ---- Housekeeping that opens every locked region -------------------------------------

  predicate Lapsed(s: Server, r: RequestId, now: real) {
    r in s.stages && s.stages[r].expiresAt <= now && !s.stages[r].committing
  }

  predicate Released(s: Server, c: Token, now: real) {
    c in s.caps && s.caps[c].reserved.Some? && Lapsed(s, s.caps[c].reserved.value, now)
    && s.stages[s.caps[c].reserved.value].cap == c
  }

  function Expiry(s: Server, r: RequestId, now: real): Terminal
    requires r in s.stages
  {
    Terminal(s.stages[r].cap, WithId(Refusal("capture_expired", 408), r), now, now + TERMINAL_TTL)
  }

  function Cleanup(s: Server, now: real): Server {
    s.(now := now,
       caps := map c | c in s.caps ::
         if Released(s, c, now) then s.caps[c].(used := true, reserved := None) else s.caps[c],
       stages := map r | r in s.stages && !Lapsed(s, r, now) ::
         if s.stages[r].expiresAt <= now then s.stages[r].(cancelRequested := true) else s.stages[r],
       terminals := (map r | r in s.terminals && now < s.terminals[r].expiresAt :: s.terminals[r])
         + (map r | r in s.stages && Lapsed(s, r, now) :: Expiry(s, r, now)))
  }

  /** Terminal records beyond the capacity are dropped, oldest first; below it none is. */
  ghost predicate Evicted(s: Server, t: Server) {
    && t == s.(terminals := t.terminals)
    && t.terminals.Keys <= s.terminals.Keys
    && (forall r :: r in t.terminals ==> t.terminals[r] == s.terminals[r])
    && |t.terminals| <= TERMINAL_CAPACITY
    && (|s.terminals| <= TERMINAL_CAPACITY ==> t == s)
    && (forall q, r :: q in s.terminals && q !in t.terminals && r in t.terminals ==>
          s.terminals[q].createdAt <= t.terminals[r].createdAt)
  }

  ghost predicate Tidied(s: Server, now: real, t: Server) {
    s.now <= now && Evicted(Cleanup(s, now), t)
  }

  function Remember(s: Server, r: RequestId, c: Token, reply: Reply, now: real): Server {
    s.(terminals := s.terminals[r := Terminal(c, WithId(reply, r), now, now + TERMINAL_TTL)])
  }

  function Recorded(s: Server, r: RequestId, c: Token): Option<Reply> {
    if r !in s.terminals then None
    else if s.terminals[r].cap != c then Some(Refusal("request_id_conflict", 409))
    else Some(s.terminals[r].reply)
  }

  // ---- Capability checks -----------------------------------------------------------------

  function Spend(s: Server, c: Token): Server {
    if c in s.caps then s.(caps := s.caps[c := s.caps[c].(used := true, reserved := None)]) else s
  }

  function Reserve(s: Server, c: Token, r: Option<RequestId>): Server
    requires c in s.caps
  {
    s.(caps := s.caps[c := s.caps[c].(reserved := r)])
  }

  /** The checks on a capability, in their order, and what becomes of it; `None` allows the request. */
  function CheckCapability(k: Capability, now: real, req: Request, consume: bool, id: Option<RequestId>)
    : (Capability, Option<Reply>)
  {
    if k.used then (k, Some(Refusal("capability_replayed", 403)))
    else if now >= k.expiresAt then (k.(used := true), Some(Refusal("capability_expired", 403)))
    else if k.reserved.Some? && k.reserved != id then (k, Some(Refusal("capability_replayed", 403)))
    else if req.origin != k.origin then (k, Some(Refusal("origin_mismatch", 403)))
    else if req.tab.None? || PythonBlank(req.tab.value) then (k, Some(Refusal("missing_tab_id", 400)))
    else if req.tab.value != k.tab then (k, Some(Refusal("tab_mismatch", 409)))
    else if PythonBlank(req.window) then (k, Some(Refusal("missing_window_id", 400)))
    else if req.window != k.window then (k, Some(Refusal("window_mismatch", 409)))
    else if consume then (k.(used := true, reserved := None), None)
    else if id.Some? then (k.(reserved := id), None)
    else (k, None)
  }

  function Validate(s: Server, c: Token, req: Request, consume: bool, id: Option<RequestId>)
    : (Server, Option<Reply>)
  {
    if c !in s.caps then (s, Some(Refusal("invalid_capability", 403)))
    else
      var (k, refused) := CheckCapability(s.caps[c], s.now, req, consume, id);
      (s.(caps := s.caps[c := k]), refused)
  }

  /** Ends a stage: it leaves the table with its batch, and its outcome is recorded. */
  function Settle(s: Server, c: Token, id: RequestId, spend: bool, reply: Reply, now: real): Server {
    var t := s.(stages := s.stages - {id}, batches := s.batches - {id});
    Remember(if spend then Spend(t, c) else t, id, c, reply, now)
  }

  // ---- The locked regions ------------------------------------------------------------------

  /** `verdict` is the payload check's refusal, if any; the clock reads `now`, then `later`. */
  function StageBody(
    s: Server, later: real, c: Token, id: RequestId, req: Request,
    payload: Payload, verdict: Option<Reply>, ttl: real): (Server, Reply)
  {
    var now := s.now;
    var s := s.(now := later);
    var recorded := Recorded(s, id, c);
    if recorded.Some? then (s, recorded.value)
    else if id in s.stages then
      if s.stages[id].cap != c then (s, Refusal("request_id_conflict", 409))
      else if s.stages[id].committing then (s, Refusal("capture_in_progress", 409))
      else (s, Reply(true, Some(id), None, None, 200, false))
    else
      var (t, refused) := Validate(s, c, req, false, Some(id));
      if refused.Some? then (t, refused.value)
      else if verdict.Some? then (Reserve(t, c, None), verdict.value)
      else if |t.stages| >= STAGE_CAPACITY then
        (Reserve(t, c, None), Refusal("staging_capacity", 429))
      else
        var expiry := if t.caps[c].expiresAt <= now + ttl then t.caps[c].expiresAt else now + ttl;
        (t.(stages := t.stages[id := Stage(c, payload, expiry, false, false)],
            admitted := t.admitted[c := id]),
         Reply(true, Some(id), None, None, 200, false))
  }

  /** First half of a commit; `None` means the artifact batch has been started. */
  function CommitBody(s: Server, later: real, c: Token, id: RequestId, req: Request)
    : (Server, Option<Reply>)
  {
    var now := s.now;
    var s := s.(now := later);
    var recorded := Recorded(s, id, c);
    if recorded.Some? then (s, recorded)
    else if id !in s.stages then (s, Some(Refusal("capture_stage_missing", 409)))
    else if s.stages[id].cap != c then (s, Some(Refusal("request_id_conflict", 409)))
    else
      var (t, refused) := Validate(s, c, req, false, Some(id));
      if refused.Some? then (t, refused)
      else if t.stages[id].committing then (t, Some(Refusal("capture_in_progress", 409)))
      else if t.stages[id].cancelRequested then
        var reply := Refusal("capture_cancelled", 409);
        (Settle(t, c, id, true, reply, now), Some(reply))
      else
        (t.(stages := t.stages[id := t.stages[id].(committing := true)],
            batches := t.batches[id := Started]),
         None)
  }

  /** What the artifact batch reported. */
  function Outcome(batch: Batch): Reply
    requires batch.Written? || batch.Failed?
  {
    if batch.Written? then Success(batch.bundle) else batch.reply
  }

  /** Second half of a commit, after the batch has ended. */
  function FinishBody(s: Server, id: RequestId): (Server, Reply)
    requires id in s.stages && id in s.batches && (s.batches[id].Written? || s.batches[id].Failed?)
  {
    var reply := Outcome(s.batches[id]);
    var c := s.stages[id].cap;
    if reply.success || reply.code == Some("capture_cancelled") || !reply.retryable then
      (Settle(s, c, id, true, reply, s.now), WithId(reply, id))
    else
      (s.(stages := s.stages[id := s.stages[id].(committing := false)], batches := s.batches - {id}),
       WithId(reply, id))
  }

  function AbandonBody(s: Server, later: real, c: Token, id: RequestId, req: Request): (Server, Reply) {
    var now := s.now;
    var s := s.(now := later);
    var recorded := Recorded(s, id, c);
    if recorded.Some? then (s, recorded.value)
    else if id !in s.stages then (s, Refusal("capture_stage_missing", 409))
    else if s.stages[id].cap != c then (s, Refusal("request_id_conflict", 409))
    else
      var (t, refused) := Validate(s, c, req, false, Some(id));
      if refused.Some? then (t, refused.value)
      else if t.stages[id].committing then
        (t.(stages := t.stages[id := t.stages[id].(cancelRequested := true)]),
         Reply(true, Some(id), None, None, 200, false))
      else
        var reply := Reply(true, Some(id), None, None, 200, false);
        (Settle(t, c, id, true, reply, now), reply)
  }

  /** The per-stage timer. */
  function TimerBody(s: Server, c: Token, id: RequestId): Server {
    if id !in s.stages || s.stages[id].cap != c || s.stages[id].expiresAt > s.now then s
    else if s.stages[id].committing then
      s.(stages := s.stages[id := s.stages[id].(cancelRequested := true)])
    else
      var spend := c in s.caps && s.caps[c].reserved == Some(id);
      Settle(s, c, id, spend, Refusal("capture_expired", 408), s.now)
  }

  /** The one-shot endpoint consumes the capability and then writes outside the lock. */
  function DirectBody(s: Server, later: real, c: Token, req: Request, payload: Payload)
    : (Server, Option<Reply>)
  {
    var (t, refused) := Validate(s.(now := later), c, req, true, None);
    if refused.Some? then (t, refused) else (t.(direct := t.direct[c := payload]), None)
  }

  /** What a request for a capability is refused for, in the order of the checks. */
  function IssueRefusal(enabled: bool, permitted: bool, origin: string, tab: Option<string>, window: Option<string>)
    : Option<Reply>
  {
    if !enabled then Some(Refusal("unsupported", 501))
    else if origin == "" || !permitted then Some(Refusal("permission_denied", 403))
    else if tab.None? || PythonBlank(tab.value) then Some(Refusal("missing_tab_id", 400))
    else if window.None? || PythonBlank(window.value) then Some(Refusal("missing_window_id", 400))
    else None
  }

  predicate Stale(k: Capability, now: real) {
    k.used || k.expiresAt <= now
  }

  /** A new token replaces stale ones and, at capacity, the oldest capability. */
  ghost predicate Issued(s: Server, c: Token, k: Capability, t: Server) {
    && c !in s.issued && !k.used && k.reserved.None?
    && var live := map d | d in s.caps && !Stale(s.caps[d], s.now) :: s.caps[d];
       var kept := t.caps - {c};
       && t == s.(caps := kept[c := k], issued := s.issued + {c})
       && (if |live| < CAPABILITY_CAPACITY then kept == live else WithoutEldest(live, kept))
  }

  ghost predicate WithoutEldest(live: map<Token, Capability>, kept: map<Token, Capability>) {
    exists eldest | eldest in live ::
      && kept == live - {eldest}
      && forall d :: d in live ==> live[eldest].createdAt <= live[d].createdAt
  }

  // ---- Runs ---------------------------------------------------------------------------------

  /** One atomic step. `mid` is the state just after the housekeeping of a locked region. */
  datatype Event =
    | Tick
    | StageCall(mid: Server, c: Token, id: RequestId, req: Request, payload: Payload,
                verdict: Option<Reply>, ttl: real, reply: Reply)
    | CommitCall(mid: Server, c: Token, id: RequestId, req: Request, answer: Option<Reply>)
    | Finish(id: RequestId, reply: Reply)
    | AbandonCall(mid: Server, c: Token, id: RequestId, req: Request, reply: Reply)
    | Timer(c: Token, id: RequestId)
    | DirectCall(mid: Server, c: Token, req: Request, payload: Payload, answer: Option<Reply>)
    | Issue(mid: Server, c: Token, k: Capability)
    | BatchCheck(id: RequestId)
    | BatchCancel(id: RequestId)
    | BatchFail(id: RequestId, reply: Reply)
    | BatchStore(id: RequestId, bundle: string)
    | DirectStore(c: Token)
    | DirectFail(c: Token)
    | Restart

  ghost predicate Step(s: Server, e: Event, t: Server) {
    match e
    case Tick => s.now <= t.now && t == s.(now := t.now)
    case StageCall(mid, c, id, req, payload, verdict, ttl, reply) =>
      && Tidied(s, mid.now, mid) && mid.now <= t.now
      && (verdict.Some? ==> !verdict.value.success)
      && StageBody(mid, t.now, c, id, req, payload, verdict, ttl) == (t, reply)
    case CommitCall(mid, c, id, req, answer) =>
      && Tidied(s, mid.now, mid) && mid.now <= t.now
      && var (u, a) := CommitBody(mid, t.now, c, id, req);
         answer == a && Evicted(u, t)
    case Finish(id, reply) =>
      && id in s.stages && id in s.batches && (s.batches[id].Written? || s.batches[id].Failed?)
      && var (u, a) := FinishBody(s, id);
         reply == a && Evicted(u, t)
    case AbandonCall(mid, c, id, req, reply) =>
      && Tidied(s, mid.now, mid) && mid.now <= t.now
      && var (u, a) := AbandonBody(mid, t.now, c, id, req);
         reply == a && Evicted(u, t)
    case Timer(c, id) => Evicted(TimerBody(s, c, id), t)
    case DirectCall(mid, c, req, payload, answer) =>
      && Tidied(s, mid.now, mid) && mid.now <= t.now
      && DirectBody(mid, t.now, c, req, payload) == (t, answer)
    case Issue(mid, c, k) => Tidied(s, mid.now, mid) && Issued(mid, c, k, t)
    case BatchCheck(id) =>
      && id in s.batches && s.batches[id].Started? && id in s.stages && !s.stages[id].cancelRequested
      && t == s.(batches := s.batches[id := Checked])
    case BatchCancel(id) =>
      && id in s.batches && s.batches[id].Started? && id in s.stages && s.stages[id].cancelRequested
      && t == s.(batches := s.batches[id := Failed(Refusal("capture_cancelled", 409))])
    case BatchFail(id, reply) =>
      && id in s.batches && (s.batches[id].Started? || s.batches[id].Checked?) && BatchFailure(reply)
      && t == s.(batches := s.batches[id := Failed(reply)])
    case BatchStore(id, bundle) =>
      && id in s.batches && s.batches[id].Checked? && id in s.stages && !Blank(bundle)
      && t == s.(batches := s.batches[id := Written(bundle)],
                 stored := s.stored[s.stages[id].cap := s.stages[id].payload])
    case DirectStore(c) =>
      && c in s.direct
      && t == s.(direct := s.direct - {c}, stored := s.stored[c := s.direct[c]])
    case DirectFail(c) => c in s.direct && t == s.(direct := s.direct - {c})
    case Restart => t == s.(caps := map[], stages := map[], terminals := map[], batches := map[], direct := map[])
  }

  /** A batch fails with a payload refusal or a storage error; none of them is retryable. */
  predicate BatchFailure(reply: Reply) {
    && !reply.success && reply.id.None? && reply.bundle.None? && reply.code.Some?
    && !reply.retryable
    && (reply.code == Some("artifact_store_error") ==> reply.status == 503)
  }
}
