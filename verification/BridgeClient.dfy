/**
 * One click on the extension's button, from the first look at the tab to the reported result.
 *
 * Everything outside the extension (the browser, the page, the hub) may answer anything, fail or
 * time out; `trace` records what was asked and what came back, in order.
 */
module BridgeClient {
  import opened Common
  import opened BridgeReplies
  import Utf

  // ---- What the outside world can answer ---------------------------------------------------------------

  type Units = seq<Utf.Unit>

  datatype Tab = Tab(id: int, windowId: int)

  /** The answer of a browser call that yields a `T`, or nothing. */
  datatype Answer<+T> = Rejected(timeout: bool, gone: bool) | Nothing | Value(value: T)

  /** The four identity properties of a page's reply, as texts; a missing one is the empty text. */
  datatype RawIdentity = NotAnIdentity | Raw(url: Units, origin: Units, document: Units, state: Units)

  datatype PageReply = PageReply(success: bool, errorCode: Field, identity: RawIdentity)

  /** A hub reply to anything but a commit; `accepted` is the truth value of its `success`. */
  datatype HubReply = Lost(timeout: bool) | Null | Reply(accepted: bool, body: Body)

  datatype Event =
    | TabCheck(active: Answer<seq<Tab>>, current: Answer<Units>)
    | Issue(issued: HubReply)
    | Capture(page: Answer<PageReply>)
    | Screenshot(image: Answer<Units>)
    | Verify(page: Answer<PageReply>)
    | Report(code: Field, answer: HubReply)
    | Stage(id: string, staged: HubReply)
    | Commit(id: string, committed: PostResult)
    | Abandon(id: string)

  datatype Result =
    | Failed(code: Field)
    | OutcomeUnknown(id: string)
    | Relayed(body: Body)

  // ---- Reading the answers ----------------------------------------------------------------------------

  datatype TabState = Open(url: Units) | Closed(status: string)

  function StateOf(tab: Tab, active: Answer<seq<Tab>>, current: Answer<Units>): TabState {
    match active
    case Rejected(timeout, _) => Closed(if timeout then "timeout" else "permission_denied")
    case Nothing => Closed("closed_tab")
    case Value(tabs) =>
      if tabs == [] then Closed("closed_tab")
      else if tabs[0] != tab then Closed("tab_mismatch")
      else match current
        case Rejected(timeout, gone) =>
          Closed(if timeout then "timeout" else if gone then "closed_tab" else "permission_denied")
        case Nothing => Closed("permission_denied")
        case Value(url) => if url == [] then Closed("permission_denied") else Open(url)
  }

  /** The browser answered that the clicked tab is the one in front. */
  predicate InFront(tab: Tab, active: Answer<seq<Tab>>) {
    active.Value? && active.value != [] && active.value[0].id == tab.id && active.value[0].windowId == tab.windowId
  }

  /** A tab counts as open exactly when it is in front and the browser gives its URL. */
  lemma OpenIff(tab: Tab, active: Answer<seq<Tab>>, current: Answer<Units>, url: Units)
    ensures StateOf(tab, active, current) == Open(url) <==>
            InFront(tab, active) && current == Value(url) && url != []
  {
  }

  /** What every other pair of answers is reported as. */
  lemma ClosedIff(tab: Tab, active: Answer<seq<Tab>>, current: Answer<Units>)
    ensures var state := StateOf(tab, active, current);
            && (state == Closed("tab_mismatch") <==>
                  active.Value? && active.value != [] && !InFront(tab, active))
            && (state == Closed("timeout") <==>
                  (active.Rejected? && active.timeout)
                  || (InFront(tab, active) && current.Rejected? && current.timeout))
            && (state == Closed("closed_tab") <==>
                  active.Nothing? || active == Value([])
                  || (InFront(tab, active) && current.Rejected? && !current.timeout && current.gone))
            && (state == Closed("permission_denied") <==>
                  (active.Rejected? && !active.timeout)
                  || (InFront(tab, active)
                      && (current.Nothing? || current == Value([])
                          || (current.Rejected? && !current.timeout && !current.gone))))
  {
    assert |"timeout"| == 7 && |"tab_mismatch"| == 12 && |"closed_tab"| == 10 && |"permission_denied"| == 17;
  }

  datatype Identity = Identity(url: Units, origin: Units, document: Units, state: Units)

  function BoundedIdentity(raw: RawIdentity): Option<Identity> {
    if raw.NotAnIdentity? then None
    else if 0 < |raw.url| <= 4096 && 0 < |raw.origin| <= 256 && 0 < |raw.document| <= 256 && 0 < |raw.state| <= 256
    then Some(Identity(raw.url, raw.origin, raw.document, raw.state))
    else None
  }

  predicate SameIdentity(left: Option<Identity>, right: Option<Identity>) {
    && left.Some? && right.Some?
    && left.value.url == right.value.url && left.value.origin == right.value.origin
    && left.value.document == right.value.document && left.value.state == right.value.state
  }

  predicate TabUrlMatches(url: Units, identity: Option<Identity>) {
    url != [] && identity.Some? && url == identity.value.url
  }

  predicate Truthy(f: Field) { !Falsy(f) }

  function CodeOr(code: Field, default: string): Field {
    if Truthy(code) then code else Text(default)
  }

  // ---- Calls to the outside world ---------------------------------------------------------------------

  /** An answer of the outside world: any value at all. */
  method Ask<T(0)>() returns (answer: T) {
    answer := *;
  }

  method CurrentTabState(tab: Tab) returns (state: TabState, event: Event)
    ensures event.TabCheck? && state == StateOf(tab, event.active, event.current)
  {
    var active := Ask<Answer<seq<Tab>>>();
    if active.Rejected? {
      return Closed(if active.timeout then "timeout" else "permission_denied"), TabCheck(active, Nothing);
    }
    if active.Nothing? || active.value == [] { return Closed("closed_tab"), TabCheck(active, Nothing); }
    if active.value[0].id != tab.id || active.value[0].windowId != tab.windowId {
      return Closed("tab_mismatch"), TabCheck(active, Nothing);
    }
    var current := Ask<Answer<Units>>();
    event := TabCheck(active, current);
    if current.Rejected? {
      state := Closed(if current.timeout then "timeout" else if current.gone then "closed_tab" else "permission_denied");
    } else if current.Nothing? || current.value == [] {
      state := Closed("permission_denied");
    } else {
      state := Open(current.value);
    }
  }

  function LostCode(timeout: bool): Field {
    Text(if timeout then "timeout" else "unsupported")
  }

  /** What a click ends with when its failure has been reported: the hub's reply, or a local failure. */
  function AfterReport(answer: HubReply): Result {
    match answer
    case Lost(timeout) => Failed(LostCode(timeout))
    case Null => Relayed(NotAnObject)
    case Reply(_, body) => Relayed(body)
  }

  predicate Reported(event: Event, code: Field, result: Result) {
    event.Report? && event.code == code && result == AfterReport(event.answer)
  }

  /** Report a failed attempt to the hub; its reply, if any, is passed on. */
  method SendFailure(code: Field) returns (result: Result, event: Event)
    ensures Reported(event, code, result)
  {
    var reply := Ask<HubReply>();
    event := Report(code, reply);
    match reply
    case Lost(timeout) => result := Failed(Text(if timeout then "timeout" else "unsupported"));
    case Null => result := Relayed(NotAnObject);
    case Reply(_, body) => result := Relayed(body);
  }

  function RecheckedCause(tab: Tab, check: Event): Field
    requires check.TabCheck?
  {
    var state := StateOf(tab, check.active, check.current);
    Text(if state.Open? then "permission_denied" else state.status)
  }

  /** A browser call was rejected: look at the tab again and report why. */
  method ReportRejection(tab: Tab, timeout: bool) returns (result: Result, events: seq<Event>)
    ensures timeout ==> |events| == 1 && Reported(events[0], Text("timeout"), result)
    ensures !timeout ==> |events| == 2 && events[0].TabCheck? && Reported(events[1], RecheckedCause(tab, events[0]), result)
  {
    var last: Event;
    if timeout {
      result, last := SendFailure(Text("timeout"));
      return result, [last];
    }
    var state, check := CurrentTabState(tab);
    result, last := SendFailure(Text(if state.Open? then "permission_denied" else state.status));
    events := [check, last];
  }

  // ---- What a trace must satisfy ------------------------------------------------------------------------

  datatype Kind = KCheck | KIssue | KCapture | KScreenshot | KVerify | KReport | KStage | KCommit | KAbandon

  function KindOf(e: Event): Kind {
    match e
    case TabCheck(_, _) => KCheck
    case Issue(_) => KIssue
    case Capture(_) => KCapture
    case Screenshot(_) => KScreenshot
    case Verify(_) => KVerify
    case Report(_, _) => KReport
    case Stage(_, _) => KStage
    case Commit(_, _) => KCommit
    case Abandon(_) => KAbandon
  }

  /** The event succeeded and shows nothing but `identity`. */
  predicate Shows(tab: Tab, e: Event, identity: Identity) {
    match e
    case TabCheck(active, current) => StateOf(tab, active, current) == Open(identity.url)
    case Issue(issued) => issued.Reply? && issued.accepted
    case Capture(page) => page.Value? && page.value.success && BoundedIdentity(page.value.identity) == Some(identity)
    case Screenshot(image) => !image.Rejected?
    case Verify(page) => page.Value? && page.value.success && BoundedIdentity(page.value.identity) == Some(identity)
    case Stage(_, staged) => staged.Reply? && staged.accepted
    case _ => false
  }

  predicate AllShow(tab: Tab, events: seq<Event>, identity: Identity) {
    forall i :: 0 <= i < |events| ==> Shows(tab, events[i], identity)
  }

  const ATTESTATION: seq<Kind> :=
    [KCheck, KIssue, KCapture, KCheck, KScreenshot, KCheck, KVerify, KStage, KCheck, KVerify]

  /** The trace starts with the first `n` steps of the attestation, all successful and about one identity. */
  ghost predicate Attested(tab: Tab, trace: seq<Event>, n: nat)
    requires n <= |ATTESTATION|
  {
    && |trace| >= n
    && (forall i :: 0 <= i < n ==> KindOf(trace[i]) == ATTESTATION[i])
    && Consistent(tab, trace[..n])
  }

  ghost predicate Consistent(tab: Tab, events: seq<Event>) {
    exists identity: Identity :: AllShow(tab, events, identity)
  }

  predicate Has(trace: seq<Event>, kind: Kind) {
    exists i :: 0 <= i < |trace| && KindOf(trace[i]) == kind
  }

  /** What the commit requests say at the end: the verdict on the first reply, or on the second. */
  function Settled(id: string, verdict: Verdict): Result {
    if verdict.Returned? then Relayed(verdict.body) else OutcomeUnknown(id)
  }

  predicate Named(e: Event) { e.Stage? || e.Commit? || e.Abandon? }

  /** After the attestation, `rest` commits at most twice and abandons only on a definite failure. */
  predicate CommitPhase(id: string, rest: seq<Event>, result: Result) {
    && 1 <= |rest| <= 3 && rest[0].Commit?
    && (forall e :: e in rest ==> Named(e) && e.id == id)
    && var first := FirstReply(rest[0].committed, id);
       var replayed := |rest| > 1 && rest[1].Commit?;
       && (replayed <==> first == Replay)
       && var verdict := if replayed then SecondReply(rest[1].committed, id) else first;
          var asked := if replayed then 2 else 1;
          && result == Settled(id, verdict)
          && rest[asked..] == (if verdict.Returned? && !verdict.body.success.value then [Abandon(id)] else [])
  }

  // ---- The capture ---------------------------------------------------------------------------------------

  method SendCommit(id: string) returns (result: Result, events: seq<Event>)
    ensures CommitPhase(id, events, result)
  {
    var committed := Ask<PostResult>();
    events := [Commit(id, committed)];
    if committed.Thrown? {
      committed := Ask();
      events := events + [Commit(id, committed)];
      if committed.Thrown? { return OutcomeUnknown(id), events; }
      if !IsValid(committed.body, id) || IsAmbiguous(committed.body) { return OutcomeUnknown(id), events; }
    }
    if !IsValid(committed.body, id) {
      committed := Ask();
      events := events + [Commit(id, committed)];
      if committed.Thrown? { return OutcomeUnknown(id), events; }
      if !IsValid(committed.body, id) || IsAmbiguous(committed.body) { return OutcomeUnknown(id), events; }
    }
    if !committed.body.success.value {
      if IsAmbiguous(committed.body) { return OutcomeUnknown(id), events; }
      events := events + [Abandon(id)];
    }
    result := Relayed(committed.body);
  }

  /** Why an attempt that ended in a failure report failed: the code that is reported. */
  function ReportedCause(tab: Tab, observed: seq<Event>): Field
    requires observed != []
  {
    var n := |observed|;
    if n >= 2 && observed[n - 1].TabCheck? && WasRejected(observed[n - 2]) then RecheckedCause(tab, observed[n - 1])
    else match observed[n - 1]
      case TabCheck(active, current) =>
        var state := StateOf(tab, active, current);
        Text(if state.Open? then "target_changed" else state.status)
      case Capture(Value(page)) => if page.success then Text("target_changed") else CodeOr(page.errorCode, "unsupported")
      case Verify(Value(page)) => if page.success then Text("target_changed") else CodeOr(page.errorCode, "unsupported")
      case Capture(Nothing) => Text("unsupported")
      case Verify(Nothing) => Text("unsupported")
      case _ => Text("timeout")
  }

  predicate RejectedWith(e: Event, timeout: bool) {
    || (e.Capture? && e.page.Rejected? && e.page.timeout == timeout)
    || (e.Verify? && e.page.Rejected? && e.page.timeout == timeout)
    || (e.Screenshot? && e.image.Rejected? && e.image.timeout == timeout)
  }

  predicate WasRejected(e: Event) {
    || (e.Capture? && e.page.Rejected?)
    || (e.Verify? && e.page.Rejected?)
    || (e.Screenshot? && e.image.Rejected?)
  }

  /** Why an attempt that ended in an abandoned stage failed. */
  function AbandonedCause(tab: Tab, e: Event): Field {
    match e
    case TabCheck(active, current) =>
      var state := StateOf(tab, active, current);
      Text(if state.Open? then "target_changed" else state.status)
    case Verify(Rejected(timeout, _)) => Text(if timeout then "timeout" else "target_changed")
    case Verify(Value(page)) => CodeOr(page.errorCode, "target_changed")
    case Stage(_, Lost(timeout)) => LostCode(timeout)
    case Stage(_, _) => Text("unsupported")
    case _ => Text("target_changed")
  }

  /** The events are the first steps of the attestation. */
  predicate InOrder(events: seq<Event>) {
    |events| <= |ATTESTATION| && forall i :: 0 <= i < |events| ==> KindOf(events[i]) == ATTESTATION[i]
  }

  /** The steps before the stage request, or some of them and another look at the tab after a rejection. */
  predicate Observing(events: seq<Event>) {
    var n := |events|;
    || (n <= 7 && InOrder(events))
    || (2 <= n <= 8 && InOrder(events[..n - 1]) && events[n - 1].TabCheck? && WasRejected(events[n - 2]))
  }

  /** How an attempt ends that sends no commit: `observed` holds the failure, `last` the reaction. */
  ghost predicate StoppedEarly(tab: Tab, trace: seq<Event>, result: Result)
    requires trace != []
  {
    var n := |trace| - 1;
    var last := trace[n];
    match last
    case Report(_, _) =>
      && n > 0 && Observing(trace[..n]) && !Consistent(tab, trace[..n])
      && Reported(last, ReportedCause(tab, trace[..n]), result)
    case Abandon(id) =>
      && 8 <= n <= 10 && InOrder(trace[..n]) && Attested(tab, trace, 7)
      && trace[7].Stage? && trace[7].id == id && !Refused(trace[7])
      && !Consistent(tab, trace[..n])
      && result == Failed(AbandonedCause(tab, trace[n - 1]))
    case Stage(_, Reply(_, body)) => n == 7 && Attested(tab, trace, 7) && Refused(last) && result == Relayed(body)
    case Issue(issued) =>
      && n == 1 && trace[0].TabCheck? && StateOf(tab, trace[0].active, trace[0].current).Open?
      && !(issued.Reply? && issued.accepted) && result == WithoutCapability(issued)
    case TabCheck(active, current) =>
      n == 0 && StateOf(tab, active, current).Closed? && result == Failed(Text(StateOf(tab, active, current).status))
    case _ => false
  }

  /** The hub plainly refused the stage request. */
  predicate Refused(e: Event) {
    e.Stage? && e.staged.Reply? && !e.staged.accepted
  }

  /** The two events show no identity in common. */
  ghost predicate Clash(tab: Tab, a: Event, b: Event) {
    forall identity: Identity :: !(Shows(tab, a, identity) && Shows(tab, b, identity))
  }

  lemma ClosedClash(tab: Tab, check: Event)
    requires check.TabCheck? && StateOf(tab, check.active, check.current).Closed?
    ensures Clash(tab, check, check)
  {
  }

  predicate Failing(e: Event) {
    match e
    case Capture(page) => !page.Value? || !page.value.success
    case Verify(page) => !page.Value? || !page.value.success
    case Screenshot(image) => image.Rejected?
    case Stage(_, staged) => !staged.Reply? || !staged.accepted
    case Issue(issued) => !issued.Reply? || !issued.accepted
    case _ => false
  }

  lemma FailingClash(tab: Tab, e: Event)
    requires Failing(e)
    ensures Clash(tab, e, e)
  {
  }

  function PageIdentity(e: Event): Option<Identity>
    requires e.Capture? || e.Verify?
  {
    if e.page.Value? then BoundedIdentity(e.page.value.identity) else None
  }

  lemma UrlClash(tab: Tab, check: Event, page: Event)
    requires check.TabCheck? && (page.Capture? || page.Verify?)
    requires StateOf(tab, check.active, check.current).Open?
    requires !TabUrlMatches(StateOf(tab, check.active, check.current).url, PageIdentity(page))
    ensures Clash(tab, check, page) && Clash(tab, page, check)
  {
  }

  lemma IdentityClash(tab: Tab, first: Event, second: Event)
    requires (first.Capture? || first.Verify?) && (second.Capture? || second.Verify?)
    requires !SameIdentity(PageIdentity(first), PageIdentity(second))
    ensures Clash(tab, first, second)
  {
  }

  /** Two events that agree on no identity, or one that shows none, rule out a consistent trace. */
  lemma Disagree(tab: Tab, observed: seq<Event>, i: nat, j: nat)
    requires i < |observed| && j < |observed|
    requires Clash(tab, observed[i], observed[j])
    ensures !Consistent(tab, observed)
  {
    forall identity: Identity ensures !AllShow(tab, observed, identity) {
      assert !(Shows(tab, observed[i], identity) && Shows(tab, observed[j], identity));
    }
  }

  lemma ObservingCommitsNothing(events: seq<Event>, k: nat)
    requires Observing(events) && k < |events|
    ensures KindOf(events[k]) != KCommit
  {
    if InOrder(events) {
      PlannedKind(events[k], k);
    } else if k < |events| - 1 {
      assert events[..|events| - 1][k] == events[k];
      PlannedKind(events[k], k);
    }
  }

  /** Ending with a failure report: the failing event comes before it. */
  lemma ReportEnds(tab: Tab, observed: seq<Event>, i: nat, j: nat, last: Event, result: Result)
    requires (|observed| <= 7 && InOrder(observed)) || Observing(observed)
    requires i < |observed| && j < |observed| && Clash(tab, observed[i], observed[j])
    requires Reported(last, ReportedCause(tab, observed), result)
    ensures Stopped(tab, observed + [last], result)
  {
    hide ReportedCause, Shows, Clash, InOrder;
    assert Observing(observed);
    hide Observing;
    Disagree(tab, observed, i, j);
    hide Consistent;
    var trace := observed + [last];
    assert trace[..|trace| - 1] == observed;
    forall k | 0 <= k < |trace| ensures KindOf(trace[k]) != KCommit {
      if k < |observed| { ObservingCommitsNothing(observed, k); }
    }
  }

  /** Ending with a failure report after another look at the tab. */
  lemma RecheckEnds(tab: Tab, observed: seq<Event>, ending: seq<Event>, timeout: bool, result: Result)
    requires 0 < |observed| <= 7 && InOrder(observed)
    requires var last := observed[|observed| - 1]; Failing(last) && RejectedWith(last, timeout)
    requires timeout ==> |ending| == 1 && Reported(ending[0], Text("timeout"), result)
    requires !timeout ==> |ending| == 2 && ending[0].TabCheck? && Reported(ending[1], RecheckedCause(tab, ending[0]), result)
    ensures Stopped(tab, observed + ending, result)
  {
    hide Stopped, Clash, RecheckedCause, AfterReport;
    var n := |observed| - 1;
    FailingClash(tab, observed[n]);
    if timeout {
      assert observed + ending == observed + [ending[0]];
      ReportEnds(tab, observed, n, n, ending[0], result);
    } else {
      var checked := observed + [ending[0]];
      assert observed + ending == checked + [ending[1]];
      assert checked[n] == observed[n] && checked[..n + 1] == observed;
      ReportEnds(tab, checked, n, n, ending[1], result);
    }
  }

  /** What an attempt that sends no commit looks like. */
  ghost predicate Stopped(tab: Tab, trace: seq<Event>, result: Result) {
    trace != [] && !Has(trace, KCommit) && StoppedEarly(tab, trace, result)
  }

  lemma ClosedAtOnce(tab: Tab, check: Event)
    requires check.TabCheck? && StateOf(tab, check.active, check.current).Closed?
    ensures Stopped(tab, [check], Failed(Text(StateOf(tab, check.active, check.current).status)))
  {
  }

  function WithoutCapability(issued: HubReply): Result {
    match issued
    case Lost(timeout) => Failed(LostCode(timeout))
    case Null => Failed(Text("unsupported"))
    case Reply(_, body) => Relayed(body)
  }

  lemma NoCapability(tab: Tab, check: Event, issued: HubReply)
    requires check.TabCheck? && StateOf(tab, check.active, check.current).Open?
    requires !(issued.Reply? && issued.accepted)
    ensures Stopped(tab, [check, Issue(issued)], WithoutCapability(issued))
  {
  }

  /** The first seven steps of the attestation are done; the last one showed `identity`. */
  ghost predicate Ready(tab: Tab, trace: seq<Event>, identity: Option<Identity>) {
    && |trace| == 7 && (forall i :: 0 <= i < 7 ==> KindOf(trace[i]) == ATTESTATION[i])
    && identity.Some? && identity == PageIdentity(trace[6]) && AllShow(tab, trace, identity.value)
  }

  lemma ReadyIsAttested(tab: Tab, trace: seq<Event>, identity: Option<Identity>)
    requires Ready(tab, trace, identity)
    ensures Attested(tab, trace, 7) && |trace| == 7 && InOrder(trace) && trace[6].Verify?
    ensures identity.Some? && identity == PageIdentity(trace[6]) && AllShow(tab, trace, identity.value)
  {
    assert KindOf(trace[6]) == ATTESTATION[6];
    assert trace[..7] == trace;
  }

  lemma AttestedSeven(tab: Tab, trace: seq<Event>, first: Units, second: Units, third: Units)
    requires |trace| == 7
    requires trace[0].TabCheck? && trace[1].Issue? && trace[2].Capture? && trace[3].TabCheck?
    requires trace[4].Screenshot? && trace[5].TabCheck? && trace[6].Verify?
    requires !Failing(trace[1]) && !Failing(trace[2]) && !Failing(trace[4]) && !Failing(trace[6])
    requires StateOf(tab, trace[0].active, trace[0].current) == Open(first)
    requires StateOf(tab, trace[3].active, trace[3].current) == Open(second)
    requires StateOf(tab, trace[5].active, trace[5].current) == Open(third)
    requires var identity := PageIdentity(trace[2]);
             && TabUrlMatches(first, identity) && TabUrlMatches(second, identity) && TabUrlMatches(third, identity)
             && SameIdentity(identity, PageIdentity(trace[6]))
    ensures Ready(tab, trace, PageIdentity(trace[6]))
  {
    hide StateOf;
  }

  /** An attestation seen as the start of a longer trace. */
  lemma AttestedStays(tab: Tab, attested: seq<Event>, rest: seq<Event>)
    requires |attested| == 7 && Attested(tab, attested, 7)
    ensures Attested(tab, attested + rest, 7)
    ensures forall i :: 0 <= i < 7 ==> (attested + rest)[i] == attested[i]
    ensures (attested + rest)[7..] == rest
    ensures InOrder(attested)
  {
    var trace := attested + rest;
    assert trace[..7] == attested == attested[..7];
    assert forall i :: 0 <= i < 7 ==> KindOf(trace[i]) == KindOf(attested[i]) == ATTESTATION[i];
  }

  lemma FirstSteps(check: Event, issue: Event)
    requires check.TabCheck? && issue.Issue?
    ensures InOrder([check, issue])
  {
  }

  lemma NextStep(events: seq<Event>, e: Event)
    requires InOrder(events) && |events| < |ATTESTATION| && KindOf(e) == ATTESTATION[|events|]
    ensures InOrder(events + [e])
  {
  }

  /** The page has been captured in the tab that was clicked, under a capability. */
  predicate Captured(tab: Tab, trace: seq<Event>, url: Units, identity: Option<Identity>) {
    && |trace| == 3 && trace[0].TabCheck? && trace[1].Issue? && trace[2].Capture?
    && StateOf(tab, trace[0].active, trace[0].current) == Open(url) && !Failing(trace[1]) && !Failing(trace[2])
    && identity == PageIdentity(trace[2]) && identity.Some? && TabUrlMatches(url, identity)
    && InOrder(trace)
  }

  /** The start of a click: look at the tab, ask for a capability, capture the page. */
  method CapturePage(tab: Tab) returns (failure: Option<Result>, identity: Option<Identity>, url: Units, trace: seq<Event>)
    ensures failure.Some? ==> Stopped(tab, trace, failure.value)
    ensures failure.None? ==> Captured(tab, trace, url, identity)
  {
    hide Stopped, Clash, Shows, InOrder, Observing, StateOf, BoundedIdentity, SameIdentity;
    identity, url := None, [];
    var result: Result;
    var last: Event;
    var ending: seq<Event>;

    var initialState, e0 := CurrentTabState(tab);
    trace := [e0];
    if initialState.Closed? {
      ClosedAtOnce(tab, e0);
      return Some(Failed(Text(initialState.status))), None, [], trace;
    }
    url := initialState.url;

    var issued := Ask<HubReply>();
    var e1 := Issue(issued);
    trace := [e0, e1];
    if !issued.Reply? || !issued.accepted {
      NoCapability(tab, e0, issued);
      result := match issued
        case Lost(timeout) => Failed(LostCode(timeout))
        case Null => Failed(Text("unsupported"))
        case Reply(_, body) => Relayed(body);
      return Some(result), None, [], trace;
    }
    FirstSteps(e0, e1);

    var page := Ask<Answer<PageReply>>();
    var e2 := Capture(page);
    NextStep(trace, e2);
    trace := trace + [e2];
    if page.Rejected? {
      result, ending := ReportRejection(tab, page.timeout);
      RecheckEnds(tab, trace, ending, page.timeout, result);
      return Some(result), None, [], trace + ending;
    }
    if page.Nothing? || !page.value.success {
      result, last := SendFailure(if page.Nothing? then Text("unsupported") else CodeOr(page.value.errorCode, "unsupported"));
      FailingClash(tab, e2);
      ReportEnds(tab, trace, 2, 2, last, result);
      return Some(result), None, [], trace + [last];
    }
    identity := BoundedIdentity(page.value.identity);
    if identity.None? || !TabUrlMatches(url, identity) {
      result, last := SendFailure(Text("target_changed"));
      UrlClash(tab, e0, e2);
      ReportEnds(tab, trace, 0, 2, last, result);
      return Some(result), None, [], trace + [last];
    }
    failure := None;
  }

  /** The first half of a click: capture the page, and look at everything twice. */
  method Attest(tab: Tab) returns (failure: Option<Result>, identity: Option<Identity>, trace: seq<Event>)
    ensures failure.Some? ==> Stopped(tab, trace, failure.value)
    ensures failure.None? ==> Ready(tab, trace, identity)
  {
    hide Stopped, Ready, Clash, Shows, InOrder, Observing, StateOf, BoundedIdentity, SameIdentity;
    identity := None;
    var result: Result;
    var last: Event;
    var ending: seq<Event>;
    var initialIdentity, initialUrl;

    failure, initialIdentity, initialUrl, trace := CapturePage(tab);
    if failure.Some? { return; }
    ghost var e2 := trace[2];

    var beforeScreenshot, e3 := CurrentTabState(tab);
    NextStep(trace, e3);
    trace := trace + [e3];
    if beforeScreenshot.Closed? {
      result, last := SendFailure(Text(beforeScreenshot.status));
      ClosedClash(tab, e3);
      ReportEnds(tab, trace, 3, 3, last, result);
      return Some(result), None, trace + [last];
    }
    if !TabUrlMatches(beforeScreenshot.url, initialIdentity) {
      result, last := SendFailure(Text("target_changed"));
      UrlClash(tab, e3, e2);
      ReportEnds(tab, trace, 2, 3, last, result);
      return Some(result), None, trace + [last];
    }

    var screenshot := Ask<Answer<Units>>();
    var e4 := Screenshot(screenshot);
    NextStep(trace, e4);
    trace := trace + [e4];
    if screenshot.Rejected? {
      result, ending := ReportRejection(tab, screenshot.timeout);
      RecheckEnds(tab, trace, ending, screenshot.timeout, result);
      return Some(result), None, trace + ending;
    }

    var afterScreenshot, e5 := CurrentTabState(tab);
    NextStep(trace, e5);
    trace := trace + [e5];
    if afterScreenshot.Closed? {
      result, last := SendFailure(Text(afterScreenshot.status));
      ClosedClash(tab, e5);
      ReportEnds(tab, trace, 5, 5, last, result);
      return Some(result), None, trace + [last];
    }
    if !TabUrlMatches(afterScreenshot.url, initialIdentity) {
      result, last := SendFailure(Text("target_changed"));
      UrlClash(tab, e5, e2);
      ReportEnds(tab, trace, 2, 5, last, result);
      return Some(result), None, trace + [last];
    }

    var finalPage := Ask<Answer<PageReply>>();
    var e6 := Verify(finalPage);
    NextStep(trace, e6);
    trace := trace + [e6];
    if finalPage.Rejected? {
      result, ending := ReportRejection(tab, finalPage.timeout);
      RecheckEnds(tab, trace, ending, finalPage.timeout, result);
      return Some(result), None, trace + ending;
    }
    if finalPage.Nothing? || !finalPage.value.success {
      result, last := SendFailure(
        if finalPage.Nothing? then Text("unsupported") else CodeOr(finalPage.value.errorCode, "unsupported"));
      FailingClash(tab, e6);
      ReportEnds(tab, trace, 6, 6, last, result);
      return Some(result), None, trace + [last];
    }
    identity := BoundedIdentity(finalPage.value.identity);
    if !SameIdentity(initialIdentity, identity) || !TabUrlMatches(afterScreenshot.url, identity) {
      result, last := SendFailure(Text("target_changed"));
      if SameIdentity(initialIdentity, identity) { UrlClash(tab, e5, e6); } else { IdentityClash(tab, e2, e6); }
      ReportEnds(tab, trace, if SameIdentity(initialIdentity, identity) then 5 else 2, 6, last, result);
      return Some(result), None, trace + [last];
    }
    failure := None;
    AttestedSeven(tab, trace, initialUrl, beforeScreenshot.url, afterScreenshot.url);
  }

  lemma AbandonEnds(tab: Tab, observed: seq<Event>, id: string, i: nat, j: nat)
    requires 8 <= |observed| <= 10 && InOrder(observed) && Attested(tab, observed, 7)
    requires observed[7].Stage? && observed[7].id == id && !Refused(observed[7])
    requires i < |observed| && j < |observed|
    requires Clash(tab, observed[i], observed[j])
    ensures Stopped(tab, observed + [Abandon(id)], Failed(AbandonedCause(tab, observed[|observed| - 1])))
  {
    hide Shows, AbandonedCause, Clash;
    var trace := observed + [Abandon(id)];
    Disagree(tab, observed, i, j);
    assert trace[..|observed|] == observed && trace[..7] == observed[..7];
    forall k | 0 <= k < |trace| ensures KindOf(trace[k]) != KCommit {
      if k < |observed| { assert trace[k] == observed[k] && KindOf(observed[k]) == ATTESTATION[k]; }
    }
  }

  /** What an attempt that sends a commit looks like. */
  ghost predicate Committed(tab: Tab, trace: seq<Event>, result: Result) {
    && Has(trace, KCommit) && Attested(tab, trace, 10)
    && trace[7].Stage? && CommitPhase(trace[7].id, trace[10..], result)
  }

  lemma RefusalEnds(tab: Tab, attested: seq<Event>, id: string, staged: HubReply)
    requires |attested| == 7 && Attested(tab, attested, 7)
    requires staged.Reply? && !staged.accepted
    ensures Stopped(tab, attested + [Stage(id, staged)], Relayed(staged.body))
  {
    var trace := attested + [Stage(id, staged)];
    assert trace[..7] == attested == attested[..7];
    assert forall i :: 0 <= i < 7 ==> KindOf(trace[i]) == KindOf(attested[i]) == ATTESTATION[i];
  }

  lemma CommitEnds(
    tab: Tab, attested: seq<Event>, observed: seq<Event>, url: Units, identity: Identity, id: string,
    rest: seq<Event>, result: Result)
    requires |attested| == 7 && |observed| == 10 && InOrder(observed) && observed == attested + observed[7..]
    requires AllShow(tab, attested, identity) && observed[7].Stage? && observed[8].TabCheck? && observed[9].Verify?
    requires !Failing(observed[7]) && observed[7].id == id
    requires StateOf(tab, observed[8].active, observed[8].current) == Open(url) && TabUrlMatches(url, Some(identity))
    requires !Failing(observed[9]) && SameIdentity(Some(identity), PageIdentity(observed[9]))
    requires CommitPhase(id, rest, result)
    ensures Committed(tab, observed + rest, result)
  {
    hide Settled, StateOf, BoundedIdentity;
    forall i | 0 <= i < 10 ensures Shows(tab, observed[i], identity) {
      if i < 7 { assert observed[i] == attested[i]; }
    }
    assert AllShow(tab, observed, identity);
    var trace := observed + rest;
    assert trace[..10] == observed && trace[10..] == rest && KindOf(trace[10]) == KCommit;
  }

  method CaptureCurrentTab(clicked: Option<Tab>) returns (result: Result, trace: seq<Event>)
    ensures clicked.None? ==> trace == [] && result == Failed(Text("closed_tab"))
    ensures clicked.Some? ==> Committed(clicked.value, trace, result) || Stopped(clicked.value, trace, result)
  {
    hide Stopped, Committed, Attested, Clash, Ready, InOrder, StateOf, BoundedIdentity, SameIdentity;
    if clicked.None? { return Failed(Text("closed_tab")), []; }
    var tab := clicked.value;
    var failure, finalIdentity, attested := Attest(tab);
    if failure.Some? { return failure.value, attested; }
    ReadyIsAttested(tab, attested, finalIdentity);

    var id := Ask<string>();
    var staged := Ask<HubReply>();
    NextStep(attested, Stage(id, staged));
    trace := attested + [Stage(id, staged)];
    AttestedStays(tab, attested, trace[7..]);
    match staged {
      case Lost(timeout) =>
        FailingClash(tab, trace[7]);
        AbandonEnds(tab, trace, id, 7, 7);
        return Failed(LostCode(timeout)), trace + [Abandon(id)];
      case Null =>
        FailingClash(tab, trace[7]);
        AbandonEnds(tab, trace, id, 7, 7);
        return Failed(Text("unsupported")), trace + [Abandon(id)];
      case Reply(accepted, body) =>
        if !accepted {
          RefusalEnds(tab, attested, id, staged);
          return Relayed(body), trace;
        }
    }

    var beforeCommit, check := CurrentTabState(tab);
    NextStep(trace, check);
    trace := trace + [check];
    assert trace == attested + [Stage(id, staged), check];
    AttestedStays(tab, attested, [Stage(id, staged), check]);
    if beforeCommit.Closed? || !TabUrlMatches(beforeCommit.url, finalIdentity) {
      if beforeCommit.Closed? { ClosedClash(tab, check); } else { UrlClash(tab, check, attested[6]); }
      AbandonEnds(tab, trace, id, if beforeCommit.Closed? then 8 else 6, 8);
      result := Failed(Text(if beforeCommit.Open? then "target_changed" else beforeCommit.status));
      return result, trace + [Abandon(id)];
    }

    var commitIdentity := Ask<Answer<PageReply>>();
    NextStep(trace, Verify(commitIdentity));
    trace := trace + [Verify(commitIdentity)];
    assert trace == attested + [Stage(id, staged), check, Verify(commitIdentity)];
    AttestedStays(tab, attested, [Stage(id, staged), check, Verify(commitIdentity)]);
    if commitIdentity.Rejected? {
      FailingClash(tab, trace[9]);
      AbandonEnds(tab, trace, id, 9, 9);
      return Failed(Text(if commitIdentity.timeout then "timeout" else "target_changed")), trace + [Abandon(id)];
    }
    if commitIdentity.Nothing? || !commitIdentity.value.success
       || !SameIdentity(finalIdentity, BoundedIdentity(commitIdentity.value.identity)) {
      if Failing(trace[9]) { FailingClash(tab, trace[9]); } else { IdentityClash(tab, attested[6], trace[9]); }
      AbandonEnds(tab, trace, id, if Failing(trace[9]) then 9 else 6, 9);
      result := Failed(if commitIdentity.Nothing? then Text("target_changed")
                       else CodeOr(commitIdentity.value.errorCode, "target_changed"));
      return result, trace + [Abandon(id)];
    }

    var events;
    result, events := SendCommit(id);
    CommitEnds(tab, attested, trace, beforeCommit.url, finalIdentity.value, id, events, result);
    trace := trace + events;
  }

  // ---- What every click guarantees -----------------------------------------------------------------------

  ghost predicate Finished(tab: Tab, trace: seq<Event>, result: Result) {
    Committed(tab, trace, result) || Stopped(tab, trace, result)
  }

  /** An identity is read exactly when all four texts are present and within their bounds, unchanged. */
  lemma BoundedIff(raw: RawIdentity, identity: Identity)
    ensures BoundedIdentity(raw) == Some(identity) <==>
            && raw == Raw(identity.url, identity.origin, identity.document, identity.state)
            && 0 < |raw.url| <= 4096 && 0 < |raw.origin| <= 256 && 0 < |raw.document| <= 256 && 0 < |raw.state| <= 256
  {
  }

  /** Two identities agree exactly when both were read and are equal. */
  lemma SameIdentityIff(left: Option<Identity>, right: Option<Identity>)
    ensures SameIdentity(left, right) <==> left.Some? && left == right
  {
  }

  /** The page answered with this identity. */
  predicate PageSays(e: Event, raw: RawIdentity) {
    (e.Capture? || e.Verify?) && e.page.Value? && e.page.value.success && e.page.value.identity == raw
  }

  /**
   * A commit is preceded by a capability, a capture and a stage that were all accepted; by three page
   * replies with one identity in all four fields; and by four checks that found the clicked tab in
   * front, at the URL of that identity.
   */
  lemma CommitIsAttested(tab: Tab, trace: seq<Event>, result: Result, k: nat)
    requires Finished(tab, trace, result) && k < |trace| && trace[k].Commit?
    ensures k in {10, 11} && trace[k].id == trace[7].id
    ensures trace[1].Issue? && trace[1].issued.Reply? && trace[1].issued.accepted
    ensures trace[4].Screenshot? && !trace[4].image.Rejected?
    ensures trace[7].Stage? && trace[7].staged.Reply? && trace[7].staged.accepted
    ensures trace[6].Verify? && trace[9].Verify?
    ensures trace[2].Capture? && trace[2].page.Value?
            && var raw := trace[2].page.value.identity;
               && raw.Raw? && 0 < |raw.url| <= 4096 && 0 < |raw.origin| <= 256
               && 0 < |raw.document| <= 256 && 0 < |raw.state| <= 256
               && PageSays(trace[2], raw) && PageSays(trace[6], raw) && PageSays(trace[9], raw)
               && forall i :: i in {0, 3, 5, 8} ==>
                    && trace[i].TabCheck?
                    && trace[i].active.Value? && trace[i].active.value != [] && trace[i].active.value[0] == tab
                    && trace[i].current == Value(raw.url)
  {
    hide CommitPhase, StateOf, BoundedIdentity;
    assert KindOf(trace[k]) == KCommit;
    CommitPositions(tab, trace, result, k);
    var events := trace[..10];
    assert Attested(tab, trace, 10);
    var identity: Identity :| AllShow(tab, events, identity);
    assert forall i :: 0 <= i < 10 ==> Shows(tab, events[i], identity) && events[i] == trace[i];
    forall i: nat | i < 10 ensures KindOf(trace[i]) == ATTESTATION[i] && Shows(tab, trace[i], identity) {}
    hide Attested, Consistent, AllShow;
    PageShows(tab, trace[2], identity);
    PageShows(tab, trace[6], identity);
    PageShows(tab, trace[9], identity);
    TabShows(tab, trace[0], identity);
    TabShows(tab, trace[3], identity);
    TabShows(tab, trace[5], identity);
    TabShows(tab, trace[8], identity);
  }

  lemma PageShows(tab: Tab, e: Event, identity: Identity)
    requires (e.Capture? || e.Verify?) && Shows(tab, e, identity)
    ensures PageSays(e, Raw(identity.url, identity.origin, identity.document, identity.state))
    ensures 0 < |identity.url| <= 4096 && 0 < |identity.origin| <= 256
    ensures 0 < |identity.document| <= 256 && 0 < |identity.state| <= 256
  {
  }

  lemma TabShows(tab: Tab, e: Event, identity: Identity)
    requires e.TabCheck? && Shows(tab, e, identity)
    ensures e.active.Value? && e.active.value != [] && e.active.value[0] == tab && e.current == Value(identity.url)
  {
    OpenIff(tab, e.active, e.current, identity.url);
  }

  lemma PlannedKind(e: Event, k: nat)
    ensures k < |ATTESTATION| && KindOf(e) == ATTESTATION[k] ==>
      !e.Commit? && !e.Report? && !e.Abandon? && (e.Stage? <==> k == 7)
  {
  }

  lemma CommitPositions(tab: Tab, trace: seq<Event>, result: Result, k: nat)
    requires Committed(tab, trace, result) && k < |trace| && trace[k].Commit?
    ensures k in {10, 11} && trace[7].Stage? && trace[k].id == trace[7].id
  {
    hide Settled, FirstReply, SecondReply, Consistent;
    PlannedKind(trace[k], k);
    var rest := trace[10..];
    assert k >= 10;
    assert rest[k - 10] == trace[k];
    assert rest[k - 10] in rest;
  }

  lemma NoReportAmidCommits(tab: Tab, trace: seq<Event>, result: Result, k: nat)
    requires Committed(tab, trace, result) && k < |trace|
    ensures !trace[k].Report?
  {
    hide Settled, FirstReply, SecondReply, Consistent;
    if k < 10 {
      assert KindOf(trace[k]) == ATTESTATION[k];
    } else {
      assert trace[10..][k - 10] == trace[k];
      assert trace[k] in trace[10..];
    }
  }

  lemma NoStageBeforeReport(tab: Tab, trace: seq<Event>, result: Result, k: nat)
    requires Stopped(tab, trace, result) && k < |trace| && trace[|trace| - 1].Report?
    ensures !trace[k].Stage?
  {
    hide Consistent, ReportedCause;
    var n := |trace| - 1;
    if k < n {
      var observed := trace[..n];
      assert trace[k] == observed[k];
      if InOrder(observed) {
        assert KindOf(observed[k]) == ATTESTATION[k];
      } else if k < n - 1 {
        assert KindOf(observed[..n - 1][k]) == ATTESTATION[k];
      }
    }
  }

  lemma OnlyLastReports(tab: Tab, trace: seq<Event>, result: Result, j: nat)
    requires Stopped(tab, trace, result) && j < |trace| && !trace[|trace| - 1].Report?
    ensures !trace[j].Report?
  {
    hide Consistent, ReportedCause, StateOf;
    var n := |trace| - 1;
    PlannedKind(trace[j], j);
    if j < n && trace[n].Abandon? {
      assert trace[..n][j] == trace[j];
    }
  }

  lemma StageNotReported(tab: Tab, trace: seq<Event>, result: Result, k: nat)
    requires Stopped(tab, trace, result) && k < |trace| && trace[k].Stage?
    ensures !trace[|trace| - 1].Report?
  {
    hide Stopped;
    if trace[|trace| - 1].Report? { NoStageBeforeReport(tab, trace, result, k); }
  }

  /** Reporting a failure and staging a capture exclude each other. */
  lemma ReportExcludesStage(tab: Tab, trace: seq<Event>, result: Result, j: nat, k: nat)
    requires Finished(tab, trace, result) && j < |trace| && k < |trace|
    ensures !(trace[j].Report? && trace[k].Stage?)
  {
    hide Committed, Stopped;
    if Committed(tab, trace, result) {
      NoReportAmidCommits(tab, trace, result, j);
    } else if trace[|trace| - 1].Report? {
      NoStageBeforeReport(tab, trace, result, k);
    } else {
      OnlyLastReports(tab, trace, result, j);
    }
  }

  /** A commit that was sent is abandoned only after a valid, unambiguous failure, and that failure is the result. */
  lemma AbandonNeedsFailure(tab: Tab, trace: seq<Event>, result: Result, j: nat, k: nat)
    requires Finished(tab, trace, result) && j < |trace| && k < |trace|
    requires trace[j].Commit? && trace[k].Abandon?
    ensures k == |trace| - 1 && k > 10 && trace[k - 1].Commit?
    ensures trace[k].id == trace[7].id
    ensures var reply := trace[k - 1].committed;
            && reply.Got? && IsValid(reply.body, trace[7].id) && !IsAmbiguous(reply.body)
            && reply.body.success == Some(false) && result == Relayed(reply.body)
  {
    hide Consistent, StateOf;
    assert KindOf(trace[j]) == KCommit;
    PlannedKind(trace[k], k);
    var rest := trace[10..];
    assert k >= 10;
    assert rest[k - 10] == trace[k] && rest[k - 10] in rest;
    assert rest[0] == trace[10];
    if |rest| > 1 {
      assert rest[1] == trace[11];
      if rest[1].Commit? {
        assert k != 11;
        assert rest[2..][k - 12] == trace[k];
      } else {
        assert rest[1..][k - 11] == trace[k];
      }
    }
  }

  /** Whatever the hub may have staged is either committed or abandoned. */
  lemma StagedIsResolved(tab: Tab, trace: seq<Event>, result: Result, k: nat)
    requires Finished(tab, trace, result) && k < |trace| && trace[k].Stage? && !Refused(trace[k])
    ensures Has(trace, KCommit) || trace[|trace| - 1] == Abandon(trace[k].id)
  {
    hide Consistent, StateOf, CommitPhase, ReportedCause;
    var n := |trace| - 1;
    PlannedKind(trace[k], k);
    if Stopped(tab, trace, result) {
      if k < n && trace[n].Abandon? { assert trace[..n][k] == trace[k]; }
      StageNotReported(tab, trace, result, k);
    }
  }
}
