/**
 * What a click ends with, said of the answers in its trace: which reply to a commit is passed on,
 * and which code every other ending reports.
 */
module ClickOutcomes {
  import opened Common
  import opened BridgeReplies
  import opened BridgeClient

  // ---- Replies -------------------------------------------------------------------------------------------

  /** A JSON value that counts as false. */
  lemma FalsyIff(f: Field)
    ensures Falsy(f) <==> f == Undefined || f == OtherFalsy || (f.Text? && |f.text| == 0)
  {
  }

  /** An HTTP answer is a failure to be retried, or its body; a refusal without a code is given one. */
  lemma PostIs(status: nat, body: Body, retryServerErrors: bool)
    ensures var r := Post(status, body, retryServerErrors);
            && (r.Thrown? <==> retryServerErrors && status >= 500)
            && (r.Thrown? ==> !r.timeout)
            && (r.Got? && 200 <= status < 300 ==> r.body == body)
            && (r.Got? && !(200 <= status < 300) && body.Object? && Falsy(body.errorCode) ==>
                  r.body == Object(body.success, body.requestId, body.bundle,
                                   Text(if status == 403 then "permission_denied" else "unsupported")))
            && (r.Got? && (body.NotAnObject? || !Falsy(body.errorCode)) ==> r.body == body)
  {
  }

  /** A reply that tells how the commit of this request ended. */
  predicate Tells(body: Body, id: string) {
    && body.Object? && body.success.Some?
    && (body.requestId == Text(id) || (body.requestId == Undefined && !body.success.value))
    && SaysSomething(if body.success.value then body.bundle else body.errorCode)
  }

  /** A text with a character other than white space. */
  predicate SaysSomething(f: Field) {
    f.Text? && exists i :: 0 <= i < |f.text| && !IsSpace(f.text[i])
  }

  lemma NonBlankIff(f: Field)
    ensures NonBlankText(f) <==> SaysSomething(f)
  {
    hide IsSpace;
  }

  lemma ValidIff(body: Body, id: string)
    ensures IsValid(body, id) <==> Tells(body, id)
  {
    hide NonBlankText, SaysSomething;
    if body.Object? {
      NonBlankIff(body.bundle);
      NonBlankIff(body.errorCode);
    }
  }

  /** The codes under which the outcome of a commit is still open. */
  predicate IsOpen(body: Body) {
    && body.Object? && body.errorCode.Text?
    && body.errorCode.text in {"capture_in_progress", "commit_outcome_unknown", "timeout"}
  }

  lemma AmbiguousIff(body: Body)
    ensures IsAmbiguous(body) <==> IsOpen(body)
  {
    if IsOpen(body) { assert body.errorCode == Text(body.errorCode.text); }
  }

  // ---- A commit that was sent ------------------------------------------------------------------------------

  /** Whether a reply says enough for no second request to be sent. */
  predicate Suffices(r: PostResult, id: string) { r.Got? && Tells(r.body, id) }

  /**
   * The commit is repeated exactly when the first reply does not tell how it ended. The reply to the last
   * request is passed on if it tells and is not open; a first success is passed on in any case. Everything
   * else is reported as unknown, and only a failure that is passed on is followed by an abandon.
   */
  lemma CommitResult(tab: Tab, trace: seq<Event>, result: Result)
    requires Committed(tab, trace, result)
    ensures |trace| > 10 && trace[7].Stage? && trace[10].Commit?
    ensures var id, first := trace[7].id, trace[10].committed;
            var again := |trace| > 11 && trace[11].Commit?;
            && (again <==> !Suffices(first, id))
            && var last := if again then trace[11].committed else first;
               var passed := Suffices(last, id) && (!IsOpen(last.body) || (!again && last.body.success.value));
               && result == (if passed then Relayed(last.body) else OutcomeUnknown(id))
               && trace[if again then 12 else 11..] ==
                  if passed && !last.body.success.value then [Abandon(id)] else []
  {
    assert |trace| >= 10;
    hide Attested, Tells, IsValid, IsAmbiguous, IsOpen;
    var id, rest := trace[7].id, trace[10..];
    assert rest[0] == trace[10];
    var first := rest[0].committed;
    if first.Got? { ReadFirst(first.body, id); }
    if |rest| > 1 && rest[1].Commit? {
      assert trace[11] == rest[1];
      if rest[1].committed.Got? { ReadFirst(rest[1].committed.body, id); }
      assert trace[12..] == rest[2..];
    } else {
      assert trace[11..] == rest[1..];
    }
  }

  lemma ReadFirst(body: Body, id: string)
    ensures IsValid(body, id) <==> Tells(body, id)
    ensures IsAmbiguous(body) <==> IsOpen(body)
    ensures Tells(body, id) ==> body.Object? && body.success.Some?
  {
    hide IsValid, IsAmbiguous, IsOpen;
    ValidIff(body, id);
    AmbiguousIff(body);
  }

  // ---- A click that sends no commit -------------------------------------------------------------------------

  /** A step is passed exactly when its answer is good; the page and the tab must show the identity. */
  lemma ShowsIff(tab: Tab, e: BridgeClient.Event, identity: Identity)
    ensures e.Issue? ==> (Shows(tab, e, identity) <==> e.issued.Reply? && e.issued.accepted)
    ensures e.Stage? ==> (Shows(tab, e, identity) <==> e.staged.Reply? && e.staged.accepted)
    ensures e.Screenshot? ==> (Shows(tab, e, identity) <==> !e.image.Rejected?)
    ensures e.TabCheck? ==> (Shows(tab, e, identity) <==>
              InFront(tab, e.active) && e.current == Value(identity.url) && identity.url != [])
    ensures e.Capture? || e.Verify? ==> (Shows(tab, e, identity) <==>
              && PageSays(e, Raw(identity.url, identity.origin, identity.document, identity.state))
              && 0 < |identity.url| <= 4096 && 0 < |identity.origin| <= 256
              && 0 < |identity.document| <= 256 && 0 < |identity.state| <= 256)
    ensures e.Report? || e.Commit? || e.Abandon? ==> !Shows(tab, e, identity)
  {
    hide StateOf, BoundedIdentity;
    if e.TabCheck? { OpenIff(tab, e.active, e.current, identity.url); }
    if (e.Capture? || e.Verify?) && e.page.Value? { BoundedIff(e.page.value.identity, identity); }
  }

  /** The status of the tab, or something else if it is open. */
  function StatusOr(tab: Tab, check: BridgeClient.Event, open: string): Field
    requires check.TabCheck?
  {
    Text(match StateOf(tab, check.active, check.current) case Open(_) => open case Closed(status) => status)
  }

  /** The code that a page gave, or a default if it gave none. */
  predicate CodeFrom(code: Field, page: PageReply, default: string) {
    if page.errorCode in {Undefined, OtherFalsy, Text("")} then code == Text(default) else code == page.errorCode
  }

  /** How a click stops before it has a capability. */
  lemma StoppedAtOnce(tab: Tab, trace: seq<BridgeClient.Event>, result: BridgeClient.Result)
    requires Stopped(tab, trace, result) && !trace[|trace| - 1].Report? && |trace| <= 2
    ensures trace[0].TabCheck?
    ensures |trace| == 1 ==> StateOf(tab, trace[0].active, trace[0].current).Closed? && result == Failed(StatusOr(tab, trace[0], ""))
    ensures |trace| == 2 ==>
              && trace[1].Issue? && StateOf(tab, trace[0].active, trace[0].current).Open?
              && (trace[1].issued.Lost? ==> result == Failed(Text(if trace[1].issued.timeout then "timeout" else "unsupported")))
              && (trace[1].issued.Null? ==> result == Failed(Text("unsupported")))
              && (trace[1].issued.Reply? ==> !trace[1].issued.accepted && result == Relayed(trace[1].issued.body))
  {
    hide StateOf;
  }

  /** The code that is reported, by the event before the report. */
  lemma ReportedCode(tab: Tab, trace: seq<BridgeClient.Event>, result: BridgeClient.Result)
    requires Stopped(tab, trace, result) && trace[|trace| - 1].Report?
    ensures var last := trace[|trace| - 1];
            && (last.answer.Lost? ==> result == Failed(Text(if last.answer.timeout then "timeout" else "unsupported")))
            && (last.answer.Null? ==> result == Relayed(NotAnObject))
            && (last.answer.Reply? ==> result == Relayed(last.answer.body))
    ensures |trace| >= 2
    ensures var code, e := trace[|trace| - 1].code, trace[|trace| - 2];
            && (e.TabCheck? ==>
                  var rejected := |trace| >= 3 && WasRejected(trace[|trace| - 3]);
                  code == StatusOr(tab, e, if rejected then "permission_denied" else "target_changed"))
            && (e.Screenshot? ==> code == Text("timeout"))
            && (e.Capture? || e.Verify? ==>
                  && (e.page.Rejected? ==> code == Text("timeout"))
                  && (e.page.Nothing? ==> code == Text("unsupported"))
                  && (e.page.Value? && e.page.value.success ==> code == Text("target_changed"))
                  && (e.page.Value? && !e.page.value.success ==> CodeFrom(code, e.page.value, "unsupported")))
  {
    hide StateOf, Consistent, Observing;
    var n := |trace| - 1;
    var observed := trace[..n];
    assert observed[n - 1] == trace[n - 1] && (n >= 2 ==> observed[n - 2] == trace[n - 2]);
  }

  /** The code with which an abandoned click ends, by the event before the abandon. */
  lemma AbandonedCode(tab: Tab, trace: seq<BridgeClient.Event>, result: BridgeClient.Result)
    requires Stopped(tab, trace, result) && trace[|trace| - 1].Abandon?
    ensures 9 <= |trace| <= 11 && trace[7].Stage? && trace[|trace| - 1].id == trace[7].id && result.Failed?
    ensures |trace| == 9 ==>
              && !trace[7].staged.Reply?
              && result.code == Text(if trace[7].staged.Lost? && trace[7].staged.timeout then "timeout" else "unsupported")
    ensures |trace| == 10 ==> trace[8].TabCheck? && result.code == StatusOr(tab, trace[8], "target_changed")
    ensures |trace| == 11 ==>
              && trace[9].Verify?
              && (trace[9].page.Rejected? ==> result.code == Text(if trace[9].page.timeout then "timeout" else "target_changed"))
              && (trace[9].page.Nothing? ==> result.code == Text("target_changed"))
              && (trace[9].page.Value? ==> CodeFrom(result.code, trace[9].page.value, "target_changed"))
  {
    hide StateOf, Consistent, Attested;
    var n := |trace| - 1;
    var observed := trace[..n];
    assert forall i :: 0 <= i < n ==> observed[i] == trace[i] && KindOf(trace[i]) == ATTESTATION[i];
    PlannedKind(trace[7], 7);
    if n == 8 && trace[7].staged.Reply? {
      StagedShows(tab, trace, observed);
    }
  }

  /** Once everything up to the stage request was in order and it was accepted, nothing is inconsistent. */
  lemma StagedShows(tab: Tab, trace: seq<BridgeClient.Event>, observed: seq<BridgeClient.Event>)
    requires |observed| == 8 && |trace| >= 8 && observed == trace[..8] && Attested(tab, trace, 7)
    requires trace[7].Stage? && trace[7].staged.Reply? && !Refused(trace[7])
    ensures Consistent(tab, observed)
  {
    hide StateOf;
    var identity: Identity :| AllShow(tab, trace[..7], identity);
    forall i | 0 <= i < 8 ensures Shows(tab, observed[i], identity) {
      if i < 7 { assert observed[i] == trace[..7][i]; }
    }
    assert AllShow(tab, observed, identity);
  }
}
