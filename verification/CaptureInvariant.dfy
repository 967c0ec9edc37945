/** What every run of the capture server keeps, and what can never be undone. */
module CaptureInvariant {
  import opened Common
  import opened CaptureServer

  predicate HasStage(s: Server, c: Token) {
    c in s.admitted && s.admitted[c] in s.stages && s.stages[s.admitted[c]].cap == c
  }

  /** The capability can no longer pass the capability check. */
  predicate Blocked(s: Server, c: Token) {
    c !in s.caps || s.caps[c].used || s.caps[c].expiresAt <= s.now
  }

  /** An artifact batch for the token is under way and no longer bound to be cancelled. */
  predicate CanStore(s: Server, c: Token) {
    && HasStage(s, c)
    && var r := s.admitted[c];
       && r in s.batches
       && (s.batches[r].Checked? || (s.batches[r].Started? && !s.stages[r].cancelRequested))
  }

  /** The capture has been stored, or a batch already running may still store it. */
  predicate Hazard(s: Server, c: Token) {
    c in s.stored || CanStore(s, c) || c in s.direct
  }

  ghost predicate Known(s: Server) {
    && s.caps.Keys <= s.issued
    && s.stored.Keys <= s.issued
    && s.direct.Keys <= s.issued
    && s.admitted.Keys <= s.issued
  }

  ghost predicate Stages(s: Server) {
    && (forall r :: r in s.stages ==> s.stages[r].cap in s.admitted && s.admitted[s.stages[r].cap] == r)
    && (forall r :: r in s.stages && s.stages[r].cap in s.caps && !s.caps[s.stages[r].cap].used ==>
          s.caps[s.stages[r].cap].reserved == Some(r))
  }

  ghost predicate Batches(s: Server) {
    && (forall r :: r in s.batches <==> r in s.stages && s.stages[r].committing)
    && (forall r :: r in s.batches && s.batches[r].Failed? ==>
          var reply := s.batches[r].reply;
          !reply.success && reply.id.None? && reply.bundle.None? && reply.code.Some? && !reply.retryable
          && (reply.code == Some("artifact_store_error") ==> reply.status == 503))
    && (forall r :: r in s.batches && s.batches[r].Written? ==> !Blank(s.batches[r].bundle))
    && (forall r :: r in s.stages ==>
          (s.stages[r].cap in s.stored <==> r in s.batches && s.batches[r].Written?))
    && (forall r :: r in s.batches && s.batches[r].Written? ==>
          s.stored[s.stages[r].cap] == s.stages[r].payload)
  }

  ghost predicate Settled(s: Server) {
    && (forall c :: c in s.admitted ==> Blocked(s, c) || HasStage(s, c))
    && (forall c :: c in s.stored ==> Blocked(s, c) || HasStage(s, c))
    && (forall c :: c in s.direct ==> Blocked(s, c) && c !in s.stored && c !in s.admitted)
  }

  ghost predicate Terminals(s: Server) {
    forall r :: r in s.terminals ==>
      && r !in s.stages
      && s.terminals[r].cap in s.admitted
      && !HasStage(s, s.terminals[r].cap)
      && TerminalReply(s.terminals[r].reply, r, s.terminals[r].cap in s.stored)
  }

  /** A terminal reply names its request and tells whether the capture was stored. */
  predicate TerminalReply(reply: Reply, r: RequestId, stored: bool) {
    && reply.id == Some(r)
    && (reply.bundle.Some? <==> stored)
    && (stored ==> reply.success && !Blank(reply.bundle.value))
    && (!reply.success ==> reply.code.Some? && (reply.code == Some("artifact_store_error") ==> reply.status == 503))
  }

  ghost predicate Inv(s: Server) {
    Known(s) && Stages(s) && Batches(s) && Settled(s) && Terminals(s)
  }

  /** What a refusal by the capability check says about the token. */
  predicate RefusalOf(s: Server, c: Token, req: Request, id: RequestId, reply: Reply) {
    && !reply.success && reply.id.None? && reply.bundle.None? && reply.code.Some?
    && reply.status < 500 && reply.code != Some("artifact_store_error")
    && (|| Blocked(s, c)
        || (c in s.caps && s.caps[c].reserved.Some? && s.caps[c].reserved != Some(id))
        || !Matches(s.caps[c], req))
  }

  predicate Matches(k: Capability, req: Request) {
    req.origin == k.origin && req.tab == Some(k.tab) && req.window == k.window && !PythonBlank(k.tab) && !PythonBlank(k.window)
  }

  /** A capability keeps its origin, tab, window and lifetime. */
  predicate SameBinding(k: Capability, l: Capability) {
    k.origin == l.origin && k.tab == l.tab && k.window == l.window && k.expiresAt == l.expiresAt
  }
}
