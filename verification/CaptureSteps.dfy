/** Every atomic step of the capture server keeps the invariant. */
module CaptureSteps {
  import opened Common
  import opened CaptureServer
  import opened CaptureInvariant

  /** A step that leaves capabilities alone and keeps every stage with its token. */
  predicate SameTokens(s: Server, t: Server) {
    && t.now == s.now && t.caps == s.caps && t.issued == s.issued && t.admitted == s.admitted
    && t.stages.Keys == s.stages.Keys && forall r :: r in s.stages ==> t.stages[r].cap == s.stages[r].cap
  }

  lemma SameTokensKeep(s: Server, t: Server)
    requires Stages(s) && SameTokens(s, t)
    ensures Stages(t)
    ensures forall c :: (Blocked(t, c) <==> Blocked(s, c)) && (HasStage(t, c) <==> HasStage(s, c))
  {
  }

  lemma SameTokensKeepSettled(s: Server, t: Server)
    requires Stages(s) && Settled(s) && SameTokens(s, t) && t.stored == s.stored && t.direct == s.direct
    ensures Settled(t)
  {
    SameTokensKeep(s, t);
    hide Stages, Blocked, HasStage;
  }

  lemma SameTokensKeepTerminals(s: Server, t: Server)
    requires Stages(s) && Terminals(s) && SameTokens(s, t) && t.stored == s.stored
    requires forall r :: r in t.terminals ==> r in s.terminals && t.terminals[r] == s.terminals[r]
    ensures Terminals(t)
  {
    SameTokensKeep(s, t);
    hide Stages, Blocked, HasStage, TerminalReply;
  }

  lemma EvictionMeans(s: Server, t: Server)
    requires Evicted(s, t)
    ensures t == s.(terminals := t.terminals)
    ensures forall r :: r in t.terminals ==> r in s.terminals && t.terminals[r] == s.terminals[r]
  {
  }

  lemma BatchesAside(s: Server, terminals: map<RequestId, Terminal>)
    requires Batches(s)
    ensures Batches(s.(terminals := terminals))
  {
  }

  lemma EvictionKeepsInv(s: Server, t: Server)
    requires Inv(s) && Evicted(s, t)
    ensures Inv(t)
  {
    hide Evicted, Stages, Batches, Settled, Terminals;
    EvictionMeans(s, t);
    SameTokensKeep(s, t);
    SameTokensKeepSettled(s, t);
    SameTokensKeepTerminals(s, t);
    BatchesAside(s, t.terminals);
  }

  /** Housekeeping only blocks tokens, and drops a stage only with its capability. */
  lemma CleanupOfToken(s: Server, now: real, c: Token)
    requires Stages(s) && s.now <= now
    ensures var t := Cleanup(s, now);
            && (Blocked(s, c) ==> Blocked(t, c))
            && (HasStage(t, c) <==> HasStage(s, c) && !Lapsed(s, s.admitted[c], now))
            && (HasStage(s, c) && !HasStage(t, c) ==> Blocked(t, c))
  {
    var t := Cleanup(s, now);
    if HasStage(s, c) && Lapsed(s, s.admitted[c], now) && c in s.caps && !s.caps[c].used {
      assert Released(s, c, now);
    }
  }

  lemma CleanupKeepsStages(s: Server, now: real)
    requires Inv(s) && s.now <= now
    ensures Known(Cleanup(s, now)) && Stages(Cleanup(s, now))
  {
    var t := Cleanup(s, now);
    assert t.caps.Keys == s.caps.Keys;
  }

  lemma CleanupKeepsBatches(s: Server, now: real)
    requires Inv(s) && s.now <= now
    ensures Batches(Cleanup(s, now))
  {
    CleanupOfStages(s, now);
    hide Known, Stages, Settled, Terminals, Cleanup;
  }

  /** What housekeeping leaves of the stages, and that it leaves batches and store alone. */
  lemma CleanupOfStages(s: Server, now: real)
    ensures var t := Cleanup(s, now);
            && t.batches == s.batches && t.stored == s.stored
            && (forall r :: r in t.stages <==> r in s.stages && !Lapsed(s, r, now))
            && (forall r :: r in t.stages ==>
                  && t.stages[r].cap == s.stages[r].cap && t.stages[r].payload == s.stages[r].payload
                  && t.stages[r].committing == s.stages[r].committing)
  {
    hide Lapsed, Released, Expiry;
  }

  lemma CleanupKeepsSettled(s: Server, now: real)
    requires Inv(s) && s.now <= now
    ensures Settled(Cleanup(s, now))
  {
    forall c { CleanupOfToken(s, now, c); }
  }

  lemma CleanupKeepsTerminals(s: Server, now: real)
    requires Inv(s) && s.now <= now
    ensures Terminals(Cleanup(s, now))
  {
    var t := Cleanup(s, now);
    forall r | r in t.terminals
      ensures r !in t.stages && t.terminals[r].cap in t.admitted && !HasStage(t, t.terminals[r].cap)
              && TerminalReply(t.terminals[r].reply, r, t.terminals[r].cap in t.stored)
    {
      CleanupOfToken(s, now, t.terminals[r].cap);
      if Lapsed(s, r, now) { assert t.terminals[r] == Expiry(s, r, now); }
    }
  }

  lemma CleanupKeepsInv(s: Server, now: real)
    requires Inv(s) && s.now <= now
    ensures Inv(Cleanup(s, now))
  {
    CleanupKeepsStages(s, now);
    CleanupKeepsBatches(s, now);
    CleanupKeepsSettled(s, now);
    CleanupKeepsTerminals(s, now);
  }

  lemma LaterKeepsInv(s: Server, later: real)
    requires Inv(s) && s.now <= later
    ensures Inv(s.(now := later))
  {
  }

  /** Changing capabilities alone is harmless when it opens none and respects live stages. */
  lemma CapsKeepInv(s: Server, t: Server)
    requires Inv(s) && t == s.(caps := t.caps) && t.caps.Keys <= s.caps.Keys
    requires forall c :: Blocked(s, c) ==> Blocked(t, c)
    requires forall r :: r in s.stages && s.stages[r].cap in t.caps && !t.caps[s.stages[r].cap].used ==>
               t.caps[s.stages[r].cap].reserved == Some(r)
    ensures Inv(t)
  {
    assert forall c :: HasStage(s, c) == HasStage(t, c);
    assert Known(t);
    assert Stages(t);
    assert Batches(t);
    assert Settled(t);
    assert Terminals(t);
  }

  /** A check that does not consume keeps what a capability is bound to, and at most reserves it. */
  lemma CheckReserves(k: Capability, now: real, req: Request, id: RequestId)
    ensures var l := CheckCapability(k, now, req, false, Some(id)).0;
            && SameBinding(k, l) && (k.used ==> l.used)
            && (l.reserved == k.reserved || (l.reserved == Some(id) && k.reserved.None?))
  {
    hide PythonBlank;
  }

  lemma ValidateTouchesCaps(s: Server, c: Token, req: Request, id: RequestId)
    ensures var t := Validate(s, c, req, false, Some(id)).0; t == s.(caps := t.caps)
  {
    hide CheckCapability;
  }

  lemma ValidateCaps(s: Server, c: Token, req: Request, id: RequestId)
    ensures var t := Validate(s, c, req, false, Some(id)).0;
            && t == s.(caps := t.caps)
            && t.caps.Keys == s.caps.Keys
            && (forall d :: d in s.caps && d != c ==> t.caps[d] == s.caps[d])
            && (c in s.caps ==>
                  && SameBinding(s.caps[c], t.caps[c])
                  && (s.caps[c].used ==> t.caps[c].used)
                  && (t.caps[c].reserved == s.caps[c].reserved
                      || (t.caps[c].reserved == Some(id) && s.caps[c].reserved.None?)))
  {
    hide CheckCapability, SameBinding;
    if c in s.caps { CheckReserves(s.caps[c], s.now, req, id); }
  }

  lemma ValidateVerdict(s: Server, c: Token, req: Request, id: RequestId)
    ensures var (t, refused) := Validate(s, c, req, false, Some(id));
            && (refused.None? ==> !Blocked(s, c) && !Blocked(t, c) && t.caps[c].reserved == Some(id))
            && (refused.Some? ==> RefusalOf(s, c, req, id, refused.value))
  {
  }

  /** The capability check touches one capability only, and never opens it. */
  lemma ValidateShape(s: Server, c: Token, req: Request, id: RequestId)
    ensures var (t, refused) := Validate(s, c, req, false, Some(id));
            && t == s.(caps := t.caps)
            && t.caps.Keys == s.caps.Keys
            && (forall d :: d in s.caps && d != c ==> t.caps[d] == s.caps[d])
            && (c in s.caps ==>
                  && SameBinding(s.caps[c], t.caps[c])
                  && (s.caps[c].used ==> t.caps[c].used)
                  && (t.caps[c].reserved == s.caps[c].reserved
                      || (t.caps[c].reserved == Some(id) && s.caps[c].reserved.None?)))
            && (refused.None? ==> !Blocked(s, c) && !Blocked(t, c) && t.caps[c].reserved == Some(id))
            && (refused.Some? ==> RefusalOf(s, c, req, id, refused.value))
  {
    hide Validate, RefusalOf, Blocked, SameBinding;
    ValidateCaps(s, c, req, id);
    ValidateVerdict(s, c, req, id);
  }

  /** A check that does not consume keeps the invariant. */
  lemma ValidateKeepsInv(s: Server, c: Token, req: Request, id: RequestId)
    requires Inv(s)
    ensures Inv(Validate(s, c, req, false, Some(id)).0)
  {
    var t := Validate(s, c, req, false, Some(id)).0;
    ValidateShape(s, c, req, id);
    forall r | r in s.stages && s.stages[r].cap in t.caps && !t.caps[s.stages[r].cap].used
      ensures t.caps[s.stages[r].cap].reserved == Some(r) {}
    CapsKeepInv(s, t);
  }

  /** An open capability reserved for a request that is not staged was never used before. */
  lemma FreshToken(s: Server, c: Token, id: RequestId)
    requires Inv(s) && !Blocked(s, c) && s.caps[c].reserved == Some(id) && id !in s.stages
    ensures !HasStage(s, c) && c !in s.admitted && c !in s.stored && c !in s.direct
  {
  }

  lemma UnreserveKeepsInv(s: Server, c: Token)
    requires Inv(s) && c in s.caps && !HasStage(s, c)
    ensures Inv(Reserve(s, c, None))
  {
    var t := Reserve(s, c, None);
    forall r | r in s.stages && s.stages[r].cap in t.caps && !t.caps[s.stages[r].cap].used
      ensures t.caps[s.stages[r].cap].reserved == Some(r) {}
    CapsKeepInv(s, t);
  }

  function Admit(s: Server, c: Token, id: RequestId, payload: Payload, expiry: real): Server {
    s.(stages := s.stages[id := Stage(c, payload, expiry, false, false)], admitted := s.admitted[c := id])
  }

  lemma AdmitKeepsStages(s: Server, c: Token, id: RequestId, payload: Payload, expiry: real)
    requires Inv(s) && !Blocked(s, c) && s.caps[c].reserved == Some(id)
    requires id !in s.stages && id !in s.terminals
    ensures var t := Admit(s, c, id, payload, expiry); Known(t) && Stages(t)
  {
    FreshToken(s, c, id);
    hide Batches, Settled, Terminals;
  }

  lemma AdmitKeepsBatches(s: Server, c: Token, id: RequestId, payload: Payload, expiry: real)
    requires Inv(s) && !Blocked(s, c) && s.caps[c].reserved == Some(id) && id !in s.stages
    ensures Batches(Admit(s, c, id, payload, expiry))
  {
    FreshToken(s, c, id);
    hide Known, Stages, Settled, Terminals, Blocked, HasStage, Blank;
  }

  lemma AdmitTokens(s: Server, c: Token, id: RequestId, payload: Payload, expiry: real, d: Token)
    requires Inv(s) && c !in s.admitted && id !in s.stages
    ensures var t := Admit(s, c, id, payload, expiry);
            (Blocked(t, d) <==> Blocked(s, d)) && (HasStage(t, d) <==> d == c || HasStage(s, d))
  {
    hide Inv;
  }

  lemma AdmitKeepsRecords(s: Server, c: Token, id: RequestId, payload: Payload, expiry: real)
    requires Inv(s) && c !in s.admitted && c !in s.direct && id !in s.stages && id !in s.terminals
    ensures var t := Admit(s, c, id, payload, expiry); Settled(t) && Terminals(t)
  {
    forall d { AdmitTokens(s, c, id, payload, expiry, d); }
    hide Known, Stages, Batches, Blocked, HasStage, TerminalReply;
  }

  lemma AdmitKeepsInv(s: Server, c: Token, id: RequestId, payload: Payload, expiry: real)
    requires Inv(s) && !Blocked(s, c) && s.caps[c].reserved == Some(id)
    requires id !in s.stages && id !in s.terminals
    ensures Inv(Admit(s, c, id, payload, expiry))
  {
    hide Known, Stages, Batches, Settled, Terminals, Admit, HasStage;
    FreshToken(s, c, id);
    AdmitKeepsStages(s, c, id, payload, expiry);
    AdmitKeepsBatches(s, c, id, payload, expiry);
    AdmitKeepsRecords(s, c, id, payload, expiry);
  }

  lemma StageKeepsInv(
    s: Server, later: real, c: Token, id: RequestId, req: Request,
    payload: Payload, verdict: Option<Reply>, ttl: real)
    requires Inv(s) && s.now <= later
    ensures Inv(StageBody(s, later, c, id, req, payload, verdict, ttl).0)
  {
    hide Inv, Validate, RefusalOf, HasStage, SameBinding;
    var u := s.(now := later);
    LaterKeepsInv(s, later);
    ValidateKeepsInv(u, c, req, id);
    ValidateShape(u, c, req, id);
    var (v, refused) := Validate(u, c, req, false, Some(id));
    if Recorded(u, id, c).None? && id !in u.stages && refused.None? {
      FreshToken(v, c, id);
      UnreserveKeepsInv(v, c);
      var expiry := if v.caps[c].expiresAt <= s.now + ttl then v.caps[c].expiresAt else s.now + ttl;
      AdmitKeepsInv(v, c, id, payload, expiry);
    }
  }

  // ---- Ending a stage -----------------------------------------------------------------------

  /** Facts about one live stage. */
  lemma StageFacts(s: Server, id: RequestId)
    requires Inv(s) && id in s.stages
    ensures var c := s.stages[id].cap;
            && (id in s.batches <==> s.stages[id].committing)
            && (c in s.stored <==> id in s.batches && s.batches[id].Written?)
            && (c in s.caps && !s.caps[c].used ==> s.caps[c].reserved == Some(id))
            && id !in s.terminals
  {
  }

  lemma SettleOfToken(s: Server, c: Token, id: RequestId, spend: bool, reply: Reply, now: real, d: Token)
    requires Inv(s) && id in s.stages && s.stages[id].cap == c && (spend || Blocked(s, c))
    ensures var t := Settle(s, c, id, spend, reply, now);
            && (Blocked(t, d) <==> d == c || Blocked(s, d))
            && (HasStage(t, d) <==> d != c && HasStage(s, d))
  {
    hide Known, Batches, Settled, Terminals, WithId;
  }

  lemma SettleFrame(s: Server, c: Token, id: RequestId, spend: bool, reply: Reply, now: real, d: Token)
    requires Inv(s) && id in s.stages && s.stages[id].cap == c
    ensures var t := Settle(s, c, id, spend, reply, now);
            && t.issued == s.issued && t.stored == s.stored && t.direct == s.direct && t.admitted == s.admitted
            && (d in t.caps <==> d in s.caps) && (d in s.caps ==> SameBinding(s.caps[d], t.caps[d]))
            && (d != c && HasStage(s, d) ==>
                  var r := s.admitted[d];
                  t.stages[r] == s.stages[r] && (r in t.batches <==> r in s.batches)
                  && (r in t.batches ==> t.batches[r] == s.batches[r]))
  {
  }

  lemma SettleKeepsStages(s: Server, c: Token, id: RequestId, spend: bool, reply: Reply, now: real)
    requires Inv(s) && id in s.stages && s.stages[id].cap == c && (spend || Blocked(s, c))
    ensures var t := Settle(s, c, id, spend, reply, now); Known(t) && Stages(t)
  {
    hide Batches, Settled, Terminals;
    var t := Settle(s, c, id, spend, reply, now);
    assert t.caps.Keys == s.caps.Keys;
  }

  lemma SettleKeepsBatches(s: Server, c: Token, id: RequestId, spend: bool, reply: Reply, now: real)
    requires Inv(s) && id in s.stages && s.stages[id].cap == c
    ensures Batches(Settle(s, c, id, spend, reply, now))
  {
    hide Known, Stages, Settled, Terminals;
  }

  lemma SettleKeepsSettled(s: Server, c: Token, id: RequestId, spend: bool, reply: Reply, now: real)
    requires Inv(s) && id in s.stages && s.stages[id].cap == c && (spend || Blocked(s, c))
    ensures Settled(Settle(s, c, id, spend, reply, now))
  {
    hide Known, Stages, Batches, Terminals;
    forall d { SettleOfToken(s, c, id, spend, reply, now, d); }
    hide Blocked, HasStage;
  }

  lemma SettleKeepsTerminals(s: Server, c: Token, id: RequestId, spend: bool, reply: Reply, now: real)
    requires Inv(s) && id in s.stages && s.stages[id].cap == c && (spend || Blocked(s, c))
    requires TerminalReply(WithId(reply, id), id, c in s.stored)
    ensures Terminals(Settle(s, c, id, spend, reply, now))
  {
    hide Known, Batches, Settled, Blocked, HasStage, TerminalReply;
    var t := Settle(s, c, id, spend, reply, now);
    SettleTables(s, c, id, spend, reply, now);
    TokenOfStage(s, id);
    hide Stages, Settle;
    forall r | r in t.terminals
      ensures r !in t.stages && t.terminals[r].cap in t.admitted && !HasStage(t, t.terminals[r].cap)
              && TerminalReply(t.terminals[r].reply, r, t.terminals[r].cap in t.stored)
    {
      SettleOfToken(s, c, id, spend, reply, now, t.terminals[r].cap);
    }
  }

  lemma SettleTables(s: Server, c: Token, id: RequestId, spend: bool, reply: Reply, now: real)
    ensures var t := Settle(s, c, id, spend, reply, now);
            && t.terminals == s.terminals[id := Terminal(c, WithId(reply, id), now, now + TERMINAL_TTL)]
            && t.stages == s.stages - {id} && t.batches == s.batches - {id}
            && t.issued == s.issued && t.stored == s.stored && t.direct == s.direct && t.admitted == s.admitted
  {
    hide WithId;
  }

  lemma TokenOfStage(s: Server, id: RequestId)
    requires Inv(s) && id in s.stages
    ensures s.stages[id].cap in s.admitted
  {
  }

  /** Ending a stage and recording what became of it. */
  lemma SettleKeepsInv(s: Server, c: Token, id: RequestId, spend: bool, reply: Reply, now: real)
    requires Inv(s) && id in s.stages && s.stages[id].cap == c && (spend || Blocked(s, c))
    requires TerminalReply(WithId(reply, id), id, c in s.stored)
    ensures Inv(Settle(s, c, id, spend, reply, now))
  {
    hide Known, Stages, Batches, Settled, Terminals, Settle;
    SettleKeepsStages(s, c, id, spend, reply, now);
    SettleKeepsBatches(s, c, id, spend, reply, now);
    SettleKeepsSettled(s, c, id, spend, reply, now);
    SettleKeepsTerminals(s, c, id, spend, reply, now);
  }

  lemma CancelMarkKeepsBatches(s: Server, id: RequestId)
    requires Batches(s) && id in s.stages
    ensures Batches(s.(stages := s.stages[id := s.stages[id].(cancelRequested := true)]))
  {
  }

  lemma CancelMarkKeepsInv(s: Server, id: RequestId)
    requires Inv(s) && id in s.stages
    ensures Inv(s.(stages := s.stages[id := s.stages[id].(cancelRequested := true)]))
  {
    hide Stages, Batches, Settled, Terminals;
    var t := s.(stages := s.stages[id := s.stages[id].(cancelRequested := true)]);
    SameTokensKeep(s, t);
    SameTokensKeepSettled(s, t);
    SameTokensKeepTerminals(s, t);
    CancelMarkKeepsBatches(s, id);
  }

  lemma BeginKeepsBatches(s: Server, id: RequestId)
    requires Batches(s) && id in s.stages && !s.stages[id].committing
    ensures Batches(s.(stages := s.stages[id := s.stages[id].(committing := true)], batches := s.batches[id := Started]))
  {
  }

  lemma BeginKeepsInv(s: Server, id: RequestId)
    requires Inv(s) && id in s.stages && !s.stages[id].committing
    ensures Inv(s.(stages := s.stages[id := s.stages[id].(committing := true)],
                   batches := s.batches[id := Started]))
  {
    hide Stages, Batches, Settled, Terminals;
    var t := s.(stages := s.stages[id := s.stages[id].(committing := true)],
                batches := s.batches[id := Started]);
    SameTokensKeep(s, t);
    SameTokensKeepSettled(s, t);
    SameTokensKeepTerminals(s, t);
    BeginKeepsBatches(s, id);
  }

  lemma CommitKeepsInv(s: Server, later: real, c: Token, id: RequestId, req: Request)
    requires Inv(s) && s.now <= later
    ensures Inv(CommitBody(s, later, c, id, req).0)
  {
    hide Inv, Validate, RefusalOf;
    var u := s.(now := later);
    LaterKeepsInv(s, later);
    ValidateKeepsInv(u, c, req, id);
    ValidateShape(u, c, req, id);
    var (v, refused) := Validate(u, c, req, false, Some(id));
    if Recorded(u, id, c).None? && id in u.stages && u.stages[id].cap == c && refused.None?
       && !v.stages[id].committing {
      StageFacts(v, id);
      if v.stages[id].cancelRequested {
        SettleKeepsInv(v, c, id, true, Refusal("capture_cancelled", 409), s.now);
      } else {
        BeginKeepsInv(v, id);
      }
    }
  }

  lemma AbandonKeepsInv(s: Server, later: real, c: Token, id: RequestId, req: Request)
    requires Inv(s) && s.now <= later
    ensures Inv(AbandonBody(s, later, c, id, req).0)
  {
    hide Inv, Validate, RefusalOf;
    var u := s.(now := later);
    LaterKeepsInv(s, later);
    ValidateKeepsInv(u, c, req, id);
    ValidateShape(u, c, req, id);
    var (v, refused) := Validate(u, c, req, false, Some(id));
    if Recorded(u, id, c).None? && id in u.stages && u.stages[id].cap == c && refused.None? {
      StageFacts(v, id);
      if v.stages[id].committing {
        CancelMarkKeepsInv(v, id);
      } else {
        SettleKeepsInv(v, c, id, true, Reply(true, Some(id), None, None, 200, false), s.now);
      }
    }
  }

  lemma TimerKeepsInv(s: Server, c: Token, id: RequestId)
    requires Inv(s)
    ensures Inv(TimerBody(s, c, id))
  {
    hide Inv;
    if id in s.stages && s.stages[id].cap == c && s.stages[id].expiresAt <= s.now {
      StageFacts(s, id);
      if s.stages[id].committing {
        CancelMarkKeepsInv(s, id);
      } else {
        var spend := c in s.caps && s.caps[c].reserved == Some(id);
        SettleKeepsInv(s, c, id, spend, Refusal("capture_expired", 408), s.now);
      }
    }
  }

  lemma FinishKeepsInv(s: Server, id: RequestId)
    requires Inv(s) && id in s.stages && id in s.batches && (s.batches[id].Written? || s.batches[id].Failed?)
    ensures Inv(FinishBody(s, id).0)
  {
    SettleKeepsInv(s, s.stages[id].cap, id, true, Outcome(s.batches[id]), s.now);
  }

  // ---- The remaining steps --------------------------------------------------------------------

  /** An open capability without a reservation has not been used for anything. */
  lemma UnreservedToken(s: Server, c: Token)
    requires Inv(s) && !Blocked(s, c) && s.caps[c].reserved.None?
    ensures c in s.issued && c !in s.stored && c !in s.admitted && !HasStage(s, c)
  {
  }

  /** A check that consumes uses the capability up, or leaves it, or finds it expired. */
  lemma CheckConsumes(k: Capability, now: real, req: Request)
    ensures var (l, refused) := CheckCapability(k, now, req, true, None);
            && SameBinding(k, l) && (l == k || l.used)
            && (refused.None? ==> !k.used && now < k.expiresAt && k.reserved.None? && l.used)
  {
    hide PythonBlank;
  }

  lemma ConsumeShape(s: Server, c: Token, req: Request)
    ensures var (t, refused) := Validate(s, c, req, true, None);
            && t == s.(caps := t.caps)
            && t.caps.Keys == s.caps.Keys
            && (forall d :: d in s.caps && d != c ==> t.caps[d] == s.caps[d])
            && (c in s.caps ==> SameBinding(s.caps[c], t.caps[c]) && (t.caps[c] == s.caps[c] || t.caps[c].used))
            && (refused.None? ==> !Blocked(s, c) && Blocked(t, c) && c in s.caps && s.caps[c].reserved.None?)
  {
    hide CheckCapability, SameBinding;
    if c in s.caps { CheckConsumes(s.caps[c], s.now, req); }
  }

  lemma ConsumeKeepsInv(s: Server, c: Token, req: Request)
    requires Inv(s)
    ensures Inv(Validate(s, c, req, true, None).0)
  {
    var v := Validate(s, c, req, true, None).0;
    ConsumeShape(s, c, req);
    forall r | r in s.stages && s.stages[r].cap in v.caps && !v.caps[s.stages[r].cap].used
      ensures v.caps[s.stages[r].cap].reserved == Some(r) {}
    CapsKeepInv(s, v);
  }

  lemma DirectKeepsInv(s: Server, later: real, c: Token, req: Request, payload: Payload)
    requires Inv(s) && s.now <= later
    ensures Inv(DirectBody(s, later, c, req, payload).0)
  {
    hide Inv;
    var u := s.(now := later);
    LaterKeepsInv(s, later);
    ConsumeKeepsInv(u, c, req);
    var (v, refused) := Validate(u, c, req, true, None);
    if refused.None? {
      UnreservedToken(u, c);
      DirectBeginKeepsInv(v, c, payload);
    }
  }

  lemma DirectBeginKeepsInv(s: Server, c: Token, payload: Payload)
    requires Inv(s) && c in s.issued && Blocked(s, c) && c !in s.stored && c !in s.admitted
    ensures Inv(s.(direct := s.direct[c := payload]))
  {
    var t := s.(direct := s.direct[c := payload]);
    assert forall d :: Blocked(t, d) == Blocked(s, d);
    assert forall d :: HasStage(t, d) == HasStage(s, d);
    assert Known(t) && Stages(t) && Batches(t);
    assert Settled(t) && Terminals(t);
  }

  function DirectEnd(s: Server, c: Token, durable: bool): Server
    requires c in s.direct
  {
    s.(direct := s.direct - {c}, stored := if durable then s.stored[c := s.direct[c]] else s.stored)
  }

  lemma DirectEndKeepsBatches(s: Server, c: Token, durable: bool)
    requires Inv(s) && c in s.direct
    ensures Batches(DirectEnd(s, c, durable))
  {
  }

  lemma DirectEndKeepsRecords(s: Server, c: Token, durable: bool)
    requires Inv(s) && c in s.direct
    ensures Settled(DirectEnd(s, c, durable)) && Terminals(DirectEnd(s, c, durable))
  {
    SameTokensKeep(s, DirectEnd(s, c, durable));
    hide Stages, Batches, Blocked, HasStage, TerminalReply;
  }

  lemma DirectEndKeepsInv(s: Server, c: Token, durable: bool)
    requires Inv(s) && c in s.direct
    ensures Inv(DirectEnd(s, c, durable))
  {
    DirectEndKeepsBatches(s, c, durable);
    DirectEndKeepsRecords(s, c, durable);
    hide Stages, Batches, Settled, Terminals;
    SameTokensKeep(s, DirectEnd(s, c, durable));
  }

  /** What issuing a token leaves of the server: everything but one new capability, and fewer old ones. */
  ghost predicate Enrolled(s: Server, c: Token, t: Server) {
    && c !in s.issued && t == s.(caps := t.caps, issued := s.issued + {c})
    && (forall d :: d in t.caps && d != c ==> d in s.caps && t.caps[d] == s.caps[d])
  }

  lemma IssueEnrolls(s: Server, c: Token, k: Capability, t: Server)
    requires Issued(s, c, k, t)
    ensures Enrolled(s, c, t)
  {
  }

  lemma EnrolledTokens(s: Server, c: Token, t: Server, d: Token)
    requires Enrolled(s, c, t)
    ensures d != c && Blocked(s, d) ==> Blocked(t, d)
    ensures HasStage(t, d) <==> HasStage(s, d)
  {
  }

  lemma EnrolledStages(s: Server, c: Token, t: Server)
    requires Known(s) && Stages(s) && Enrolled(s, c, t)
    ensures Known(t) && Stages(t)
  {
  }

  lemma EnrolledBatches(s: Server, c: Token, t: Server)
    requires Batches(s) && Enrolled(s, c, t)
    ensures Batches(t)
  {
  }

  lemma EnrolledRecords(s: Server, c: Token, t: Server)
    requires Known(s) && Settled(s) && Terminals(s) && Enrolled(s, c, t)
    ensures Settled(t) && Terminals(t)
  {
    forall d { EnrolledTokens(s, c, t, d); }
    hide Blocked, HasStage, TerminalReply;
  }

  lemma IssueKeepsInv(s: Server, c: Token, k: Capability, t: Server)
    requires Inv(s) && Issued(s, c, k, t)
    ensures Inv(t)
  {
    hide Issued, Known, Stages, Batches, Settled, Terminals, Enrolled;
    IssueEnrolls(s, c, k, t);
    EnrolledStages(s, c, t);
    EnrolledBatches(s, c, t);
    EnrolledRecords(s, c, t);
  }

  /** Batch steps other than the durable write. */
  lemma BatchKeepsBatches(s: Server, id: RequestId, batch: Batch)
    requires Batches(s) && id in s.batches && !s.batches[id].Written?
    requires batch.Checked? || (batch.Failed? && BatchFailure(batch.reply))
    ensures Batches(s.(batches := s.batches[id := batch]))
  {
  }

  lemma BatchKeepsInv(s: Server, id: RequestId, batch: Batch)
    requires Inv(s) && id in s.batches && !s.batches[id].Written?
    requires batch.Checked? || (batch.Failed? && BatchFailure(batch.reply))
    ensures Inv(s.(batches := s.batches[id := batch]))
  {
    hide Stages, Batches, Settled, Terminals, BatchFailure;
    var t := s.(batches := s.batches[id := batch]);
    SameTokensKeep(s, t);
    SameTokensKeepSettled(s, t);
    SameTokensKeepTerminals(s, t);
    BatchKeepsBatches(s, id, batch);
  }

  function Stored(s: Server, id: RequestId, bundle: string): Server
    requires id in s.stages
  {
    s.(batches := s.batches[id := Written(bundle)], stored := s.stored[s.stages[id].cap := s.stages[id].payload])
  }

  lemma StoreKeepsBatches(s: Server, id: RequestId, bundle: string)
    requires Inv(s) && id in s.batches && s.batches[id].Checked? && id in s.stages && !Blank(bundle)
    ensures Batches(Stored(s, id, bundle))
  {
    hide Settled, Terminals;
  }

  lemma StoreKeepsRecords(s: Server, id: RequestId, bundle: string)
    requires Inv(s) && id in s.batches && s.batches[id].Checked? && id in s.stages && !Blank(bundle)
    ensures Settled(Stored(s, id, bundle)) && Terminals(Stored(s, id, bundle))
  {
    var c := s.stages[id].cap;
    SameTokensKeep(s, Stored(s, id, bundle));
    assert HasStage(s, c);
    hide Known, Stages, Batches, Blocked, HasStage, TerminalReply;
    assert Settled(Stored(s, id, bundle));
    hide Settled;
  }

  lemma StoreKeepsInv(s: Server, id: RequestId, bundle: string)
    requires Inv(s) && id in s.batches && s.batches[id].Checked? && id in s.stages && !Blank(bundle)
    ensures Inv(Stored(s, id, bundle))
  {
    StoreKeepsBatches(s, id, bundle);
    StoreKeepsRecords(s, id, bundle);
    SameTokensKeep(s, Stored(s, id, bundle));
    hide Batches, Settled, Terminals;
  }

  lemma TidyKeepsInv(s: Server, now: real, t: Server)
    requires Inv(s) && Tidied(s, now, t)
    ensures Inv(t)
  {
    CleanupKeepsInv(s, now);
    EvictionKeepsInv(Cleanup(s, now), t);
  }

  /** Every step of every client, timer and batch keeps the invariant. */
  lemma StepKeepsInv(s: Server, e: Event, t: Server)
    requires Inv(s) && Step(s, e, t)
    ensures Inv(t)
  {
    hide Inv, Tidied, Evicted, Issued, StageBody, CommitBody, FinishBody, AbandonBody, TimerBody, DirectBody;
    match e
    case Tick => LaterKeepsInv(s, t.now);
    case StageCall(mid, c, id, req, payload, verdict, ttl, reply) =>
      TidyKeepsInv(s, mid.now, mid);
      StageKeepsInv(mid, t.now, c, id, req, payload, verdict, ttl);
    case CommitCall(mid, c, id, req, answer) =>
      TidyKeepsInv(s, mid.now, mid);
      CommitKeepsInv(mid, t.now, c, id, req);
      EvictionKeepsInv(CommitBody(mid, t.now, c, id, req).0, t);
    case Finish(id, reply) =>
      FinishKeepsInv(s, id);
      EvictionKeepsInv(FinishBody(s, id).0, t);
    case AbandonCall(mid, c, id, req, reply) =>
      TidyKeepsInv(s, mid.now, mid);
      AbandonKeepsInv(mid, t.now, c, id, req);
      EvictionKeepsInv(AbandonBody(mid, t.now, c, id, req).0, t);
    case Timer(c, id) =>
      TimerKeepsInv(s, c, id);
      EvictionKeepsInv(TimerBody(s, c, id), t);
    case DirectCall(mid, c, req, payload, answer) =>
      TidyKeepsInv(s, mid.now, mid);
      DirectKeepsInv(mid, t.now, c, req, payload);
    case Issue(mid, c, k) =>
      TidyKeepsInv(s, mid.now, mid);
      IssueKeepsInv(mid, c, k, t);
    case BatchCheck(id) => BatchKeepsInv(s, id, Checked);
    case BatchCancel(id) => BatchKeepsInv(s, id, Failed(Refusal("capture_cancelled", 409)));
    case BatchFail(id, reply) => BatchKeepsInv(s, id, Failed(reply));
    case BatchStore(id, bundle) => StoreKeepsInv(s, id, bundle);
    case DirectStore(c) => DirectEndKeepsInv(s, c, true);
    case DirectFail(c) => DirectEndKeepsInv(s, c, false);
    case Restart => RestartKeepsInv(s);
  }

  lemma RestartKeepsInv(s: Server)
    requires Inv(s)
    ensures Inv(s.(caps := map[], stages := map[], terminals := map[], batches := map[], direct := map[]))
  {
  }
}
