/**
 * What the hub's capability check lets through, what it refuses, and what it leaves behind; and that
 * whatever is ever stored came from a request that matched the capability as it was issued.
 */
module CapabilityCheck {
  import opened Common
  import opened CaptureServer
  import opened CaptureInvariant
  import opened CaptureSteps
  import opened CapturePermanence
  import opened CommitAgreement

  /** The capability may still be used, by this request if it is reserved. */
  predicate Usable(k: Capability, now: real, id: Option<RequestId>) {
    !k.used && now < k.expiresAt && (k.reserved.None? || k.reserved == id)
  }

  /** At this time, the capability admits this request. */
  predicate Admits(s: Server, now: real, c: Token, req: Request, id: Option<RequestId>) {
    c in s.caps && Usable(s.caps[c], now, id) && Matches(s.caps[c], req)
  }

  /** A request is allowed exactly when its capability is known, usable, and issued for its origin, tab and window. */
  lemma AllowedIff(s: Server, c: Token, req: Request, consume: bool, id: Option<RequestId>)
    ensures Validate(s, c, req, consume, id).1.None? <==>
            c in s.caps && Usable(s.caps[c], s.now, id) && Matches(s.caps[c], req)
  {
  }

  /** What an allowed request leaves: the capability consumed, or reserved for it; nothing else changes. */
  lemma AllowedLeaves(s: Server, c: Token, req: Request, consume: bool, id: Option<RequestId>)
    requires Validate(s, c, req, consume, id).1.None?
    ensures var t := Validate(s, c, req, consume, id).0;
            && c in s.caps && t == s.(caps := s.caps[c := t.caps[c]])
            && t.caps[c] == if consume then s.caps[c].(used := true, reserved := None)
                            else if id.Some? then s.caps[c].(reserved := id) else s.caps[c]
  {
  }

  /** A refused request changes nothing, except that a capability found expired is marked as used. */
  lemma RefusedLeaves(s: Server, c: Token, req: Request, consume: bool, id: Option<RequestId>)
    requires Validate(s, c, req, consume, id).1.Some?
    ensures var t := Validate(s, c, req, consume, id).0;
            if c in s.caps && !s.caps[c].used && s.caps[c].expiresAt <= s.now
            then t == s.(caps := s.caps[c := s.caps[c].(used := true)]) else t == s
  {
    var t := Validate(s, c, req, consume, id).0;
    assert c in s.caps && t.caps[c] == s.caps[c] ==> t.caps == s.caps;
  }

  /** The refusals with their statuses. */
  function Status(code: string): nat {
    if code in {"missing_tab_id", "missing_window_id"} then 400
    else if code in {"tab_mismatch", "window_mismatch"} then 409
    else 403
  }

  lemma CodesDiffer()
    ensures |"invalid_capability"| == 18 && |"capability_replayed"| == 19 && |"capability_expired"| == 18
    ensures |"origin_mismatch"| == 15 && |"missing_tab_id"| == 14 && |"tab_mismatch"| == 12
    ensures |"missing_window_id"| == 17 && |"window_mismatch"| == 15
    ensures "invalid_capability"[0] != "capability_expired"[0] && "origin_mismatch"[0] != "window_mismatch"[0]
  {
  }

  /** Which refusal is given: the first thing that is wrong, in this order. */
  lemma RefusalIs(s: Server, c: Token, req: Request, consume: bool, id: Option<RequestId>)
    requires Validate(s, c, req, consume, id).1.Some?
    ensures var refused := Validate(s, c, req, consume, id).1.value;
            && refused.code.Some? && refused == Refusal(refused.code.value, Status(refused.code.value))
            && var code := refused.code.value;
            && (code == "invalid_capability" <==> c !in s.caps)
            && (c in s.caps ==>
                  var k := s.caps[c];
                  && (code == "capability_expired" <==> !k.used && k.expiresAt <= s.now)
                  && (code == "capability_replayed" <==>
                        k.used || (s.now < k.expiresAt && k.reserved.Some? && k.reserved != id))
                  && (code == "origin_mismatch" <==> Usable(k, s.now, id) && req.origin != k.origin)
                  && (code == "missing_tab_id" <==>
                        Usable(k, s.now, id) && req.origin == k.origin && (req.tab.None? || PythonBlank(req.tab.value)))
                  && (code == "tab_mismatch" <==>
                        Usable(k, s.now, id) && req.origin == k.origin
                        && req.tab.Some? && !PythonBlank(req.tab.value) && req.tab.value != k.tab)
                  && (code in {"missing_window_id", "window_mismatch"} <==>
                        Usable(k, s.now, id) && req.origin == k.origin
                        && req.tab == Some(k.tab) && !PythonBlank(k.tab))
                  && (code == "missing_window_id" ==> PythonBlank(req.window))
                  && (code == "window_mismatch" ==> !PythonBlank(req.window) && req.window != k.window))
  {
    hide PythonBlank;
    CodesDiffer();
  }
}
