/**
 * The commit phase of a click, as the extension runs it, is a sequence of moves of the composed
 * system; so what holds of all runs of the composition holds of what a click reports.
 */
module CommitClick {
  import opened Common
  import opened BridgeReplies
  import opened CaptureServer
  import opened CapturePermanence
  import opened CommitAgreement
  import Client = BridgeClient

  /** The click sent its commit a second time. */
  predicate Replayed(rest: seq<Client.Event>) {
    |rest| > 1 && rest[1].Commit?
  }

  /** What a result of the commit phase is in the composed system. */
  function ResultOf(result: Client.Result): Result
    requires result.Relayed? ==> result.body.Object? && result.body.success.Some?
    requires !result.Failed?
  {
    if result.Relayed? then Ended(result.body) else OutcomeUnknown
  }

  lemma DecisiveBody(r: PostResult, id: string, body: Body)
    requires FirstReply(r, id) == Returned(body) || SecondReply(r, id) == Returned(body)
    ensures body.Object? && body.success.Some?
  {
  }

  lemma Decided(id: string, rest: seq<Client.Event>, result: Client.Result)
    requires Client.CommitPhase(id, rest, result)
    ensures !result.Failed? && (result.Relayed? ==> result.body.Object? && result.body.success.Some?)
  {
    if result.Relayed? {
      DecisiveBody(if Replayed(rest) then rest[1].committed else rest[0].committed, id, result.body);
    }
  }

  /** The move by which the system takes the reply in. */
  function Taken(s: System, verdict: Verdict): System
    requires verdict.Returned? ==> verdict.body.Object? && verdict.body.success.Some?
  {
    match verdict
    case Replay => s.(phase := SecondCommit)
    case Unknown => s.(phase := Done(OutcomeUnknown))
    case Returned(body) =>
      s.(phase := Done(Ended(body)), sent := if body.success.value then s.sent else s.sent + {AbandonMessage})
  }

  /**
   * The replies that a click takes in are moves of the system: the first in `s`, and the second, if
   * there is one, in whatever state `u` the hub and the network have reached by then. The system ends
   * with the result of the click, and an abandon is sent by one exactly when it is by the other.
   */
  lemma ClickIsMoves(x: Session, rest: seq<Client.Event>, result: Client.Result, s: System, u: System)
    returns (t: System, v: System)
    requires Client.CommitPhase(x.id, rest, result)
    requires s.phase == FirstCommit && Deliverable(x, s, rest[0].committed)
    requires Replayed(rest) ==> u.phase == SecondCommit && Deliverable(x, u, rest[1].committed)
    ensures !result.Failed? && (result.Relayed? ==> result.body.Object? && result.body.success.Some?)
    ensures Next(x, s, CommitReply(rest[0].committed), t)
    ensures if Replayed(rest) then t.phase == SecondCommit && Next(x, u, CommitReply(rest[1].committed), v) else v == t
    ensures v.phase == Done(ResultOf(result))
    ensures var last := if Replayed(rest) then u else s;
            v.hub == last.hub
            && (AbandonMessage in v.sent <==> AbandonMessage in last.sent || rest[|rest| - 1].Abandon?)
  {
    hide Step, Deliverable, IsValid, IsAmbiguous;
    Decided(x.id, rest, result);
    var first := FirstReply(rest[0].committed, x.id);
    if first.Returned? { DecisiveBody(rest[0].committed, x.id, first.body); }
    t := Taken(s, first);
    v := t;
    if Replayed(rest) {
      var second := SecondReply(rest[1].committed, x.id);
      if second.Returned? { DecisiveBody(rest[1].committed, x.id, second.body); }
      v := Taken(u, second);
      assert rest[2..] == (if second.Returned? && !second.body.success.value then [Client.Abandon(x.id)] else []);
      LastOf(rest, 2);
    } else {
      LastOf(rest, 1);
    }
  }

  lemma LastOf(rest: seq<Client.Event>, n: nat)
    requires 1 <= n <= |rest| && forall i :: 0 <= i < n ==> rest[i].Commit?
    ensures |rest| == n ==> !rest[|rest| - 1].Abandon?
    ensures |rest| == n + 1 ==> rest[|rest| - 1] == rest[n..][0]
  {
  }

  /** A click that passes on a success has had exactly its staged payload stored. */
  lemma RelayedSuccessIsStored(
    x: Session, run: seq<System>, rest: seq<Client.Event>, result: Client.Result, s: System)
    requires Client.CommitPhase(x.id, rest, result) && IsSystemRun(x, run) && s in run && s.phase == FirstCommit
    requires Deliverable(x, s, rest[0].committed)
    requires Replayed(rest) ==> Last(run).phase == SecondCommit && Deliverable(x, Last(run), rest[1].committed)
    requires !Replayed(rest) ==> Last(run) == s
    requires result.Relayed? && result.body.Object? && result.body.success == Some(true)
    ensures x.c in Last(run).hub.stored && Last(run).hub.stored[x.c] == x.payload
  {
    hide Deliverable, FirstReply, SecondReply, IsSystemRun, Next;
    var t, v := ClickIsMoves(x, rest, result, s, Last(run));
    Onward(x, run, if Replayed(rest) then rest[1].committed else rest[0].committed, v);
    CommittedIsStored(x, run + [v], result.body);
  }

  /** A click that passes on a refusal naming its request leaves a capture that nothing will ever store. */
  lemma RelayedRefusalIsFinal(
    x: Session, run: seq<System>, rest: seq<Client.Event>, result: Client.Result, s: System)
    requires Client.CommitPhase(x.id, rest, result) && IsSystemRun(x, run) && s in run && s.phase == FirstCommit
    requires Deliverable(x, s, rest[0].committed)
    requires Replayed(rest) ==> Last(run).phase == SecondCommit && Deliverable(x, Last(run), rest[1].committed)
    requires !Replayed(rest) ==> Last(run) == s
    requires result.Relayed? && result.body.Object? && result.body.success == Some(false)
    requires result.body.requestId != Undefined
    ensures NeverStored(Last(run).hub, x.c)
  {
    hide Deliverable, FirstReply, SecondReply, IsSystemRun, Next;
    var t, v := ClickIsMoves(x, rest, result, s, Last(run));
    Onward(x, run, if Replayed(rest) then rest[1].committed else rest[0].committed, v);
    NamedRefusalIsFinal(x, run + [v], result.body);
  }

  lemma Onward(x: Session, run: seq<System>, r: PostResult, v: System)
    requires IsSystemRun(x, run) && Next(x, Last(run), CommitReply(r), v)
    ensures IsSystemRun(x, run + [v]) && Last(run + [v]) == v
  {
    hide Init, Next;
    var longer := run + [v];
    assert longer[0] == run[0];
    forall i | 0 <= i < |longer| - 1 ensures Moves(x, longer[i], longer[i + 1]) {
      if i < |run| - 1 { assert longer[i] == run[i] && longer[i + 1] == run[i + 1] && Moves(x, run[i], run[i + 1]); }
      else { assert longer[i] == Last(run) && longer[i + 1] == v; }
    }
  }
}
