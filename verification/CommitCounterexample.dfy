/**
 * A refusal that does not name the request is not final. In the run below
 * the capability expires while the artifact batch of the first
 * commit is past its last cancellation check; the replayed commit is refused with
 * `capability_expired`, the extension reports that refusal, and the batch stores.
 */
module CommitCounterexample {
  import opened Common
  import opened CaptureServer
  import opened CaptureInvariant
  import opened CapturePermanence
  import opened BridgeReplies
  import opened CommitAgreement

  const X := Session("c", "r", Request("o", Some("t"), "w"), "p")

  const OPEN := Capability("o", "t", "w", 0.0, 60.0, false, None)
  const HELD := OPEN.(reserved := Some("r"))
  const LATE := HELD.(used := true)
  const STAGED := Stage("c", "p", 60.0, false, false)

  const H0 := Server(0.0, map["c" := OPEN], map[], map[], map[], map[], map[], {"c"}, map[])
  const H1 := H0.(caps := map["c" := HELD], stages := map["r" := STAGED], admitted := map["c" := "r"])
  const H2 := H1.(stages := map["r" := STAGED.(committing := true)], batches := map["r" := Started])
  const H3 := H2.(batches := map["r" := Checked])
  const M4 := H3.(now := 60.0, stages := map["r" := Stage("c", "p", 60.0, true, true)])
  const H4 := M4.(caps := map["c" := LATE])
  const H5 := H4.(batches := map["r" := Written("b")], stored := map["c" := "p"])

  const ACCEPTED := Reply(true, Some("r"), None, None, 200, false)
  const EXPIRED := Refusal("capability_expired", 403)

  lemma Unchanged(h: Server)
    requires h in {H0, H1}
    ensures Tidied(h, 0.0, h)
  {
    assert Cleanup(h, 0.0).caps == h.caps;
    assert Cleanup(h, 0.0).stages == h.stages;
    assert Cleanup(h, 0.0).terminals == h.terminals;
  }

  lemma Nonblank()
    ensures !PythonBlank("t") && !PythonBlank("w")
  {
    assert "t"[0] == 't' && "w"[0] == 'w';
  }

  lemma Unexpired(h: Server, k: Capability)
    requires h.now == 0.0 && h.caps == map["c" := k] && k in {OPEN, HELD}
    ensures Validate(h, "c", X.req, false, Some("r")) == (h.(caps := map["c" := HELD]), None)
  {
    hide PythonBlank;
    Nonblank();
    assert CheckCapability(k, 0.0, X.req, false, Some("r")) == (HELD, None);
    assert h.caps["c" := HELD] == map["c" := HELD];
  }

  lemma StageIsAccepted()
    ensures Step(H0, StageCall(H0, "c", "r", X.req, "p", None, 60.0, ACCEPTED), H1)
  {
    Unchanged(H0);
    Unexpired(H0, OPEN);
    hide Validate, Tidied, Cleanup;
    var t := StageBody(H0, 0.0, "c", "r", X.req, "p", None, 60.0).0;
    assert t.caps == H1.caps && t.stages == H1.stages && t.admitted == H1.admitted;
  }

  lemma CommitBegins()
    ensures Step(H1, CommitCall(H1, "c", "r", X.req, None), H2)
  {
    Unchanged(H1);
    Unexpired(H1, HELD);
    hide Validate, Tidied, Cleanup;
    assert CommitBody(H1, 0.0, "c", "r", X.req).0 == H2;
  }

  lemma Expired()
    ensures Validate(M4, "c", X.req, false, Some("r")) == (H4, Some(EXPIRED))
  {
    hide PythonBlank;
    assert M4.caps["c" := LATE] == map["c" := LATE];
  }

  lemma Overdue()
    ensures Tidied(H3, 60.0, M4)
  {
    assert Cleanup(H3, 60.0).caps == M4.caps;
    assert Cleanup(H3, 60.0).stages == M4.stages;
    assert Cleanup(H3, 60.0).terminals == M4.terminals;
  }

  lemma ReplayIsRefused()
    ensures Step(H3, CommitCall(M4, "c", "r", X.req, Some(EXPIRED)), H4)
  {
    Overdue();
    Expired();
    hide Validate, Tidied, Cleanup;
    assert CommitBody(M4, 60.0, "c", "r", X.req).0 == H4;
  }

  lemma BatchStores()
    ensures Step(H4, BatchStore("r", "b"), H5)
  {
    assert !Blank("b") by { assert "b"[0] == 'b'; }
  }

  const S0 := System(H0, Staging, {StageMessage}, {}, {})
  const S1 := S0.(hub := H1, stageReplies := {ACCEPTED})
  const S2 := S1.(phase := Rechecking)
  const S3 := S2.(phase := FirstCommit, sent := {StageMessage, CommitMessage})
  const S4 := S3.(hub := H2)
  const S5 := S4.(hub := H3)
  const S6 := S5.(phase := SecondCommit)
  ghost const S7 := S6.(hub := H4, answers := {Answer(EXPIRED, true)})
  ghost const S8 := S7.(phase := Done(Refused(BodyOf(EXPIRED))), sent := {StageMessage, CommitMessage, AbandonMessage})
  ghost const S9 := S8.(hub := H5)

  lemma FirstMoves()
    ensures Moves(X, S0, S1) && Moves(X, S3, S4)
  {
    hide Step;
    StageIsAccepted();
    assert Next(X, S0, Hub(StageCall(H0, "c", "r", X.req, "p", None, 60.0, ACCEPTED)), S1);
    CommitBegins();
    assert Next(X, S3, Hub(CommitCall(H1, "c", "r", X.req, None)), S4);
  }

  lemma BatchMoves()
    ensures Moves(X, S4, S5) && Moves(X, S8, S9)
  {
    hide StageBody, CommitBody, AbandonBody, FinishBody, TimerBody, DirectBody, Tidied, Evicted, Issued, Deliverable, Blank;
    assert Next(X, S4, Hub(BatchCheck("r")), S5);
    BatchStores();
    assert Next(X, S8, Hub(BatchStore("r", "b")), S9);
  }

  lemma ReplayMoves()
    ensures Moves(X, S6, S7)
  {
    hide Step;
    ReplayIsRefused();
    assert Hazard(H4, "c");
    assert Next(X, S6, Hub(CommitCall(M4, "c", "r", X.req, Some(EXPIRED))), S7);
  }

  lemma ClientMoves()
    ensures Moves(X, S1, S2) && Moves(X, S2, S3) && Moves(X, S5, S6)
  {
    hide Step, IsValid, IsAmbiguous;
    assert Next(X, S1, StageReply(ACCEPTED), S2);
    assert Next(X, S2, SendCommit, S3);
    assert Next(X, S5, CommitReply(Thrown(true)), S6);
  }

  lemma RefusalMoves()
    ensures Moves(X, S7, S8)
  {
    hide Step;
    assert !Blank("capability_expired") by { assert "capability_expired"[0] == 'c'; }
    assert Delivered(EXPIRED) == Got(BodyOf(EXPIRED));
    assert Answer(EXPIRED, true) in S7.answers;
    assert Next(X, S7, CommitReply(Got(BodyOf(EXPIRED))), S8);
  }

  lemma StartIsInitial()
    ensures Init(X, S0)
  {
    assert !PythonBlank("t") by { assert "t"[0] == 't'; }
    assert !PythonBlank("w") by { assert "w"[0] == 'w'; }
  }

  /** The extension has reported a refusal, and the capture is stored. */
  lemma UnnamedRefusalMayBeStored() returns (run: seq<System>, body: Body)
    ensures IsSystemRun(X, run) && Last(run).phase == Done(Refused(body))
    ensures body.Object? && body.requestId == Undefined && X.c in Last(run).hub.stored
  {
    hide Next, Init;
    FirstMoves();
    BatchMoves();
    ReplayMoves();
    ClientMoves();
    RefusalMoves();
    StartIsInitial();
    run := [S0, S1, S2, S3, S4, S5, S6, S7, S8, S9];
    body := BodyOf(EXPIRED);
  }
}
