# Local AI Hub: a verified model of the capture bridge and the measurement tools

This project models, in Dafny 4.11, the algorithmic parts of the local AI hub repository and proves
what they promise. `dafny verify dfyconfig.toml` checks everything.

What is modelled:

- **Taking a capture** (`browser_bridge/capture.js`): the DOM sanitizer with its shared budget, the
  stable element id, UTF-16 repair, UTF-8 encoding, and the hand-written SHA-256 over JavaScript
  numbers, down to the constants of the standard and a published digest. Files `DomSnapshot`, `DomCopy`,
  `ElementId`, `Decimal`, `Utf`, `UtfForms`, `JsNumbers`, `Sha256`, `Sha256Constants`, `Sha256Vectors`,
  `DocumentDigest`.
- **Committing a capture** (`browser_bridge/background.js` and the hub's
  `src/local_ai_hub/browser_bridge.py`): the extension's click from first look to result as a method
  with a recorded trace; the hub's tables of capabilities, stages and terminal records as a class
  that takes the steps of a transition system; and the composition of both with a network that
  loses, delays, reorders and repeats messages; and the proof that a click's commits are moves of
  that composition; what each endpoint answers; and where a stored capture comes from. Files
  `BridgeReplies`, `BridgeClient`, `ClickOutcomes`, `CaptureServer`, `CaptureInvariant`, `CaptureSteps`,
  `CapturePermanence`, `CaptureHub`, `CapabilityCheck`, `CaptureReplies`, `CommitAgreement`,
  `CaptureProvenance`, `CommitClick`, `CommitCounterexample`.
- **Comparing measurements** (`tools/benchmark_surfaces.py`): interpolated quantiles, paired and
  cluster bootstrap, tolerance assessment, the verdict on two records with their stages and service
  levels, the runner and the check of service batches, and the scratch reaper. Files `Quantiles`,
  `PairedBootstrap`, `ClusterBootstrap`, `BootstrapInterval`, `StringOrder`, `ServiceBatches`,
  `BatchAcceptance`, `ServiceShuffle`, `ServiceComparison`, `RecordComparison`, `ComparisonMeaning`,
  `ScratchReaper`.
- **Other tools**: the resumable queue benchmark (`QueueTotals`, `QueueResume`,
  `QueueMeaning`), the coverage ratchet (`CoverageRatchet`, `CoverageMeaning`), SimHash votes and the
  near-duplicate filter (`SimHash`, `SimHashMeaning`), ranking metrics (`Ranking`, `RankingMeaning`) and
  intervals of order statistics (`OrderStatistics`).

Conventions. Code that updates variables is a method proved against a function, a transition or a
property; the property the code promises is then proved of that function as a lemma. What such a
function computes is also stated without it: in counts, positions, published values, or case by case
in terms of its inputs. Answers of the outside world (browser, network, clock, threads, crashes) are
arbitrary values. Times and samples are exact reals. Strings of a page are sequences of 16-bit units
where length matters.

## What the proofs found

- **A refusal of a commit is not always final.** The hub checks the capability before it looks at
  whether the stage is already committing (`src/local_ai_hub/browser_bridge.py:814-819`). If the
  capability expires while the batch of a first, unanswered commit is past its last cancellation
  check, the replayed commit is answered `capability_expired` without a request id, the extension
  reports that refusal, and the batch then stores the capture. `UnnamedRefusalMayBeStored` is that
  run. Refusals that name the request are always final (`NamedRefusalIsFinal`); a refusal given by
  the hub's capture endpoints is final exactly when the capture is neither stored nor still storable
  (`RefusalIsFinalIff`); and `HazardousRefusal` says, from the hub's tables just before the check,
  which refusals are not. These claims assume that no other part of the hub answers a commit with a
  decisive refusal: one given by the HTTP front end before the endpoint is reached, such as the 423
  `operational_mode_blocked` (`src/local_ai_hub/http_server.py:5722-5728`), leaves the capability open.
- **Storage failures are reported as unknown.** `artifact_store_error` travels with status 503, which
  the extension treats as a lost reply, so this definite failure never reaches the caller
  (`StorageFailureIsUnknown`).
- **An ambiguous code on a success is accepted once.** Only failures are tested for ambiguity on the
  first commit reply, while the second reply is tested either way
  (`browser_bridge/background.js:271-297`); the model keeps the difference.
- **The walk never stops because the budget is used up.** The character budget is spent in sixes and
  starts at a value that is two more than a multiple of six (`SnapshotBounds`).
- **Sanitizing twice can differ.** A URL with an opaque origin is a counterexample
  (`OpaqueOriginIsNotStable`). Sanitizing is idempotent on every tree in which each URL that the
  filter lets through is filtered to itself and no meta element's name becomes sensitive by being cut
  (`SanitizeIsIdempotent`); when no limit of the walk is met, that is also necessary
  (`IdempotentIff`). With limits, the second pass reproduces a copy exactly when the filter passes all
  the copy's attributes unchanged (`SanitizeAgainIff`).
- **A cleanup with one thread snapshot can delete a live scratch.** A thread or an HTTP handler that
  registers a thread after the snapshot and ends before the check goes unnoticed, at the end of a run
  and when the reaper's time is up. One snapshot is conclusive exactly when nobody could register a
  thread any more (`OneSnapshotSufficesIff`). The caller runs `app.close()` first
  (`tools/benchmark_surfaces.py:4814-4824`), but that waits five seconds at most for all components
  (`src/local_ai_hub/app.py:2364`), so shutdown may not have reached the job manager when the snapshot
  is taken, and then the failing run is real. Once it has, registrations that test for shutdown under
  the lock are ruled out (`src/local_ai_hub/async_jobs.py:905` and `1066`), and the run remains real
  only for those that do not: a delayed submission tests once at its start and registers its timer
  much later (`src/local_ai_hub/async_jobs.py:912` and `1005-1009`), and so does a dispatch that has to
  wait again (`1021` and `1039-1042`). The model calls whoever is between such a test and the start of
  the new thread busy. The reaper's second snapshot is conclusive exactly when nobody could register
  at the first one, or shutdown had begun by then and no helper thread outside the owner's lists (such
  as a timer that has taken itself off them, `src/local_ai_hub/async_jobs.py:1024`) was busy
  (`TwoSnapshotsSufficeIff`); before shutdown a grandchild can outlive both checks
  (`GrandchildrenEscape`).
- **nDCG can exceed one in the repository benchmark**, which keeps repeated results
  (`RepeatExceedsIdeal`); it is bounded under every discount, the logarithmic one included, when no
  more relevant positions are counted than there are relevant items, and otherwise some discount
  exceeds the bound (`BoundedUnderEveryDiscountIff`). The other two
  evaluations remove repeats and stay between zero and one.
- **A crash of the queue benchmark costs at most one batch**, and what a campaign reports comes from
  exactly one execution of each repetition, in order (`Campaign`).
- **The retryable branch of a commit is never taken**: no batch result is marked retryable
  (`FinishSettles`).

## Model

| member | source | states |
|---|---|---|
| Utf.RepairFixesIff | browser_bridge/capture.js:175-195 | repair leaves a text alone exactly when it has no unpaired surrogate, and repairing twice is repairing once |
| Utf.RepairedIsWellFormed | browser_bridge/capture.js:175-195 | repaired text has no unpaired surrogate |
| Utf.NormalizeUtf16 | browser_bridge/capture.js:175-195 | the one-pass loop with its look-ahead replaces exactly the unpaired surrogates, and keeps the length |
| Utf.Utf8Bytes | browser_bridge/capture.js:197-216 | the encoder produces section 3 of RFC 3629 for the scalar values of the repaired text |
| Utf.PushScalar | browser_bridge/capture.js:210-213 | the four byte-length branches produce the UTF-8 form of one scalar value |
| Utf.DecodeEncoded | browser_bridge/capture.js:197-216 | the RFC 3629 decoder, which refuses overlong forms and surrogates, recovers every sequence of scalar values from its encoding |
| Utf.EncodeDecoded | browser_bridge/capture.js:197-216 | whatever the decoder accepts is the encoding of what it returns |
| Utf.RoundTrip | browser_bridge/capture.js:175-216 | decoding the bytes and encoding to UTF-16 gives exactly the repaired text |
| Utf.SameBytesIff | browser_bridge/capture.js:175-216 | two texts have the same bytes exactly when they are equal after repair; well-formed texts with the same bytes are equal |
| UtfForms.Utf8Is | browser_bridge/capture.js:210-213 | how many bytes a number takes, and its bits six at a time by division, as section 3 of RFC 3629 lays them out |
| UtfForms.Utf16Is | browser_bridge/capture.js:202-208 | a number beyond 16 bits as two halves of ten bits, as section 2 of RFC 2781 has it |
| UtfForms.RepairIs | browser_bridge/capture.js:175-195 | what becomes of each unit, by its neighbours alone |
| Sha256.PadMessage | browser_bridge/capture.js:224-230 | the loops append the padding of section 5.1.1 of FIPS 180-4, the 64-bit length split over two 32-bit words included |
| Sha256.PadInjective | browser_bridge/capture.js:224-230 | different messages have different padded messages |
| Sha256.PadIsShort | browser_bridge/capture.js:224-230 | padding adds between 9 and 72 bytes: one 0x80, zeros, eight length bytes |
| Sha256.LoadedWord | browser_bridge/capture.js:237 | four bytes joined by signed shifts and bitwise or, made unsigned by `>>> 0`, are the big-endian word |
| Sha256.MessageSchedule | browser_bridge/capture.js:233-244 | the 64 words, computed with signed shifts and unreduced sums, are the message schedule of section 6.2.2 |
| Sha256.Sum5 | browser_bridge/capture.js:248 | an unreduced sum of five signed or unsigned words, reduced once at the end, is the chain of additions modulo 2^32 |
| Sha256.ChoiceIs | browser_bridge/capture.js:247 | the signed bit expression stands for Ch of the standard |
| Sha256.MajorityIs | browser_bridge/capture.js:250 | the signed bit expression stands for Maj of the standard |
| Sha256.Big0Is | browser_bridge/capture.js:218-220 | three rotations by the signed shift operators stand for the standard's big sigma zero |
| Sha256.Mix | browser_bridge/capture.js:245-254 | the 64 in-place rounds are the rounds of section 6.2.2, every intermediate sum being exact in double precision |
| Sha256.HashMessage | browser_bridge/capture.js:231-263 | the loop over blocks leaves the hash value of the standard in the state array |
| Sha256.HashIsChained | browser_bridge/capture.js:231-263 | a hash value is the compression of its blocks one after the other, started from the initial value |
| Sha256Constants.PrimesAreTheFirst | browser_bridge/capture.js:164-173 | the table of 64 primes holds the first 64 primes in order |
| Sha256Constants.RoundConstants | browser_bridge/capture.js:164-173 | every round constant is the first 32 bits of the fractional part of the cube root of its prime, which no other word is |
| Sha256Constants.InitialHash | browser_bridge/capture.js:231 | every initial word is the first 32 bits of the fractional part of the square root of its prime |
| Sha256Vectors.DigestOfAbc | browser_bridge/capture.js:222-265 | the hash value of the three bytes "abc", all 64 rounds worked out, is the published one |
| Sha256.Sha256Fallback | browser_bridge/capture.js:222-265 | the text returned is the SHA-256 hash value of the message in hexadecimal |
| Sha256.HexWordReadsBack | browser_bridge/capture.js:264 | every word is written with eight digits from which it can be read back |
| Sha256.HexInjective | browser_bridge/capture.js:264 | the digest text has 64 digits and equal texts mean equal hash values |
| DocumentDigest.Digest | browser_bridge/capture.js:222-265 | from text to digest: repair, encode, pad and hash, composed |
| DocumentDigest.DigestOfAbc | browser_bridge/capture.js:175-265 | from text to hexadecimal digits: the text "abc" has the published digest |
| DocumentDigest.SamePaddedIff | browser_bridge/capture.js:222-230 | two texts reach the compression function as the same blocks exactly when they agree after repair |
| DomSnapshot.SanitizeConserves | browser_bridge/capture.js:115-156 | for every tree and state: the budget spent is six per text character and per name, value and frame of each kept attribute; nodes counted are elements kept; depth, tags and textareas are clean everywhere |
| DomSnapshot.SnapshotBounds | browser_bridge/capture.js:158-162 | the whole snapshot: at most 8192 elements, depth 128, two million budget units, and the budget is never exactly used up |
| DomCopy.EmitFirst | browser_bridge/capture.js:131-138 | the next attribute is dropped if it may not leave the page, and otherwise copied, its value shortened, exactly if the budget exceeds six times its characters, those of the tag name and eight more; it is charged without the tag name |
| DomCopy.EmitChooses | browser_bridge/capture.js:128-138 | the copied attributes are those of the source at increasing positions, none of them withheld, each with its shortened value; with enough budget no other is missing |
| DomCopy.SanitizeAbridges | browser_bridge/capture.js:97-156 | for every tree, budget and depth: the copy shows beginnings of texts, elements that are no scripts in their order, nothing inside text areas, and of attributes only those that may leave the page |
| DomCopy.AbridgedIsPresentable | browser_bridge/capture.js:97-113 | so no copy has an attribute named style, value or integrity, a sensitive name, a checked or selected input, a selected option, or a value longer than 4096, anywhere |
| DomCopy.SanitizeCompletes | browser_bridge/capture.js:115-156 | conversely, while no limit is met, every text, element and attribute that may leave the page is in the copy, in full |
| DomCopy.SnapshotIs | browser_bridge/capture.js:158-162 | the snapshot of a document is such a copy within two million units at six for a character and 48 for an attribute, and complete if the document fits |
| DomSnapshot.SanitizeAgain | browser_bridge/capture.js:115-156 | sanitizing the copy from the same state gives the same copy and the same final state when the filter is settled on it |
| DomSnapshot.SanitizeAgainIff | browser_bridge/capture.js:115-156 | being settled is also necessary |
| DomSnapshot.OpaqueOriginIsNotStable | browser_bridge/capture.js:105-112 | a link whose URL has an opaque origin is changed again by the second pass |
| DomSnapshot.SanitizeIsIdempotent | browser_bridge/capture.js:97-156 | sanitizing the copy of a tree gives the same copy and state, if in the source each URL the filter lets through is filtered to itself and no meta name becomes sensitive by being cut |
| DomSnapshot.IdempotentIff | browser_bridge/capture.js:97-156 | for trees that meet no limit of the walk, that condition on the source is also necessary |
| DomSnapshot.CopyAttributes | browser_bridge/capture.js:128-138 | the attribute loop over the shared budget |
| DomSnapshot.SanitizedDomNode | browser_bridge/capture.js:115-156 | the recursive walk that mutates the shared state is the walk the lemmas speak of |
| DomSnapshot.SanitizedChildren | browser_bridge/capture.js:147-154 | the loop over the children, with its early stop |
| ElementId.StableElementId | browser_bridge/capture.js:1-12 | the two nested pointer walks return the child indices that lead from the root to the element |
| ElementId.SameIdIff | browser_bridge/capture.js:1-12 | two elements of a document have the same id exactly when they are the same element |
| ElementId.PathDeterminesElement | browser_bridge/capture.js:1-12 | a path leads to one element |
| ElementId.ElementDeterminesPath | browser_bridge/capture.js:1-12 | an element is reached by one path |
| ElementId.ChildId | browser_bridge/capture.js:1-12 | the id of an element is that of its parent, a dash, and its index |
| Decimal.JoinedInjective | browser_bridge/capture.js:11 | a list of indices can be read back from its joined text |
| BridgeClient.CurrentTabState | browser_bridge/background.js:125-144 | the tab is reported open only if it is the active one and has a URL; otherwise the matching status |
| BridgeClient.OpenIff | browser_bridge/background.js:125-144 | a tab counts as open exactly when the browser answers that it is the active one and gives its URL |
| BridgeClient.ClosedIff | browser_bridge/background.js:125-144 | which status every other pair of answers gets |
| BridgeClient.BoundedIff | browser_bridge/background.js:150-158 | an identity is read exactly when its four texts are present and within 4096 and 256 characters, and read unchanged |
| BridgeClient.SendFailure | browser_bridge/background.js:92-104 | a failure report is sent once with the given code; the result is the hub's reply, or a local failure when there is none |
| BridgeClient.SendCommit | browser_bridge/background.js:262-302 | one or two commits, the second only after a lost or invalid first reply; the verdict on the last reply is the result; abandon follows exactly a definite failure |
| BridgeClient.CaptureCurrentTab | browser_bridge/background.js:169-307 | every click ends in one of two ways: a full attestation followed by the commit phase, or a stop whose reason is a failed or disagreeing check and whose code is the one reported |
| BridgeClient.CommitIsAttested | browser_bridge/background.js:190-270 | a commit is sent only after initial, final and post-staging identity agree in all four fields and each of the four tab checks showed that URL |
| BridgeClient.CommitPositions | browser_bridge/background.js:262-300 | at most two commits are sent, both with the request id that was drawn for staging |
| BridgeClient.ReportExcludesStage | browser_bridge/background.js:190-242 | failure reporting and staging never both occur |
| BridgeClient.AbandonNeedsFailure | browser_bridge/background.js:295-302 | after a commit, abandon comes last and only after a valid, unambiguous failure, which is the result |
| BridgeClient.StagedIsResolved | browser_bridge/background.js:229-306 | whatever may have been staged is committed or abandoned |
| ClickOutcomes.PostIs | browser_bridge/background.js:53-90 | which answers of the hub count as lost, and which code a refusal without one is given |
| ClickOutcomes.ValidIff | browser_bridge/background.js:40-51 | a reply tells how a commit ended exactly when it is of this request and brings a bundle or a code that is not blank |
| ClickOutcomes.AmbiguousIff | browser_bridge/background.js:34-38 | the three codes under which the outcome is open |
| ClickOutcomes.CommitResult | browser_bridge/background.js:262-302 | the commit is repeated exactly when the first reply does not tell how it ended; which reply is passed on, when the outcome is unknown, and that exactly a failure passed on is followed by an abandon |
| ClickOutcomes.ShowsIff | browser_bridge/background.js:173-270 | when each step of a click is passed, by the answer to it alone |
| ClickOutcomes.StoppedAtOnce | browser_bridge/background.js:173-186 | how a click ends that gets no capability |
| ClickOutcomes.ReportedCode | browser_bridge/background.js:92-227 | which code is reported for which failing step, and what the click ends with |
| ClickOutcomes.AbandonedCode | browser_bridge/background.js:240-306 | which code an abandoned click ends with |
| CaptureHub.Hub.RememberTerminal | src/local_ai_hub/browser_bridge.py:588-599 | the loop records the outcome and drops the oldest records beyond the capacity, no others |
| CaptureHub.Hub.CleanupStaged | src/local_ai_hub/browser_bridge.py:565-585 | the two loops drop outdated records, expire overdue stages with their capabilities, and mark committing ones for cancellation |
| CaptureHub.Hub.TerminalResult | src/local_ai_hub/browser_bridge.py:602-611 | the recorded outcome, or a conflict for another capability |
| CaptureHub.Hub.ValidateRequest | src/local_ai_hub/browser_bridge.py:686-725 | the checks in their order, the expiry mark and the reservation they leave |
| CapabilityCheck.AllowedIff | src/local_ai_hub/browser_bridge.py:686-725 | a request is allowed exactly when its capability is known, unused, unexpired, free or reserved for it, and was issued for the same origin, tab and window |
| CapabilityCheck.RefusalIs | src/local_ai_hub/browser_bridge.py:686-725 | which refusal is given with which status, by the first thing that is wrong |
| CaptureHub.Hub.StageCapture | src/local_ai_hub/browser_bridge.py:738-787 | staging is one step of the transition system, whatever its outcome |
| CaptureHub.Hub.CommitStaged | src/local_ai_hub/browser_bridge.py:790-829 | the first locked region of a commit is one step |
| CaptureHub.Hub.FinishCommit | src/local_ai_hub/browser_bridge.py:836-848 | the second locked region of a commit is one step |
| CaptureHub.Hub.AbandonStaged | src/local_ai_hub/browser_bridge.py:851-883 | abandoning is one step |
| CaptureHub.Hub.ExpireStaged | src/local_ai_hub/browser_bridge.py:624-643 | the timer of a stage is one step |
| CaptureHub.Hub.CaptureDirectly | src/local_ai_hub/browser_bridge.py:728-735 | the one-shot endpoint consumes the capability in one step |
| CaptureHub.Hub.IssueCapability | src/local_ai_hub/browser_bridge.py:646-683 | refusals in their order, changing nothing; otherwise one step that drops stale capabilities and, at capacity, the eldest |
| CaptureHub.TrimLater | src/local_ai_hub/browser_bridge.py:596-598 | dropping the oldest after each record equals dropping the oldest at the end |
| CaptureReplies.StageNew | src/local_ai_hub/browser_bridge.py:738-787 | a new request is staged exactly when its capability admits it, the payload is sound and fewer than 128 wait, until the given time or the end of its capability; every other outcome leaves no stage and no reservation |
| CaptureReplies.CommitOwn | src/local_ai_hub/browser_bridge.py:806-829 | a batch is started exactly for an admitted commit of a stage that is neither committing nor cancelled; what every other commit of it does and is answered |
| CaptureReplies.FinishIs | src/local_ai_hub/browser_bridge.py:836-848 | a batch that has ended ends its stage under its outcome, unless it may be tried again |
| CaptureReplies.AbandonOwn | src/local_ai_hub/browser_bridge.py:851-883 | an abandoned stage ends at once, or is marked for its batch to cancel |
| CaptureReplies.TimerIs | src/local_ai_hub/browser_bridge.py:624-643 | a stage whose time is over ends as expired, or is marked while its batch runs |
| CaptureReplies.DirectIs | src/local_ai_hub/browser_bridge.py:728-735 | the direct endpoint begins to write exactly when the capability admits the request, and uses it up |
| CaptureReplies.CleanupOfStage | src/local_ai_hub/browser_bridge.py:565-585 | what the housekeeping does to each stage, by its time and whether it is committing |
| CaptureReplies.CleanupOfCapability | src/local_ai_hub/browser_bridge.py:565-585 | the housekeeping spends a capability exactly when the stage it is reserved for has just expired |
| CaptureReplies.IssueRefusalIs | src/local_ai_hub/browser_bridge.py:646-663 | when no capability is issued, and why |
| CaptureReplies.IssuedIs | src/local_ai_hub/browser_bridge.py:664-683 | a new capability is open; of the others the usable ones are kept, all of them or, of 1024 or more, all but a single oldest one |
| CaptureProvenance.StagingIsAllowed | src/local_ai_hub/browser_bridge.py:738-787 | whatever becomes staged came with a request that its capability admitted at that time |
| CaptureProvenance.CommitIsAllowed | src/local_ai_hub/browser_bridge.py:790-829 | whatever batch is started came with a commit that the capability of its stage admitted |
| CaptureProvenance.StoredIsAllowed | src/local_ai_hub/browser_bridge.py:646-883 | over every run: what is stored for a token was brought by a request for the origin, tab and window that the token was issued for, while it was unused and unexpired; and if it was staged, the same request committed it later |
| CaptureSteps.StepKeepsInv | src/local_ai_hub/browser_bridge.py:565-883 | every step of clients, timers, batches and restarts keeps the invariant that ties capabilities, stages, batches, records and the store together |
| CaptureSteps.SettleKeepsInv | src/local_ai_hub/browser_bridge.py:838-843 | ending a stage and recording its outcome keeps the invariant |
| CaptureSteps.CleanupKeepsInv | src/local_ai_hub/browser_bridge.py:565-585 | the cleanup keeps it |
| CapturePermanence.StepForward | src/local_ai_hub/browser_bridge.py:565-883 | no step reopens a spent capability, unstores a capture, or makes a settled capture storable again |
| CapturePermanence.RunForward | src/local_ai_hub/browser_bridge.py:565-883 | the same over runs of any length |
| CapturePermanence.BlockedNeverStoredIff | src/local_ai_hub/browser_bridge.py:790-848 | for a spent or expired capability, never being stored in any continuation is the same as having no stored, running or direct capture now |
| CapturePermanence.HazardCanStore | src/local_ai_hub/artifacts.py:91-135 | a batch past its cancellation check, or not bound to be cancelled, has a continuation that stores |
| CapturePermanence.StoredAtMostOnce | src/local_ai_hub/browser_bridge.py:738-883 | no run stores the capture of one capability twice, staged or direct |
| CapturePermanence.FinishSettles | src/local_ai_hub/browser_bridge.py:838-845 | a commit always settles its stage: no batch result is retryable |
| CommitAgreement.NextKeepsSysInv | browser_bridge/background.js:262-302 | every step of extension, network and hub keeps the composed invariant |
| CommitAgreement.RunKeepsSysInv | browser_bridge/background.js:262-302 | so does every run |
| CommitAgreement.CommittedIsStored | browser_bridge/background.js:34-51 | over every interleaving, a success passed on means that the hub stored exactly the staged payload |
| CommitAgreement.NamedRefusalIsFinal | browser_bridge/background.js:295-302 | a refusal that names the request means that no continuation stores the capture |
| CommitAgreement.RefusalIsFinalIff | src/local_ai_hub/browser_bridge.py:806-829 | any refusal given by the capture endpoints is final exactly when nothing is stored and nothing can still store |
| CommitAgreement.HazardousRefusal | src/local_ai_hub/browser_bridge.py:806-819 | a definite refusal leaves a storable capture exactly when the stage was already committing with a live batch, or the record of a stored capture is gone or belongs to another capability |
| CommitAgreement.StorageFailureIsUnknown | src/local_ai_hub/http_server.py:6440-6482 | a storage failure is never what the extension reports |
| CommitAgreement.CommitEnds | browser_bridge/background.js:262-302 | after a commit was sent, the end is a stored capture, a refusal or the unknown outcome, and abandon goes with a refusal only |
| CommitClick.ClickIsMoves | browser_bridge/background.js:262-302 | the commit phase of every click is one or two moves of the composed system, with the same result and the same abandon |
| CommitClick.RelayedSuccessIsStored | browser_bridge/background.js:262-302 | a click that passes on a success has had exactly its staged payload stored |
| CommitClick.RelayedRefusalIsFinal | browser_bridge/background.js:295-302 | a click that passes on a refusal naming its request leaves a capture that nothing ever stores |
| CommitCounterexample.UnnamedRefusalMayBeStored | src/local_ai_hub/browser_bridge.py:814-819 | a concrete run of ten states ends with a reported refusal and a stored capture |
| Quantiles.SortTransfers | tools/benchmark_surfaces.py:620-627 | sorting preserves pointwise dominance, rank by rank |
| Quantiles.RankIffCount | tools/benchmark_surfaces.py:620-627 | a rank of the sorted samples satisfies a downward closed test exactly when enough samples do |
| Quantiles.QuantileAbove | tools/benchmark_surfaces.py:620-627 | the interpolated quantile preserves dominance up to a factor |
| Quantiles.QuantileMonotone | tools/benchmark_surfaces.py:620-627 | higher percentiles have higher quantiles |
| Quantiles.QuantileIs | tools/benchmark_surfaces.py:620-627 | at the share k of n - 1 the quantile is the k-th sorted value, and between neighbouring shares it is linear |
| Quantiles.EveryShare | tools/benchmark_surfaces.py:620-627 | every percentile is such a share |
| Quantiles.QuantileEnds | tools/benchmark_surfaces.py:620-627 | the quantile at 0 is the least value and at 100 the greatest |
| Quantiles.QuantileCounts | tools/benchmark_surfaces.py:620-627 | how many values lie at or below a quantile, and how many below it |
| PairedBootstrap.PairedQuantileDeltaSummary | tools/benchmark_surfaces.py:630-689 | the resampling loop, the shortcut for equal pairs and the 95 percent rule, for any draws |
| PairedBootstrap.VerdictSound | tools/benchmark_surfaces.py:1697-1720 | for every sequence of draws: uniformly slower, close or faster samples are assessed as regression, within tolerance or improved |
| PairedBootstrap.IntervalOrdered | tools/benchmark_surfaces.py:676-689 | the interval's low end is at most its high end, and both exist or neither |
| PairedBootstrap.ShortcutAgrees | tools/benchmark_surfaces.py:650-662 | the shortcut for equal pairs gives what the bootstrap would give |
| BootstrapInterval.IntervalIs | tools/benchmark_surfaces.py:680-689 | there is an interval exactly when at least 95 percent of the repetitions gave a change; its ends lie one fortieth of the way from either end of the sorted changes, with at least and at most as many changes below them |
| BootstrapInterval.SummaryIs | tools/benchmark_surfaces.py:630-689 | a summary exists exactly for two pairs or more with positive baselines; the estimate is the change between the two quantiles, and the interval that of the changes of the drawn pairs, one for each draw |
| BootstrapInterval.VerdictIsBand | tools/benchmark_surfaces.py:1704-1720 | a verdict is given exactly when all of the interval lies in its band |
| ClusterBootstrap.PairedClusterQuantileDeltaSummary | tools/benchmark_surfaces.py:692-766 | the batches of two dictionaries are paired by id, in order; the loop resamples whole batches and pools their requests |
| ClusterBootstrap.ClusterVerdictSound | tools/benchmark_surfaces.py:692-766 | the verdict is sound for batches too, whatever is drawn |
| ClusterBootstrap.SameBatchesDoNotMove | tools/benchmark_surfaces.py:692-766 | equal batches give a change of zero or no summary |
| BootstrapInterval.UsableBatchesIff | tools/benchmark_surfaces.py:709-726 | which batches are pooled: two or more, none empty or unevenly long, no negative latency in any |
| BootstrapInterval.ClusterSummaryIs | tools/benchmark_surfaces.py:692-766 | what the summary of pooled batches says of them, for any draws |
| RecordComparison.SampleValuesById | tools/benchmark_surfaces.py:551-563 | samples are paired with ids exactly when the ids are usable, distinct and as many |
| ComparisonMeaning.PairsAre | tools/benchmark_surfaces.py:1690-1694 | the pairs of a regime: for every id once the two values that were measured under it |
| RecordComparison.AssessRegime | tools/benchmark_surfaces.py:1674-1732 | the verdict on one regime from both percentiles |
| ComparisonMeaning.RegimeIff | tools/benchmark_surfaces.py:1690-1733 | a regime is rated by its 95th and 99th percentiles exactly when both sides have the same sound ids: a regression if one is, an improvement only if both are |
| ComparisonMeaning.StageIff | tools/benchmark_surfaces.py:1626-1670 | when a stage is incomplete, skipped or compared |
| ServiceComparison.CompareLevel | tools/benchmark_surfaces.py:1405-1500 | a level is rated only if both records passed and come in complete batches; it is sound only if the workload is the same, no batch lacks its partner, and there are enough |
| ComparisonMeaning.LevelIs | tools/benchmark_surfaces.py:1410-1435 | what is paired of a level, and when no batch lacks its partner |
| ComparisonMeaning.LevelIff | tools/benchmark_surfaces.py:1450-1500 | a level is rated over the pooled 95th and 99th percentiles and the median throughput |
| ComparisonMeaning.MetricsIff | tools/benchmark_surfaces.py:1493-1500 | the rating of a level from its metrics |
| ServiceComparison.CompareServiceConcurrency | tools/benchmark_surfaces.py:1378-1539 | the loop over the four levels: any missing, malformed, incomplete or small level makes the verdict inconclusive |
| ComparisonMeaning.ServiceIff | tools/benchmark_surfaces.py:1524-1533 | the verdict on the service from its levels: none unless all are sound, a regression if one is, an improvement only if all are |
| ComparisonMeaning.ServiceNeedsLevels | tools/benchmark_surfaces.py:1396-1408 | any such verdict needs the levels of 1, 4, 16 and 32 requests in both records |
| ComparisonMeaning.MinimumIs | tools/benchmark_surfaces.py:1436 | how many batches a level needs: as many as the shorter record repeats, and at least thirty |
| ServiceComparison.SameServiceStands | tools/benchmark_surfaces.py:1378-1539 | service measurements compared with themselves are never a regression or an improvement |
| ServiceComparison.SlowLevelIsRegression | tools/benchmark_surfaces.py:1449-1500 | a sound level whose paired batches are uniformly slower is a regression for every fair generator, if its throughput can be assessed |
| ServiceComparison.ShuffleKeepsVerdict | tools/benchmark_surfaces.py:1378-1539 | listing batches, samples or request ids in another order, on either side, changes no verdict |
| ServiceComparison.MetricIsAssessment | tools/benchmark_surfaces.py:1474-1493 | the level's assessment and the regime's agree on latencies and mirror each other on throughput |
| ServiceShuffle.ShuffleKeepsObservations | tools/benchmark_surfaces.py:1305-1375 | a record with its batches, samples and ids listed in another order is accepted exactly when it was, with the same observations |
| RecordComparison.CompareRecords | tools/benchmark_surfaces.py:1621-1783 | from two records: stages paired by name and regimes assessed, service levels checked and compared, and the overall status |
| ComparisonMeaning.OverallIff | tools/benchmark_surfaces.py:1770-1785 | one regression decides a conclusive comparison; short of that one inconclusive regime leaves it open, and otherwise it is an improvement if something improved |
| ComparisonMeaning.StagesAre | tools/benchmark_surfaces.py:1626 | the stages compared are those of the names that both records have, each once |
| RecordComparison.SelfComparisonStands | tools/benchmark_surfaces.py:1542-1783 | a record compared with itself is never a regression or an improvement, at any level |
| RecordComparison.SlowRegimeIsRegression | tools/benchmark_surfaces.py:1704-1732 | a uniformly slower regime is a regression for every fair generator |
| RecordComparison.SlowdownIsReported | tools/benchmark_surfaces.py:1770-1783 | one uniformly slower regime of a stage that both records have makes a complete comparison a regression, whatever else improved |
| RecordComparison.ServiceSlowdownIsReported | tools/benchmark_surfaces.py:1754-1783 | so does a regression of the service measurements |
| RecordComparison.ShuffleKeepsAssessment | tools/benchmark_surfaces.py:551-563 | shuffling samples with their ids, on either side, changes no assessment |
| RecordComparison.ShuffleKeepsStatus | tools/benchmark_surfaces.py:1542-1783 | listing samples, batches and ids in another order, in either record, changes no overall status |
| StringOrder.InOrder | tools/benchmark_surfaces.py:1693 | sorted ids: each element of a set once, in order |
| ServiceBatches.ServiceBatchObservations | tools/benchmark_surfaces.py:1305-1375 | observations are returned exactly for records that meet the batch conditions, one entry for each batch and no other |
| ServiceBatches.AcceptedIsPartitioned | tools/benchmark_surfaces.py:1305-1375 | the request ids of an accepted record are cut by its batches into disjoint parts of exactly one id for every slot, and its samples are the batch latencies reordered |
| ServiceBatches.MeasureLevel | tools/benchmark_surfaces.py:2299-2372 | the lists that the runner builds, repetition by repetition, broken barriers skipped |
| ServiceBatches.OwnRecordAcceptedIff | tools/benchmark_surfaces.py:2283-2407 | what the runner writes is accepted exactly when some repetition finished and every finished one took measurable time |
| BatchAcceptance.AcceptedIff | tools/benchmark_surfaces.py:1305-1375 | the conditions on a record, written out: its batches, the ids of their slots as texts, times and rates, and the flat lists |
| BatchAcceptance.ThroughputsAre | tools/benchmark_surfaces.py:2355-2359 | the rates that the runner writes are requests per second of the whole batch |
| ScratchReaper.Machine.CleanupScratch | tools/benchmark_surfaces.py:230-253 | the scratch is deleted only when everything that ran at the snapshot has ended and no handler is active; nothing runs then if nobody could register a thread at the snapshot |
| ScratchReaper.Machine.Reap | tools/benchmark_surfaces.py:256-305 | a confirmed deletion after shutdown finds nothing running unless an unlisted helper was busy; any deletion finds nothing if nobody could register at the deciding snapshot |
| ScratchReaper.OneSnapshotSufficesIff | tools/benchmark_surfaces.py:237-249 | one snapshot followed by a check is conclusive exactly when no thread, handler or helper could register a thread at the snapshot |
| ScratchReaper.FirstCheckDrains | src/local_ai_hub/async_jobs.py:904-912 | after shutdown, a first check that passes leaves nobody who could register a thread, unless an unlisted helper was busy |
| ScratchReaper.TwoSnapshotsSufficeIff | tools/benchmark_surfaces.py:271-281 | the second snapshot makes the check conclusive exactly when nobody could register at the first, or shutdown had begun and no unlisted helper was busy |
| ScratchReaper.GrandchildrenEscape | tools/benchmark_surfaces.py:271-281 | before shutdown, whenever somebody can register, a grandchild can outlive both checks without any handler or helper |
| ScratchReaper.AtMostOneRetained | tools/benchmark_surfaces.py:306-331 | in every run at most one scratch is retained, and none while a benchmark is running |
| QueueResume.Checkpoint.Save | tools/benchmark_queue_admission.py:71-79 | the file is the whole of memory or what it was before |
| QueueResume.RunBatch | tools/benchmark_queue_admission.py:342-371 | a batch adds its repetitions, executed one after the other, to the level's state, or the process dies having executed at most the batch |
| QueueResume.RunLevel | tools/benchmark_queue_admission.py:319-383 | the batch loop ends at the configured repetitions, or dies leaving a valid file that has lost no saved repetition and at most one batch of work |
| QueueResume.Run | tools/benchmark_queue_admission.py:310-416 | the loop over the levels and their sums |
| QueueResume.Campaign | tools/benchmark_queue_admission.py:310-416 | any number of processes, dying anywhere: the report comes from exactly one execution of each repetition, in order; a death costs at most one batch; without deaths, or if outcomes do not depend on the moment, it is the undisturbed report |
| QueueResume.CompleteMeans | tools/benchmark_queue_admission.py:340-383 | complete levels stand for each repetition once, executed at increasing moments, and report what was observed then |
| QueueResume.CrashesAreTransparent | tools/benchmark_queue_admission.py:50-88 | if outcomes do not depend on the moment, the report of any execution moments is the report of one process that never dies |
| QueueResume.SampleCountMatches | tools/benchmark_queue_admission.py:465-468 | a finished campaign has repetitions times the sum of the levels many samples, one cold sample for every slot |
| QueueResume.PassedIff | tools/benchmark_queue_admission.py:416-418 | a finished campaign passes exactly when no attempt that it reports failed and every burst was drained |
| QueueTotals.ItemShape | tools/benchmark_queue_admission.py:353-382 | sizes of the saved lists; the cold samples are those of the first repetition |
| QueueTotals.DecisionAt | tools/benchmark_queue_admission.py:363-364 | samples lie repetition by repetition, slot by slot |
| QueueTotals.NoErrorsIff | tools/benchmark_queue_admission.py:367-369 | the error count is zero exactly when no attempt failed |
| QueueMeaning.ErrorsAre | tools/benchmark_queue_admission.py:367-369 | the error count is the number of attempts that failed |
| QueueMeaning.TextsAre | tools/benchmark_queue_admission.py:367-371 | the error types and codes are those that occurred |
| QueueMeaning.SampleAt | tools/benchmark_queue_admission.py:363-366 | latencies lie repetition by repetition, slot by slot |
| QueueMeaning.BurstIs | tools/benchmark_queue_admission.py:351-359 | what is noted of each repetition, and when its queue counts as drained |
| QueueMeaning.ReportHolds | tools/benchmark_queue_admission.py:384-416 | the report holds the state of every level and the errors of all together |
| CoverageRatchet.MeetsIsRational | tools/check_critical_coverage.py:120 | cross-multiplied counts compare as the coverage rates do |
| CoverageRatchet.CompareMetrics | tools/check_critical_coverage.py:112-125 | the loop reports exactly the items that are unmeasured, unreadable or below their threshold |
| CoverageRatchet.CheckReport | tools/check_critical_coverage.py:128-152 | success exactly when schema, environment, provenance, required items and all thresholds are met |
| CoverageMeaning.MeasuredIff | tools/check_critical_coverage.py:33-79 | an item is measured exactly when the report lists its file once, with whole numbers, something to cover and no more covered than that |
| CoverageMeaning.MeetsIff | tools/check_critical_coverage.py:112-125 | an item passes exactly when the rate in the report is at least the rate in the baseline |
| CoverageMeaning.PassesIff | tools/check_critical_coverage.py:128-152 | the check succeeds exactly when the baseline is of the right kind and names what is required, and no rate in the report is missing or below the one demanded |
| CoverageRatchet.ExtendBaseline | tools/check_critical_coverage.py:155-191 | the loops that add measured items and their provenance, and when they refuse |
| CoverageMeaning.ExtendedIff | tools/check_critical_coverage.py:155-182 | when an extension succeeds |
| CoverageMeaning.ExtendedKeeps | tools/check_critical_coverage.py:183-191 | the entry of provenance names exactly what was added, under the given origin |
| CoverageRatchet.MakeBaseline | tools/check_critical_coverage.py:86-109 | the first baseline, and when it is refused |
| CoverageMeaning.MadeIff | tools/check_critical_coverage.py:86-109 | when a first baseline is made |
| CoverageRatchet.AdditionKeeps | tools/check_critical_coverage.py:173-182 | old thresholds stay; each added one is new, named once, and what the report measures |
| CoverageRatchet.ExtensionPassesItself | tools/check_critical_coverage.py:155-191 | the extending report passes the result, in which no threshold has changed |
| CoverageRatchet.ExtendingAgainAddsNothing | tools/check_critical_coverage.py:155-191 | extending again changes nothing, provenance included |
| CoverageRatchet.ChainKeepsThresholds | tools/check_critical_coverage.py:155-191 | along any chain of extensions every threshold stays |
| CoverageRatchet.LastAcceptsForAll | tools/check_critical_coverage.py:112-152 | a report accepted by the last baseline is nowhere below a rate that any earlier one demanded |
| CoverageRatchet.ChainIsCredited | tools/check_critical_coverage.py:183-190 | every threshold beyond the first ones is named exactly once in all provenance entries together |
| CoverageRatchet.MadeChainIsCredited | tools/check_critical_coverage.py:86-191 | from the first baseline on: the thresholds are the items asked for then, as measured then, and those credited since, each once |
| CoverageRatchet.FirstBaselinePassesItself | tools/check_critical_coverage.py:86-109 | a report passes the baseline made from it |
| SimHash.PythonVotes | tools/cython_experiment.py:23-28 | bit for bit, the result has the bits of a strict majority of the hashes |
| SimHash.VotesPermuted | tools/cython_experiment.py:23-28 | the fingerprint does not depend on the order of the hashes |
| SimHashMeaning.MajorityIff | tools/cython_experiment.py:23-28 | a bit is set when more hashes have it than lack it |
| SimHashMeaning.BitIs | tools/cython_experiment.py:27 | a bit is the parity of what dividing by its power leaves |
| SimHash.Deduplicate | tools/cython_experiment.py:149-159 | the loop keeps the chunks that the filter keeps; records and duplicates add up |
| SimHash.FilterSeparatesAndCovers | tools/cython_experiment.py:149-159 | kept nonzero fingerprints are pairwise more than four bits apart, and a chunk is skipped exactly when it is near one kept before it |
| SimHashMeaning.DistanceIs | tools/cython_experiment.py:153 | the distance is the number of positions at which two fingerprints differ |
| SimHashMeaning.DistanceIsMetric | tools/cython_experiment.py:153 | it is symmetric, zero only between equals, and no detour is shorter |
| SimHashMeaning.FilterIs | tools/cython_experiment.py:149-159 | exactly those chunks are kept whose fingerprint does not differ in at most four of 64 positions from that of one kept before; kept ones are never that alike |
| SimHash.SameFingerprintsSameRecords | tools/cython_experiment.py:174-184 | fingerprint functions that agree on the chunks give the same records |
| Ranking.EvaluateCase | tools/benchmark_live_search.py:93-119 | the loop removes repeats, and the metrics are those of what remains |
| Ranking.DeduplicatedKeepsFirst | tools/benchmark_live_search.py:94-98 | what remains is each item once, in the order of first occurrence |
| Ranking.NdcgAtMostOne | tools/benchmark_live_search.py:110-117 | the gain is at most the ideal gain, and reaches it exactly when the leading positions are all relevant |
| Ranking.PromotionHelps | tools/benchmark_live_search.py:109-117 | moving a relevant item above an irrelevant one raises the gain and never lowers the reciprocal rank |
| Ranking.MetricsAreProportions | tools/benchmark_live_search.py:108-119 | recall, precision, reciprocal rank and nDCG lie between zero and one, and when two of them are one |
| RankingMeaning.MetricsAre | tools/benchmark_live_search.py:108-119 | recall and precision are the shares of positions found, the reciprocal rank is that of the first relevant position, and nDCG is the sum of discounts over the relevant ranks as a share of that of the best ranking |
| RankingMeaning.PathsAre | tools/benchmark_live_search.py:94-98 | the results that have a path, in order |
| Ranking.EvaluationsAreProportions | tools/benchmark_reranker.py:92-112 | so do the reranker's, for any ranking with repeats |
| Ranking.BoundedUnderEveryDiscountIff | tools/benchmark_t10_repository.py:125-145 | with repeats kept, the bound holds under every discount exactly when no more relevant positions than relevant items are counted |
| Ranking.RepeatExceedsIdeal | tools/benchmark_t10_repository.py:125-145 | one relevant item observed twice exceeds the ideal gain |
| RankingMeaning.RepeatedAre | tools/benchmark_t10_repository.py:125-145 | what is counted among the first k, repeats included |
| OrderStatistics.RanksAreValid | tools/benchmark_t10_repository.py:94-102 | the chosen ranks exist and lie on either side of the position of the estimate |
| OrderStatistics.BracketsIff | tools/benchmark_t10_repository.py:86-102 | the interval contains the estimate of all sorted samples of a size exactly when the estimate is an order statistic or the radius reaches past it |
| OrderStatistics.IntervalContainsEstimate | tools/benchmark_t10_repository.py:86-102 | with the radius in use it always does, for percentiles from 0.15 up, after monotone rounding |
| OrderStatistics.EstimateIs | tools/benchmark_t10_repository.py:86-91 | the estimate is the interpolated quantile at that many percent |
| OrderStatistics.IntervalIs | tools/benchmark_t10_repository.py:94-102 | the interval runs between the order statistics next outside the mean less and plus the radius |

## Left out

- The hub's other services (scheduler, cache, jobs, retrieval, code index, command broker), its HTTP front end (authorization, rate limits, body limits, refusals by operational mode) and its configuration.
- Hub requests with retired or malformed fields, and the trimming of capability and request id texts, which happen before the modelled regions.
- Artifact batches: a batch is one check for cancellation and one atomic write; payload checks are an arbitrary verdict.
- The network may lose, delay, reorder, repeat and mangle messages, but does not invent a valid decisive reply; a stage reply is genuine or lost.
- Capability tokens are fresh when issued; the clock never runs backwards.
- TextEncoder and WebCrypto branches of the digest; messages of 2^32 bytes or more.
- Regular expressions, URL parsing and case folding of the sanitizer are arbitrary functions of a page; lower-casing by setAttribute is not modelled.
- Floating-point rounding, the printed rounding of results, and the Student t interval of the mean (`tools/benchmark_surfaces.py:566-617`).
- The random generator is any function of the pairs it resamples; its seeding is not modelled.
- Fingerprint and required-stage gates before the comparison, quality comparison, and the plan-grade reasons that may replace the status after it (`tools/benchmark_surfaces.py:1542-1620`, `tools/benchmark_surfaces.py:1784-1836`).
- The shared counters behind a burst's observed concurrency (`tools/benchmark_queue_admission.py:246-308`): the observed value is arbitrary.
- SimHash shingles and hashes, and the native extension: a fingerprint is any function of a chunk.
- The logarithm of the ranking discount: any positive, strictly decreasing function.
- Benchmark wiring, fixtures, subprocesses, command lines and operator tools.
- CaptureHub.Hub.Monotonic: the clock is a nondecreasing value that moves by an arbitrary amount whenever it is read.
- ScratchReaper.TwoSnapshotsSufficeIff: one flag stands for the shutdown of everything that registers threads; `app.close()` reaches the components one after the other.
- CaptureHub.Hub.IssueCapability: the clock is read inside the locked region, where the source reads it just before; stripping of the origin and the token itself are inputs.
- CommitAgreement.RefusalIsFinalIff: excludes refusals that the HTTP front end gives before the endpoint is reached (such as 423 by operational mode), which carry no request id and leave the capability open.
- BridgeClient.CommitPositions: the staged payload spreads the page's reply over its own keys (`browser_bridge/background.js:229-238`), so a reply with a key `request_id` would stage under another id than the one committed; modelled page replies, like those of `capture.js`, have no such key.
- Ranking.BoundedUnderEveryDiscountIff: is exact over all discounts, not for 1/log2 alone; for instance eight irrelevant results followed by a relevant one twice stay below the ideal gain of a single item under 1/log2.
- ScratchReaper.Machine.Reap: is bounded by a number of rounds, because the loop has no bound of its own while threads keep registering children.
- ElementId.StableElementId: takes the tree as it is during the walk; the page does not change the links meanwhile.
