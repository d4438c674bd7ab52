# Verified model of the governed-action kernel

This project models, in Dafny, the parts of Aegis-EGE where correctness spans whole
runs or several functions, and proves what they are meant to guarantee.

| file | component |
|---|---|
| `Text`, `Framing` | byte strings, sorting, decimal numerals; the length framing of every relation digest |
| `Runtime`, `BoundaryRuntime`, `BoundaryProtocol` | requests, bindings, `Dispatch`, `Run` and `Recover` of the reference runtime, alone and concurrently |
| `FencedProtocol`, `FencedSafety`, `FencedAnswers`, `FencedRuntime` | fenced custody: the transition system, its theorems, what each process must have been told, and the entry points as processes of it |
| `QuorumSuccession`, `QuorumMeaning` | the quorum hand-over: freeze every shared witness, then activate; its acceptance on members and trace |
| `CanonicalJson` | the canonical JSON emitter and a strict parser that undoes it |
| `HistoryChain`, `Verifier`, `VerifierMeaning`, `VerifierRun` | the portable evidence verifier, and what its report says of the signed documents |
| `CrmAttempts`, `CrmAnswers`, `CrmPatchOrder`, `CrmStore`, `CrmRuntime` | CRM mutation attempts: protocol, what each process must have been told, order of PATCH and recovery, durable store, and the three operations |
| `Postcondition`, `CrmObservation`, `CrmEvidence`, `CrmRecordMeaning` | typed postconditions, the reads behind them, outcome and closure records and what they say |
| `Streams`, `Metering`, `Performance` | evidence streams over an execution |
| `SettlementFacts`, `SettlementLadder`, `SettlementMeaning` | the seven settlement layers, and the dispositions on raw slices, samples and documents |
| `EvidenceText`, `EvidenceGate` | the evidence digest; the evidence gate and its bounded acquisition loops |
| `PrimitiveReduction`, `AdmissionMeaning` | the chain of representation changes, and when each form is admitted |

## How it is modelled

- A Go string is a sequence of bytes, one Dafny character per byte. `strings.TrimSpace`
  removes the six ASCII spaces.
- Times are integers in nanoseconds. `Time.Sub` saturates, `time.Duration` sums and
  unsigned sums wrap around where the code lets them.
- Hashes are function parameters. Uniqueness results end in "or the hash collides on these two strings"
  instead of assuming that it never does. Signature checks, decoders and document
  digests of unseen formats are functions of an oracle.
- Concurrency is a deterministic step function over schedules: which process moves, what
  its call answers, and when it crashes are all in the schedule, and theorems hold for
  every schedule. A store call may also take effect and still be reported as an error.
- Code that changes state step by step is a class or a method with loops, proved against a
  declarative specification; code made of expressions is a function.
- The methods are proved against specification functions; the `...Meaning` and `...Answers` files and
  the lemmas named `...Exactly` say what those functions decide on the fields of inputs and replies.
- `hide` statements keep proofs small; they only withhold definitions from the prover.

## Where the code promises less than its documentation

Each of these has a lemma with a concrete input and an exact condition.

- A product of seconds and GPUs may wrap around 2^64 and still match the counters
  (`Metering.WrappedProductPasses`, exact condition in `Metering.DeliveredIsWork`).
- A gap can exceed the tolerated one when that is the largest duration
  (`Streams.SaturatedGapPasses`, `Streams.GapMeaning`, `Streams.CoverageBoundExact`), and below-floor time can overflow into
  compliance (`Performance.OverflowLooksCompliant`, `Performance.BelowIsTrueTime`,
  `Performance.ComplianceExact`).
- `factsEqual` takes an empty value for a missing key
  (`SettlementFacts.EmptyFactDefeatsEquality`, `SettlementFacts.FactsEqualIsEquality`).
- Escaping reverses the order of some keys with `/`, after which correct evidence is refused by
  its own validator (`Postcondition.SlashReversesOrder`, `Postcondition.EvaluationValidates`).
- A fresh evidence epoch needs no probe when no source count is required
  (`EvidenceGate.NoProbeNeeded`, `EvidenceGate.EmptyEpochAllows`).
- Evidence digests are ambiguous when a claim, source or value contains the unit separator, and
  any two observations or more can pass for one with a long claim
  (`EvidenceText.SeparatorForgesEvidence`; exact conditions in `EvidenceText.LineAmbiguousIff`,
  `EvidenceText.AmbiguousAtSameLengthIff` and `EvidenceText.AmbiguousIff`). A record separator
  inside a field does no harm (`EvidenceText.BytesDetermineEvidence`).
- Issuer fact names are ambiguous when a kind or an id contains a colon
  (`PrimitiveReduction.TrustFactAmbiguous`, exact condition in
  `PrimitiveReduction.TrustFactAmbiguousIff`).
- A NUL inside an identifier lets one admission attestation pass for another subject
  (`PrimitiveReduction.NulRebindsAttestation`; exact conditions in
  `PrimitiveReduction.SubjectReboundIff` and `PrimitiveReduction.DecisionTextAmbiguousIff`).
- Decomposition forgets whether the cited evidence exists
  (`PrimitiveReduction.DecompositionForgetsEvidence`, exact condition in
  `PrimitiveReduction.DecompositionExact`), and capability reduction changes the meaning of
  constraints that use its reserved names (`PrimitiveReduction.ReservedNameBreaksReduction`, exact
  condition in `PrimitiveReduction.ReductionExact`).
- The canonical text of a number can run into digits that follow it
  (`CanonicalJson.NumbersNeedADelimiter`, exact condition in `CanonicalJson.CutOnceIff`).
- Recovery may complete or retire an attempt whose PATCH has not left yet
  (`CrmPatchOrder.CompletionMayPrecedePatch`, `CrmPatchOrder.RetirementMayPrecedePatch`; exact
  condition in `CrmPatchOrder.PatchPrecedesTerminalIff`). The one-PATCH bound is not affected.
- Only the last two of the three reads after a mutation are compared
  (`CrmObservation.FirstReadMayDiffer`, `CrmObservation.FirstReadIgnored`; exact conditions in
  `CrmObservation.StableMeansLastTwoAgree` and `CrmObservation.AllThreeAgreeIff`).
- Metering turns an earlier CREDIT_DUE or DISPUTED into UNKNOWN instead of keeping it
  (`SettlementLadder.CreditDueBecomesUnknown`; exact conditions in `SettlementLadder.MeterExecution`
  and `SettlementLadder.SettleCase`).

## Model

| member | source | states |
|---|---|---|
| `Framing.FrameRoundTrip` | governedaction/runtime/runtime.go:362-372 | the 8-byte length framing can be read back: unframing the framed list gives the list |
| `Framing.FrameInjective` | evidenceverify/verify.go:115-124 | two lists of strings with the same framed bytes are the same list |
| `Framing.ComputeDigest` | governedaction/runtime/runtime.go:362-372 | the hashing loop hashes exactly the framing of its parts |
| `Framing.DigestInjective` | evidenceverify/verify.go:115-124 | equal relation digests mean equal part lists, or the hash collides on the two framings |
| `Runtime.StatementDigestInjective` | governedaction/runtime/runtime.go:294-360 | effect, admission, observation, recovery and takeover statements never share a digest, within or across domains, unless the hash collides on their two framings |
| `Runtime.ValidateRequest` | governedaction/runtime/runtime.go:268-289 | a request passes exactly if it is complete, bindable and its admission carries the recomputed binding; the admission error is given only for a bindable request with another binding |
| `Runtime.RequestMeaning` | governedaction/runtime/runtime.go:268-289 | valid exactly if nothing is blank, the transition starts at the admitted state and stays on the target, and the admission is bound to just this change |
| `Runtime.EffectIdentityDeterminesEffect` | governedaction/runtime/runtime.go:294-327 | valid requests with one effect identity agree on subject, state and transition, or the hash collides on their two framings |
| `FencedSafety.ReachableInvariant` | governedaction/runtime/fenced.go:116-356 | in every interleaving of reserve, execute, run and takeover processes with crashes between any two calls, the custody invariant holds |
| `FencedSafety.EffectEnteredAtMostOnce` | governedaction/runtime/fenced.go:161-266 | the effect of one (effect, attempt) record is entered at most once over every schedule |
| `FencedSafety.EntryOnlyWhileCrossing` | governedaction/runtime/fenced.go:195-245 | a process enters the effect only while the stored record is exactly its own owner and generation in CROSSING |
| `FencedSafety.NoRecordRecurs` | governedaction/runtime/fenced.go:116-356 | every successful create or compare-and-swap writes a value never written before |
| `FencedSafety.RunEvolves` | governedaction/runtime/fenced.go:161-356 | a stored record only climbs in (phase, generation); once out of RESERVED its owner and generation are fixed |
| `FencedSafety.FencedOut` | governedaction/runtime/fenced.go:308-356 | whoever enters after a takeover holds at least the generation the takeover wrote |
| `FencedSafety.CrossedIsFinal` | governedaction/runtime/fenced.go:161-266 | an entered record never returns to RESERVED, keeps owner and generation, and is never entered again |
| `FencedSafety.ResultIsTruthful` | governedaction/runtime/fenced.go:161-266 | REJECTED is returned exactly when the effect was not entered; CLOSED only with the stored record CLOSED |
| `FencedSafety.LogicalEffectAtMostOnce` | governedaction/runtime/fenced.go:116-356 | under the runtime's own identities one logical change is made at most once per attempt, whichever executors, admissions and generations take part |
| `FencedRuntime.World.ReserveFenced` | governedaction/runtime/fenced.go:116-150 | one process of the protocol; no error exactly if both checks admitted the request and the create between them succeeded, and then exactly this request's RESERVED record at generation 1 is returned |
| `FencedRuntime.World.ExecuteReservedFenced` | governedaction/runtime/fenced.go:161-266 | one process of the protocol under arbitrary interference; the effect is entered exactly if the request's own RESERVED record was loaded and swapped into CROSSING between two checks that found the context live, the state unchanged and the bound admission verified; CLOSED exactly if an accepted observation and the closing swap followed; the result is truthful about entry and record |
| `FencedRuntime.World.RunFenced` | governedaction/runtime/fenced.go:271-285 | reservation then execution as one process; entry and CLOSED exactly under the conditions of both on its own answers; REJECTED exactly when the effect was not entered |
| `FencedRuntime.World.TakeoverReserved` | governedaction/runtime/fenced.go:308-356 | one process of the protocol; a transfer happens exactly on a verified authorization bound to the loaded RESERVED record and the new owner, to exactly the next generation, without wrap-around |
| `FencedAnswers.ProcessIsWhatItHeard` | governedaction/runtime/fenced.go:116-356 | over every schedule a process is determined by its operation and the answers to its own calls |
| `FencedAnswers.EveryEntryIsJustified` | governedaction/runtime/fenced.go:161-266 | over every schedule each entry was preceded in its own process by an admitting check before its swap into CROSSING and another one after it |
| `FencedAnswers.ExecuteExactly` | governedaction/runtime/fenced.go:161-266 | exactly which answers enter the effect and which close it, on the fields of the replies |
| `FencedAnswers.RunExactly` | governedaction/runtime/fenced.go:271-285 | the same for reservation followed by execution |
| `FencedAnswers.ReserveExactly` | governedaction/runtime/fenced.go:116-150 | exactly which answers return custody, and which without an error |
| `FencedAnswers.TakeoverExactly` | governedaction/runtime/fenced.go:308-356 | exactly which answers transfer custody, and to what record |
| `FencedAnswers.ObservationAccepted` | governedaction/runtime/runtime.go:333-360 | an observation closes exactly if it is complete, shows the intended state and its verified attestation is bound to this effect and state |
| `BoundaryRuntime.Adapter.PrepareEffect` | governedaction/boundary.go:105-133 | whatever the callbacks answer, the calls made are a prefix of check, retain, check; the custody flag and the success case say exactly which |
| `BoundaryRuntime.Adapter.Dispatch` | governedaction/boundary.go:148-164 | the call trace is a prefix of check, retain, check, effect; both flags match it; an entered effect was preceded by create-once custody |
| `BoundaryRuntime.Adapter.Run` | governedaction/runtime/runtime.go:180-266 | REJECTED exactly when Execute was not entered; an entered effect had two checks that read the admitted state and verified the admission under this request's own binding; CLOSED only on a verified, bound observation of the intended state made by this call |
| `BoundaryRuntime.Adapter.Recover` | governedaction/runtime/recovery.go:59-122 | recovery calls no effect and changes no custody; CLOSED needs the same proof as Run; anything but REJECTED needs loaded custody of the original effect and an authorization verified under the digest of exactly that custody and recoverer |
| `BoundaryRuntime.Adapter.Serve` | governedaction/runtime/recovery.go:59-122 | any sequence of Run and Recover calls executes no (effect, attempt) twice |
| `BoundaryProtocol.ConcurrentRunsExecuteOnce` | governedaction/runtime/runtime.go:180-266 | over every interleaving of any number of runs, keys, failures and stops on one create-once custody store, no (effect, attempt) is executed twice |
| `BoundaryProtocol.EachRunIsADispatch` | governedaction/boundary.go:105-164 | in every such run the calls of each process are a prefix of check, retain, check, effect |
| `BoundaryProtocol.EachDispatchIsARun` | governedaction/boundary.go:105-164 | conversely every call trace and custody change that one Dispatch can make is a process of the protocol |
| `BoundaryProtocol.ExecutedIsRetained` | governedaction/boundary.go:105-164 | an executed key is in the custody store |
| `QuorumSuccession.AcceptedShape` | evidenceverify/succession.go:346-391 | every accepted trace froze some distinct shared witnesses and then activated some of those, and nothing else happened |
| `QuorumSuccession.NeverBothCurrent` | evidenceverify/succession.go:320-391 | no accepted prefix lets both quorums reach their thresholds: the rejection at line 388 is unreachable, by counting |
| `QuorumSuccession.ActivatingTraces` | evidenceverify/succession.go:346-413 | a trace passes with every shared witness activated exactly when it freezes all of them in some order and then activates all of them in some order, 2n steps |
| `QuorumSuccession.AcceptedHeadsUnique` | evidenceverify/succession.go:392-413 | one observation supports at most one pair of history and authority heads |
| `QuorumMeaning.SafeMeaning` | evidenceverify/succession.go:139-150 | a quorum passes exactly if its threshold is a reachable majority of named members with full digests and no name twice |
| `QuorumMeaning.AcceptsMeaning` | evidenceverify/succession.go:320-414 | accepted exactly if the witnesses listed alike by both quorums can block either and carry the new one, the trace freezes all of them and then activates all of them, and a complete observation shows a new quorum on both heads |
| `QuorumSuccession.ReplayTrace` | evidenceverify/succession.go:361-391 | the loop reports no error exactly along the declarative replay, and the simultaneity error only where both quorums are current |
| `QuorumSuccession.VerifyQuorumSuccession` | evidenceverify/succession.go:320-414 | given the established Genesis facts it accepts exactly the declared acceptance condition and never reports simultaneous authority |
| `CanonicalJson.CanonicalBijection` | evidenceverify/canonical.go:14-101 | a strict parser and the emitter are inverse to each other on the whole profile: a text is canonical for a value exactly when it parses to it |
| `CanonicalJson.EmitInjective` | evidenceverify/canonical.go:26-97 | two values with one canonical text are equal |
| `CanonicalJson.PrefixDecodable` | evidenceverify/canonical.go:26-97 | the canonical text of anything but a number, whatever follows it, and of a number not followed by a digit, can be cut off in one way only |
| `CanonicalJson.CutOnceIff` | evidenceverify/canonical.go:26-97 | a value's text followed by a rest has one reading exactly when the value is no number, or one digit that is 0 or is not followed by a digit |
| `CanonicalJson.NumbersNeedADelimiter` | evidenceverify/canonical.go:77-82 | a number that runs into the digits that follow it |
| `CanonicalJson.RecanonicalizeIdentity` | evidenceverify/canonical.go:14-101 | canonicalizing a canonical text gives it back |
| `CanonicalJson.EmitDependsOnContents` | evidenceverify/canonical.go:29-54 | an object's text depends only on the contents of its map |
| `CanonicalJson.AsciiOrderIsUtf16Order` | evidenceverify/canonical.go:38-39 | on ASCII keys byte order is the UTF-16 order of section 3.2.3 of RFC 8785 |
| `CanonicalJson.OrdersDifferOutsideAscii` | evidenceverify/canonical.go:31-35 | outside ASCII the two orders differ, so such keys must be refused |
| `CanonicalJson.Buffer.Write` | evidenceverify/canonical.go:26-97 | the recursive emitter appends exactly the canonical text to the shared buffer, or reports that the value is outside the profile |
| `CanonicalJson.SuccessionCanonical` | evidenceverify/canonical.go:14-101 | the entry point returns the canonical text or the profile error |
| `HistoryChain.HeadDeterminesHistory` | evidenceverify/history.go:91-119 | a head hash determines the length and every field of every entry behind it, or the hash collides on the contents of an entry of each history |
| `HistoryChain.PredecessorDeterminesPrefix` | evidenceverify/history.go:111-114 | chains that carry the same hash at one position share the whole prefix up to it |
| `Verifier.WalkedIsChain` | evidenceverify/history.go:91-115 | the entries the loop accepts are decoded faithfully, form a chain and keep the retained predecessor |
| `Verifier.CheckpointPinsHistory` | evidenceverify/history.go:50-130 | two bundles trusted under one pinned checkpoint present identical entry sequences |
| `Verifier.CheckpointPinsClaim` | evidenceverify/history.go:120-129 | they also claim the same outcome of the same effect and attempt, on the same admission, execution and destination payloads |
| `Verifier.PredecessorPinsPrefix` | evidenceverify/history.go:111-114 | under succession trusted histories with different final heads agree up to the retained old head, which ends that prefix |
| `Verifier.SigningBytesSeparateRoles` | evidenceverify/verify.go:100-102 | bytes signed for one role and payload are never the bytes of another role or payload |
| `Verifier.SameIdentitiesAsRuntime` | evidenceverify/verify.go:231-232 | the verifier accepts the identities of an exported request exactly when they are the ones the runtime computes |
| `Verifier.ExactClosure` | evidenceverify/verify.go:294-350 | a supported EXACT_EFFECT closure names exactly one committed effect by this attempt, owner and generation, under admitted active authority, with the request's own digest as identity |
| `Verifier.ClosedEffectDetermined` | evidenceverify/verify.go:226-233 | supported bundles with one effect identity agree on subject, states, operation and admission binding |
| `Verifier.SuccessionPinsCheckpoint` | evidenceverify/succession.go:184-302 | one succession bundle is VALID for at most one final checkpoint |
| `VerifierMeaning.EffectMeaning` | evidenceverify/verify.go:294-350 | for every policy: CLOSED exactly if the signed destination statement for this build, case and profile shows the intended after-state without error, and under EXACT_EFFECT also the exact admitted commit; each causality likewise |
| `VerifierMeaning.AdmittedMeaning` | evidenceverify/verify.go:243-252 | admitted exactly if the signed admission is the one record for this build, case, policy, request, before-state, operation and active authority |
| `VerifierMeaning.TrustMeaning` | evidenceverify/history.go:50-130 | TRUSTED_HISTORY exactly if chained entries reach the pinned head, which is witnessed and anchored by signature, and the last one binds this evidence and outcome |
| `VerifierMeaning.SuccessionMeaning` | evidenceverify/succession.go:106-318 | VALID exactly if two signed Genesis documents, a rotation bound to both and signed by both authorities, two custodian grants and a signed observation of the pinned and derived heads prove it |
| `VerifierMeaning.SupportMeaning` | evidenceverify/verify.go:191-292 | a bundle is supported exactly if its signed execution, admission, destination and continuity documents prove what it claims, field by field |
| `VerifierMeaning.CheckpointPinsDocuments` | evidenceverify/verify.go:131-148 | trusted bundles under one checkpoint carry the same admission, execution, destination and succession documents, or the hash collides |
| `VerifierRun.Assessment.AssessDestination` | evidenceverify/verify.go:294-350 | closure, causality, exact-commit and authority verdicts, and the absence of errors, each hold exactly under their declared condition |
| `VerifierRun.Assessment.AssessHistory` | evidenceverify/history.go:50-130 | TRUSTED_HISTORY and the absence of errors are exactly the declared history verdict |
| `VerifierRun.Assessment.CheckQuorum` | evidenceverify/succession.go:138-146 | sorting and comparing neighbours accepts exactly the majority quorums of distinct, complete witnesses |
| `VerifierRun.Assessment.AssessSuccession` | evidenceverify/succession.go:184-302 | VALID, the new custodian and the absence of errors hold exactly when every succession condition does |
| `VerifierRun.Assessment.AssessContinuity` | evidenceverify/verify.go:262-277 | a custodian is reported exactly with VALID succession and TRUSTED_HISTORY |
| `VerifierRun.Assessment.Verify` | evidenceverify/verify.go:191-292 | claims are supported exactly under the declared conjunction of all checks; support implies valid structure, signatures and roots and derived fields equal to the claimed ones; the reported closure and causality are exactly what the signed destination and admission documents show |
| `CrmAttempts.AtMostOnePatch` | internal/eepcrm/executor.go:254-389 | over every interleaving and crash schedule at most one PATCH is sent, by an Execute process, after the record durably left CLAIMED |
| `CrmAttempts.RunEvolves` | internal/eepcrm/attempt_store.go:134-167 | over every schedule the stored state only rises in rank |
| `CrmAttempts.TerminalAbsorbs` | internal/eepcrm/attempt_store.go:289-300 | a terminal record never changes again |
| `CrmAttempts.AtMostThreeTransitions` | internal/eepcrm/attempt_store.go:289-300 | at most three transitions of one attempt are ever stored |
| `CrmAttempts.CompletedIsEarned` | internal/eepcrm/executor.go:276-503 | a completed attempt was never dispatched and already satisfied, or accepted with 2xx and stably observed, or of unknown acceptance with a stable VERIFIED observation |
| `CrmAttempts.BlockedHadNoEffect` | internal/eepcrm/executor.go:254-389 | a blocked attempt sent no PATCH or was answered 412, now and after any further steps |
| `CrmAnswers.ProcessIsWhatItHeard` | internal/eepcrm/executor.go:185-508 | over every schedule a process that has not ended is determined by its operation and the answers to its own calls |
| `CrmAnswers.ExecuteExactly` | internal/eepcrm/executor.go:185-508 | exactly which answers lead to PATCH and to each write of the record, on the fields of the replies |
| `CrmAnswers.ReconcileExactly` | internal/eepcrm/recovery.go:59-186 | exactly which answers lead recovery to complete the record |
| `CrmAnswers.RetireExactly` | internal/eepcrm/recovery.go:191-245 | exactly which answers lead to retirement |
| `CrmAnswers.EveryEventIsJustified` | internal/eepcrm/executor.go:185-508 | over every schedule each creation, change and PATCH was caused by exactly the answers its process had heard until then |
| `CrmPatchOrder.PatchPrecedesTerminalIff` | internal/eepcrm/recovery.go:69-245 | every PATCH is sent at POSSIBLE_EFFECT, COMPLETED or RETIRED_UNKNOWN, and at POSSIBLE_EFFECT exactly when no Reconcile or Retire process changed the record before it |
| `CrmPatchOrder.RecoveryAfterExecuteIsSafe` | internal/eepcrm/recovery.go:69-245 | if recovery starts only once no Execute can still send, every PATCH is sent at POSSIBLE_EFFECT, whatever follows |
| `CrmPatchOrder.CompletionMayPrecedePatch` | internal/eepcrm/recovery.go:69-181 | a reachable schedule in which recovery completes the attempt before its PATCH leaves |
| `CrmPatchOrder.RetirementMayPrecedePatch` | internal/eepcrm/recovery.go:191-245 | a reachable schedule in which the attempt is retired before its PATCH leaves |
| `CrmStore.FileAttemptStore.Claim` | internal/eepcrm/attempt_store.go:92-132 | creates a valid CLAIMED record once; an existing record is never touched |
| `CrmStore.FileAttemptStore.Transition` | internal/eepcrm/attempt_store.go:134-167 | changes at most the stored record of this id, and only when the transition is allowed and the stored state is the expected one; only state, status, detail and time change |
| `CrmStore.FileAttemptStore.Load` | internal/eepcrm/attempt_store.go:169-201 | returns the stored, valid record or an error, and never reports a stored record as missing |
| `CrmStore.AllowedExactly` | internal/eepcrm/attempt_store.go:289-300 | the nine stored transitions, and no other |
| `CrmRuntime.World.Execute` | internal/eepcrm/executor.go:185-508 | one process of the attempt protocol; every outcome it returns passes VerifyOutcome; success means that this process stored COMPLETED, as already satisfied on a read that held every value or as VERIFIED on two last reads that did; the read before decides whether PATCH is sent, and the answer to PATCH with the reads after it decide every later error |
| `CrmRuntime.World.ConcludeExecute` | internal/eepcrm/executor.go:392-507 | OUTCOME_UNKNOWN exactly if the three reads are not steady, or the status is not 2xx and the last read lacks a value; otherwise the record is completed with the verdict of the reads, unless journal or store fail, and NOT_VERIFIED is reported only of an accepted request |
| `CrmRuntime.World.ReconcileAttempt` | internal/eepcrm/recovery.go:59-186 | one observation-only process; every closure it returns passes its verifier and reports no mutation; it says COMPLETED exactly if the reads settle the recorded state, and then the record is completed unless journal or store fail; OUTCOME_UNKNOWN exactly if they do not |
| `CrmRuntime.World.RetireAttemptUnknown` | internal/eepcrm/recovery.go:191-245 | one process; needs a reason; its closure always builds, verifies and keeps residual custody; success means that it stored RETIRED_UNKNOWN |
| `CrmRuntime.World.Observe` | internal/eepcrm/executor.go:518-612 | the observation is exactly the one that the reads made determine: status, count, evaluation and digest of the last good read |
| `CrmObservation.StableMeansLastTwoAgree` | internal/eepcrm/executor.go:518-590 | stable exactly when all three reads are good and the last two agree at every patched key, or the hash collides on the two values of such a key |
| `CrmObservation.StableVerifiedHolds` | internal/eepcrm/executor.go:563-590 | a stable VERIFIED observation means that the last two reads held every patched value |
| `CrmObservation.SteadyMeaning` | internal/eepcrm/executor.go:518-590 | an observation fails exactly if the reads are not steady, and is VERIFIED exactly if the last one holds every patched value |
| `CrmObservation.FirstReadIgnored` | internal/eepcrm/executor.go:563-590 | replacing the first read by any other good read changes nothing |
| `CrmObservation.AllThreeAgreeIff` | internal/eepcrm/executor.go:563-590 | a stable observation speaks for all three reads exactly when the first shows the values of the last, or the hash collides on two of these values |
| `CrmObservation.FirstReadMayDiffer` | internal/eepcrm/executor.go:563-590 | three reads of which the first is UNSATISFIED, observed as stably VERIFIED |
| `Postcondition.EscapeRoundTrip` | internal/eepcrm/postcondition.go:204-207 | the pointer escape of section 3 of RFC 6901 can be undone |
| `Postcondition.EscapeOrder` | internal/eepcrm/postcondition.go:204-207 | escaping keeps the order of two keys exactly when they do not clash on '/' where they first differ |
| `Postcondition.SlashReversesOrder` | internal/eepcrm/postcondition.go:204-207 | the keys a/ and a0 are reversed by escaping |
| `Postcondition.ResultMeaning` | internal/eepcrm/postcondition.go:117-126 | VERIFIED means every intended value is held, UNSATISFIED that none is |
| `Postcondition.Evaluate` | internal/eepcrm/postcondition.go:60-127 | the loop computes the declared evaluation: one field per key in key order, matches counted as a set |
| `Postcondition.Validate` | internal/eepcrm/postcondition.go:144-191 | the loop accepts exactly the declared valid evaluations |
| `Postcondition.EvaluationValidates` | internal/eepcrm/postcondition.go:60-191 | an evaluation built from any state validates exactly when no two patch keys reverse their order under escaping |
| `Postcondition.WithoutSlashValidates` | internal/eepcrm/postcondition.go:60-191 | in particular whenever no key contains '/' |
| `Postcondition.EquivalentStatesAgree` | internal/eepcrm/postcondition.go:129-142 | observations are equivalent exactly when they saw the same value or absence at every patched key, or the hash collides on the two values of such a key; equivalent ones have one result |
| `CrmEvidence.BuiltOutcomeVerifies` | internal/eepcrm/executor.go:614-657 | every outcome that is built passes VerifyOutcome |
| `CrmEvidence.SatisfiedOutcomeBuilds` | internal/eepcrm/executor.go:299-339 | the already-satisfied outcome builds exactly when the keys keep their order |
| `CrmEvidence.ObservedOutcomeBuilds` | internal/eepcrm/executor.go:827-925 | the outcome after dispatch builds, for every observation and status, exactly when nothing was evaluated or the keys keep their order |
| `CrmEvidence.BuiltClosureVerifies` | internal/eepcrm/recovery.go:321-386 | every closure that is built passes VerifyClosureEvidence |
| `CrmEvidence.ReconciledClosureBuilds` | internal/eepcrm/recovery.go:388-440 | recovery's closure builds exactly when nothing was evaluated or the keys keep their order |
| `CrmEvidence.RetiredClosureBuilds` | internal/eepcrm/recovery.go:191-245 | the retirement closure always builds |
| `CrmRecordMeaning.EvaluationMeaning` | internal/eepcrm/postcondition.go:144-193 | valid exactly if the paths ascend, satisfied fields show the expected value, the match count is their number, and the result says all, none or some |
| `CrmRecordMeaning.OutcomeMeaning` | internal/eepcrm/executor.go:805-930 | an outcome verifies exactly if its bindings are present, status, acceptance and reads fit its result, and the digest is that of its text |
| `CrmRecordMeaning.OutcomeTamperEvident` | internal/eepcrm/executor.go:805-936 | two verified outcomes with one integrity digest are one outcome, or the hash collides on their texts |
| `CrmRecordMeaning.ClosureMeaning` | internal/eepcrm/recovery.go:388-440 | a closure verifies exactly if its bindings are present, no mutation is reported, and custody fits its disposition |
| `CrmRecordMeaning.ClosureTamperEvident` | internal/eepcrm/recovery.go:388-446 | the same for closures |
| `Streams.GapMeaning` | internal/computesettlement/metering.go:222-241 | the gap check bounds the true gap unless the tolerated gap is the largest duration |
| `Streams.UncoveredBounded` | internal/computesettlement/metering.go:222-275 | at most (n+1) tolerated gaps of the execution stay uncovered when the gaps are measured |
| `Streams.CoverageBoundExact` | internal/computesettlement/metering.go:222-275 | for an execution inside its lease the bound holds of every stream of n intervals exactly when the tolerated gap is below the largest duration or the execution is short enough for n |
| `Streams.SaturatedGapPasses` | internal/computesettlement/metering.go:222-275 | with the largest duration tolerated, a longer gap passes unnoticed |
| `Metering.AssessMeterStream` | internal/computesettlement/metering.go:182-284 | acceptance and the assessment depend only on the multiset of slices: accepted exactly if some order passes every check, and assessed by that order |
| `Metering.AcceptableOrderUnique` | internal/computesettlement/metering.go:191-197 | an acceptable order is the only sorted arrangement, so ties are rejected and the unstable sort cannot matter |
| `Metering.CheckSlice` | internal/computesettlement/metering.go:204-262 | one iteration accepts exactly the slices that are whole, linked to the previous one and agree with their counters |
| `Metering.DeliveredIsWork` | internal/computesettlement/metering.go:249-266 | the total telescopes to last counter end minus first counter start; it equals the sum of seconds times GPUs exactly when no product reaches 2^64 |
| `Metering.DeliveredBounded` | internal/computesettlement/metering.go:182-284 | the total is at most contracted GPUs times execution time |
| `Metering.AcceptedCoverage` | internal/computesettlement/metering.go:222-275 | the coverage bound for accepted meter streams |
| `Metering.WrappedProductPasses` | internal/computesettlement/metering.go:253-261 | an accepted stream whose product wraps to zero |
| `Performance.AssessPerformanceStream` | internal/computesettlement/performance.go:202-289 | acceptance, minimum, below-floor time and compliance depend only on the multiset of samples |
| `Performance.AcceptableOrderUnique` | internal/computesettlement/performance.go:212-218 | an acceptable order is the only sorted arrangement |
| `Performance.BelowIsTrueTime` | internal/computesettlement/performance.go:262-267 | the reported below-floor time is the true one exactly when that is representable |
| `Performance.ComplianceMeaning` | internal/computesettlement/performance.go:262-289 | for executions up to the largest duration, compliant means the true below-floor time is within the contract |
| `Performance.OverflowLooksCompliant` | internal/computesettlement/performance.go:262-289 | beyond it a stream below the floor throughout counts as compliant |
| `Performance.ComplianceExact` | internal/computesettlement/performance.go:202-301 | for a valid envelope and an execution inside its lease, compliance is about the true time for every accepted stream exactly when the execution is no longer than the largest duration |
| `SettlementFacts.Compare` | internal/outcome/outcome.go:53-95 | MATCH exactly if all facts agree; otherwise the least faulty key decides between DIVERGED and UNKNOWN |
| `SettlementFacts.VerdictUnique` | internal/outcome/outcome.go:73-94 | the verdict is determined by the two fact sets |
| `SettlementFacts.FactsEqualIsEquality` | internal/computesettlement/reconcile.go:156-166 | the fact comparison is map equality exactly when no empty value stands for a missing key |
| `SettlementFacts.NonEmptyFactsEqual` | internal/computesettlement/reconcile.go:156-166 | without empty values the comparison is map equality |
| `SettlementFacts.EmptyFactDefeatsEquality` | internal/computesettlement/reconcile.go:156-166 | two different fact maps that compare as equal |
| `SettlementFacts.Reconcile` | internal/computesettlement/reconcile.go:49-141 | each disposition exactly under its declared meaning: all match, all diverge alike, determinate but contradictory, or not determinate |
| `SettlementFacts.CheckEvidence` | internal/computesettlement/evidence.go:53-89 | accepts exactly the one-to-one correspondences of observations and complete, distinct, subject-bound sources |
| `SettlementFacts.ReconcileWithEvidence` | internal/computesettlement/evidence.go:26-107 | without bound, independent evidence the disposition is UNKNOWN; with it, the facts decide |
| `SettlementLadder.AttestExecution` | internal/computesettlement/hardware.go:152-277 | hardware continuity is established exactly under its declared conditions; otherwise UNKNOWN |
| `SettlementLadder.MeterExecution` | internal/computesettlement/metering.go:81-180 | established exactly on settled, attested input with bound, acceptable streams; then equal totals decide SETTLED, CREDIT_DUE or DISPUTED |
| `SettlementLadder.PerformExecution` | internal/computesettlement/performance.go:99-200 | established exactly on settled, metered input; SETTLED if all streams comply, CREDIT_DUE if none does by the same amount, else DISPUTED |
| `SettlementLadder.BindWorkload` | internal/computesettlement/workload.go:206-300 | established exactly when every performance stream has its own genuine measurement of the contracted workload; otherwise UNKNOWN |
| `SettlementLadder.RootExecution` | internal/computesettlement/provenance.go:295-427 | established exactly when provenance and every measurement binding name one trusted execution; otherwise UNKNOWN |
| `SettlementLadder.SettleCase` | internal/computesettlement/provenance.go:247-427 | each of seven layers keeps the disposition, makes it UNKNOWN, or turns SETTLED into CREDIT_DUE or DISPUTED; the top disposition is the declared one of the case, which `SettlementMeaning.CaseMeaning` states on slices, samples and documents |
| `SettlementMeaning.CaseMeaning` | internal/computesettlement/provenance.go:247-427 | exactly when a case is SETTLED, CREDIT_DUE or DISPUTED: by the meters alone if they agree on less than the contracted total, agree on more or disagree, and otherwise, at the contracted total, by complete performance evidence |
| `SettlementMeaning.MeterMeaning` | internal/computesettlement/metering.go:159-180 | CREDIT_DUE exactly for one common total below the contracted one, SETTLED for the contracted one, DISPUTED for different totals or a common one above |
| `SettlementMeaning.PerfMeaning` | internal/computesettlement/performance.go:160-200 | SETTLED exactly if every stream reports a time within the contract, CREDIT_DUE for one common time beyond it, else DISPUTED |
| `SettlementMeaning.DegradesTruly` | internal/computesettlement/performance.go:202-289 | in executions up to the largest duration the reported time is the true time below the floor |
| `SettlementMeaning.HardwareMeaning` | internal/computesettlement/hardware.go:152-330 | continuity exactly if receipt and both attestations are those of this lease, hardware and execution, ordered and fresh |
| `SettlementMeaning.WorkloadMeaning` | internal/computesettlement/workload.go:165-340 | bound exactly if each stream has its one genuine measurement of this lease, execution, workload, metric and evidence |
| `SettlementMeaning.RootMeaning` | internal/computesettlement/provenance.go:247-476 | rooted exactly if a genuine provenance of this execution, root and hardware stands and each measurement has its one genuine binding to it |
| `SettlementLadder.CreditDueBecomesUnknown` | internal/computesettlement/metering.go:81-100 | two bound sources agreeing on a shortfall: CREDIT_DUE by the facts, UNKNOWN at the top |
| `EvidenceText.DigestPermutation` | internal/decision/authorization.go:15-29 | the evidence digest does not depend on the order of observations |
| `EvidenceText.BytesDetermineEvidence` | internal/decision/authorization.go:15-29 | on evidence without unit separators the hashed text is the same exactly for the same multiset of observations; record separators inside fields do no harm |
| `EvidenceText.DigestBindsEvidence` | internal/decision/authorization.go:15-29 | equal digests of such evidence mean the same multiset of observations, or the hash collides on the two texts |
| `EvidenceText.LineAmbiguousIff` | internal/decision/authorization.go:15-24 | another observation has the same line exactly when a field holds the unit separator |
| `EvidenceText.AmbiguousAtSameLengthIff` | internal/decision/authorization.go:15-29 | other evidence of the same length has the same text exactly when a field holds the unit separator |
| `EvidenceText.AmbiguousIff` | internal/decision/authorization.go:15-29 | other evidence of any length has the same text exactly when a field holds the unit separator or there are two observations or more |
| `EvidenceText.LineInjective` | internal/decision/authorization.go:15-24 | two observations without unit separators and with one line are the same |
| `EvidenceText.SeparatorForgesEvidence` | internal/decision/authorization.go:15-29 | a separator inside a field gives two different observations one digest |
| `EvidenceGate.Evaluate` | internal/decision/evaluator.go:11-85 | the loops compute the declared decision: gate, staleness, contradiction, blast radius, source count, state binding, in that order |
| `EvidenceGate.AllowExactly` | internal/decision/evaluator.go:11-85 | ALLOW exactly if the snapshot holds, every observation is recent, no two contradict, blast radius and sources are within bounds and the state is bound |
| `EvidenceGate.SnapshotDecides` | internal/decision/easl_gate.go:12-83 | a failed or invalid epistemic evaluation gives the same unauthorized result for all evidence, BLOCK exactly if it is contradictory, stale, expired or dependency-invalid |
| `EvidenceGate.ReasonExactly` | internal/decision/evaluator.go:11-85 | with a snapshot that holds, the first fault in the order stale, contradicted, too wide, too few sources, unbound is the reason |
| `EvidenceGate.AuthorizationBinds` | internal/decision/evaluator.go:60-85 | one authorization serves only one action, target and version, one expiry and the same plain evidence, or the hash collides |
| `EvidenceGate.DecidePermutation` | internal/decision/evaluator.go:11-85 | the decision and the authorization are invariant under any permutation of the evidence |
| `EvidenceGate.NeverCured` | internal/decision/evaluator.go:18-43 | stale or contradictory evidence never becomes ALLOW by appending observations or advancing the clock |
| `EvidenceGate.ResolveUnknown` | internal/decision/acquisition.go:43-129 | at most maxAttempts acquisitions, each on another READ_ONLY probe; the effective request is the old one followed by exactly the answers these probes gave at their turn, its clock the latest time and its version the last one named; the final decision is the gate's on it, and a cure needs an acquisition |
| `EvidenceGate.Acquire` | internal/decision/acquisition.go:60-126 | the loop makes one complete run of the probes: each is passed over, asked in vain or taken at the request it meets, until the gate is satisfied, the context is cancelled or the budget is spent |
| `EvidenceGate.TakenExactly` | internal/decision/acquisition.go:64-118 | an answer is taken exactly from a supporting READ_ONLY probe and only with named, attributed, dated observations or a version |
| `EvidenceGate.RunDetermined` | internal/decision/acquisition.go:60-126 | probes, request and budget admit only one complete run |
| `EvidenceGate.AcquisitionMeaning` | internal/decision/acquisition.go:60-126 | in a complete run every added observation is in the answer of a READ_ONLY probe, no probe is asked twice or beyond the budget, and nothing changes unless one is asked |
| `EvidenceGate.ReconcileContradiction` | internal/decision/reconciliation.go:11-102 | the same bounds; the evidence that remains is exactly what the probes answered, none of the old; with a positive source count ALLOW needs that many sources among these answers |
| `EvidenceGate.EmptyEpochAllows` | internal/decision/reconciliation.go:28-31 | with no evidence at all the gate allows exactly when no source count is required and everything else is in order |
| `EvidenceGate.NoProbeNeeded` | internal/decision/reconciliation.go:28-31 | a contradicted request that a fresh epoch allows without any probe |
| `PrimitiveReduction.EvaluateAdmission` | experiments/primitivereduction/model.go:172-228 | the loops give the declared first reason, and no reason exactly when the proposal is allowed |
| `PrimitiveReduction.ComparesExactly` | experiments/primitivereduction/model.go:230-274 | what every comparison means on written numbers; outside 64 bits only equality is known |
| `AdmissionMeaning.AllowedMeaning` | experiments/primitivereduction/model.go:172-228 | a six-primitive proposal is allowed exactly if subject, state and transition fit, the capability is the transition's own, evidence is complete and valid for the state, and every constraint cites evidence and is true of the facts |
| `AdmissionMeaning.ReducedMeaning` | experiments/primitivereduction/capability_reduction.go:42-113 | the same without capability: the authority is cited instead, and constraints may read the proposal |
| `AdmissionMeaning.DecomposedMeaning` | experiments/primitivereduction/evidence_decomposition.go:109-173 | the same without evidence records: every constraint is attested, every attestation bound to the proposal and one constraint |
| `AdmissionMeaning.ConstraintFreeMeaning` | experiments/primitivereduction/constraint_elimination.go:120-166 | the same without constraints: a listed issuer's valid ALLOW for exactly this proposal |
| `PrimitiveReduction.EvaluateReduced` | experiments/primitivereduction/capability_reduction.go:42-113 | the same for the reduced proposal, including cited authority evidence |
| `PrimitiveReduction.ReductionEquivalent` | experiments/primitivereduction/capability_reduction.go:171-201 | with reserved names unused, a proposal is allowed exactly when its reduction is and it has a constraint |
| `PrimitiveReduction.ReductionExact` | experiments/primitivereduction/capability_reduction.go:42-201 | for every proposal: the reduced evaluator admits exactly those in order whose constraints hold with reserved facts read from the proposal and derived evidence citable; the original evaluator those whose constraints, at least one, hold on stored facts and own evidence |
| `PrimitiveReduction.ReservedNameBreaksReduction` | experiments/primitivereduction/capability_reduction.go:115-201 | a denied proposal with a reserved fact name whose reduction is allowed |
| `PrimitiveReduction.MintUndoesReduce` | experiments/primitivereduction/capability_reduction.go:206-215 | minting from the reduction of an allowed proposal gives its capability back |
| `PrimitiveReduction.AttestationIgnoresOrder` | experiments/primitivereduction/evidence_decomposition.go:67-102 | the attestation digest does not depend on the order of a constraint's predicates |
| `PrimitiveReduction.EvaluateDecomposed` | experiments/primitivereduction/evidence_decomposition.go:109-173 | gives the declared first reason, and allows exactly with distinct complete constraints, good attestations, and every constraint vouched for and true |
| `PrimitiveReduction.DecomposeEvidence` | experiments/primitivereduction/evidence_decomposition.go:225-268 | the loops build the declared decomposition |
| `PrimitiveReduction.DecompositionExact` | experiments/primitivereduction/evidence_decomposition.go:225-268 | the decomposition of any reduced proposal is allowed exactly when its evidence-free core holds and its constraint ids are distinct |
| `PrimitiveReduction.DecompositionPreserves` | experiments/primitivereduction/evidence_decomposition.go:225-268 | an allowed reduced proposal stays allowed exactly when its constraint ids are distinct |
| `PrimitiveReduction.DecompositionForgetsEvidence` | experiments/primitivereduction/evidence_decomposition.go:221-244 | a denied reduced proposal whose decomposition is allowed |
| `PrimitiveReduction.EvaluateTrustBound` | experiments/primitivereduction/provenance_necessity.go:135-156 | gives the declared first reason, and allows exactly with a usable trust state, an allowed proposal and every issuer trusted |
| `PrimitiveReduction.BuildTrustState` | experiments/primitivereduction/provenance_necessity.go:101-127 | the loops build the declared trust state, its digest over the sorted facts |
| `PrimitiveReduction.TrustStateMeaning` | experiments/primitivereduction/provenance_necessity.go:91-127 | the built state trusts exactly the complete listed issuers, up to their fact name |
| `PrimitiveReduction.TrustFactAmbiguousIff` | experiments/primitivereduction/provenance_necessity.go:91-93 | another issuer has the same fact name exactly when the kind or the id holds a colon |
| `PrimitiveReduction.TrustStateExact` | experiments/primitivereduction/provenance_necessity.go:91-127 | for an issuer without colons, trusted means listed and complete |
| `PrimitiveReduction.TrustFactAmbiguous` | experiments/primitivereduction/provenance_necessity.go:91-93 | two different issuers with one fact name |
| `PrimitiveReduction.CompactIsAllowed` | experiments/primitivereduction/constraint_elimination.go:82-166 | the constraint-free proposal built from an admitted source is allowed by the constraint-free evaluator |
| `PrimitiveReduction.AttestationNotRebound` | experiments/primitivereduction/constraint_elimination.go:50-74 | if the proposal an admission attestation was issued for holds no NUL, every allowed proposal that carries it has the same subject, target key, version, digest, operation and from and to references, or the hash collides on the two texts |
| `PrimitiveReduction.SubjectReboundIff` | experiments/primitivereduction/constraint_elimination.go:50-166 | an attestation is accepted for another subject, all else and the hashed text unchanged, exactly when its subject's id holds a NUL after the first character or the kind one before the last |
| `PrimitiveReduction.DecisionTextAmbiguousIff` | experiments/primitivereduction/constraint_elimination.go:50-74 | the hashed text has another reading of as many parts exactly when some part holds a NUL |
| `PrimitiveReduction.NulRebindsAttestation` | experiments/primitivereduction/constraint_elimination.go:50-74 | one attestation accepted for two subjects that hold a NUL |
| `PrimitiveReduction.ChainPreservesAdmission` | experiments/primitivereduction/constraint_elimination.go:82-166 | an allowed six-primitive proposal passes the whole chain exactly when its constraint ids are usable and its attestors and policy issuer are trusted |

## Left out

- Everything under `cmd/` and `scripts/`, HTTP transport, file durability and database sessions: replaced by atomic stores and arbitrary replies.
- SHA-256, Ed25519, base64, PEM and the Go JSON decoder and encoder: functions of an oracle or parameters; only the canonical emitter, the length framing and the separator joins are concrete.
- Error texts, detail strings, report message lists (counted only), record lists and digest maps inside reconciliation results.
- White space outside ASCII, which `strings.TrimSpace` also removes.
- Nil adapters and verifiers of the reference runtime, except the nil callbacks of `Dispatch`; missing measurement verifiers are part of the oracle.
- `internal/kernelfabric`, `internal/journal`, `internal/ege` and the epistemic layer: their verdicts are inputs; the independence assessment of sources is one boolean.
- `live_root*.go`, `device_binding.go`, `durable_enrollment.go`, `governed_successor_enrollment.go`, `platform_measurement.go`: equality checks on types that are not part of this model.
- `governedaction/approval_use.go`, `credential_use.go`, `origin.go`, `taint.go`, `internal/assurance/temporal_gate.go`, `ValidateAuthorization`: field-by-field comparisons that would only add easy members.
- `experiments/acpbasis/model.py` and the remaining necessity experiments: finite or weaker restatements of the custody machine.
- `MaterializeEvidence`, `BuildReceipt`, `Reconcile` and the derived relations of `experiments/primitivereduction/model.go`.
- Verifier.CheckpointPinsHistory: assumes that the JSON encoding of a history entry is injective, because that encoder is not modelled.
- CrmRecordMeaning.OutcomeTamperEvident: assumes that the JSON encoding of an outcome, and for closures of a closure, is injective, because that encoder is not modelled.
- CanonicalJson.CanonicalBijection: the nesting limit of 128 levels belongs to the decoder and is not modelled.
- SettlementLadder.RootExecution: digests of the completion attestation and of the measurements are total, because the layers below have already validated both.
- PrimitiveReduction.AttestationNotRebound: for an attestation issued for parts without NUL; with a NUL the other readings that keep state and transition are characterised (`SubjectReboundIff`), those that also move state or transition fields are not.
- EvidenceGate.Acquire: a probe is a function of the request it is asked about, which loses nothing because each is asked at most once; attempt records and their error texts are not kept.
- CrmAttempts.AtMostOnePatch: the protocol of one attempt id; records of different ids are different files, as `CrmStore.FileAttemptStore` shows.
