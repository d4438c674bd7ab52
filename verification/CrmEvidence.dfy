/** Outcome and closure records of a CRM attempt (internal/eepcrm/executor.go,
    recovery.go): what the validators demand, and that everything the executor builds
    meets it. */
module CrmEvidence {
  import opened Text
  import opened Framing
  import opened Postcondition
  import Attempts = CrmAttempts

  const OUTCOME_VERSION := "aegis.eep/crm-outcome/v0alpha2"
  const CLOSURE_VERSION := "aegis.eep/crm-closure/v1"

  datatype Acceptance = NotDispatched | RequestAccepted | AcceptanceUnknown

  datatype Status = PreMutation | Stable | Unavailable | Contradictory | WrongTarget

  datatype Outcome = Outcome(version: string, profile: string, intentId: string, target: string,
                             packetDigest: string, permitDigest: string, planDigest: string,
                             beforeDigest: string, afterDigest: string, result: Result,
                             acceptance: Acceptance, status: Status, count: int,
                             postcondition: Option<Evaluation>, httpStatus: int, observedAt: int, integrity: string)

  datatype Disposition = ObservationPending | ObservedCompleted | RetiredUnknown

  datatype Closure = Closure(version: string, attemptId: string, intentId: string, target: string,
                             permitDigest: string, planDigest: string, destinationId: string, accountId: string,
                             observationHandle: string, before: Attempts.AttemptState, after: Attempts.AttemptState,
                             disposition: Disposition, result: Result, acceptance: Acceptance, status: Status,
                             count: int, postcondition: Option<Evaluation>, residualCustody: bool,
                             newMutation: bool, detail: string, observedAt: Option<int>, integrity: string)

  /** `h` is hexadecimal SHA-256, the others are `json.Marshal` of the two records. */
  datatype Digests = Digests(h: string -> string, outcomeText: Outcome -> string, closureText: Closure -> string)

  function Sha(hash: string): string { "sha256:" + hash }

  lemma ShaNotBlank(hash: string)
    ensures Sha(hash) != "" && !Blank(Sha(hash))
  {
    StartNotBlank("sha256:" + hash);
  }

  /** A string that starts with a visible character survives trimming. */
  lemma StartNotBlank(s: string)
    requires s != "" && !IsSpace(s[0])
    ensures !Blank(s)
  {
    TrimRightKeepsFirst(s);
  }

  lemma {:induction false} TrimRightKeepsFirst(s: string)
    requires s != "" && !IsSpace(s[0])
    ensures TrimRight(s) != ""
  {
    if IsSpace(s[|s| - 1]) { TrimRightKeepsFirst(s[..|s| - 1]); }
  }

  /******* Outcomes *******/

  predicate AcceptanceFits(o: Outcome) {
    match o.acceptance
    case NotDispatched => o.httpStatus == 0
    case RequestAccepted => 200 <= o.httpStatus < 300
    case AcceptanceUnknown => !(200 <= o.httpStatus < 300)
  }

  predicate ResultFits(o: Outcome) {
    match o.result
    case AlreadySatisfied =>
      o.acceptance == NotDispatched && o.status == PreMutation && o.count == 1 && o.httpStatus == 0 &&
      o.afterDigest != "" && o.afterDigest == o.beforeDigest &&
      o.postcondition.Some? && o.postcondition.value.result == Verified
    case Unknown =>
      o.acceptance != NotDispatched && (o.status == Unavailable || o.status == Contradictory || o.status == WrongTarget)
    case _ =>
      o.acceptance != NotDispatched && o.status == Stable && o.count == 3 && o.afterDigest != "" &&
      o.postcondition.Some? && o.postcondition.value.result == o.result
  }

  /** `validateOutcomeSemantics` */
  predicate ValidOutcome(o: Outcome) {
    o.profile == PROFILE && !Blank(o.intentId) && !Blank(o.target) && !Blank(o.packetDigest) &&
    !Blank(o.permitDigest) && !Blank(o.planDigest) && !Blank(o.beforeDigest) && o.count >= 0 &&
    (o.postcondition.Some? ==> ValidEvaluation(o.postcondition.value)) && AcceptanceFits(o) && ResultFits(o)
  }

  function OutcomeDigest(d: Digests, o: Outcome): string { Sha(d.h(d.outcomeText(o.(integrity := "")))) }

  /** `newOutcomeEvidence` */
  function NewOutcome(d: Digests, o: Outcome): Option<Outcome> {
    if ValidOutcome(o) then Some(o.(integrity := OutcomeDigest(d, o))) else None
  }

  /** `VerifyOutcome` */
  predicate VerifiedOutcome(d: Digests, o: Outcome) {
    o.version == OUTCOME_VERSION && ValidOutcome(o) && o.integrity != "" && o.integrity == OutcomeDigest(d, o)
  }

  /** Every outcome that is built at all passes its own verifier. */
  lemma BuiltOutcomeVerifies(d: Digests, o: Outcome)
    requires o.version == OUTCOME_VERSION && NewOutcome(d, o).Some?
    ensures VerifiedOutcome(d, NewOutcome(d, o).value)
  {
    hide Blank, ValidEvaluation;
    var built := NewOutcome(d, o).value;
    ShaNotBlank(d.h(d.outcomeText(o.(integrity := ""))));
    assert built.(integrity := "") == o.(integrity := "");
  }

  /** The identities `Execute` puts on every outcome. */
  datatype Ids = Ids(intentId: string, customer: string, packetDigest: string, permitHash: string,
                     planHash: string, beforeHash: string, now: int)

  function OutcomeOf(ids: Ids, after: string, result: Result, acceptance: Acceptance, status: Status, count: int,
                     evaluation: Option<Evaluation>, httpStatus: int): Outcome {
    Outcome(OUTCOME_VERSION, PROFILE, ids.intentId, "customer/" + ids.customer, ids.packetDigest, Sha(ids.permitHash),
            Sha(ids.planHash), Sha(ids.beforeHash), after, result, acceptance, status, count, evaluation, httpStatus, ids.now, "")
  }

  /** Established before the attempt is claimed. */
  predicate Identified(ids: Ids) { !Blank(ids.intentId) && !Blank(ids.packetDigest) }

  lemma IdentitiesPresent(ids: Ids)
    ensures !Blank("customer/" + ids.customer) && !Blank(Sha(ids.permitHash)) && !Blank(Sha(ids.planHash)) && !Blank(Sha(ids.beforeHash))
  {
    StartNotBlank("customer/" + ids.customer);
    ShaNotBlank(ids.permitHash);
    ShaNotBlank(ids.planHash);
    ShaNotBlank(ids.beforeHash);
  }

  lemma OutcomeBuilds(d: Digests, ids: Ids, after: string, result: Result, acceptance: Acceptance, status: Status,
                      count: int, evaluation: Option<Evaluation>, httpStatus: int)
    requires Identified(ids) && count >= 0
    requires var o := OutcomeOf(ids, after, result, acceptance, status, count, evaluation, httpStatus);
      AcceptanceFits(o) && ResultFits(o)
    ensures NewOutcome(d, OutcomeOf(ids, after, result, acceptance, status, count, evaluation, httpStatus)).Some?
       <==> (evaluation.Some? ==> ValidEvaluation(evaluation.value))
  {
    IdentitiesPresent(ids);
    hide Blank, ValidEvaluation;
  }

  /** Before dispatch: the precondition read already satisfied the patch. */
  lemma SatisfiedOutcomeBuilds(d: Digests, ids: Ids, plan: Plan, state: map<string, Json>)
    requires Identified(ids) && Usable(plan) && Evaluated(d.h, plan, state).result == Verified
    ensures NewOutcome(d, SatisfiedOutcome(d, ids, plan, state)).Some? <==> OrderKept(plan.patch.Keys)
  {
    hide Blank, Evaluated, ValidEvaluation, OrderKept;
    EvaluationValidates(d.h, plan, state);
    ShaNotBlank(ids.beforeHash);
    OutcomeBuilds(d, ids, Sha(ids.beforeHash), AlreadySatisfied, NotDispatched, PreMutation, 1,
                  Some(Evaluated(d.h, plan, state)), 0);
  }

  ghost function SatisfiedOutcome(d: Digests, ids: Ids, plan: Plan, state: map<string, Json>): Outcome {
    OutcomeOf(ids, Sha(ids.beforeHash), AlreadySatisfied, NotDispatched, PreMutation, 1, Some(Evaluated(d.h, plan, state)), 0)
  }

  /******* Observation after dispatch *******/

  datatype Observation = Observation(evaluation: Option<Evaluation>, afterDigest: string, status: Status, count: int, failed: bool)

  ghost predicate Built(h: string -> string, plan: Plan, e: Evaluation) {
    exists s :: e == Evaluated(h, plan, s)
  }

  /** What `observePostcondition` returns, whatever the destination answers. */
  ghost predicate Observes(h: string -> string, plan: Plan, o: Observation) {
    0 <= o.count <= 3 && (o.evaluation.Some? ==> Built(h, plan, o.evaluation.value)) &&
    if o.failed then o.status == Unavailable || o.status == Contradictory || o.status == WrongTarget
    else o.status == Stable && o.count == 3 && o.evaluation.Some? && o.afterDigest != ""
  }

  /** A PATCH answer: an error-free answer is a 2xx status and no other is. */
  function AcceptanceOf(httpStatus: int): Acceptance {
    if 200 <= httpStatus < 300 then RequestAccepted else AcceptanceUnknown
  }

  function ObservedOutcome(ids: Ids, o: Observation, httpStatus: int): Outcome {
    OutcomeOf(ids, o.afterDigest, if o.failed || o.evaluation == None then Unknown else o.evaluation.value.result,
              AcceptanceOf(httpStatus), o.status, o.count, o.evaluation, httpStatus)
  }

  lemma BuiltValidates(h: string -> string, plan: Plan, e: Evaluation)
    requires Usable(plan) && Built(h, plan, e)
    ensures ValidEvaluation(e) <==> OrderKept(plan.patch.Keys)
    ensures e.result == Verified || e.result == Partial || e.result == Unsatisfied
  {
    hide ValidEvaluation, OrderKept, Blank;
    var s :| e == Evaluated(h, plan, s);
    EvaluationValidates(h, plan, s);
  }

  /** After dispatch: with or without a stable observation, and whatever the status. */
  lemma ObservedOutcomeBuilds(d: Digests, ids: Ids, plan: Plan, o: Observation, httpStatus: int)
    requires Identified(ids) && Usable(plan) && Observes(d.h, plan, o)
    ensures NewOutcome(d, ObservedOutcome(ids, o, httpStatus)).Some? <==> (o.evaluation.Some? ==> OrderKept(plan.patch.Keys))
  {
    hide Blank, ValidEvaluation, OrderKept, Built;
    if o.evaluation.Some? { BuiltValidates(d.h, plan, o.evaluation.value); }
    OutcomeBuilds(d, ids, o.afterDigest, if o.failed || o.evaluation == None then Unknown else o.evaluation.value.result,
                  AcceptanceOf(httpStatus), o.status, o.count, o.evaluation, httpStatus);
  }

  /******* Closures *******/

  predicate DispositionFits(c: Closure) {
    match c.disposition
    case ObservedCompleted =>
      c.after == Attempts.Completed && !c.residualCustody && c.status == Stable && c.count == 3 &&
      c.postcondition.Some? && c.result != Unknown
    case ObservationPending => c.after == c.before && c.residualCustody
    case RetiredUnknown =>
      c.after == Attempts.RetiredUnknown && c.result == Unknown && c.residualCustody && c.status == Unavailable
  }

  /** `validateClosureEvidence` */
  predicate ValidClosure(c: Closure) {
    c.version == CLOSURE_VERSION && !Blank(c.attemptId) && !Blank(c.intentId) && !Blank(c.target) &&
    !Blank(c.permitDigest) && !Blank(c.planDigest) && !Blank(c.destinationId) && !Blank(c.accountId) &&
    !Blank(c.observationHandle) && c.observedAt.Some? && !c.newMutation && c.count >= 0 &&
    (c.postcondition.Some? ==> ValidEvaluation(c.postcondition.value)) && DispositionFits(c)
  }

  function ClosureDigest(d: Digests, c: Closure): string { Sha(d.h(d.closureText(c.(integrity := "")))) }

  /** `newClosureEvidence` */
  function NewClosure(d: Digests, c: Closure): Option<Closure> {
    if ValidClosure(c) then Some(c.(integrity := ClosureDigest(d, c))) else None
  }

  /** `VerifyClosureEvidence` */
  predicate VerifiedClosure(d: Digests, c: Closure) {
    c.version == CLOSURE_VERSION && ValidClosure(c) && !Blank(c.integrity) && c.integrity == ClosureDigest(d, c)
  }

  lemma BuiltClosureVerifies(d: Digests, c: Closure)
    requires NewClosure(d, c).Some?
    ensures VerifiedClosure(d, NewClosure(d, c).value)
  {
    hide Blank, ValidEvaluation;
    var built := NewClosure(d, c).value;
    ShaNotBlank(d.h(d.closureText(c.(integrity := ""))));
    assert built.(integrity := "") == c.(integrity := "");
  }

  /** The durable record, without its timestamps and HTTP fields. */
  datatype Record = Record(attemptId: string, intentId: string, permitDigest: string, planDigest: string,
                           destinationId: string, accountId: string, customerId: string, observationHandle: string,
                           state: Attempts.AttemptState)

  /** The part of `validateAttemptRecord` a closure depends on; `Load` enforces it. */
  predicate RecordComplete(r: Record) {
    !Blank(r.attemptId) && !Blank(r.intentId) && !Blank(r.permitDigest) && !Blank(r.planDigest) &&
    !Blank(r.destinationId) && !Blank(r.accountId) && !Blank(r.observationHandle)
  }

  function AcceptanceForState(s: Attempts.AttemptState): Acceptance {
    if s == Attempts.Accepted then RequestAccepted else AcceptanceUnknown
  }

  function ClosureOf(r: Record, after: Attempts.AttemptState, disposition: Disposition, result: Result,
                     status: Status, count: int, evaluation: Option<Evaluation>, residual: bool,
                     detail: string, at: Option<int>): Closure {
    Closure(CLOSURE_VERSION, r.attemptId, r.intentId, "customer/" + r.customerId, r.permitDigest, r.planDigest,
            r.destinationId, r.accountId, r.observationHandle, r.state, after, disposition, result,
            AcceptanceForState(r.state), status, count, evaluation, residual, false, Trim(detail), at, "")
  }

  /** The closure `ReconcileAttempt` builds from an observation. */
  function ReconciledClosure(r: Record, o: Observation, detail: string, at: Option<int>): Closure {
    var result := if o.failed || o.evaluation == None then Unknown else o.evaluation.value.result;
    if o.failed || (r.state == Attempts.PossibleEffect && result != Verified)
    then ClosureOf(r, r.state, ObservationPending, result, o.status, o.count, o.evaluation, true, detail, at)
    else ClosureOf(r, Attempts.Completed, ObservedCompleted, result, o.status, o.count, o.evaluation, false, detail, at)
  }

  function RetiredClosure(r: Record, reason: string, at: Option<int>): Closure {
    ClosureOf(r, Attempts.RetiredUnknown, RetiredUnknown, Unknown, Unavailable, 0, None, true, reason, at)
  }

  lemma TargetPresent(r: Record)
    ensures !Blank("customer/" + r.customerId)
  {
    StartNotBlank("customer/" + r.customerId);
  }

  /** Whatever recovery observes, its closure record builds exactly when the patch
      keys keep their order, or nothing was evaluated. */
  lemma ReconciledClosureBuilds(d: Digests, r: Record, plan: Plan, o: Observation, detail: string, at: int)
    requires RecordComplete(r) && Usable(plan) && Observes(d.h, plan, o)
    ensures NewClosure(d, ReconciledClosure(r, o, detail, Some(at))).Some? <==> (o.evaluation.Some? ==> OrderKept(plan.patch.Keys))
  {
    TargetPresent(r);
    hide Blank, ValidEvaluation, OrderKept, Built, Trim;
    if o.evaluation.Some? { BuiltValidates(d.h, plan, o.evaluation.value); }
  }

  /** Retirement always builds. */
  lemma RetiredClosureBuilds(d: Digests, r: Record, reason: string, at: int)
    requires RecordComplete(r)
    ensures NewClosure(d, RetiredClosure(r, reason, Some(at))).Some?
  {
    TargetPresent(r);
    hide Blank, ValidEvaluation, Trim;
  }
}
