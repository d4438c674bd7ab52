/** What a verified evaluation, outcome or closure record of a CRM attempt (internal/eepcrm) says,
    and that none can be altered without showing. */
module CrmRecordMeaning {
  import opened Text
  import opened Framing
  import opened Postcondition
  import opened CrmEvidence
  import Attempts = CrmAttempts

  /******* Evaluations *******/

  function SatisfiedAt(fields: seq<Field>): set<nat> { set i: nat | i < |fields| && fields[i].satisfied }

  /** One field per path in path order, satisfied ones with the expected value observed, and a
      result that says whether all, none or some of them are. */
  predicate Tells(e: Evaluation) {
    e.profile == "aegis.eep/crm-postcondition/v1" && e.total == |e.fields| > 0 &&
    (forall i, j :: 0 <= i < j < |e.fields| ==> Less(e.fields[i].path, e.fields[j].path)) &&
    (forall i :: 0 <= i < |e.fields| ==>
       e.fields[i].path != "" && e.fields[i].expectedDigest != "" &&
       (e.fields[i].satisfied ==> e.fields[i].present && e.fields[i].observedDigest == e.fields[i].expectedDigest)) &&
    e.matched == |SatisfiedAt(e.fields)| &&
    ((e.result == Verified && forall i :: 0 <= i < |e.fields| ==> e.fields[i].satisfied) ||
     (e.result == Unsatisfied && forall i :: 0 <= i < |e.fields| ==> !e.fields[i].satisfied) ||
     (e.result == Partial && (exists i :: 0 <= i < |e.fields| && e.fields[i].satisfied) &&
      exists i :: 0 <= i < |e.fields| && !e.fields[i].satisfied))
  }

  lemma SatisfiedAtNext(fields: seq<Field>)
    requires fields != []
    ensures var n := |fields| - 1; |SatisfiedAt(fields)| == |SatisfiedAt(fields[..n])| + (if fields[n].satisfied then 1 else 0)
  {
    var n := |fields| - 1;
    var front := fields[..n];
    assert SatisfiedAt(fields) == SatisfiedAt(front) + (if fields[n].satisfied then {n} else {}) by {
      assert forall i :: 0 <= i < n ==> front[i] == fields[i];
    }
  }

  lemma {:induction false} SatisfiedMeaning(fields: seq<Field>)
    ensures Satisfied(fields) == |SatisfiedAt(fields)| <= |fields|
    ensures Satisfied(fields) == |fields| <==> forall i :: 0 <= i < |fields| ==> fields[i].satisfied
    ensures Satisfied(fields) == 0 <==> forall i :: 0 <= i < |fields| ==> !fields[i].satisfied
    decreases |fields|
  {
    if fields != [] {
      var n := |fields| - 1;
      var front := fields[..n];
      SatisfiedMeaning(front);
      assert forall i :: 0 <= i < n ==> front[i] == fields[i];
      SatisfiedAtNext(fields);
      hide Satisfied, SatisfiedAt;
      SatisfiedNext(fields, n);
      assert fields[..n + 1] == fields;
    }
  }

  lemma EvaluationMeaning(e: Evaluation)
    ensures ValidEvaluation(e) <==> Tells(e)
  {
    hide Less, Satisfied, SatisfiedAt;
    SatisfiedMeaning(e.fields);
    if PathsAscend(e.fields) {
      forall i, j | 0 <= i < j < |e.fields| ensures Less(e.fields[i].path, e.fields[j].path) { PathsTransitive(e.fields, i, j); }
    }
  }

  /******* Outcomes *******/

  /** The status that goes with what is known of the request. */
  predicate StatusKnown(o: Outcome) {
    (o.acceptance == NotDispatched && o.httpStatus == 0) || (o.acceptance == RequestAccepted && o.httpStatus / 100 == 2) ||
    (o.acceptance == AcceptanceUnknown && o.httpStatus / 100 != 2)
  }

  /** What each result rests on: a read before any PATCH that left everything as it was, three
      stable reads after one, or reads that failed or disagreed after one. */
  predicate Rests(o: Outcome) {
    (o.result == AlreadySatisfied && o.acceptance == NotDispatched && o.status == PreMutation && o.count == 1 &&
     o.afterDigest == o.beforeDigest != "" && o.postcondition.Some? && o.postcondition.value.result == Verified) ||
    (o.result in {Verified, Partial, Unsatisfied} && o.acceptance != NotDispatched && o.status == Stable && o.count == 3 &&
     o.afterDigest != "" && o.postcondition.Some? && o.postcondition.value.result == o.result) ||
    (o.result == Unknown && o.acceptance != NotDispatched && o.status in {Unavailable, Contradictory, WrongTarget})
  }

  lemma OutcomeMeaning(d: Digests, o: Outcome)
    ensures VerifiedOutcome(d, o) <==>
      o.version == "aegis.eep/crm-outcome/v0alpha2" && o.profile == "aegis.eep/crm-postcondition/v1" &&
      !Blank(o.intentId) && !Blank(o.target) && !Blank(o.packetDigest) && !Blank(o.permitDigest) && !Blank(o.planDigest) &&
      !Blank(o.beforeDigest) && o.count >= 0 && (o.postcondition.Some? ==> Tells(o.postcondition.value)) && StatusKnown(o) && Rests(o) &&
      o.integrity == "sha256:" + d.h(d.outcomeText(o.(integrity := "")))
  {
    hide Blank, Tells, ValidEvaluation;
    if o.postcondition.Some? { EvaluationMeaning(o.postcondition.value); }
  }

  ghost predicate Injective<T(!new)>(text: T -> string) { forall a, b :: text(a) == text(b) ==> a == b }

  /** Two verified outcomes with one integrity digest are one outcome, unless the hash collides on
      their texts. */
  lemma OutcomeTamperEvident(d: Digests, o: Outcome, x: Outcome)
    requires Injective(d.outcomeText) && VerifiedOutcome(d, o) && VerifiedOutcome(d, x) && o.integrity == x.integrity
    ensures o == x || Collide(d.h, d.outcomeText(o.(integrity := "")), d.outcomeText(x.(integrity := "")))
  {
    hide ValidOutcome;
    var a, b := o.(integrity := ""), x.(integrity := "");
    assert OutcomeDigest(d, o)[7..] == d.h(d.outcomeText(a)) && OutcomeDigest(d, x)[7..] == d.h(d.outcomeText(b));
    if d.outcomeText(a) == d.outcomeText(b) {
      assert a == b;
      assert o == a.(integrity := o.integrity) && x == b.(integrity := x.integrity);
    }
  }

  /******* Closures *******/

  /** What each disposition keeps: nothing once stable reads completed the attempt, and residual
      custody as long as it is pending or when it is retired. */
  predicate Disposes(c: Closure) {
    (c.disposition == ObservedCompleted && c.after == Attempts.Completed && !c.residualCustody && c.result != Unknown &&
     c.status == Stable && c.count == 3 && c.postcondition.Some?) ||
    (c.disposition == ObservationPending && c.after == c.before && c.residualCustody) ||
    (c.disposition == RetiredUnknown && c.after == Attempts.RetiredUnknown && c.residualCustody && c.result == Unknown && c.status == Unavailable)
  }

  lemma ClosureMeaning(d: Digests, c: Closure)
    ensures VerifiedClosure(d, c) <==>
      c.version == "aegis.eep/crm-closure/v1" && !Blank(c.attemptId) && !Blank(c.intentId) && !Blank(c.target) && !Blank(c.permitDigest) &&
      !Blank(c.planDigest) && !Blank(c.destinationId) && !Blank(c.accountId) && !Blank(c.observationHandle) && c.observedAt.Some? &&
      !c.newMutation && c.count >= 0 && (c.postcondition.Some? ==> Tells(c.postcondition.value)) && Disposes(c) &&
      c.integrity == "sha256:" + d.h(d.closureText(c.(integrity := "")))
  {
    hide Blank, Tells, ValidEvaluation;
    if c.postcondition.Some? { EvaluationMeaning(c.postcondition.value); }
    ShaNotBlank(d.h(d.closureText(c.(integrity := ""))));
  }

  lemma ClosureTamperEvident(d: Digests, c: Closure, x: Closure)
    requires Injective(d.closureText) && VerifiedClosure(d, c) && VerifiedClosure(d, x) && c.integrity == x.integrity
    ensures c == x || Collide(d.h, d.closureText(c.(integrity := "")), d.closureText(x.(integrity := "")))
  {
    hide ValidClosure, Blank;
    var a, b := c.(integrity := ""), x.(integrity := "");
    assert ClosureDigest(d, c)[7..] == d.h(d.closureText(a)) && ClosureDigest(d, x)[7..] == d.h(d.closureText(b));
    if d.closureText(a) == d.closureText(b) {
      assert a == b;
      assert c == a.(integrity := c.integrity) && x == b.(integrity := x.integrity);
    }
  }
}
