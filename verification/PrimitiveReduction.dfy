/** The chain of representations of one governed action
    (experiments/primitivereduction): six primitives, then without capability, without
    evidence records, with trusted issuers, and finally without constraints. */
module PrimitiveReduction {
  import opened Text
  import opened Framing
  import Streams

  /******* Representations *******/

  datatype Identity = Identity(id: string, kind: string) {
    predicate Complete() { id != "" && kind != "" }
  }

  datatype StateRef = StateRef(space: string, objectId: string, version: string, digest: string, facts: map<string, string>) {
    function TargetKey(): string { if space == "" || objectId == "" then "" else space + ":" + objectId }

    predicate Complete() { TargetKey() != "" && version != "" && digest != "" }
  }

  datatype Capability = Capability(name: string, subjectId: string, targetKey: string) {
    predicate Complete() { name != "" && subjectId != "" && targetKey != "" }
  }

  datatype Predicate = Predicate(fact: string, op: string, value: string)

  datatype Constraint = Constraint(id: string, predicates: seq<Predicate>, evidenceIds: seq<string>) {
    predicate Complete() { id != "" && predicates != [] && evidenceIds != [] }
  }

  datatype Evidence = Evidence(id: string, kind: string, stateDigest: string, valid: bool) {
    predicate Complete() { id != "" && kind != "" && stateDigest != "" }
  }

  datatype Transition = Transition(operation: string, from: StateRef, to: StateRef) {
    predicate Complete() { operation != "" && from.Complete() && to.Complete() }
  }

  datatype Proposal = Proposal(subject: Identity, current: StateRef, capability: Capability,
                               constraints: seq<Constraint>, evidence: seq<Evidence>, transition: Transition)

  datatype Reduced = Reduced(subject: Identity, current: StateRef, constraints: seq<Constraint>,
                             evidence: seq<Evidence>, transition: Transition)

  datatype Semantic = Semantic(id: string, predicates: seq<Predicate>) {
    predicate Complete() { id != "" && predicates != [] }
  }

  datatype Attestation = Attestation(id: string, issuer: Identity, constraintId: string, bindingDigest: string, valid: bool) {
    predicate Complete() { id != "" && issuer.Complete() && constraintId != "" && bindingDigest != "" }
  }

  datatype Decomposed = Decomposed(subject: Identity, current: StateRef, constraints: seq<Semantic>,
                                   attestations: seq<Attestation>, transition: Transition)

  datatype Reason =
    | MissingIdentity | MissingState | MissingCapability | MissingConstraint | MissingEvidence | MissingTransition
    | BindingMismatch | EvidenceInvalid | ConstraintUnknown | ConstraintViolated

  /******* Predicates over facts *******/

  /** `strconv.ParseInt(s, 10, 64)` */
  function ParseInt(s: string): Option<int> {
    var negative := s != "" && s[0] == '-';
    var digits := if s != "" && (s[0] == '-' || s[0] == '+') then s[1..] else s;
    if digits == "" || !AllDigits(digits) then None
    else
      var magnitude: int := Value(digits);
      var n := if negative then -magnitude else magnitude;
      if Streams.MIN_INT64 <= n <= Streams.MAX_INT64 then Some(n) else None
  }

  /** The comparison of a known value; `None` is an unknown comparison. */
  function Compares(actual: string, p: Predicate): Option<bool> {
    if p.op == "EQ" then Some(actual == p.value)
    else if p.op == "NEQ" then Some(actual != p.value)
    else match (ParseInt(actual), ParseInt(p.value))
      case (Some(left), Some(right)) =>
        if p.op == "LT_INT" then Some(left < right)
        else if p.op == "LTE_INT" then Some(left <= right)
        else if p.op == "GT_INT" then Some(left > right)
        else if p.op == "GTE_INT" then Some(left >= right)
        else None
      case _ => None
  }

  /** A number as a decision writes it. */
  function Written(n: int): string { if n < 0 then "-" + Decimal(-n) else Decimal(n) }

  predicate IsInt64(n: int) { -0x8000_0000_0000_0000 <= n <= 0x7FFF_FFFF_FFFF_FFFF }

  /** A written number is read back exactly if it is a signed 64-bit one. */
  lemma WrittenIsRead(n: int)
    ensures ParseInt(Written(n)) == if IsInt64(n) then Some(n) else None
  {
    var m := if n < 0 then -n else n;
    DecimalValue(m);
    var t := Decimal(m);
    assert IsDigit(t[0]);
    if n < 0 { assert ("-" + t)[1..] == t; }
  }

  /** What each comparison means: equality of texts, and order of the numbers they write. */
  lemma ComparesExactly(fact: string, op: string, a: int, b: int)
    ensures Compares(Written(a), Predicate(fact, op, Written(b))) ==
      if op == "EQ" then Some(Written(a) == Written(b))
      else if op == "NEQ" then Some(Written(a) != Written(b))
      else if !IsInt64(a) || !IsInt64(b) then None
      else if op == "LT_INT" then Some(a < b)
      else if op == "LTE_INT" then Some(a <= b)
      else if op == "GT_INT" then Some(b < a)
      else if op == "GTE_INT" then Some(b <= a)
      else None
  {
    WrittenIsRead(a);
    WrittenIsRead(b);
    hide ParseInt, Written;
  }

  /** Any two texts are compared for equality, and only numbers in any other way. */
  lemma ComparesTexts(actual: string, p: Predicate)
    ensures p.op == "EQ" ==> Compares(actual, p) == Some(actual == p.value)
    ensures p.op == "NEQ" ==> Compares(actual, p) == Some(actual != p.value)
    ensures p.op != "EQ" && p.op != "NEQ" && (ParseInt(actual) == None || ParseInt(p.value) == None) ==> Compares(actual, p) == None
  {
    hide ParseInt;
  }

  /** `evaluatePredicate` */
  function Holds(facts: map<string, string>, p: Predicate): Option<bool> {
    if p.fact == "" || p.fact !in facts then None else Compares(facts[p.fact], p)
  }

  const SUBJECT_FACT := "$subject.id"
  const OPERATION_FACT := "$transition.operation"
  const TARGET_FACT := "$target.key"

  /** `evaluateReducedPredicate` and `evaluateEvidenceDecomposedPredicate`: three facts
      come from the proposal itself. */
  function HoldsIn(subject: Identity, current: StateRef, transition: Transition, p: Predicate): Option<bool> {
    if p.fact == SUBJECT_FACT then Compares(subject.id, p)
    else if p.fact == OPERATION_FACT then Compares(transition.operation, p)
    else if p.fact == TARGET_FACT then Compares(current.TargetKey(), p)
    else Holds(current.facts, p)
  }

  predicate KnownTrue(v: Option<bool>) { v.Some? && v.value }

  predicate AllTrue(holds: Predicate -> Option<bool>, ps: seq<Predicate>) {
    forall i :: 0 <= i < |ps| ==> KnownTrue(holds(ps[i]))
  }

  /** The first predicate that is not true decides the reason. */
  function PredicatesReason(holds: Predicate -> Option<bool>, ps: seq<Predicate>): Option<Reason> {
    if ps == [] then None
    else if holds(ps[0]) == None then Some(ConstraintUnknown)
    else if !holds(ps[0]).value then Some(ConstraintViolated)
    else PredicatesReason(holds, ps[1..])
  }

  lemma {:induction false} PredicatesReasonNone(holds: Predicate -> Option<bool>, ps: seq<Predicate>)
    ensures PredicatesReason(holds, ps) == None <==> AllTrue(holds, ps)
  {
    if ps != [] {
      var rest := ps[1..];
      PredicatesReasonNone(holds, rest);
      assert forall i :: 0 <= i < |rest| ==> rest[i] == ps[i + 1];
      if AllTrue(holds, rest) && KnownTrue(holds(ps[0])) {
        forall i | 0 <= i < |ps| ensures KnownTrue(holds(ps[i])) {
          if i > 0 { assert KnownTrue(holds(rest[i - 1])); }
        }
      }
    }
  }

  method CheckPredicates(holds: Predicate -> Option<bool>, ps: seq<Predicate>) returns (r: Option<Reason>)
    ensures r == PredicatesReason(holds, ps)
  {
    for i := 0 to |ps|
      invariant PredicatesReason(holds, ps) == PredicatesReason(holds, ps[i..])
    {
      var verdict := holds(ps[i]);
      if verdict == None { return Some(ConstraintUnknown); }
      if !verdict.value { return Some(ConstraintViolated); }
      assert ps[i..][1..] == ps[i + 1..];
    }
    r := None;
  }

  /******* Evidence and constraints with evidence references *******/

  predicate EvidenceGood(e: Evidence, digest: string) { e.Complete() && e.valid && e.stateDigest == digest }

  predicate AllEvidenceGood(es: seq<Evidence>, digest: string) {
    forall i :: 0 <= i < |es| ==> EvidenceGood(es[i], digest)
  }

  function IdsOf(es: seq<Evidence>): (r: set<string>)
    ensures forall id :: id in r <==> exists i :: 0 <= i < |es| && es[i].id == id
  {
    set i | 0 <= i < |es| :: es[i].id
  }

  const AUTHORITY_KIND := "authority-binding-attestation"

  function AuthorityIds(es: seq<Evidence>): (r: set<string>)
    ensures forall id :: id in r <==> exists i :: 0 <= i < |es| && es[i].id == id && es[i].kind == AUTHORITY_KIND
  {
    set i | 0 <= i < |es| && es[i].kind == AUTHORITY_KIND :: es[i].id
  }

  predicate AllIn(ids: seq<string>, known: set<string>) { forall i :: 0 <= i < |ids| ==> ids[i] in known }

  predicate AnyIn(ids: seq<string>, known: set<string>) { exists i :: 0 <= i < |ids| && ids[i] in known }

  function ConstraintReason(holds: Predicate -> Option<bool>, known: set<string>, c: Constraint): Option<Reason> {
    if !c.Complete() then Some(ConstraintUnknown)
    else if !AllIn(c.evidenceIds, known) then Some(EvidenceInvalid)
    else PredicatesReason(holds, c.predicates)
  }

  function ConstraintsReason(holds: Predicate -> Option<bool>, known: set<string>, cs: seq<Constraint>): Option<Reason> {
    if cs == [] then None
    else if ConstraintReason(holds, known, cs[0]).Some? then ConstraintReason(holds, known, cs[0])
    else ConstraintsReason(holds, known, cs[1..])
  }

  predicate ConstraintMet(holds: Predicate -> Option<bool>, known: set<string>, c: Constraint) {
    c.Complete() && AllIn(c.evidenceIds, known) && AllTrue(holds, c.predicates)
  }

  predicate AllMet(holds: Predicate -> Option<bool>, known: set<string>, cs: seq<Constraint>) {
    forall i :: 0 <= i < |cs| ==> ConstraintMet(holds, known, cs[i])
  }

  lemma {:induction false} ConstraintsReasonNone(holds: Predicate -> Option<bool>, known: set<string>, cs: seq<Constraint>)
    ensures ConstraintsReason(holds, known, cs) == None <==> AllMet(holds, known, cs)
  {
    hide PredicatesReason, AllTrue, AllIn;
    if cs != [] {
      PredicatesReasonNone(holds, cs[0].predicates);
      ConstraintsReasonNone(holds, known, cs[1..]);
      assert forall i :: 0 < i < |cs| ==> cs[i] == cs[1..][i - 1];
    }
  }

  method CheckEvidence(es: seq<Evidence>, digest: string) returns (ok: bool, known: set<string>, authority: set<string>)
    ensures ok <==> AllEvidenceGood(es, digest)
    ensures ok ==> known == IdsOf(es) && authority == AuthorityIds(es)
  {
    known, authority := {}, {};
    for i := 0 to |es|
      invariant forall j :: 0 <= j < i ==> EvidenceGood(es[j], digest)
      invariant known == (set j | 0 <= j < i :: es[j].id)
      invariant authority == (set j | 0 <= j < i && es[j].kind == AUTHORITY_KIND :: es[j].id)
    {
      if !EvidenceGood(es[i], digest) { return false, known, authority; }
      known := known + {es[i].id};
      if es[i].kind == AUTHORITY_KIND { authority := authority + {es[i].id}; }
    }
    ok := true;
  }

  /** The constraint loop of both evaluators; `cites` tells whether some constraint
      refers to authority evidence. */
  method CheckConstraints(holds: Predicate -> Option<bool>, known: set<string>, authority: set<string>, cs: seq<Constraint>)
    returns (r: Option<Reason>, cites: bool)
    ensures r == ConstraintsReason(holds, known, cs)
    ensures r == None ==> (cites <==> exists i :: 0 <= i < |cs| && AnyIn(cs[i].evidenceIds, authority))
  {
    hide PredicatesReason, AnyIn;
    cites := false;
    for i := 0 to |cs|
      invariant ConstraintsReason(holds, known, cs) == ConstraintsReason(holds, known, cs[i..])
      invariant cites <==> exists j :: 0 <= j < i && AnyIn(cs[j].evidenceIds, authority)
    {
      var c := cs[i];
      assert cs[i..][0] == c && cs[i..][1..] == cs[i + 1..];
      if !c.Complete() { return Some(ConstraintUnknown), cites; }
      var all, any := CheckReferences(c.evidenceIds, known, authority);
      if !all { return Some(EvidenceInvalid), cites; }
      r := CheckPredicates(holds, c.predicates);
      if r.Some? { return; }
      if any { cites := true; }
    }
    r := None;
  }

  method CheckReferences(ids: seq<string>, known: set<string>, authority: set<string>) returns (all: bool, any: bool)
    ensures all <==> AllIn(ids, known)
    ensures all ==> (any <==> AnyIn(ids, authority))
  {
    any := false;
    for i := 0 to |ids|
      invariant forall j :: 0 <= j < i ==> ids[j] in known
      invariant any <==> exists j :: 0 <= j < i && ids[j] in authority
    {
      if ids[i] !in known { return false, any; }
      if ids[i] in authority { any := true; }
    }
    all := true;
  }

  /******* The six-primitive evaluator *******/

  predicate Follows(current: StateRef, t: Transition) {
    t.from.TargetKey() == t.to.TargetKey() == current.TargetKey() &&
    t.from.version == current.version && t.from.digest == current.digest
  }

  predicate CapabilityBinds(p: Proposal) {
    p.capability.subjectId == p.subject.id && p.capability.targetKey == p.current.TargetKey() &&
    p.transition.operation == p.capability.name
  }

  function FactsOf(p: Proposal): Predicate -> Option<bool> { pr => Holds(p.current.facts, pr) }

  function AdmissionReason(p: Proposal): Option<Reason> {
    if !p.subject.Complete() then Some(MissingIdentity)
    else if !p.current.Complete() then Some(MissingState)
    else if !p.capability.Complete() then Some(MissingCapability)
    else if p.constraints == [] then Some(MissingConstraint)
    else if p.evidence == [] then Some(MissingEvidence)
    else if !p.transition.Complete() then Some(MissingTransition)
    else if !CapabilityBinds(p) || !Follows(p.current, p.transition) then Some(BindingMismatch)
    else if !AllEvidenceGood(p.evidence, p.current.digest) then Some(EvidenceInvalid)
    else ConstraintsReason(FactsOf(p), IdsOf(p.evidence), p.constraints)
  }

  /** When a six-primitive proposal is allowed. */
  predicate Allowed(p: Proposal) {
    p.subject.Complete() && p.current.Complete() && p.capability.Complete() && p.constraints != [] && p.evidence != [] &&
    p.transition.Complete() && CapabilityBinds(p) && Follows(p.current, p.transition) &&
    AllEvidenceGood(p.evidence, p.current.digest) && AllMet(FactsOf(p), IdsOf(p.evidence), p.constraints)
  }

  lemma AllowedIffNoReason(p: Proposal)
    ensures AdmissionReason(p) == None <==> Allowed(p)
  {
    hide AllMet, ConstraintsReason, AllEvidenceGood, FactsOf;
    ConstraintsReasonNone(FactsOf(p), IdsOf(p.evidence), p.constraints);
  }

  /** `EvaluateAdmission`; `None` is ALLOW. */
  method EvaluateAdmission(p: Proposal) returns (r: Option<Reason>)
    ensures r == AdmissionReason(p)
    ensures r == None <==> Allowed(p)
  {
    hide ConstraintsReason, AllEvidenceGood, Allowed, FactsOf;
    AllowedIffNoReason(p);
    if !p.subject.Complete() { return Some(MissingIdentity); }
    if !p.current.Complete() { return Some(MissingState); }
    if !p.capability.Complete() { return Some(MissingCapability); }
    if p.constraints == [] { return Some(MissingConstraint); }
    if p.evidence == [] { return Some(MissingEvidence); }
    if !p.transition.Complete() { return Some(MissingTransition); }
    if !CapabilityBinds(p) || !Follows(p.current, p.transition) { return Some(BindingMismatch); }
    var ok, known, authority := CheckEvidence(p.evidence, p.current.digest);
    if !ok { return Some(EvidenceInvalid); }
    var cites;
    r, cites := CheckConstraints(FactsOf(p), known, authority, p.constraints);
  }

  /******* Without capability *******/

  const DERIVED := "derived-authority-binding"

  function ViewOf(p: Reduced): Predicate -> Option<bool> { pr => HoldsIn(p.subject, p.current, p.transition, pr) }

  predicate CitesAuthority(p: Reduced) {
    exists i :: 0 <= i < |p.constraints| && AnyIn(p.constraints[i].evidenceIds, AuthorityIds(p.evidence))
  }

  function ReducedReason(p: Reduced): Option<Reason> {
    if !p.subject.Complete() then Some(MissingIdentity)
    else if !p.current.Complete() then Some(MissingState)
    else if p.constraints == [] then Some(MissingConstraint)
    else if p.evidence == [] then Some(MissingEvidence)
    else if !p.transition.Complete() then Some(MissingTransition)
    else if !Follows(p.current, p.transition) then Some(BindingMismatch)
    else if !AllEvidenceGood(p.evidence, p.current.digest) then Some(EvidenceInvalid)
    else if AuthorityIds(p.evidence) == {} then Some(EvidenceInvalid)
    else if ConstraintsReason(ViewOf(p), IdsOf(p.evidence), p.constraints).Some?
    then ConstraintsReason(ViewOf(p), IdsOf(p.evidence), p.constraints)
    else if !CitesAuthority(p) then Some(EvidenceInvalid)
    else None
  }

  predicate ReducedAllowed(p: Reduced) {
    p.subject.Complete() && p.current.Complete() && p.constraints != [] && p.evidence != [] && p.transition.Complete() &&
    Follows(p.current, p.transition) && AllEvidenceGood(p.evidence, p.current.digest) && AuthorityIds(p.evidence) != {} &&
    AllMet(ViewOf(p), IdsOf(p.evidence), p.constraints) && CitesAuthority(p)
  }

  /** `EvaluateReducedAdmission` */
  method EvaluateReduced(p: Reduced) returns (r: Option<Reason>)
    ensures r == ReducedReason(p)
    ensures r == None <==> ReducedAllowed(p)
  {
    hide ConstraintsReason, AllEvidenceGood, AllMet, AnyIn, ViewOf;
    ConstraintsReasonNone(ViewOf(p), IdsOf(p.evidence), p.constraints);
    if !p.subject.Complete() { return Some(MissingIdentity); }
    if !p.current.Complete() { return Some(MissingState); }
    if p.constraints == [] { return Some(MissingConstraint); }
    if p.evidence == [] { return Some(MissingEvidence); }
    if !p.transition.Complete() { return Some(MissingTransition); }
    if !Follows(p.current, p.transition) { return Some(BindingMismatch); }
    var ok, known, authority := CheckEvidence(p.evidence, p.current.digest);
    if !ok { return Some(EvidenceInvalid); }
    if authority == {} { return Some(EvidenceInvalid); }
    var cites;
    r, cites := CheckConstraints(ViewOf(p), known, authority, p.constraints);
    if r == None && !cites { r := Some(EvidenceInvalid); }
  }

  function DerivedConstraint(c: Capability): Constraint {
    Constraint(DERIVED, [Predicate(SUBJECT_FACT, "EQ", c.subjectId), Predicate(OPERATION_FACT, "EQ", c.name),
                         Predicate(TARGET_FACT, "EQ", c.targetKey)], [DERIVED])
  }

  function DerivedEvidence(digest: string): Evidence { Evidence(DERIVED, AUTHORITY_KIND, digest, true) }

  /** `ReduceCapability`: the capability becomes a constraint with its own evidence. */
  function Reduce(p: Proposal): Reduced {
    Reduced(p.subject, p.current, [DerivedConstraint(p.capability)] + p.constraints,
            p.evidence + [DerivedEvidence(p.current.digest)], p.transition)
  }

  predicate ReservedFact(f: string) { f == SUBJECT_FACT || f == OPERATION_FACT || f == TARGET_FACT }

  /** The proposal does not use the names that the reduction reserves. */
  predicate ReservedUnused(p: Proposal) {
    forall i :: 0 <= i < |p.constraints| ==>
      DERIVED !in p.constraints[i].evidenceIds &&
      forall j :: 0 <= j < |p.constraints[i].predicates| ==> !ReservedFact(p.constraints[i].predicates[j].fact)
  }

  lemma ReservedDiffer()
    ensures SUBJECT_FACT != OPERATION_FACT && OPERATION_FACT != TARGET_FACT && SUBJECT_FACT != TARGET_FACT
  {
    assert SUBJECT_FACT[2] == 'u' && OPERATION_FACT[2] == 'r' && TARGET_FACT[2] == 'a';
  }

  /** The derived constraint says exactly that the capability binds. */
  lemma DerivedMet(p: Proposal)
    ensures ConstraintMet(ViewOf(Reduce(p)), IdsOf(Reduce(p).evidence), DerivedConstraint(p.capability)) <==> CapabilityBinds(p)
  {
    hide ParseInt;
    ReservedDiffer();
    var c, r := DerivedConstraint(p.capability), Reduce(p);
    assert r.evidence[|p.evidence|].id == DERIVED;
    assert AllIn(c.evidenceIds, IdsOf(r.evidence));
    var holds := ViewOf(r);
    assert holds(c.predicates[0]) == Some(p.subject.id == p.capability.subjectId);
    assert holds(c.predicates[1]) == Some(p.transition.operation == p.capability.name);
    assert holds(c.predicates[2]) == Some(p.current.TargetKey() == p.capability.targetKey);
    assert AllTrue(holds, c.predicates) <==>
           KnownTrue(holds(c.predicates[0])) && KnownTrue(holds(c.predicates[1])) && KnownTrue(holds(c.predicates[2]));
  }

  /** The original constraints mean the same before and after. */
  lemma OriginalMet(p: Proposal, i: nat)
    requires i < |p.constraints| && ReservedUnused(p)
    ensures ConstraintMet(ViewOf(Reduce(p)), IdsOf(Reduce(p).evidence), p.constraints[i])
       <==> ConstraintMet(FactsOf(p), IdsOf(p.evidence), p.constraints[i])
  {
    hide Compares;
    var c, r := p.constraints[i], Reduce(p);
    forall j | 0 <= j < |c.predicates| ensures ViewOf(r)(c.predicates[j]) == FactsOf(p)(c.predicates[j]) {
      assert !ReservedFact(c.predicates[j].fact);
    }
    assert AllTrue(ViewOf(r), c.predicates) <==> AllTrue(FactsOf(p), c.predicates);
    ReducedIds(p);
    forall j | 0 <= j < |c.evidenceIds| ensures c.evidenceIds[j] in IdsOf(r.evidence) <==> c.evidenceIds[j] in IdsOf(p.evidence) {
      assert c.evidenceIds[j] != DERIVED;
    }
  }

  lemma ReducedIds(p: Proposal)
    ensures IdsOf(Reduce(p).evidence) == IdsOf(p.evidence) + {DERIVED}
    ensures DERIVED in AuthorityIds(Reduce(p).evidence)
    ensures AllEvidenceGood(Reduce(p).evidence, p.current.digest) <==> AllEvidenceGood(p.evidence, p.current.digest) && p.current.digest != ""
  {
    var es := Reduce(p).evidence;
    var n := |p.evidence|;
    assert es[n] == DerivedEvidence(p.current.digest);
    assert forall i :: 0 <= i < n ==> es[i] == p.evidence[i];
    assert DERIVED != "" && AUTHORITY_KIND != "";
    forall id ensures id in IdsOf(es) <==> id in IdsOf(p.evidence) + {DERIVED} {
      if id in IdsOf(p.evidence) {
        var i :| 0 <= i < n && p.evidence[i].id == id;
        assert es[i].id == id;
      }
    }
    assert EvidenceGood(es[n], p.current.digest) <==> p.current.digest != "";
  }

  lemma AllMetReduce(p: Proposal)
    ensures AllMet(ViewOf(Reduce(p)), IdsOf(Reduce(p).evidence), Reduce(p).constraints)
       <==> CapabilityBinds(p) && AllMet(ViewOf(Reduce(p)), IdsOf(Reduce(p).evidence), p.constraints)
  {
    hide ConstraintMet, CapabilityBinds, ViewOf, DerivedConstraint;
    var cs := Reduce(p).constraints;
    DerivedMet(p);
    assert cs[0] == DerivedConstraint(p.capability);
    assert forall i :: 0 < i < |cs| ==> cs[i] == p.constraints[i - 1];
    assert forall i :: 0 <= i < |p.constraints| ==> p.constraints[i] == cs[i + 1];
  }

  lemma OriginalsMet(p: Proposal)
    requires ReservedUnused(p)
    ensures AllMet(ViewOf(Reduce(p)), IdsOf(Reduce(p).evidence), p.constraints) <==> AllMet(FactsOf(p), IdsOf(p.evidence), p.constraints)
  {
    hide ConstraintMet, ReservedUnused, ViewOf, FactsOf, Reduce;
    forall i | 0 <= i < |p.constraints| ensures
      ConstraintMet(ViewOf(Reduce(p)), IdsOf(Reduce(p).evidence), p.constraints[i]) <==> ConstraintMet(FactsOf(p), IdsOf(p.evidence), p.constraints[i])
    {
      OriginalMet(p, i);
    }
  }

  /** Everything a proposal needs besides its constraints. */
  predicate InOrder(p: Proposal) {
    p.subject.Complete() && p.current.Complete() && p.transition.Complete() && CapabilityBinds(p) &&
    Follows(p.current, p.transition) && AllEvidenceGood(p.evidence, p.current.digest)
  }

  /** What the reduction admits, whatever names a proposal uses: the same proposals, except
      that their constraints read the reserved facts from the proposal itself, may cite the
      derived evidence, and may be absent. */
  lemma ReductionExact(p: Proposal)
    ensures ReducedAllowed(Reduce(p)) <==>
      InOrder(p) && AllMet(ViewOf(Reduce(p)), IdsOf(p.evidence) + {DERIVED}, p.constraints)
    ensures Allowed(p) <==>
      InOrder(p) && AllMet(FactsOf(p), IdsOf(p.evidence), p.constraints) && p.constraints != [] && p.evidence != []
  {
    hide AllMet, ViewOf, FactsOf, AllEvidenceGood;
    AllMetReduce(p);
    ReducedIds(p);
    DerivedCited(p);
  }

  /** Capability reduction preserves admission both ways, as long as at least one
      constraint is present. */
  lemma ReductionEquivalent(p: Proposal)
    requires ReservedUnused(p)
    ensures Allowed(p) <==> ReducedAllowed(Reduce(p)) && p.constraints != []
  {
    hide AllMet, ViewOf, FactsOf, ReservedUnused, InOrder, Allowed, ReducedAllowed, Reduce;
    ReductionExact(p);
    OriginalsMet(p);
    ReducedIds(p);
    if ReducedAllowed(Reduce(p)) && p.constraints != [] { EvidenceNeeded(p); }
  }

  /** The reserved names are needed: a denied proposal whose reduction is allowed, because its
      constraint on an unknown fact reads the subject after the reduction. */
  lemma ReservedNameBreaksReduction() returns (p: Proposal)
    ensures !Allowed(p) && ReducedAllowed(Reduce(p)) && p.constraints != [] && !ReservedUnused(p)
  {
    var st := StateRef("n", "o", "v", "d", map[]);
    var c := Constraint("c", [Predicate(SUBJECT_FACT, "EQ", "s")], ["e"]);
    p := Proposal(Identity("s", "k"), st, Capability("op", "s", st.TargetKey()), [c], [Evidence("e", "k", "d", true)], Transition("op", st, st));
    assert !KnownTrue(FactsOf(p)(c.predicates[0]));
    assert !ConstraintMet(FactsOf(p), IdsOf(p.evidence), p.constraints[0]);
    assert p.evidence[0].id == "e" && "e" in IdsOf(p.evidence);
    assert ViewOf(Reduce(p))(c.predicates[0]) == Some(true);
    assert ConstraintMet(ViewOf(Reduce(p)), IdsOf(p.evidence) + {DERIVED}, c);
    assert EvidenceGood(p.evidence[0], p.current.digest);
    hide ConstraintMet, ViewOf, FactsOf;
    ReductionExact(p);
  }

  lemma DerivedCited(p: Proposal)
    ensures CitesAuthority(Reduce(p)) && Reduce(p).evidence != [] && Reduce(p).constraints != []
  {
    ReducedIds(p);
    var r := Reduce(p);
    assert r.constraints[0].evidenceIds[0] == DERIVED;
    assert AnyIn(r.constraints[0].evidenceIds, AuthorityIds(r.evidence));
  }

  /** A constraint that cites evidence cannot be met without any. */
  lemma EvidenceNeeded(p: Proposal)
    requires p.constraints != [] && AllMet(FactsOf(p), IdsOf(p.evidence), p.constraints)
    ensures p.evidence != []
  {
    var c := p.constraints[0];
    assert ConstraintMet(FactsOf(p), IdsOf(p.evidence), c);
    assert c.evidenceIds[0] in IdsOf(p.evidence);
  }

  /** `MintDerivedCapability` */
  function Mint(p: Reduced): Option<Capability> {
    if ReducedReason(p) == None then Some(Capability(p.transition.operation, p.subject.id, p.current.TargetKey())) else None
  }

  lemma ReducedAllowedIffNoReason(p: Reduced)
    ensures ReducedReason(p) == None <==> ReducedAllowed(p)
  {
    hide ConstraintsReason, AllEvidenceGood, AllMet, AnyIn, ViewOf;
    ConstraintsReasonNone(ViewOf(p), IdsOf(p.evidence), p.constraints);
  }

  /** Minting from the reduction of an allowed proposal gives its capability back. */
  lemma MintUndoesReduce(p: Proposal)
    requires ReservedUnused(p) && Allowed(p)
    ensures Mint(Reduce(p)) == Some(p.capability)
  {
    hide AllMet, AllEvidenceGood, ReservedUnused, ReducedReason, ReducedAllowed, FactsOf;
    ReductionEquivalent(p);
    ReducedAllowedIffNoReason(Reduce(p));
  }

  /******* Without evidence records *******/

  predicate PredicateBefore(a: Predicate, b: Predicate) {
    Less(a.fact, b.fact) ||
    (a.fact == b.fact && (Less(a.op, b.op) || (a.op == b.op && Less(a.value, b.value))))
  }

  lemma PredicateOrder()
    ensures Irreflexive(PredicateBefore) && Transitive(PredicateBefore) && Total(PredicateBefore)
  {
    LessIsAnOrder();
    hide Less;
    forall a: Predicate ensures !PredicateBefore(a, a) { PredicateIrreflexive(a); }
    forall a, b, c ensures PredicateBefore(a, b) && PredicateBefore(b, c) ==> PredicateBefore(a, c) {
      if PredicateBefore(a, b) && PredicateBefore(b, c) { PredicateTransitive(a, b, c); }
    }
    forall a, b ensures PredicateBefore(a, b) || a == b || PredicateBefore(b, a) { PredicateTotal(a, b); }
  }

  lemma PredicateIrreflexive(a: Predicate)
    ensures !PredicateBefore(a, a)
  {
    LessIrreflexive(a.fact);
    LessIrreflexive(a.op);
    LessIrreflexive(a.value);
  }

  lemma PredicateTransitive(a: Predicate, b: Predicate, c: Predicate)
    requires PredicateBefore(a, b) && PredicateBefore(b, c)
    ensures PredicateBefore(a, c)
  {
    if Less(a.fact, b.fact) && Less(b.fact, c.fact) { LessTransitive(a.fact, b.fact, c.fact); }
    if Less(a.op, b.op) && Less(b.op, c.op) { LessTransitive(a.op, b.op, c.op); }
    if Less(a.value, b.value) && Less(b.value, c.value) { LessTransitive(a.value, b.value, c.value); }
    hide Less;
  }

  lemma PredicateTotal(a: Predicate, b: Predicate)
    ensures PredicateBefore(a, b) || a == b || PredicateBefore(b, a)
  {
    LessTotal(a.fact, b.fact);
    LessTotal(a.op, b.op);
    LessTotal(a.value, b.value);
    hide Less;
  }

  const NUL: char := 0 as char

  function Flat(ps: seq<Predicate>): seq<string> {
    if ps == [] then [] else Flat(ps[..|ps| - 1]) + [ps[|ps| - 1].fact, ps[|ps| - 1].op, ps[|ps| - 1].value]
  }

  /** The proposal as every binding digest lists it. */
  function Relation(subject: Identity, current: StateRef, t: Transition): seq<string> {
    [subject.id, subject.kind, current.TargetKey(), current.version, current.digest, t.operation,
     t.from.TargetKey(), t.from.version, t.from.digest, t.to.TargetKey(), t.to.version, t.to.digest]
  }

  function BindingParts(p: Decomposed, c: Semantic, issuer: Identity): seq<string> {
    [issuer.id, issuer.kind] + Relation(p.subject, p.current, p.transition) + [c.id] + Flat(Arranged(PredicateBefore, c.predicates))
  }

  /** `attestationBindingDigest`; `h` is hexadecimal SHA-256. */
  function AttestationDigest(h: string -> string, p: Decomposed, c: Semantic, issuer: Identity): string {
    "sha256:" + h(Join(BindingParts(p, c, issuer), NUL))
  }

  method ComputeAttestationDigest(h: string -> string, p: Decomposed, c: Semantic, issuer: Identity) returns (digest: string)
    ensures digest == AttestationDigest(h, p, c, issuer)
  {
    hide Join, PredicateBefore, Relation, Flat;
    PredicateOrder();
    var predicates := SortBy(PredicateBefore, c.predicates);
    ArrangedUnique(PredicateBefore, c.predicates, predicates);
    var flat := Flatten(predicates);
    digest := "sha256:" + h(Join([issuer.id, issuer.kind] + Relation(p.subject, p.current, p.transition) + [c.id] + flat, NUL));
  }

  method Flatten(predicates: seq<Predicate>) returns (flat: seq<string>)
    ensures flat == Flat(predicates)
  {
    flat := [];
    for i := 0 to |predicates|
      invariant flat == Flat(predicates[..i])
    {
      flat := flat + [predicates[i].fact, predicates[i].op, predicates[i].value];
      assert predicates[..i + 1][..i] == predicates[..i];
    }
    assert predicates[..|predicates|] == predicates;
  }

  /** The order of a constraint's predicates does not matter to its attestation. */
  lemma AttestationIgnoresOrder(h: string -> string, p: Decomposed, c: Semantic, issuer: Identity, ps: seq<Predicate>)
    requires multiset(ps) == multiset(c.predicates)
    ensures AttestationDigest(h, p, c.(predicates := ps), issuer) == AttestationDigest(h, p, c, issuer)
  {
    hide Join, PredicateBefore, Relation, Flat;
    PredicateOrder();
    ArrangedSame(PredicateBefore, ps, c.predicates);
  }

  function SemanticView(p: Decomposed): Predicate -> Option<bool> { pr => HoldsIn(p.subject, p.current, p.transition, pr) }

  function SemanticIds(cs: seq<Semantic>): seq<string> { seq(|cs|, i requires 0 <= i < |cs| => cs[i].id) }

  /** A valid attestation of some constraint, bound to the exact proposal and content. */
  predicate Vouches(h: string -> string, p: Decomposed, a: Attestation, c: Semantic) {
    a.Complete() && a.valid && a.constraintId == c.id && a.bindingDigest == AttestationDigest(h, p, c, a.issuer)
  }

  predicate AttestationGood(h: string -> string, p: Decomposed, a: Attestation) {
    exists i :: 0 <= i < |p.constraints| && Vouches(h, p, a, p.constraints[i])
  }

  predicate Vouched(p: Decomposed, c: Semantic) {
    exists j :: 0 <= j < |p.attestations| && p.attestations[j].constraintId == c.id
  }

  ghost predicate DecomposedAllowed(h: string -> string, p: Decomposed) {
    p.subject.Complete() && p.current.Complete() && p.constraints != [] && p.attestations != [] && p.transition.Complete() &&
    Follows(p.current, p.transition) &&
    (forall i :: 0 <= i < |p.constraints| ==> p.constraints[i].Complete()) && Distinct(SemanticIds(p.constraints)) &&
    (forall j :: 0 <= j < |p.attestations| ==> AttestationGood(h, p, p.attestations[j])) &&
    (forall i :: 0 <= i < |p.constraints| ==>
       Vouched(p, p.constraints[i]) && AllTrue(SemanticView(p), p.constraints[i].predicates))
  }

  /** The final loop: each constraint vouched for, then true. */
  function VouchReason(p: Decomposed, cs: seq<Semantic>): Option<Reason> {
    if cs == [] then None
    else if !Vouched(p, cs[0]) then Some(EvidenceInvalid)
    else if PredicatesReason(SemanticView(p), cs[0].predicates).Some? then PredicatesReason(SemanticView(p), cs[0].predicates)
    else VouchReason(p, cs[1..])
  }

  ghost function DecomposedReason(h: string -> string, p: Decomposed): Option<Reason> {
    if !p.subject.Complete() then Some(MissingIdentity)
    else if !p.current.Complete() then Some(MissingState)
    else if p.constraints == [] then Some(MissingConstraint)
    else if p.attestations == [] then Some(MissingEvidence)
    else if !p.transition.Complete() then Some(MissingTransition)
    else if !Follows(p.current, p.transition) then Some(BindingMismatch)
    else if !((forall i :: 0 <= i < |p.constraints| ==> p.constraints[i].Complete()) && Distinct(SemanticIds(p.constraints)))
    then Some(ConstraintUnknown)
    else if !(forall j :: 0 <= j < |p.attestations| ==> AttestationGood(h, p, p.attestations[j])) then Some(EvidenceInvalid)
    else VouchReason(p, p.constraints)
  }

  /** `EvaluateEvidenceDecomposedAdmission` */
  method EvaluateDecomposed(h: string -> string, p: Decomposed) returns (r: Option<Reason>)
    ensures r == DecomposedReason(h, p)
    ensures r == None <==> DecomposedAllowed(h, p)
  {
    hide Distinct, AttestationGood, Vouched, AllTrue, SemanticView, Follows, PredicatesReason;
    if !p.subject.Complete() { return Some(MissingIdentity); }
    if !p.current.Complete() { return Some(MissingState); }
    if p.constraints == [] { return Some(MissingConstraint); }
    if p.attestations == [] { return Some(MissingEvidence); }
    if !p.transition.Complete() { return Some(MissingTransition); }
    if !Follows(p.current, p.transition) { return Some(BindingMismatch); }
    var ok, byId := CollectConstraints(p.constraints);
    if !ok { return Some(ConstraintUnknown); }
    var attested;
    ok, attested := CheckAttestations(h, p, byId);
    if !ok { return Some(EvidenceInvalid); }
    for i := 0 to |p.constraints|
      invariant forall j :: 0 <= j < i ==> Vouched(p, p.constraints[j]) && AllTrue(SemanticView(p), p.constraints[j].predicates)
      invariant VouchReason(p, p.constraints) == VouchReason(p, p.constraints[i..])
    {
      var c := p.constraints[i];
      assert p.constraints[i..][0] == c && p.constraints[i..][1..] == p.constraints[i + 1..];
      AttestedIsVouched(p, attested, c);
      if c.id !in attested { return Some(EvidenceInvalid); }
      PredicatesReasonNone(SemanticView(p), c.predicates);
      r := CheckPredicates(SemanticView(p), c.predicates);
      if r.Some? { return; }
    }
    r := None;
  }

  lemma AttestedIsVouched(p: Decomposed, attested: set<string>, c: Semantic)
    requires attested == set j | 0 <= j < |p.attestations| :: p.attestations[j].constraintId
    ensures c.id in attested <==> Vouched(p, c)
  {
  }

  predicate ById(byId: map<string, Semantic>, cs: seq<Semantic>) {
    byId.Keys == Elements(SemanticIds(cs)) &&
    forall i :: 0 <= i < |cs| ==> cs[i].id in byId && byId[cs[i].id] == cs[i]
  }

  method CollectConstraints(cs: seq<Semantic>) returns (ok: bool, byId: map<string, Semantic>)
    ensures ok <==> (forall i :: 0 <= i < |cs| ==> cs[i].Complete()) && Distinct(SemanticIds(cs))
    ensures ok ==> ById(byId, cs)
  {
    hide Distinct, ById;
    byId := map[];
    ghost var ids := SemanticIds(cs);
    StartById(cs);
    for i := 0 to |cs|
      invariant forall j :: 0 <= j < i ==> cs[j].Complete()
      invariant Distinct(ids[..i]) && byId.Keys == Elements(ids[..i]) && ById(byId, cs[..i])
    {
      if !cs[i].Complete() { return false, byId; }
      DistinctNext(ids, i);
      if cs[i].id in byId { return false, byId; }
      NextById(byId, cs, i);
      byId := byId[cs[i].id := cs[i]];
    }
    assert ids[..|cs|] == ids && cs[..|cs|] == cs;
    ok := true;
  }

  lemma StartById(cs: seq<Semantic>)
    ensures ById(map[], cs[..0]) && Distinct(SemanticIds(cs)[..0]) && Elements(SemanticIds(cs)[..0]) == {}
  {
    assert SemanticIds(cs[..0]) == [];
  }

  lemma NextById(byId: map<string, Semantic>, cs: seq<Semantic>, i: nat)
    requires i < |cs| && ById(byId, cs[..i]) && cs[i].id !in byId
    ensures ById(byId[cs[i].id := cs[i]], cs[..i + 1])
  {
    var a, b := cs[..i], cs[..i + 1];
    assert SemanticIds(b) == SemanticIds(a) + [cs[i].id];
    assert forall j :: 0 <= j < i ==> a[j] == b[j] && a[j].id in byId && byId[a[j].id] == a[j];
    assert b[i] == cs[i];
  }

  method CheckAttestations(h: string -> string, p: Decomposed, byId: map<string, Semantic>) returns (ok: bool, attested: set<string>)
    requires ById(byId, p.constraints)
    ensures ok <==> forall j :: 0 <= j < |p.attestations| ==> AttestationGood(h, p, p.attestations[j])
    ensures ok ==> attested == set j | 0 <= j < |p.attestations| :: p.attestations[j].constraintId
  {
    hide AttestationGood, AttestationDigest, ById;
    attested := {};
    for i := 0 to |p.attestations|
      invariant forall j :: 0 <= j < i ==> AttestationGood(h, p, p.attestations[j])
      invariant attested == set j | 0 <= j < i :: p.attestations[j].constraintId
    {
      var a := p.attestations[i];
      GoodThroughMap(h, p, byId, a);
      if !a.Complete() || !a.valid { return false, attested; }
      if a.constraintId !in byId { return false, attested; }
      var digest := ComputeAttestationDigest(h, p, byId[a.constraintId], a.issuer);
      if a.bindingDigest != digest { return false, attested; }
      attested := attested + {a.constraintId};
    }
    ok := true;
  }

  lemma GoodThroughMap(h: string -> string, p: Decomposed, byId: map<string, Semantic>, a: Attestation)
    requires ById(byId, p.constraints)
    ensures AttestationGood(h, p, a) <==>
      a.Complete() && a.valid && a.constraintId in byId && a.bindingDigest == AttestationDigest(h, p, byId[a.constraintId], a.issuer)
  {
    hide AttestationDigest;
    var ids := SemanticIds(p.constraints);
    if a.constraintId in byId {
      assert a.constraintId in Elements(ids);
      var i :| 0 <= i < |ids| && ids[i] == a.constraintId;
      assert byId[p.constraints[i].id] == p.constraints[i];
      if a.Complete() && a.valid && a.bindingDigest == AttestationDigest(h, p, byId[a.constraintId], a.issuer) {
        assert Vouches(h, p, a, p.constraints[i]);
      }
    }
  }

  /******* Decomposing evidence *******/

  function SemanticsOf(cs: seq<Constraint>): (r: seq<Semantic>)
    ensures |r| == |cs| && forall i :: 0 <= i < |cs| ==> r[i] == Semantic(cs[i].id, cs[i].predicates)
  {
    seq(|cs|, i requires 0 <= i < |cs| => Semantic(cs[i].id, cs[i].predicates))
  }

  function KindsOf(es: seq<Evidence>): map<string, string> {
    if es == [] then map[] else KindsOf(es[..|es| - 1])[es[|es| - 1].id := es[|es| - 1].kind]
  }

  /** The first evidence reference that is known names the attestor. */
  function AttestorName(ids: seq<string>, kinds: map<string, string>): string {
    if ids == [] then "attestor:constraint"
    else if ids[0] in kinds then "attestor:" + kinds[ids[0]]
    else AttestorName(ids[1..], kinds)
  }

  function AttestorOf(c: Constraint, kinds: map<string, string>): Identity {
    Identity(AttestorName(c.evidenceIds, kinds), "attestor")
  }

  function Bare(p: Reduced): Decomposed { Decomposed(p.subject, p.current, SemanticsOf(p.constraints), [], p.transition) }

  function AttestationFor(h: string -> string, p: Reduced, c: Constraint): Attestation {
    var issuer := AttestorOf(c, KindsOf(p.evidence));
    Attestation("attestation:" + c.id, issuer, c.id, AttestationDigest(h, Bare(p), Semantic(c.id, c.predicates), issuer), true)
  }

  function AttestationsFor(h: string -> string, p: Reduced): (r: seq<Attestation>)
    ensures |r| == |p.constraints| && forall i :: 0 <= i < |r| ==> r[i] == AttestationFor(h, p, p.constraints[i])
  {
    seq(|p.constraints|, i requires 0 <= i < |p.constraints| => AttestationFor(h, p, p.constraints[i]))
  }

  /** `DecomposeEvidence`: evidence records are dropped, each constraint gets its own
      attestation. */
  function Decompose(h: string -> string, p: Reduced): Decomposed {
    Bare(p).(attestations := AttestationsFor(h, p))
  }

  method DecomposeEvidence(h: string -> string, p: Reduced) returns (out: Decomposed)
    ensures out == Decompose(h, p)
  {
    hide AttestationDigest;
    out := Bare(p);
    var kinds := CollectKinds(p.evidence);
    var attestations: seq<Attestation> := [];
    for i := 0 to |p.constraints|
      invariant out == Bare(p)
      invariant |attestations| == i && forall j :: 0 <= j < i ==> attestations[j] == AttestationFor(h, p, p.constraints[j])
    {
      var c := p.constraints[i];
      var name := FindAttestor(c.evidenceIds, kinds);
      var issuer := Identity(name, "attestor");
      var digest := ComputeAttestationDigest(h, out, out.constraints[i], issuer);
      attestations := attestations + [Attestation("attestation:" + c.id, issuer, c.id, digest, true)];
    }
    out := out.(attestations := attestations);
  }

  method CollectKinds(es: seq<Evidence>) returns (kinds: map<string, string>)
    ensures kinds == KindsOf(es)
  {
    kinds := map[];
    for i := 0 to |es|
      invariant kinds == KindsOf(es[..i])
    {
      kinds := kinds[es[i].id := es[i].kind];
      assert es[..i + 1][..i] == es[..i];
    }
    assert es[..|es|] == es;
  }

  method FindAttestor(ids: seq<string>, kinds: map<string, string>) returns (name: string)
    ensures name == AttestorName(ids, kinds)
  {
    name := "attestor:constraint";
    for i := 0 to |ids|
      invariant AttestorName(ids, kinds) == AttestorName(ids[i..], kinds)
      invariant name == "attestor:constraint"
    {
      assert ids[i..][1..] == ids[i + 1..];
      if ids[i] in kinds { return "attestor:" + kinds[ids[i]]; }
    }
  }

  function ConstraintIds(cs: seq<Constraint>): seq<string> { seq(|cs|, i requires 0 <= i < |cs| => cs[i].id) }

  /** What remains of a reduced proposal once its evidence is dropped. */
  predicate CoreAllowed(p: Reduced) {
    p.subject.Complete() && p.current.Complete() && p.constraints != [] && p.transition.Complete() &&
    Follows(p.current, p.transition) &&
    forall i :: 0 <= i < |p.constraints| ==>
      p.constraints[i].id != "" && p.constraints[i].predicates != [] && AllTrue(ViewOf(p), p.constraints[i].predicates)
  }

  lemma {:induction false} AttestorNamed(ids: seq<string>, kinds: map<string, string>)
    ensures AttestorName(ids, kinds) != ""
  {
    if ids != [] && ids[0] !in kinds { AttestorNamed(ids[1..], kinds); }
  }

  lemma DigestIgnoresAttestations(h: string -> string, p: Decomposed, atts: seq<Attestation>, c: Semantic, issuer: Identity)
    ensures AttestationDigest(h, p.(attestations := atts), c, issuer) == AttestationDigest(h, p, c, issuer)
    ensures AttestationDigest(h, p, c, issuer) != ""
  {
    hide Join, Relation;
    assert BindingParts(p.(attestations := atts), c, issuer) == BindingParts(p, c, issuer);
  }

  /** Each derived attestation is good for its own constraint. */
  lemma DerivedAttestationGood(h: string -> string, p: Reduced, i: nat)
    requires i < |p.constraints| && p.constraints[i].id != ""
    ensures Vouches(h, Decompose(h, p), AttestationFor(h, p, p.constraints[i]), SemanticsOf(p.constraints)[i])
  {
    hide AttestationDigest;
    var c := p.constraints[i];
    AttestorNamed(c.evidenceIds, KindsOf(p.evidence));
    DigestIgnoresAttestations(h, Bare(p), AttestationsFor(h, p), Semantic(c.id, c.predicates), AttestorOf(c, KindsOf(p.evidence)));
  }

  /** The decomposed proposal is allowed exactly when the evidence-free core holds and the
      constraint ids are distinct. */
  lemma DecompositionExact(h: string -> string, p: Reduced)
    ensures DecomposedAllowed(h, Decompose(h, p)) <==> CoreAllowed(p) && Distinct(ConstraintIds(p.constraints))
  {
    var d := Decompose(h, p);
    assert SemanticIds(d.constraints) == ConstraintIds(p.constraints);
    hide Distinct, AllTrue, AttestationGood, Vouched, ViewOf, SemanticView, Follows, AttestationFor;
    SameView(h, p);
    if CoreAllowed(p) { DecompositionVouched(h, p); }
  }

  lemma DecompositionVouched(h: string -> string, p: Reduced)
    requires forall i :: 0 <= i < |p.constraints| ==> p.constraints[i].id != ""
    ensures var d := Decompose(h, p);
      (forall j :: 0 <= j < |d.attestations| ==> AttestationGood(h, d, d.attestations[j])) &&
      forall i :: 0 <= i < |d.constraints| ==> Vouched(d, d.constraints[i])
  {
    var d := Decompose(h, p);
    hide AttestationFor, Vouches;
    forall j | 0 <= j < |d.attestations| ensures AttestationGood(h, d, d.attestations[j]) {
      DerivedAttestationGood(h, p, j);
    }
    forall i | 0 <= i < |d.constraints| ensures Vouched(d, d.constraints[i]) {
      AttestationNames(h, p, i);
    }
  }

  lemma SameView(h: string -> string, p: Reduced)
    ensures forall ps :: AllTrue(SemanticView(Decompose(h, p)), ps) <==> AllTrue(ViewOf(p), ps)
  {
    hide HoldsIn, AttestationsFor;
  }

  lemma AttestationNames(h: string -> string, p: Reduced, i: nat)
    requires i < |p.constraints|
    ensures Decompose(h, p).attestations[i].constraintId == p.constraints[i].id
  {
    hide AttestationDigest;
  }

  lemma ReducedHasCore(p: Reduced)
    requires ReducedAllowed(p)
    ensures CoreAllowed(p)
  {
    hide AllTrue, ViewOf;
    forall i | 0 <= i < |p.constraints|
      ensures p.constraints[i].id != "" && p.constraints[i].predicates != [] && AllTrue(ViewOf(p), p.constraints[i].predicates)
    {
      assert ConstraintMet(ViewOf(p), IdsOf(p.evidence), p.constraints[i]);
    }
  }

  /** An allowed reduced proposal stays allowed exactly when its constraint ids are distinct. */
  lemma DecompositionPreserves(h: string -> string, p: Reduced)
    requires ReducedAllowed(p)
    ensures DecomposedAllowed(h, Decompose(h, p)) <==> Distinct(ConstraintIds(p.constraints))
  {
    hide DecomposedAllowed, CoreAllowed, Distinct;
    ReducedHasCore(p);
    DecompositionExact(h, p);
  }

  /** The converse fails: decomposition forgets whether the evidence was there at all. */
  lemma DecompositionForgetsEvidence(h: string -> string) returns (p: Reduced)
    ensures !ReducedAllowed(p) && DecomposedAllowed(h, Decompose(h, p))
  {
    hide DecomposedAllowed;
    var st := StateRef("n", "o", "v", "d", map["f" := "1"]);
    var c := Constraint("c", [Predicate("f", "EQ", "1")], ["e"]);
    p := Reduced(Identity("s", "k"), st, [c], [], Transition("op", st, st));
    assert "f"[0] != SUBJECT_FACT[0] && "f"[0] != OPERATION_FACT[0] && "f"[0] != TARGET_FACT[0];
    assert HoldsIn(p.subject, p.current, p.transition, c.predicates[0]) == Some(true);
    assert ConstraintIds(p.constraints) == ["c"];
    DecompositionExact(h, p);
  }

  /******* Trusted issuers *******/

  const TRUST_SPACE := "governance.provenance_trust"

  function TrustFact(i: Identity): string { "issuer:" + i.kind + ":" + i.id }

  predicate TrustUsable(trust: StateRef) {
    trust.Complete() && trust.space == TRUST_SPACE && trust.objectId == "issuers"
  }

  predicate Trusts(trust: StateRef, i: Identity) {
    TrustFact(i) in trust.facts && trust.facts[TrustFact(i)] == "trusted"
  }

  ghost predicate TrustAllowed(h: string -> string, p: Decomposed, trust: StateRef) {
    TrustUsable(trust) && DecomposedAllowed(h, p) &&
    forall j :: 0 <= j < |p.attestations| ==> Trusts(trust, p.attestations[j].issuer)
  }

  ghost function TrustReason(h: string -> string, p: Decomposed, trust: StateRef): Option<Reason> {
    if !TrustUsable(trust) then Some(MissingState)
    else if DecomposedReason(h, p).Some? then DecomposedReason(h, p)
    else if forall j :: 0 <= j < |p.attestations| ==> Trusts(trust, p.attestations[j].issuer) then None
    else Some(EvidenceInvalid)
  }

  /** `EvaluateTrustBoundAdmission` */
  method EvaluateTrustBound(h: string -> string, p: Decomposed, trust: StateRef) returns (r: Option<Reason>)
    ensures r == TrustReason(h, p, trust)
    ensures r == None <==> TrustAllowed(h, p, trust)
  {
    hide DecomposedAllowed, DecomposedReason, Trusts, TrustUsable;
    if !TrustUsable(trust) { return Some(MissingState); }
    r := EvaluateDecomposed(h, p);
    if r.Some? { return; }
    for j := 0 to |p.attestations|
      invariant forall k :: 0 <= k < j ==> Trusts(trust, p.attestations[k].issuer)
    {
      if !Trusts(trust, p.attestations[j].issuer) { return Some(EvidenceInvalid); }
    }
  }

  function CompleteFacts(issuers: seq<Identity>): seq<string> {
    if issuers == [] then []
    else
      var i := issuers[|issuers| - 1];
      CompleteFacts(issuers[..|issuers| - 1]) + (if i.Complete() then [TrustFact(i)] else [])
  }

  function TrustParts(keys: seq<string>): seq<string> {
    if keys == [] then [] else TrustParts(keys[..|keys| - 1]) + [keys[|keys| - 1], "trusted"]
  }

  function TrustState(h: string -> string, version: string, issuers: seq<Identity>): StateRef {
    var keys := CompleteFacts(issuers);
    StateRef(TRUST_SPACE, "issuers", version,
             "sha256:" + h(Join([TRUST_SPACE, "issuers", version] + TrustParts(Arranged(Less, keys)), NUL)),
             map k | k in Elements(keys) :: "trusted")
  }

  /** `BuildProvenanceTrustState` */
  method BuildTrustState(h: string -> string, version: string, issuers: seq<Identity>) returns (trust: StateRef)
    ensures trust == TrustState(h, version, issuers)
  {
    hide Join, Less, TrustFact, CompleteFacts, TrustParts;
    var facts, keys := CollectTrusted(issuers);
    LessIsAnOrder();
    var sorted := SortBy(Less, keys);
    ArrangedUnique(Less, keys, sorted);
    var parts := ListTrusted(sorted);
    trust := StateRef(TRUST_SPACE, "issuers", version, "sha256:" + h(Join([TRUST_SPACE, "issuers", version] + parts, NUL)), facts);
  }

  method CollectTrusted(issuers: seq<Identity>) returns (facts: map<string, string>, keys: seq<string>)
    ensures keys == CompleteFacts(issuers)
    ensures facts == map k | k in Elements(keys) :: "trusted"
  {
    hide TrustFact;
    facts, keys := map[], [];
    for i := 0 to |issuers|
      invariant keys == CompleteFacts(issuers[..i])
      invariant facts.Keys == Elements(keys) && forall k :: k in facts ==> facts[k] == "trusted"
    {
      assert issuers[..i + 1][..i] == issuers[..i];
      if issuers[i].Complete() {
        facts := facts[TrustFact(issuers[i]) := "trusted"];
        keys := keys + [TrustFact(issuers[i])];
      }
    }
    assert issuers[..|issuers|] == issuers;
  }

  method ListTrusted(sorted: seq<string>) returns (parts: seq<string>)
    ensures parts == TrustParts(sorted)
  {
    parts := [];
    for i := 0 to |sorted|
      invariant parts == TrustParts(sorted[..i])
    {
      parts := parts + [sorted[i], "trusted"];
      assert sorted[..i + 1][..i] == sorted[..i];
    }
    assert sorted[..|sorted|] == sorted;
  }

  lemma {:induction false} CompleteFactsMembers(issuers: seq<Identity>, k: string)
    ensures k in CompleteFacts(issuers) <==> exists i :: 0 <= i < |issuers| && issuers[i].Complete() && TrustFact(issuers[i]) == k
  {
    hide TrustFact;
    if issuers != [] {
      var n := |issuers| - 1;
      CompleteFactsMembers(issuers[..n], k);
      assert forall i :: 0 <= i < n ==> issuers[..n][i] == issuers[i];
      if i :| 0 <= i < n && issuers[i].Complete() && TrustFact(issuers[i]) == k {
        assert issuers[..n][i].Complete();
      }
    }
  }

  /** The state trusts exactly the complete issuers it was built from, up to their fact name. */
  lemma TrustStateMeaning(h: string -> string, version: string, issuers: seq<Identity>, x: Identity)
    ensures TrustUsable(TrustState(h, version, issuers)) <==> version != ""
    ensures Trusts(TrustState(h, version, issuers), x) <==>
      exists i :: 0 <= i < |issuers| && issuers[i].Complete() && TrustFact(issuers[i]) == TrustFact(x)
  {
    hide Join, TrustFact, TrustParts, Arranged;
    CompleteFactsMembers(issuers, TrustFact(x));
  }

  /** The part of a fact name after its prefix. */
  function Qualified(i: Identity): string { i.kind + ":" + i.id }

  lemma FactForm(x: Identity, y: Identity)
    ensures TrustFact(x) == TrustFact(y) <==> Qualified(x) == Qualified(y)
  {
    assert TrustFact(x) == "issuer:" + Qualified(x) && TrustFact(y) == "issuer:" + Qualified(y);
    assert Qualified(x) == TrustFact(x)[7..] && Qualified(y) == TrustFact(y)[7..];
  }

  lemma OnlyColon(x: Identity, y: Identity)
    requires ':' !in x.kind && ':' !in x.id && Qualified(x) == Qualified(y)
    ensures x == y
  {
    var s, n := Qualified(x), |y.kind|;
    assert s[n] == ':' && s[|x.kind|] == ':';
    assert forall i :: 0 <= i < |x.kind| ==> s[i] == x.kind[i];
    assert forall i :: |x.kind| < i < |s| ==> s[i] == x.id[i - |x.kind| - 1];
    assert n == |x.kind|;
    assert x.kind == s[..n] && y.kind == s[..n] && x.id == s[n + 1..] && y.id == s[n + 1..];
  }

  /** Another issuer with the same fact name: a colon moves between kind and id. */
  lemma ShiftColon(x: Identity) returns (y: Identity)
    requires ':' in x.kind || ':' in x.id
    ensures y != x && TrustFact(y) == TrustFact(x)
  {
    if ':' in x.kind {
      var i :| 0 <= i < |x.kind| && x.kind[i] == ':';
      y := Identity(x.kind[i + 1..] + ":" + x.id, x.kind[..i]);
      assert x.kind == x.kind[..i] + ":" + x.kind[i + 1..];
    } else {
      var i :| 0 <= i < |x.id| && x.id[i] == ':';
      y := Identity(x.id[i + 1..], x.kind + ":" + x.id[..i]);
      assert x.id == x.id[..i] + ":" + x.id[i + 1..];
    }
    assert |y.kind| != |x.kind|;
    assert Qualified(x) == Qualified(y);
    FactForm(x, y);
  }

  /** An issuer shares its fact name with another one exactly when its kind or its id holds a
      colon. */
  lemma TrustFactAmbiguousIff(x: Identity)
    ensures (exists y :: y != x && TrustFact(y) == TrustFact(x)) <==> ':' in x.kind || ':' in x.id
  {
    if ':' in x.kind || ':' in x.id {
      var y := ShiftColon(x);
    } else {
      forall y | TrustFact(y) == TrustFact(x) ensures y == x {
        FactForm(x, y);
        OnlyColon(x, y);
      }
    }
  }

  /** Two different issuers with one fact name. */
  lemma TrustFactAmbiguous()
    ensures TrustFact(Identity("c", "a:b")) == TrustFact(Identity("b:c", "a"))
  {
    assert "a:b" + ":" + "c" == "a" + ":" + "b:c";
  }

  /** For an issuer without colons, trust means being a complete member of the list. */
  lemma TrustStateExact(h: string -> string, version: string, issuers: seq<Identity>, x: Identity)
    requires ':' !in x.kind && ':' !in x.id
    ensures Trusts(TrustState(h, version, issuers), x) <==> x in issuers && x.Complete()
  {
    hide TrustState, Trusts, TrustFact;
    TrustStateMeaning(h, version, issuers, x);
    TrustFactAmbiguousIff(x);
  }

  /******* Without constraints *******/

  datatype AdmissionAttestation = AdmissionAttestation(id: string, issuer: Identity, decision: string, bindingDigest: string, valid: bool) {
    predicate Complete() { id != "" && issuer.Complete() && decision != "" && bindingDigest != "" }
  }

  datatype ConstraintFree = ConstraintFree(subject: Identity, current: StateRef, attestation: AdmissionAttestation, transition: Transition)

  function DecisionParts(p: ConstraintFree, issuer: Identity, decision: string): seq<string> {
    [issuer.id, issuer.kind, decision] + Relation(p.subject, p.current, p.transition)
  }

  /** `admissionDecisionBindingDigest` */
  function DecisionDigest(h: string -> string, p: ConstraintFree, issuer: Identity, decision: string): string {
    "sha256:" + h(Join(DecisionParts(p, issuer, decision), NUL))
  }

  /** `EvaluateConstraintFreeAdmission` */
  function ConstraintFreeReason(h: string -> string, p: ConstraintFree, trust: StateRef): Option<Reason> {
    if !p.subject.Complete() then Some(MissingIdentity)
    else if !p.current.Complete() then Some(MissingState)
    else if !p.attestation.Complete() then Some(MissingEvidence)
    else if !p.transition.Complete() then Some(MissingTransition)
    else if !Follows(p.current, p.transition) then Some(BindingMismatch)
    else if !TrustUsable(trust) then Some(MissingState)
    else if !Trusts(trust, p.attestation.issuer) then Some(EvidenceInvalid)
    else if !p.attestation.valid then Some(EvidenceInvalid)
    else if p.attestation.decision != "ALLOW" then Some(ConstraintViolated)
    else if p.attestation.bindingDigest != DecisionDigest(h, p, p.attestation.issuer, p.attestation.decision) then Some(EvidenceInvalid)
    else None
  }

  /** `BuildAdmissionAttestation`: only an admitted source is compacted. */
  ghost function Compact(h: string -> string, source: Decomposed, trust: StateRef, issuer: Identity): Option<ConstraintFree> {
    if !TrustAllowed(h, source, trust) || !issuer.Complete() || !Trusts(trust, issuer) then None
    else
      var bare := ConstraintFree(source.subject, source.current,
                                 AdmissionAttestation("admission:" + issuer.id, issuer, "ALLOW", "", true), source.transition);
      Some(bare.(attestation := bare.attestation.(bindingDigest := DecisionDigest(h, bare, issuer, "ALLOW"))))
  }

  /** Whatever is compacted is allowed by the constraint-free evaluator, and nothing else is. */
  lemma CompactIsAllowed(h: string -> string, source: Decomposed, trust: StateRef, issuer: Identity)
    ensures Compact(h, source, trust, issuer).Some? <==> TrustAllowed(h, source, trust) && issuer.Complete() && Trusts(trust, issuer)
    ensures Compact(h, source, trust, issuer).Some? ==>
      ConstraintFreeReason(h, Compact(h, source, trust, issuer).value, trust) == None
  {
    hide Join, Relation, Trusts, Distinct, AttestationGood, Vouched, AllTrue;
    if Compact(h, source, trust, issuer).Some? {
      var p := Compact(h, source, trust, issuer).value;
      assert DecisionParts(p, issuer, "ALLOW") == DecisionParts(p.(attestation := p.attestation.(bindingDigest := "")), issuer, "ALLOW");
    }
  }

  /** An admission attestation cannot be moved to another subject, target, version, digest or
      transition: two allowed proposals that carry it agree on everything it binds, as long
      as the one it was issued for holds no NUL. */
  lemma AttestationNotRebound(h: string -> string, p: ConstraintFree, q: ConstraintFree, trust: StateRef, trust': StateRef)
    requires ConstraintFreeReason(h, p, trust) == None && ConstraintFreeReason(h, q, trust') == None
    requires p.attestation == q.attestation
    requires Without(DecisionParts(p, p.attestation.issuer, "ALLOW"), NUL)
    ensures var x, y := Join(DecisionParts(p, p.attestation.issuer, "ALLOW"), NUL), Join(DecisionParts(q, p.attestation.issuer, "ALLOW"), NUL);
      Collide(h, x, y) || Relation(p.subject, p.current, p.transition) == Relation(q.subject, q.current, q.transition)
  {
    var a, b := DecisionParts(p, p.attestation.issuer, "ALLOW"), DecisionParts(q, p.attestation.issuer, "ALLOW");
    hide Join, Relation;
    assert DecisionDigest(h, p, p.attestation.issuer, "ALLOW")[7..] == h(Join(a, NUL));
    assert DecisionDigest(h, q, p.attestation.issuer, "ALLOW")[7..] == h(Join(b, NUL));
    if Join(a, NUL) == Join(b, NUL) {
      assert |a| == |b| by { assert |a| == 3 + |Relation(p.subject, p.current, p.transition)|; RelationLength(p, q); }
      JoinAmbiguousIff(a, NUL);
      assert Relation(p.subject, p.current, p.transition) == a[3..] && Relation(q.subject, q.current, q.transition) == b[3..];
    }
  }

  lemma RelationLength(p: ConstraintFree, q: ConstraintFree)
    ensures |Relation(p.subject, p.current, p.transition)| == |Relation(q.subject, q.current, q.transition)| == 12
  {
  }

  /** The hashed text of a decision has another reading of as many parts exactly when some
      part holds a NUL. */
  lemma DecisionTextAmbiguousIff(p: ConstraintFree, issuer: Identity, decision: string)
    ensures var parts := DecisionParts(p, issuer, decision);
      (exists b :: |b| == |parts| && b != parts && Join(b, NUL) == Join(parts, NUL)) <==> !Without(parts, NUL)
  {
    JoinAmbiguousIff(DecisionParts(p, issuer, decision), NUL);
  }

  /** A NUL inside a field defeats it: one attestation is accepted for two subjects. */
  lemma NulRebindsAttestation(h: string -> string) returns (p: ConstraintFree, q: ConstraintFree, trust: StateRef)
    ensures ConstraintFreeReason(h, p, trust) == None && ConstraintFreeReason(h, q, trust) == None
    ensures p.attestation == q.attestation && p.subject != q.subject
  {
    hide Join;
    var st, issuer := StateRef("n", "o", "v", "d", map[]), Identity("i", "k");
    var t := Transition("op", st, st);
    trust := StateRef(TRUST_SPACE, "issuers", "v", "d", map[TrustFact(issuer) := "trusted"]);
    var bare := ConstraintFree(Identity("a", ['b', NUL, 'c']), st, AdmissionAttestation("x", issuer, "ALLOW", "", true), t);
    var digest := DecisionDigest(h, bare, issuer, "ALLOW");
    p := bare.(attestation := bare.attestation.(bindingDigest := digest));
    q := p.(subject := Identity(['a', NUL, 'b'], "c"));
    assert |p.subject.id| != |q.subject.id|;
    assert SubjectText(p.subject) == SubjectText(q.subject);
    SameText(p, q.subject, issuer);
  }

  function SubjectText(x: Identity): string { x.id + [NUL] + x.kind }

  /** What the hashed text of a decision makes of the subject. */
  lemma DecisionText(p: ConstraintFree, issuer: Identity, decision: string) returns (front: string, back: string)
    ensures front == issuer.id + [NUL] + (issuer.kind + [NUL] + (decision + [NUL]))
    ensures back == [NUL] + Join(DecisionParts(p, issuer, decision)[5..], NUL)
    ensures Join(DecisionParts(p, issuer, decision), NUL) == front + SubjectText(p.subject) + back
  {
    hide Join;
    var parts := DecisionParts(p, issuer, decision);
    var rest := parts[5..];
    assert parts == [issuer.id] + ([issuer.kind] + ([decision] + ([p.subject.id] + ([p.subject.kind] + rest))));
    JoinCons(p.subject.kind, rest);
    JoinCons(p.subject.id, [p.subject.kind] + rest);
    JoinCons(decision, [p.subject.id] + ([p.subject.kind] + rest));
    JoinCons(issuer.kind, [decision] + ([p.subject.id] + ([p.subject.kind] + rest)));
    JoinCons(issuer.id, [issuer.kind] + ([decision] + ([p.subject.id] + ([p.subject.kind] + rest))));
    front, back := issuer.id + [NUL] + (issuer.kind + [NUL] + (decision + [NUL])), [NUL] + Join(rest, NUL);
  }

  /** Replacing the subject keeps the hashed text exactly when it keeps the subject's text. */
  lemma SameText(p: ConstraintFree, x: Identity, issuer: Identity)
    ensures Join(DecisionParts(p.(subject := x), issuer, "ALLOW"), NUL) == Join(DecisionParts(p, issuer, "ALLOW"), NUL)
       <==> SubjectText(x) == SubjectText(p.subject)
  {
    hide Join, SubjectText;
    var front, back := DecisionText(p, issuer, "ALLOW");
    var front', back' := DecisionText(p.(subject := x), issuer, "ALLOW");
    assert DecisionParts(p.(subject := x), issuer, "ALLOW")[5..] == DecisionParts(p, issuer, "ALLOW")[5..];
    Cancel(front, SubjectText(p.subject), SubjectText(x), back);
  }

  lemma Cancel(front: string, a: string, b: string, back: string)
    ensures front + a + back == front + b + back <==> a == b
  {
    if front + a + back == front + b + back {
      assert a == (front + a + back)[|front|..|front + a + back| - |back|];
      assert b == (front + b + back)[|front|..|front + b + back| - |back|];
    }
  }

  /** A NUL after the first character of the id or before the last one of the kind. */
  predicate SubjectSplits(x: Identity) {
    (exists i :: 0 < i < |x.id| && x.id[i] == NUL) || exists i :: 0 <= i < |x.kind| - 1 && x.kind[i] == NUL
  }

  /** An attestation is good for another subject, with everything else as it was and the same
      hashed text, exactly when a NUL splits its own subject in another place. */
  lemma SubjectReboundIff(h: string -> string, p: ConstraintFree, trust: StateRef)
    requires ConstraintFreeReason(h, p, trust) == None
    ensures (exists x :: x != p.subject && SubjectText(x) == SubjectText(p.subject) && ConstraintFreeReason(h, p.(subject := x), trust) == None)
       <==> SubjectSplits(p.subject)
  {
    hide Join, Relation, Trusts, DecisionParts;
    if SubjectSplits(p.subject) {
      var x := SplitElsewhere(p.subject);
      SameText(p, x, p.attestation.issuer);
      assert ConstraintFreeReason(h, p.(subject := x), trust) == None;
    }
    forall x | x != p.subject && SubjectText(x) == SubjectText(p.subject) && ConstraintFreeReason(h, p.(subject := x), trust) == None
      ensures SubjectSplits(p.subject)
    {
      SplitsWhere(p.subject, x);
    }
  }

  lemma SplitElsewhere(x: Identity) returns (y: Identity)
    requires x.Complete() && SubjectSplits(x)
    ensures y != x && y.Complete() && SubjectText(y) == SubjectText(x)
  {
    if i :| 0 < i < |x.id| && x.id[i] == NUL {
      y := Identity(x.id[..i], x.id[i + 1..] + [NUL] + x.kind);
      assert x.id == x.id[..i] + [NUL] + x.id[i + 1..];
    } else {
      var i :| 0 <= i < |x.kind| - 1 && x.kind[i] == NUL;
      y := Identity(x.id + [NUL] + x.kind[..i], x.kind[i + 1..]);
      assert x.kind == x.kind[..i] + [NUL] + x.kind[i + 1..];
    }
    assert |y.id| != |x.id|;
    assert SubjectText(y) == SubjectText(x);
  }

  lemma SplitsWhere(x: Identity, y: Identity)
    requires y.Complete() && x != y && SubjectText(x) == SubjectText(y)
    ensures SubjectSplits(x)
  {
    var t, n := SubjectText(x), |y.id|;
    assert t[n] == NUL;
    assert x.id == t[..|x.id|] && x.kind == t[|x.id| + 1..] && y.id == t[..n] && y.kind == t[n + 1..];
    if n < |x.id| { assert x.id[n] == t[n]; } else { assert x.kind[n - |x.id| - 1] == t[n]; }
  }

  lemma JoinCons(x: string, rest: seq<string>)
    requires rest != []
    ensures Join([x] + rest, NUL) == x + [NUL] + Join(rest, NUL)
  {
    assert ([x] + rest)[1..] == rest;
  }

  /******* The whole chain *******/

  /** Distinct constraint ids, none of them the derived one. */
  ghost predicate IdsUsable(p: Proposal) {
    Distinct(ConstraintIds(p.constraints)) && DERIVED !in ConstraintIds(p.constraints)
  }

  lemma ReducedIdsDistinct(p: Proposal)
    ensures Distinct(ConstraintIds(Reduce(p).constraints)) <==> IdsUsable(p)
  {
    var ids, all := ConstraintIds(p.constraints), ConstraintIds(Reduce(p).constraints);
    assert all == [DERIVED] + ids;
    if Distinct(all) {
      forall i, j | 0 <= i < j < |ids| ensures ids[i] != ids[j] { assert all[i + 1] != all[j + 1]; }
      forall i | 0 <= i < |ids| ensures ids[i] != DERIVED { assert all[0] != all[i + 1]; }
    }
    if IdsUsable(p) {
      forall i, j | 0 <= i < j < |all| ensures all[i] != all[j] {
        assert all[j] == ids[j - 1];
        if i > 0 { assert all[i] == ids[i - 1]; }
      }
    }
  }

  /** Every attestor that the chain derives for this proposal is trusted. */
  predicate AttestorsTrusted(trust: StateRef, p: Reduced) {
    forall i :: 0 <= i < |p.constraints| ==> Trusts(trust, AttestorOf(p.constraints[i], KindsOf(p.evidence)))
  }

  /** An allowed proposal passes every step of the chain exactly when its constraint ids
      are usable and its attestors and policy issuer are trusted. */
  lemma ChainPreservesAdmission(h: string -> string, p: Proposal, trust: StateRef, issuer: Identity)
    requires Allowed(p) && ReservedUnused(p)
    requires TrustUsable(trust) && issuer.Complete()
    ensures Compact(h, Decompose(h, Reduce(p)), trust, issuer).Some? <==>
      IdsUsable(p) && AttestorsTrusted(trust, Reduce(p)) && Trusts(trust, issuer)
    ensures Compact(h, Decompose(h, Reduce(p)), trust, issuer).Some? ==>
      ConstraintFreeReason(h, Compact(h, Decompose(h, Reduce(p)), trust, issuer).value, trust) == None
  {
    hide Allowed, ReservedUnused, ReducedAllowed, DecomposedAllowed, IdsUsable, Trusts, TrustUsable, ConstraintFreeReason, Compact;
    ReductionEquivalent(p);
    AllowedHasConstraint(p);
    DecompositionPreserves(h, Reduce(p));
    ReducedIdsDistinct(p);
    CompactIsAllowed(h, Decompose(h, Reduce(p)), trust, issuer);
    IssuersOf(h, Reduce(p), trust);
  }

  lemma AllowedHasConstraint(p: Proposal)
    requires Allowed(p)
    ensures p.constraints != []
  {
    hide AllMet, AllEvidenceGood;
  }

  lemma IssuersOf(h: string -> string, p: Reduced, trust: StateRef)
    ensures (forall j :: 0 <= j < |Decompose(h, p).attestations| ==> Trusts(trust, Decompose(h, p).attestations[j].issuer)) <==>
            AttestorsTrusted(trust, p)
  {
    hide Trusts, AttestationDigest;
    var atts := Decompose(h, p).attestations;
    assert |atts| == |p.constraints|;
    assert forall j :: 0 <= j < |atts| ==> atts[j].issuer == AttestorOf(p.constraints[j], KindsOf(p.evidence));
  }
}
