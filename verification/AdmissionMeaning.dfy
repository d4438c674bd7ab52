/** When each representation of a governed action (experiments/primitivereduction) is admitted,
    read off its fields. */
module AdmissionMeaning {
  import opened Text
  import opened Framing
  import opened PrimitiveReduction

  /** An identified subject, a located, versioned state, and a transition of exactly that state
      within one target. */
  predicate Situated(subject: Identity, current: StateRef, t: Transition) {
    subject.id != "" && subject.kind != "" && t.operation != "" &&
    current.space != "" && current.objectId != "" && current.version != "" && current.digest != "" &&
    t.from.space != "" && t.from.objectId != "" && t.from.version == current.version && t.from.digest == current.digest &&
    t.to.space != "" && t.to.objectId != "" && t.to.version != "" && t.to.digest != "" &&
    current.space + ":" + current.objectId == t.from.space + ":" + t.from.objectId == t.to.space + ":" + t.to.objectId
  }

  lemma SituatedMeaning(subject: Identity, current: StateRef, t: Transition)
    ensures Situated(subject, current, t) <==> subject.Complete() && current.Complete() && t.Complete() && Follows(current, t)
  {
  }

  /** Each record is complete and valid for this state. */
  predicate Attested(es: seq<Evidence>, digest: string) {
    es != [] && forall i :: 0 <= i < |es| ==> es[i] == Evidence(es[i].id, es[i].kind, digest, true) && es[i].id != "" && es[i].kind != ""
  }

  predicate Cites(es: seq<Evidence>, id: string) { exists j :: 0 <= j < |es| && es[j].id == id }

  /** Each constraint is complete and cites only present evidence. */
  predicate Referenced(cs: seq<Constraint>, es: seq<Evidence>) {
    cs != [] && forall i :: 0 <= i < |cs| ==>
      cs[i].id != "" && cs[i].predicates != [] && cs[i].evidenceIds != [] &&
      forall k :: 0 <= k < |cs[i].evidenceIds| ==> Cites(es, cs[i].evidenceIds[k])
  }

  lemma MetMeaning(holds: Predicate -> Option<bool>, cs: seq<Constraint>, es: seq<Evidence>)
    ensures cs != [] && AllMet(holds, IdsOf(es), cs) <==>
            Referenced(cs, es) && forall i :: 0 <= i < |cs| ==> AllTrue(holds, cs[i].predicates)
  {
    hide AllTrue;
    assert forall id :: id in IdsOf(es) <==> Cites(es, id);
    if cs != [] && AllMet(holds, IdsOf(es), cs) {
      forall i | 0 <= i < |cs| ensures ConstraintMet(holds, IdsOf(es), cs[i]) { }
    }
  }

  /** The stored facts make the predicate true. */
  predicate TrueOf(facts: map<string, string>, p: Predicate) {
    p.fact != "" && p.fact in facts && Compares(facts[p.fact], p) == Some(true)
  }

  /** So do the stored facts together with the subject, the operation and the target. */
  predicate TrueIn(subject: Identity, current: StateRef, t: Transition, p: Predicate) {
    if p.fact == "$subject.id" then Compares(subject.id, p) == Some(true)
    else if p.fact == "$transition.operation" then Compares(t.operation, p) == Some(true)
    else if p.fact == "$target.key" then Compares(current.space + ":" + current.objectId, p) == Some(true)
    else TrueOf(current.facts, p)
  }

  lemma TrueInMeaning(subject: Identity, current: StateRef, t: Transition, ps: seq<Predicate>)
    requires current.space != "" && current.objectId != ""
    ensures AllTrue(pr => HoldsIn(subject, current, t, pr), ps) <==> forall i :: 0 <= i < |ps| ==> TrueIn(subject, current, t, ps[i])
  {
    hide Compares;
    ReservedDiffer();
  }

  /** Six primitives: the capability is exactly the transition's, by this subject, on this target. */
  lemma AllowedMeaning(p: Proposal)
    ensures Allowed(p) <==>
      Situated(p.subject, p.current, p.transition) && Attested(p.evidence, p.current.digest) && Referenced(p.constraints, p.evidence) &&
      p.capability == Capability(p.transition.operation, p.subject.id, p.current.space + ":" + p.current.objectId) &&
      forall i, j :: 0 <= i < |p.constraints| && 0 <= j < |p.constraints[i].predicates| ==> TrueOf(p.current.facts, p.constraints[i].predicates[j])
  {
    hide Situated, Follows, Referenced, AllMet, Compares;
    SituatedMeaning(p.subject, p.current, p.transition);
    MetMeaning(FactsOf(p), p.constraints, p.evidence);
    SituatedTarget(p.subject, p.current, p.transition);
    assert forall i :: 0 <= i < |p.constraints| ==>
      (AllTrue(FactsOf(p), p.constraints[i].predicates) <==>
       forall j :: 0 <= j < |p.constraints[i].predicates| ==> TrueOf(p.current.facts, p.constraints[i].predicates[j]));
    hide AllTrue, TrueOf;
  }

  lemma SituatedTarget(subject: Identity, current: StateRef, t: Transition)
    ensures Situated(subject, current, t) ==>
      current.TargetKey() == current.space + ":" + current.objectId && current.space != "" && current.objectId != "" &&
      current.TargetKey() != "" && subject.id != "" && t.operation != ""
  {
  }

  /** Some constraint cites evidence of the authority kind. */
  predicate AuthorityCited(cs: seq<Constraint>, es: seq<Evidence>) {
    exists i, k, j :: 0 <= i < |cs| && 0 <= k < |cs[i].evidenceIds| && 0 <= j < |es| &&
                      cs[i].evidenceIds[k] == es[j].id && es[j].kind == "authority-binding-attestation"
  }

  lemma AuthorityMeaning(p: Reduced)
    ensures CitesAuthority(p) <==> AuthorityCited(p.constraints, p.evidence)
    ensures CitesAuthority(p) ==> AuthorityIds(p.evidence) != {}
  {
    if CitesAuthority(p) {
      var i, k :| 0 <= i < |p.constraints| && 0 <= k < |p.constraints[i].evidenceIds| && p.constraints[i].evidenceIds[k] in AuthorityIds(p.evidence);
      var j :| 0 <= j < |p.evidence| && p.evidence[j].id == p.constraints[i].evidenceIds[k] && p.evidence[j].kind == AUTHORITY_KIND;
    }
    if i, k, j :| 0 <= i < |p.constraints| && 0 <= k < |p.constraints[i].evidenceIds| && 0 <= j < |p.evidence| &&
                  p.constraints[i].evidenceIds[k] == p.evidence[j].id && p.evidence[j].kind == AUTHORITY_KIND {
      assert p.constraints[i].evidenceIds[k] in AuthorityIds(p.evidence);
      assert AnyIn(p.constraints[i].evidenceIds, AuthorityIds(p.evidence));
    }
  }

  /** Without capability: the authority is cited instead, and constraints may read the proposal. */
  lemma ReducedMeaning(p: Reduced)
    ensures ReducedAllowed(p) <==>
      Situated(p.subject, p.current, p.transition) && Attested(p.evidence, p.current.digest) && Referenced(p.constraints, p.evidence) &&
      AuthorityCited(p.constraints, p.evidence) &&
      forall i, j :: 0 <= i < |p.constraints| && 0 <= j < |p.constraints[i].predicates| ==>
        TrueIn(p.subject, p.current, p.transition, p.constraints[i].predicates[j])
  {
    hide Situated, Follows, Referenced, AllMet, TrueIn, HoldsIn, CitesAuthority, AuthorityCited;
    SituatedMeaning(p.subject, p.current, p.transition);
    SituatedTarget(p.subject, p.current, p.transition);
    MetMeaning(ViewOf(p), p.constraints, p.evidence);
    AuthorityMeaning(p);
    if Situated(p.subject, p.current, p.transition) {
      forall i | 0 <= i < |p.constraints| ensures AllTrue(ViewOf(p), p.constraints[i].predicates) <==>
        forall j :: 0 <= j < |p.constraints[i].predicates| ==> TrueIn(p.subject, p.current, p.transition, p.constraints[i].predicates[j])
      {
        TrueInMeaning(p.subject, p.current, p.transition, p.constraints[i].predicates);
        SameView(p, p.constraints[i].predicates);
      }
    }
    hide AllTrue;
  }

  lemma SameView(p: Reduced, ps: seq<Predicate>)
    ensures AllTrue(ViewOf(p), ps) <==> AllTrue(pr => HoldsIn(p.subject, p.current, p.transition, pr), ps)
  {
  }

  /** A valid attestation of one of the constraints, bound to this proposal and its content. */
  predicate AttestsOne(h: string -> string, p: Decomposed, a: Attestation) {
    a.id != "" && a.issuer.id != "" && a.issuer.kind != "" &&
    exists i :: 0 <= i < |p.constraints| && p.constraints[i].id != "" && AttestationDigest(h, p, p.constraints[i], a.issuer) != "" &&
                a == Attestation(a.id, a.issuer, p.constraints[i].id, AttestationDigest(h, p, p.constraints[i], a.issuer), true)
  }

  lemma AttestsOneMeaning(h: string -> string, p: Decomposed, a: Attestation)
    ensures AttestsOne(h, p, a) <==> AttestationGood(h, p, a)
  {
    hide AttestationDigest;
    if AttestationGood(h, p, a) {
      var i :| 0 <= i < |p.constraints| && Vouches(h, p, a, p.constraints[i]);
      assert p.constraints[i].id != "";
    }
    if AttestsOne(h, p, a) {
      var i :| 0 <= i < |p.constraints| && p.constraints[i].id != "" && AttestationDigest(h, p, p.constraints[i], a.issuer) != "" &&
               a == Attestation(a.id, a.issuer, p.constraints[i].id, AttestationDigest(h, p, p.constraints[i], a.issuer), true);
      assert Vouches(h, p, a, p.constraints[i]);
    }
  }

  /** Complete constraints under different ids, each named by some attestation and true. */
  predicate AllVouched(p: Decomposed) {
    p.constraints != [] && (forall i, j :: 0 <= i < j < |p.constraints| ==> p.constraints[i].id != p.constraints[j].id) &&
    forall i :: 0 <= i < |p.constraints| ==>
      p.constraints[i].id != "" && p.constraints[i].predicates != [] &&
      (exists j :: 0 <= j < |p.attestations| && p.attestations[j].constraintId == p.constraints[i].id) &&
      forall k :: 0 <= k < |p.constraints[i].predicates| ==> TrueIn(p.subject, p.current, p.transition, p.constraints[i].predicates[k])
  }

  /** Without evidence records: signed attestations stand for them. */
  lemma DecomposedMeaning(h: string -> string, p: Decomposed)
    ensures DecomposedAllowed(h, p) <==>
      Situated(p.subject, p.current, p.transition) && AllVouched(p) && p.attestations != [] &&
      forall j :: 0 <= j < |p.attestations| ==> AttestsOne(h, p, p.attestations[j])
  {
    hide Situated, Follows, TrueIn, HoldsIn, AttestsOne, AttestationGood;
    SituatedMeaning(p.subject, p.current, p.transition);
    SituatedTarget(p.subject, p.current, p.transition);
    forall j | 0 <= j < |p.attestations| ensures AttestsOne(h, p, p.attestations[j]) <==> AttestationGood(h, p, p.attestations[j]) {
      AttestsOneMeaning(h, p, p.attestations[j]);
    }
    if Situated(p.subject, p.current, p.transition) {
      forall i | 0 <= i < |p.constraints| ensures AllTrue(SemanticView(p), p.constraints[i].predicates) <==>
        forall k :: 0 <= k < |p.constraints[i].predicates| ==> TrueIn(p.subject, p.current, p.transition, p.constraints[i].predicates[k])
      {
        TrueInMeaning(p.subject, p.current, p.transition, p.constraints[i].predicates);
        SameSemanticView(p, p.constraints[i].predicates);
      }
    }
    DistinctMeaning(p.constraints);
    hide AllTrue, Distinct, SemanticIds;
  }

  lemma SameSemanticView(p: Decomposed, ps: seq<Predicate>)
    ensures AllTrue(SemanticView(p), ps) <==> AllTrue(pr => HoldsIn(p.subject, p.current, p.transition, pr), ps)
  {
  }

  lemma DistinctMeaning(cs: seq<Semantic>)
    ensures Distinct(SemanticIds(cs)) <==> forall i, j :: 0 <= i < j < |cs| ==> cs[i].id != cs[j].id
  {
    var ids := SemanticIds(cs);
    assert forall i :: 0 <= i < |cs| ==> ids[i] == cs[i].id;
    if Distinct(ids) {
      forall i, j | 0 <= i < j < |cs| ensures cs[i].id != cs[j].id { assert ids[i] != ids[j]; }
    }
  }

  /** The trust state is the governance one and lists the issuer as trusted. */
  predicate Lists(trust: StateRef, i: Identity) {
    trust.space == "governance.provenance_trust" && trust.objectId == "issuers" && trust.version != "" && trust.digest != "" &&
    var name := "issuer:" + i.kind + ":" + i.id;
    name in trust.facts && trust.facts[name] == "trusted"
  }

  /** With trusted issuers: the decomposed proposal is admitted and every issuer is listed. */
  lemma TrustMeaning(h: string -> string, p: Decomposed, trust: StateRef)
    ensures TrustAllowed(h, p, trust) <==>
      DecomposedAllowed(h, p) && forall j :: 0 <= j < |p.attestations| ==> Lists(trust, p.attestations[j].issuer)
  {
    hide DecomposedAllowed;
    AttestationsPresent(h, p);
    if DecomposedAllowed(h, p) && forall j :: 0 <= j < |p.attestations| ==> Lists(trust, p.attestations[j].issuer) {
      assert Lists(trust, p.attestations[0].issuer);
    }
  }

  lemma AttestationsPresent(h: string -> string, p: Decomposed)
    ensures DecomposedAllowed(h, p) ==> p.attestations != []
  {
  }

  /** Without constraints: a listed issuer's valid ALLOW for exactly this proposal. */
  lemma ConstraintFreeMeaning(h: string -> string, p: ConstraintFree, trust: StateRef)
    ensures ConstraintFreeReason(h, p, trust) == None <==>
      var a := p.attestation;
      Situated(p.subject, p.current, p.transition) && Lists(trust, a.issuer) &&
      a == AdmissionAttestation(a.id, a.issuer, "ALLOW", DecisionDigest(h, p, a.issuer, "ALLOW"), true) &&
      a.id != "" && a.issuer.id != "" && a.issuer.kind != ""
  {
    hide Situated, Follows, Join, DecisionParts;
    SituatedMeaning(p.subject, p.current, p.transition);
  }
}
