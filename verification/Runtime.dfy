/** Requests, bindings and statements of the reference runtime
    (governedaction/runtime/runtime.go, recovery.go, fenced.go). */
module Runtime {
  import opened Text
  import opened Framing

  datatype Identity = Identity(id: string, kind: string) {
    predicate Complete() { !Blank(id) && !Blank(kind) }
  }

  datatype State = State(target: string, revision: string, digest: string) {
    predicate Complete() { !Blank(target) && !Blank(revision) && !Blank(digest) }
  }

  datatype Attestation = Attestation(id: string, issuer: Identity, bindingDigest: string) {
    predicate Complete() { !Blank(id) && issuer.Complete() && !Blank(bindingDigest) }
  }

  datatype Transition = Transition(operation: string, from: State, to: State) {
    predicate Complete() { !Blank(operation) && from.Complete() && to.Complete() }
  }

  datatype Request = Request(subject: Identity, executor: Identity, current: State,
                             admission: Attestation, transition: Transition, attemptId: string)

  datatype Custody = Custody(effectId: string, attemptId: string, target: string, owner: Identity)

  datatype Observation = Observation(state: State, attestation: Attestation)

  /** The runtime's conservative knowledge about one attempt. */
  datatype Disposition = RejectedResult | UnknownResult | ClosedResult

  datatype Error =
    | IncompleteRequest | TransitionBinding | AdmissionBinding | StateChanged
    | ObservationBinding | ObservedStateMismatch | IncompleteObservation
    | MissingRecoveryCustody | RecoveryCustodyMismatch | RecoveryBinding | IncompleteRecoveryRequest
    | MissingCheck | MissingCustody | MissingEffect
    | IncompleteFencedCustody | FencedCustodyMismatch | CustodyNotReserved | TakeoverBinding
    | IncompleteTakeoverRequest | FenceGenerationExhausted
    | AdapterError | Cancelled

  /******* Statements *******/

  const EFFECT_DOMAIN := "effect-v0"
  const ADMISSION_DOMAIN := "admission-v0"
  const OBSERVATION_DOMAIN := "observation-v0"
  const RECOVERY_DOMAIN := "recovery-v1"
  const TAKEOVER_DOMAIN := "takeover-v1"

  datatype Phase = Reserved | Crossing | Unknown | Closed {
    function Name(): string {
      match this
      case Reserved => "RESERVED"
      case Crossing => "CROSSING"
      case Unknown => "UNKNOWN"
      case Closed => "CLOSED"
    }
  }

  /** The durable ownership record of one exact effect attempt. */
  datatype FencedCustody = FencedCustody(effectId: string, attemptId: string, target: string,
                                         owner: Identity, generation: uint64, phase: Phase) {
    predicate Complete() {
      !Blank(effectId) && !Blank(attemptId) && !Blank(target) && owner.Complete() && generation > 0
    }
  }

  /** The part of a request that its effect identity and its admission bind. */
  datatype Projection = Projection(subject: Identity, current: State, operation: string,
                                   toRevision: string, toDigest: string)

  /** Everything the runtime ever attests or identifies by digest. */
  datatype Statement =
    | EffectStatement(projection: Projection)
    | AdmissionStatement(projection: Projection)
    | ObservationStatement(effectId: string, observed: State)
    | RecoveryStatement(custody: Custody, recoverer: Identity)
    | TakeoverStatement(fenced: FencedCustody, newOwner: Identity)

  function ProjectionParts(domain: string, p: Projection): seq<string> {
    [domain, p.subject.id, p.subject.kind, p.current.target, p.current.revision, p.current.digest,
     p.operation, p.toRevision, p.toDigest]
  }

  function Parts(s: Statement): seq<string> {
    match s
    case EffectStatement(p) => ProjectionParts(EFFECT_DOMAIN, p)
    case AdmissionStatement(p) => ProjectionParts(ADMISSION_DOMAIN, p)
    case ObservationStatement(e, o) => [OBSERVATION_DOMAIN, e, o.target, o.revision, o.digest]
    case RecoveryStatement(c, r) =>
      [RECOVERY_DOMAIN, c.effectId, c.attemptId, c.target, c.owner.id, c.owner.kind, r.id, r.kind]
    case TakeoverStatement(c, o) =>
      [TAKEOVER_DOMAIN, c.effectId, c.attemptId, c.target, c.owner.id, c.owner.kind,
       Decimal(c.generation), c.phase.Name(), o.id, o.kind,
       Decimal(Successor(c.generation))]
  }

  function StatementDigest(h: string -> string, s: Statement): string {
    Digest(h, Parts(s))
  }

  lemma PhaseNameInjective(a: Phase, b: Phase)
    requires a.Name() == b.Name()
    ensures a == b
  {
    assert a.Name()[0] == b.Name()[0];
    assert a.Name()[1] == b.Name()[1];
  }

  lemma DomainsDiffer(s: Statement)
    ensures Parts(s)[0][0] ==
            (match s
             case EffectStatement(_) => 'e'
             case AdmissionStatement(_) => 'a'
             case ObservationStatement(_, _) => 'o'
             case RecoveryStatement(_, _) => 'r'
             case TakeoverStatement(_, _) => 't')
  {
  }

  /** The framed parts determine the whole statement, across all five domains. */
  lemma PartsInjective(a: Statement, b: Statement)
    requires Parts(a) == Parts(b)
    ensures a == b
  {
    DomainsDiffer(a);
    DomainsDiffer(b);
    var p, q := Parts(a), Parts(b);
    if a.TakeoverStatement? && b.TakeoverStatement? {
      assert p[6] == q[6] && p[7] == q[7];
      DecimalInjective(a.fenced.generation, b.fenced.generation);
      PhaseNameInjective(a.fenced.phase, b.fenced.phase);
      assert forall i :: 0 <= i < |p| ==> p[i] == q[i];
      assert p[1] == q[1] && p[2] == q[2] && p[3] == q[3] && p[4] == q[4] && p[5] == q[5] && p[8] == q[8] && p[9] == q[9];
    } else if a.RecoveryStatement? && b.RecoveryStatement? {
      assert p[1] == q[1] && p[2] == q[2] && p[3] == q[3] && p[4] == q[4] && p[5] == q[5] && p[6] == q[6] && p[7] == q[7];
    } else if a.ObservationStatement? && b.ObservationStatement? {
      assert p[1] == q[1] && p[2] == q[2] && p[3] == q[3] && p[4] == q[4];
    } else {
      assert p[1] == q[1] && p[2] == q[2] && p[3] == q[3] && p[4] == q[4];
      if |p| > 5 {
        assert p[5] == q[5] && p[6] == q[6] && p[7] == q[7];
        if |p| > 8 { assert p[8] == q[8]; }
      }
    }
  }

  /** No two different statements share a digest unless the hash collides on their framings:
      an admission can never serve as an effect identity, an observation, a
      recovery or a takeover, nor one transfer as another. */
  lemma StatementDigestInjective(h: string -> string, a: Statement, b: Statement)
    requires Fits(Parts(a)) && Fits(Parts(b))
    requires StatementDigest(h, a) == StatementDigest(h, b)
    ensures a == b || Collide(h, Frame(Parts(a)), Frame(Parts(b)))
  {
    DigestInjective(h, Parts(a), Parts(b));
    if Parts(a) == Parts(b) {
      PartsInjective(a, b);
    }
  }

  /******* Request validation *******/

  function Project(req: Request): Projection {
    Projection(req.subject, req.current, req.transition.operation,
               req.transition.to.revision, req.transition.to.digest)
  }

  /** The guard of `requestBinding`. */
  predicate Bindable(req: Request) {
    req.subject.Complete() && req.current.Complete() && req.transition.Complete() &&
    req.transition.from == req.current && req.transition.to.target == req.current.target
  }

  function EffectIdentity(h: string -> string, req: Request): Option<string> {
    if Bindable(req) then Some(StatementDigest(h, EffectStatement(Project(req)))) else None
  }

  function AdmissionBindingDigest(h: string -> string, req: Request): Option<string> {
    if Bindable(req) then Some(StatementDigest(h, AdmissionStatement(Project(req)))) else None
  }

  function ObservationBindingDigest(h: string -> string, effectId: string, observed: State): string {
    StatementDigest(h, ObservationStatement(effectId, observed))
  }

  /** `validateRequest`; `None` is success. */
  function ValidateRequest(h: string -> string, req: Request): (e: Option<Error>)
    ensures e == None <==>
      req.executor.Complete() && req.admission.Complete() && !Blank(req.attemptId) && Bindable(req) &&
      AdmissionBindingDigest(h, req) == Some(req.admission.bindingDigest)
    ensures e == Some(AdmissionBinding) ==>
      Bindable(req) && AdmissionBindingDigest(h, req) != Some(req.admission.bindingDigest)
  {
    if !req.subject.Complete() || !req.executor.Complete() || !req.current.Complete() ||
       !req.admission.Complete() || !req.transition.Complete() || Blank(req.attemptId)
    then Some(IncompleteRequest)
    else if req.transition.from != req.current || req.transition.to.target != req.current.target
    then Some(TransitionBinding)
    else match AdmissionBindingDigest(h, req)
      case None => Some(TransitionBinding)
      case Some(expected) =>
        if req.admission.bindingDigest != expected then Some(AdmissionBinding) else None
  }

  /** A request is valid exactly if nothing in it is blank, its transition starts at the admitted
      state and stays on the target, and the admission is bound to just this change. */
  lemma RequestMeaning(h: string -> string, req: Request)
    ensures ValidateRequest(h, req) == None <==>
      var t, a := req.transition, req.admission;
      !Blank(req.subject.id) && !Blank(req.subject.kind) && !Blank(req.executor.id) && !Blank(req.executor.kind) &&
      !Blank(req.current.target) && !Blank(req.current.revision) && !Blank(req.current.digest) && !Blank(req.attemptId) &&
      !Blank(a.id) && !Blank(a.issuer.id) && !Blank(a.issuer.kind) && !Blank(a.bindingDigest) &&
      !Blank(t.operation) && !Blank(t.to.revision) && !Blank(t.to.digest) &&
      t == Transition(t.operation, req.current, State(req.current.target, t.to.revision, t.to.digest)) &&
      a.bindingDigest == StatementDigest(h, AdmissionStatement(
        Projection(req.subject, req.current, t.operation, t.to.revision, t.to.digest)))
  {
    hide Blank, StatementDigest;
  }

  /** Valid requests with the same effect identity ask for the same effect, whoever
      executes them and on whatever admission. */
  lemma EffectIdentityDeterminesEffect(h: string -> string, a: Request, b: Request)
    requires ValidateRequest(h, a) == None && ValidateRequest(h, b) == None
    requires Fits(Parts(EffectStatement(Project(a)))) && Fits(Parts(EffectStatement(Project(b))))
    requires EffectIdentity(h, a) == EffectIdentity(h, b)
    ensures Collide(h, Frame(Parts(EffectStatement(Project(a)))), Frame(Parts(EffectStatement(Project(b))))) ||
            (a.subject == b.subject && a.current == b.current && a.transition == b.transition)
  {
    StatementDigestInjective(h, EffectStatement(Project(a)), EffectStatement(Project(b)));
  }
}
