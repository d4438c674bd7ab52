/** The portable evidence verifier (evidenceverify/verify.go, history.go,
    succession.go): its documents, what each check means, and what a report implies.

    Decoding, signatures and document digests are functions of an `Oracle`. */
module Verifier {
  import opened Text
  import opened Framing
  import Runtime
  import Quorum = QuorumSuccession
  import History = HistoryChain

  type Identity = Runtime.Identity
  type State = Runtime.State
  type Head = Quorum.Head

  /******* Documents *******/

  datatype Envelope = Envelope(keyId: string, payload: string, signature: string)

  datatype Grade = Unit | Simulation | Native | OtherGrade(text: string) {
    function Rank(): nat {
      match this
      case Unit => 1
      case Simulation => 2
      case Native => 3
      case OtherGrade(_) => 0
    }
  }

  datatype Claim = ExactEffect | Postcondition | OtherClaim(text: string)

  datatype Closure = ClosureUnknown | ClosureClosed | OtherClosure(text: string)

  datatype Causality = Unproven | StateOnly | ExactCommitRecord | OtherCausality(text: string)

  datatype Trust = UntrustedHistory | TrustedHistory | OtherTrust(text: string)

  datatype Grades = Grades(effect: Grade, succession: Grade, genesis: Grade)

  datatype Request = Request(subject: Identity, executor: Identity, before: State, after: State,
                             operation: string, attemptId: string, admissionBinding: string)

  datatype Admission = Admission(buildSha: string, caseId: string, policyHash: string, requestBinding: string,
                                 observedBefore: State, allowedOperation: string,
                                 authorityEpoch: nat, authorityGeneration: nat, authorityActive: bool)

  datatype Execution = Execution(buildSha: string, caseId: string, grade: Grade, claimType: Claim,
                                 intentId: string, request: Request, effectId: string,
                                 custodyGeneration: nat, authorityEpoch: nat, authorityGeneration: nat,
                                 admitted: bool, claimedClosure: Closure, claimedCausality: Causality,
                                 claimedHistory: Trust, evidenceGrades: Option<Grades>)

  datatype Commit = Commit(effectId: string, attemptId: string, owner: Identity, custodyGeneration: nat,
                           admissionBinding: string, authorityEpoch: nat, authorityGeneration: nat,
                           authorityActive: bool, operation: string, before: State, after: State,
                           committedAt: string)

  datatype Destination = Destination(buildSha: string, caseId: string, profile: string,
                                     observationError: string, observed: State, effectCount: nat,
                                     commit: Option<Commit>, authorityCurrentlyActive: bool,
                                     currentAuthorityGeneration: nat)

  datatype Witness = Witness(buildSha: string, caseId: string, head: Head)

  datatype Anchor = Anchor(version: int, head: Head, updatedAt: int, signature: string)

  datatype HistoryEvidence = HistoryEvidence(entries: seq<string>, anchor: string, witnessed: Envelope)

  datatype PortableGenesis = PortableGenesis(payload: string, keyId: string, signature: string,
                                             capabilityEnvelope: string)

  datatype SuccessionEvidence = SuccessionEvidence(oldGenesis: PortableGenesis, newGenesis: PortableGenesis,
                                                   authorityRotation: string, beforeAnchor: string,
                                                   witnessed: Envelope)

  datatype Bundle = Bundle(schema: string, admission: Envelope, execution: Envelope,
                           destination: Option<Envelope>, history: Option<HistoryEvidence>,
                           succession: Option<SuccessionEvidence>)

  datatype SuccessionPolicy = SuccessionPolicy(oldManifestHash: string, newManifestHash: string,
                                               historyPurpose: string, oldCheckpoint: Head,
                                               oldAuthorityCheckpoint: Head, oldCustodian: Identity,
                                               newCustodian: Identity, evaluationTime: string, grades: Grades)

  datatype Policy = Policy(schema: string, buildSha: string, caseId: string, destinationProfile: string,
                           admissionPolicyHash: string, requiredClaimType: Claim, maximumGrade: Grade,
                           publicKeys: map<string, string>, roleKeys: map<string, string>,
                           historyId: string, checkpoint: Option<Head>, succession: Option<SuccessionPolicy>)

  /******* Genesis and rotation documents *******/

  datatype HistoryIdentity = HistoryIdentity(purpose: string, journalId: string)

  datatype Governance = Governance(protocol: string, authorityId: string, publicKey: string)

  datatype Grant = Grant(purpose: string, journalId: string, custodian: Identity, keyId: string, scope: string)

  datatype Capability = Capability(quorumProtocol: string, quorum: Quorum.Quorum,
                                   historyProtocol: string, histories: seq<HistoryIdentity>,
                                   governance: Governance, custody: Grant)

  datatype Manifest = Manifest(epoch: nat, envelopeHash: string, validFrom: int, validUntil: int, revision: string)

  /** What `genesis` returns. */
  datatype Genesis = Genesis(epoch: nat, manifest: string, envelope: string, quorumHash: string,
                             historyHash: string, governanceHash: string, authorityKey: string,
                             cap: Capability, validFrom: int, validUntil: int)

  datatype Authorization = Authorization(version: string, rotationId: string, journalId: string,
                                         previous: Head, oldEpoch: nat, newEpoch: nat,
                                         oldManifest: string, newManifest: string,
                                         oldEnvelope: string, newEnvelope: string,
                                         oldPolicy: string, newPolicy: string,
                                         oldAuthorityId: string, newAuthorityId: string,
                                         oldAuthorityKey: string, newAuthorityKey: string,
                                         notBefore: int, expiresAt: int)

  datatype Approval = Approval(keyId: string, signature: string)

  datatype Rotation = Rotation(authorization: Authorization, oldApproval: Approval, newApproval: Approval)

  datatype Observed = Observed(buildSha: string, caseId: string, observedAt: string, historyBefore: Head,
                               authorityBefore: Head, authorityFrozen: Head, authorityAfter: Head,
                               quorum: Quorum.Observation)

  /** Decoders (`None` is a decoding error), base64, signature checks and digests. */
  datatype Oracle = Oracle(
    h: string -> string,
    compact: string -> string,
    publicKey: string -> Option<string>,
    keyText: string -> string,
    genuine: (string, string, string) -> bool,
    time: string -> Option<int>,
    execution: string -> Option<Execution>,
    admission: string -> Option<Admission>,
    destination: string -> Option<Destination>,
    witnessOf: string -> Option<Witness>,
    anchor: string -> Option<Anchor>,
    anchorText: Anchor -> string,
    entry: string -> Option<History.Entry>,
    entryText: History.Entry -> string,
    canonical: string -> bool,
    manifest: string -> Option<Manifest>,
    capability: string -> Option<Capability>,
    quorumHash: Quorum.Quorum -> string,
    historiesHash: seq<HistoryIdentity> -> string,
    governanceHash: Governance -> string,
    fingerprint: string -> string,
    authorityState: Genesis -> string,
    rotation: string -> Option<Rotation>,
    rotationText: Authorization -> Option<string>,
    rotationDigest: Rotation -> string,
    observed: string -> Option<Observed>,
    quorumTransition: (Head, Genesis, Genesis) -> string,
    historyTransition: (Head, Genesis, Genesis, string) -> string)

  /******* Keys and signatures *******/

  const SCHEMA := "aegis/composite-evidence/v1"

  /** The public key the policy trusts for a role, if the statement names that key. */
  function TrustedKey(o: Oracle, p: Policy, role: string, keyId: string): Option<string> {
    var expected := Quorum.Lookup(p.roleKeys, role);
    if expected == "" || keyId != expected || expected !in p.publicKeys then None
    else o.publicKey(p.publicKeys[expected])
  }

  /** `signingBytes` */
  function SigningBytes(o: Oracle, role: string, payload: string): string {
    SCHEMA + [0 as char] + role + [0 as char] + o.compact(payload)
  }

  predicate SignedBy(o: Oracle, p: Policy, role: string, keyId: string, message: string, signature: string) {
    match TrustedKey(o, p, role, keyId)
    case None => false
    case Some(key) => o.genuine(key, message, signature)
  }

  predicate Signed(o: Oracle, p: Policy, role: string, env: Envelope) {
    SignedBy(o, p, role, env.keyId, SigningBytes(o, role, env.payload), env.signature)
  }

  /** `statement`: the decoded payload when it decodes and is signed by the role's key. */
  function Stated<T>(o: Oracle, p: Policy, decode: string -> Option<T>, role: string, env: Envelope): Option<T> {
    if decode(env.payload).Some? && Signed(o, p, role, env) then decode(env.payload) else None
  }

  predicate NoNul(s: string) {
    forall i :: 0 <= i < |s| ==> s[i] != 0 as char
  }

  /** A signature made for one role can never be read as another role's, nor for
      another payload. */
  lemma SigningBytesSeparateRoles(o: Oracle, role: string, role': string, payload: string, payload': string)
    requires NoNul(role) && NoNul(role')
    requires SigningBytes(o, role, payload) == SigningBytes(o, role', payload')
    ensures role == role' && o.compact(payload) == o.compact(payload')
  {
    var prefix := SCHEMA + [0 as char];
    var a, b := role + [0 as char] + o.compact(payload), role' + [0 as char] + o.compact(payload');
    assert SigningBytes(o, role, payload) == prefix + a && SigningBytes(o, role', payload') == prefix + b;
    assert a == (prefix + a)[|prefix|..] == (prefix + b)[|prefix|..] == b;
    assert a[|role|] == 0 as char && b[|role'|] == 0 as char;
    assert |role| == |role'|;
    assert role == a[..|role|] && role' == b[..|role'|];
    assert o.compact(payload) == a[|role| + 1..] && o.compact(payload') == b[|role'| + 1..];
  }

  /******* The execution statement *******/

  predicate IsLowerHex(c: char) { '0' <= c <= '9' || 'a' <= c <= 'f' }

  predicate BuildName(s: string) {
    |s| == 40 && forall i :: 0 <= i < |s| ==> IsLowerHex(s[i])
  }

  predicate PolicyUsable(b: Bundle, p: Policy) {
    b.schema == SCHEMA && p.schema == SCHEMA && BuildName(p.buildSha) && p.caseId != "" &&
    p.destinationProfile == "postgresql/native-fence/v1" && p.admissionPolicyHash != "" &&
    p.maximumGrade.Rank() != 0 && !p.requiredClaimType.OtherClaim?
  }

  predicate Filled(s: State) { s.target != "" && s.revision != "" && s.digest != "" }

  predicate ExactRequest(e: Execution) {
    var q := e.request;
    q.subject.id != "" && q.subject.kind != "" && q.executor.id != "" && q.executor.kind != "" &&
    Filled(q.before) && Filled(q.after) && q.before.target == q.after.target &&
    q.operation != "" && q.attemptId != "" && e.intentId != "" &&
    e.authorityEpoch != 0 && e.authorityGeneration != 0 && e.custodyGeneration != 0
  }

  function RelationParts(domain: string, q: Request): seq<string> {
    [domain, q.subject.id, q.subject.kind, q.before.target, q.before.revision, q.before.digest,
     q.operation, q.after.revision, q.after.digest]
  }

  predicate IdentityBound(o: Oracle, e: Execution) {
    e.effectId == Digest(o.h, RelationParts("effect-v0", e.request)) &&
    e.request.admissionBinding == Digest(o.h, RelationParts("admission-v0", e.request))
  }

  predicate ExecutionSound(o: Oracle, p: Policy, e: Execution) {
    e.buildSha == p.buildSha && e.caseId == p.caseId &&
    0 < e.grade.Rank() <= p.maximumGrade.Rank() &&
    ExactRequest(e) && IdentityBound(o, e) &&
    !e.claimType.OtherClaim? && e.claimType == p.requiredClaimType
  }

  /******* Admission *******/

  predicate InContext(p: Policy, a: Admission) {
    a.buildSha == p.buildSha && a.caseId == p.caseId && a.policyHash == p.admissionPolicyHash
  }

  predicate Admits(p: Policy, e: Execution, a: Admission) {
    InContext(p, a) && e.admitted && a.authorityActive &&
    a.requestBinding == e.request.admissionBinding && a.observedBefore == e.request.before &&
    a.allowedOperation == e.request.operation &&
    a.authorityEpoch == e.authorityEpoch && a.authorityGeneration == e.authorityGeneration
  }

  function AdmissionOf(o: Oracle, p: Policy, b: Bundle): Option<Admission> {
    Stated(o, p, o.admission, "admission", b.admission)
  }

  predicate AdmittedBy(o: Oracle, p: Policy, b: Bundle, e: Execution) {
    AdmissionOf(o, p, b).Some? && Admits(p, e, AdmissionOf(o, p, b).value)
  }

  predicate AdmissionSound(o: Oracle, p: Policy, b: Bundle, e: Execution) {
    match AdmissionOf(o, p, b)
    case None => false
    case Some(a) => InContext(p, a) && (e.admitted ==> Admits(p, e, a))
  }

  /******* Destination *******/

  const NO_STATE := Runtime.State("", "", "")

  predicate Addressed(p: Policy, d: Destination) {
    d.buildSha == p.buildSha && d.caseId == p.caseId && d.profile == p.destinationProfile
  }

  /** The destination statement reports one complete observed state. */
  predicate Measured(p: Policy, d: Destination) {
    Addressed(p, d) && d.observationError == "" && Filled(d.observed)
  }

  /** The commit record names this effect, attempt, owner, generation and transition. */
  predicate ExactCommit(o: Oracle, e: Execution, d: Destination) {
    d.commit.Some? &&
    var c, q := d.commit.value, e.request;
    o.time(c.committedAt).Some? && d.effectCount == 1 &&
    c.effectId == e.effectId && c.attemptId == q.attemptId && c.owner == q.executor &&
    c.custodyGeneration == e.custodyGeneration && c.admissionBinding == q.admissionBinding &&
    c.operation == q.operation && c.before == q.before && c.after == q.after
  }

  /** The admitted authority was still in force at the commit. */
  predicate Continuing(e: Execution, c: Commit, admitted: bool) {
    c.authorityActive && c.authorityEpoch == e.authorityEpoch &&
    c.authorityGeneration == e.authorityGeneration && admitted
  }

  predicate ProvenCommit(o: Oracle, e: Execution, d: Destination, admitted: bool) {
    ExactCommit(o, e, d) && Continuing(e, d.commit.value, admitted)
  }

  predicate DestinationSound(o: Oracle, p: Policy, e: Execution, d: Destination, admitted: bool) {
    Addressed(p, d) && d.effectCount <= 1 && d.currentAuthorityGeneration >= e.authorityGeneration &&
    if d.observationError != "" then d.observed == NO_STATE && d.commit == None
    else Filled(d.observed) && (d.commit.Some? ==> ProvenCommit(o, e, d, admitted))
  }

  /** When the destination statement closes the attempt. */
  predicate Closes(o: Oracle, p: Policy, e: Execution, d: Destination, admitted: bool) {
    Measured(p, d) && d.observed == e.request.after &&
    (p.requiredClaimType == Postcondition || ProvenCommit(o, e, d, admitted))
  }

  function CausalityOf(o: Oracle, p: Policy, e: Execution, d: Destination, admitted: bool): Causality {
    if !Measured(p, d) then Unproven
    else if ProvenCommit(o, e, d, admitted) then ExactCommitRecord
    else if d.observed == e.request.after then StateOnly
    else Unproven
  }

  function DestinationOf(o: Oracle, p: Policy, b: Bundle): Option<Destination> {
    match b.destination
    case None => None
    case Some(env) => Stated(o, p, o.destination, "destination", env)
  }

  /******* History *******/

  datatype Walk = Faulty | Broken | Walked(entries: seq<History.Entry>)

  function CodecOf(o: Oracle): History.Codec { History.Codec(o.entryText, o.h) }

  predicate RetainsPredecessor(p: Policy, e: History.Entry) {
    p.succession.Some? && e.sequence == p.succession.value.oldCheckpoint.sequence ==>
      e.entryHash == p.succession.value.oldCheckpoint.headHash
  }

  /** The entry loop over a prefix of the raw entries. */
  function WalkEntries(o: Oracle, p: Policy, raw: seq<string>): Walk {
    if raw == [] then Walked([])
    else
      var n := |raw| - 1;
      match WalkEntries(o, p, raw[..n])
      case Faulty => Faulty
      case Broken => Broken
      case Walked(es) => WalkNext(o, p, es, raw[n], n)
  }

  function WalkNext(o: Oracle, p: Policy, es: seq<History.Entry>, next: string, n: nat): Walk {
    match o.entry(next)
    case None => Faulty
    case Some(e) =>
      if History.Links(CodecOf(o), p.historyId, n, History.HeadHash(es), e) && RetainsPredecessor(p, e)
      then Walked(es + [e])
      else Broken
  }

  /** The last entry binds exactly this evidence and outcome. */
  predicate BindsOutcome(o: Oracle, b: Bundle, e: Execution, last: History.Event) {
    last.kind == "OUTCOME" && last.actionId == e.effectId && last.attemptId == e.request.attemptId &&
    last.payloadDigest == HistoryBinding(o, b) && last.outcomeVerdict == ClosureName(e.claimedClosure)
  }

  function ClosureName(c: Closure): string {
    match c
    case ClosureUnknown => "UNKNOWN"
    case ClosureClosed => "CLOSED"
    case OtherClosure(text) => text
  }

  /** `BundleHistoryBinding` */
  function HistoryBinding(o: Oracle, b: Bundle): string {
    Digest(o.h, HistoryParts(o, b))
  }

  function HistoryParts(o: Oracle, b: Bundle): seq<string> {
    var base := ["composite-history-v1", o.compact(b.admission.payload), o.compact(b.execution.payload),
                 if b.destination.Some? then o.compact(b.destination.value.payload) else ""];
    match b.succession
    case None => base
    case Some(s) => base + ["succession-v1", o.h(s.oldGenesis.payload), o.h(s.newGenesis.payload),
                            o.compact(s.authorityRotation), o.compact(s.beforeAnchor)]
  }

  function AnchorText(o: Oracle, a: Anchor): string { o.anchorText(a.(signature := "")) }

  predicate AnchorReaches(a: Anchor, head: Head) {
    a.version == 2 && a.head == head && a.updatedAt != ZERO_TIME
  }

  predicate WitnessAgrees(p: Policy, w: Witness, checkpoint: Head) {
    w.buildSha == p.buildSha && w.caseId == p.caseId && w.head == checkpoint && w.head.journalId == p.historyId
  }

  /** The verdict of `history`: faulty evidence, no trust, or the trusted entries. */
  function HistoryVerdict(o: Oracle, p: Policy, b: Bundle, e: Execution, successionValid: bool): Walk
    requires b.history.Some?
  {
    if (b.succession.Some? || p.succession.Some?) && !successionValid then Broken
    else if p.checkpoint == None || p.historyId == "" then Broken
    else match Stated(o, p, o.witnessOf, "witness", b.history.value.witnessed)
      case None => Faulty
      case Some(w) =>
        if !WitnessAgrees(p, w, p.checkpoint.value) then Broken else AnchorVerdict(o, p, b, e, w.head)
  }

  function AnchorVerdict(o: Oracle, p: Policy, b: Bundle, e: Execution, head: Head): Walk
    requires b.history.Some?
  {
    match o.anchor(b.history.value.anchor)
    case None => Faulty
    case Some(a) =>
      if !AnchorReaches(a, head) then Broken
      else if !SignedBy(o, p, "history", head.keyId, AnchorText(o, a), a.signature) then Faulty
      else EntriesVerdict(o, p, b, e, head)
  }

  function EntriesVerdict(o: Oracle, p: Policy, b: Bundle, e: Execution, head: Head): Walk
    requires b.history.Some?
  {
    var raw := b.history.value.entries;
    if raw == [] || |raw| != head.sequence then Broken
    else match WalkEntries(o, p, raw)
      case Walked(es) =>
        if es != [] && History.HeadHash(es) == head.headHash && BindsOutcome(o, b, e, es[|es| - 1].event)
        then Walked(es) else Broken
      case other => other
  }

  lemma WalkLast(o: Oracle, p: Policy, raw: seq<string>, n: nat)
    requires |raw| == n + 1 && WalkEntries(o, p, raw).Walked?
    ensures WalkEntries(o, p, raw[..n]).Walked?
    ensures var before := WalkEntries(o, p, raw[..n]).entries;
      o.entry(raw[n]).Some? && WalkEntries(o, p, raw).entries == before + [o.entry(raw[n]).value] &&
      History.Links(CodecOf(o), p.historyId, n, History.HeadHash(before), o.entry(raw[n]).value) &&
      RetainsPredecessor(p, o.entry(raw[n]).value)
  {
  }

  /** The decoded entries, their chain and the retained predecessor. */
  ghost predicate Faithful(o: Oracle, p: Policy, raw: seq<string>, es: seq<History.Entry>) {
    |es| == |raw| && (forall i :: 0 <= i < |es| ==> o.entry(raw[i]) == Some(es[i]) && RetainsPredecessor(p, es[i]))
  }

  lemma FaithfulExtend(o: Oracle, p: Policy, raw: seq<string>, n: nat, es: seq<History.Entry>, e: History.Entry)
    requires |raw| == n + 1 && Faithful(o, p, raw[..n], es)
    requires o.entry(raw[n]) == Some(e) && RetainsPredecessor(p, e)
    ensures Faithful(o, p, raw, es + [e])
  {
    var longer := es + [e];
    forall i | 0 <= i < |longer| ensures o.entry(raw[i]) == Some(longer[i]) && RetainsPredecessor(p, longer[i]) {
      if i < n { assert raw[..n][i] == raw[i] && es[i] == longer[i]; }
    }
  }

  lemma {:induction false} WalkedIsChain(o: Oracle, p: Policy, raw: seq<string>)
    requires WalkEntries(o, p, raw).Walked?
    ensures Faithful(o, p, raw, WalkEntries(o, p, raw).entries)
    ensures History.Chain(CodecOf(o), p.historyId, WalkEntries(o, p, raw).entries)
    decreases |raw|
  {
    if raw != [] {
      var n := |raw| - 1;
      WalkLast(o, p, raw, n);
      WalkedIsChain(o, p, raw[..n]);
      var before, e := WalkEntries(o, p, raw[..n]).entries, o.entry(raw[n]).value;
      FaithfulExtend(o, p, raw, n, before, e);
      History.ChainSnoc(CodecOf(o), p.historyId, before, e);
    }
  }

  lemma TrustedChain(o: Oracle, p: Policy, b: Bundle, e: Execution, valid: bool)
    requires b.history.Some? && HistoryVerdict(o, p, b, e, valid).Walked?
    ensures p.checkpoint.Some?
    ensures var es := HistoryVerdict(o, p, b, e, valid).entries;
      es != [] && |es| == p.checkpoint.value.sequence == |b.history.value.entries| &&
      History.Chain(CodecOf(o), p.historyId, es) &&
      History.HeadHash(es) == p.checkpoint.value.headHash &&
      (forall i :: 0 <= i < |es| ==> RetainsPredecessor(p, es[i])) &&
      BindsOutcome(o, b, e, es[|es| - 1].event)
  {
    WalkedIsChain(o, p, b.history.value.entries);
  }

  /** Two bundles trusted under the same pinned checkpoint present the same history. */
  lemma CheckpointPinsHistory(o: Oracle, p: Policy, b: Bundle, e: Execution, b': Bundle, e': Execution,
                              valid: bool, valid': bool)
    requires History.Injective(o.entryText)
    requires b.history.Some? && HistoryVerdict(o, p, b, e, valid).Walked?
    requires b'.history.Some? && HistoryVerdict(o, p, b', e', valid').Walked?
    ensures History.EntriesCollide(CodecOf(o), HistoryVerdict(o, p, b, e, valid).entries, HistoryVerdict(o, p, b', e', valid').entries) ||
            HistoryVerdict(o, p, b, e, valid) == HistoryVerdict(o, p, b', e', valid')
  {
    TrustedChain(o, p, b, e, valid);
    TrustedChain(o, p, b', e', valid');
    History.HeadDeterminesHistory(CodecOf(o), p.historyId,
                                  HistoryVerdict(o, p, b, e, valid).entries, HistoryVerdict(o, p, b', e', valid').entries);
  }

  /** ... and therefore the same claim about the same effect, attempt and outcome, on
      the same admission, execution and destination statements. */
  lemma CheckpointPinsClaim(o: Oracle, p: Policy, b: Bundle, e: Execution, b': Bundle, e': Execution,
                            valid: bool, valid': bool)
    requires History.Injective(o.entryText)
    requires Fits(HistoryParts(o, b)) && Fits(HistoryParts(o, b'))
    requires b.history.Some? && HistoryVerdict(o, p, b, e, valid).Walked?
    requires b'.history.Some? && HistoryVerdict(o, p, b', e', valid').Walked?
    ensures History.EntriesCollide(CodecOf(o), HistoryVerdict(o, p, b, e, valid).entries, HistoryVerdict(o, p, b', e', valid').entries) ||
            (e.effectId == e'.effectId && e.request.attemptId == e'.request.attemptId &&
             ClosureName(e.claimedClosure) == ClosureName(e'.claimedClosure) &&
             (HistoryParts(o, b) == HistoryParts(o, b') || Collide(o.h, Frame(HistoryParts(o, b)), Frame(HistoryParts(o, b')))))
  {
    CheckpointPinsHistory(o, p, b, e, b', e', valid, valid');
    TrustedChain(o, p, b, e, valid);
    TrustedChain(o, p, b', e', valid');
    if HistoryBinding(o, b) == HistoryBinding(o, b') {
      DigestInjective(o.h, HistoryParts(o, b), HistoryParts(o, b'));
    }
  }

  /** Under succession two trusted histories agree up to the retained predecessor,
      even when their final checkpoints differ. */
  lemma PredecessorPinsPrefix(o: Oracle, p: Policy, b: Bundle, e: Execution,
                              p': Policy, b': Bundle, e': Execution, valid: bool, valid': bool)
    requires History.Injective(o.entryText)
    requires p.historyId == p'.historyId && p.succession.Some? && p.succession == p'.succession
    requires b.history.Some? && HistoryVerdict(o, p, b, e, valid).Walked?
    requires b'.history.Some? && HistoryVerdict(o, p', b', e', valid').Walked?
    requires var n := p.succession.value.oldCheckpoint.sequence;
      1 <= n < p.checkpoint.value.sequence && n < p'.checkpoint.value.sequence
    ensures var n := p.succession.value.oldCheckpoint.sequence;
      n <= |HistoryVerdict(o, p, b, e, valid).entries| && n <= |HistoryVerdict(o, p', b', e', valid').entries| &&
      History.HeadHash(HistoryVerdict(o, p, b, e, valid).entries[..n]) == p.succession.value.oldCheckpoint.headHash &&
      (History.EntriesCollide(CodecOf(o), HistoryVerdict(o, p, b, e, valid).entries[..n], HistoryVerdict(o, p', b', e', valid').entries[..n]) ||
       HistoryVerdict(o, p, b, e, valid).entries[..n] == HistoryVerdict(o, p', b', e', valid').entries[..n])
  {
    TrustedPrefix(o, p, b, e, valid);
    TrustedPrefix(o, p', b', e', valid');
    History.PredecessorDeterminesPrefix(CodecOf(o), p.historyId, HistoryVerdict(o, p, b, e, valid).entries,
                                        HistoryVerdict(o, p', b', e', valid').entries,
                                        p.succession.value.oldCheckpoint.sequence);
  }

  lemma TrustedPrefix(o: Oracle, p: Policy, b: Bundle, e: Execution, valid: bool)
    requires b.history.Some? && HistoryVerdict(o, p, b, e, valid).Walked? && p.succession.Some?
    requires 1 <= p.succession.value.oldCheckpoint.sequence < p.checkpoint.value.sequence
    ensures var es, n := HistoryVerdict(o, p, b, e, valid).entries, p.succession.value.oldCheckpoint.sequence;
      History.Chain(CodecOf(o), p.historyId, es) && n <= |es| &&
      es[n - 1].entryHash == p.succession.value.oldCheckpoint.headHash
  {
    TrustedChain(o, p, b, e, valid);
    var es, n := HistoryVerdict(o, p, b, e, valid).entries, p.succession.value.oldCheckpoint.sequence;
    assert History.Links(CodecOf(o), p.historyId, n - 1, History.HeadHash(es[..n - 1]), es[n - 1]);
    assert RetainsPredecessor(p, es[n - 1]);
  }

  /******* The same identities as the executing runtime *******/

  /** A runtime request as it appears in an execution statement. */
  function Exported(h: string -> string, req: Runtime.Request): Request
    requires Runtime.Bindable(req)
  {
    Request(req.subject, req.executor, req.current, req.transition.to, req.transition.operation,
            req.attemptId, Runtime.AdmissionBindingDigest(h, req).value)
  }

  /** The verifier accepts the identities of an execution exactly when they are the
      ones the runtime computes for the same request. */
  lemma SameIdentitiesAsRuntime(o: Oracle, e: Execution, req: Runtime.Request)
    requires Runtime.Bindable(req) && e.request == Exported(o.h, req)
    ensures IdentityBound(o, e) <==> Runtime.EffectIdentity(o.h, req) == Some(e.effectId)
  {
    assert RelationParts("effect-v0", e.request) == Runtime.Parts(Runtime.EffectStatement(Runtime.Project(req)));
    assert RelationParts("admission-v0", e.request) == Runtime.Parts(Runtime.AdmissionStatement(Runtime.Project(req)));
  }

  /******* Succession *******/

  const ROTATION_VERSION := "aegis-ege/successor-governance-rotation/v1"
  const AUTHORITY_JOURNAL := "governance/enrollment-successor-authority"
  const MAX_AUTHORITY_SEQUENCE: nat := 0x1F_FFFF_FFFF_FFFD

  /** Exactly one reading of each purpose, and the expected history among them. */
  ghost predicate Governs(hs: seq<HistoryIdentity>, purpose: string, journal: string) {
    (forall i :: 0 <= i < |hs| ==> hs[i].purpose != "" && hs[i].journalId != "") &&
    Distinct(Purposes(hs)) && HistoryIdentity(purpose, journal) in hs
  }

  function Purposes(hs: seq<HistoryIdentity>): seq<string> {
    seq(|hs|, i requires 0 <= i < |hs| => hs[i].purpose)
  }

  predicate ManifestHolds(o: Oracle, p: Policy, role: string, g: PortableGenesis, expected: string) {
    o.canonical(g.payload) && o.h(g.payload) == expected &&
    SignedBy(o, p, role, g.keyId, g.payload, g.signature) &&
    match o.manifest(g.payload)
    case None => false
    case Some(m) =>
      m.epoch != 0 && o.h(g.capabilityEnvelope) == m.envelopeHash && m.revision == p.buildSha &&
      m.validFrom != ZERO_TIME && m.validFrom < m.validUntil
  }

  ghost predicate CapabilityHolds(o: Oracle, p: Policy, purpose: string, c: Capability) {
    c.quorumProtocol == "aegis-ege/quorum-trust-policy/v1" && Quorum.SafeQuorum(c.quorum) &&
    c.historyProtocol == "aegis-ege/governed-history-trust-policy/v1" &&
    Governs(c.histories, purpose, p.historyId) &&
    o.publicKey(c.governance.publicKey).Some? && c.governance.authorityId != "" &&
    c.governance.protocol == "aegis-ege/enrollment-successor-governance-policy/v1"
  }

  function GenesisFrom(o: Oracle, g: PortableGenesis, expected: string, m: Manifest, c: Capability): Genesis
    requires o.publicKey(c.governance.publicKey).Some?
  {
    Genesis(m.epoch, expected, o.h(g.capabilityEnvelope), o.quorumHash(c.quorum), o.historiesHash(c.histories),
            o.governanceHash(c.governance), o.fingerprint(o.publicKey(c.governance.publicKey).value),
            c, m.validFrom, m.validUntil)
  }

  /** `genesis` */
  ghost function GenesisOf(o: Oracle, p: Policy, purpose: string, role: string, g: PortableGenesis, expected: string): Option<Genesis> {
    if !ManifestHolds(o, p, role, g, expected) then None
    else match o.capability(g.capabilityEnvelope)
      case None => None
      case Some(c) =>
        if CapabilityHolds(o, p, purpose, c)
        then Some(GenesisFrom(o, g, expected, o.manifest(g.payload).value, c)) else None
  }

  function Weakest(g: Grades): nat {
    var m := if g.effect.Rank() < g.succession.Rank() then g.effect.Rank() else g.succession.Rank();
    if g.genesis.Rank() < m then g.genesis.Rank() else m
  }

  predicate GradesAgree(e: Execution, g: Grades) {
    e.evidenceGrades == Some(g) && Weakest(g) > 0 && e.grade.Rank() == Weakest(g)
  }

  predicate InForce(g: Genesis, now: int) { g.validFrom <= now < g.validUntil }

  predicate GrantHolds(o: Oracle, p: Policy, role: string, grant: Grant, want: Identity)
    requires p.succession.Some?
  {
    TrustedKey(o, p, role, grant.keyId).Some? && grant.purpose == p.succession.value.historyPurpose &&
    grant.journalId == p.historyId && grant.custodian == want && want.id != "" && want.kind != "" &&
    grant.scope == "append_history"
  }

  predicate GrantsHold(o: Oracle, p: Policy, older: Genesis, newer: Genesis)
    requires p.succession.Some?
  {
    var sp := p.succession.value;
    GrantHolds(o, p, "old_history", older.cap.custody, sp.oldCustodian) &&
    GrantHolds(o, p, "history", newer.cap.custody, sp.newCustodian) &&
    sp.oldCustodian != sp.newCustodian && older.cap.custody.keyId != newer.cap.custody.keyId
  }

  /** The rotation names its exact predecessor and both Genesis documents. */
  predicate RotationBinds(o: Oracle, a: Authorization, before: Head, older: Genesis, newer: Genesis, now: int) {
    a.version == ROTATION_VERSION && a.rotationId != "" && a.journalId == AUTHORITY_JOURNAL &&
    before.journalId == a.journalId && a.previous.sequence == before.sequence &&
    a.previous.headHash == before.headHash && a.previous.keyId == before.keyId &&
    before.headHash == o.authorityState(older) && before.keyId == older.authorityKey &&
    before.sequence <= MAX_AUTHORITY_SEQUENCE &&
    a.oldEpoch == older.epoch && a.newEpoch == newer.epoch &&
    a.oldManifest == older.manifest && a.newManifest == newer.manifest &&
    a.oldEnvelope == older.envelope && a.newEnvelope == newer.envelope &&
    a.oldPolicy == older.governanceHash && a.newPolicy == newer.governanceHash &&
    a.oldAuthorityId == older.cap.governance.authorityId && a.newAuthorityId == newer.cap.governance.authorityId &&
    a.oldAuthorityKey == older.authorityKey && a.newAuthorityKey == newer.authorityKey &&
    older.authorityKey != newer.authorityKey && older.governanceHash != newer.governanceHash &&
    a.notBefore != ZERO_TIME && a.notBefore < a.expiresAt && a.notBefore <= now < a.expiresAt
  }

  /** One approval: the policy's key for the role is the Genesis authority key, and signed. */
  predicate ApprovalHolds(o: Oracle, p: Policy, role: string, ap: Approval, g: Genesis, text: string) {
    TrustedKey(o, p, role, ap.keyId).Some? && ap.keyId == g.authorityKey &&
    o.keyText(TrustedKey(o, p, role, ap.keyId).value) == g.cap.governance.publicKey &&
    SignedBy(o, p, role, ap.keyId, ROTATION_VERSION + [0 as char] + text, ap.signature)
  }

  predicate RotationApproved(o: Oracle, p: Policy, r: Rotation, older: Genesis, newer: Genesis) {
    match o.rotationText(r.authorization)
    case None => false
    case Some(text) =>
      ApprovalHolds(o, p, "old_authority", r.oldApproval, older, text) &&
      ApprovalHolds(o, p, "new_authority", r.newApproval, newer, text)
  }

  function FrozenHead(o: Oracle, r: Rotation, before: Head): Head {
    Quorum.Head(r.authorization.journalId, before.sequence + 1, o.rotationDigest(r), "joint:" + o.rotationDigest(r))
  }

  function ActiveHead(o: Oracle, r: Rotation, before: Head, newer: Genesis): Head {
    Quorum.Head(r.authorization.journalId, before.sequence + 2, o.authorityState(newer),
                newer.authorityKey + "/rotation/" + o.rotationDigest(r))
  }

  predicate ObservationBinds(o: Oracle, p: Policy, w: Observed, r: Rotation, older: Genesis, newer: Genesis, now: int)
    requires p.succession.Some? && p.checkpoint.Some?
  {
    var sp := p.succession.value;
    var before := sp.oldAuthorityCheckpoint;
    o.time(w.observedAt).Some? &&
    r.authorization.notBefore <= o.time(w.observedAt).value <= now &&
    o.time(w.observedAt).value < r.authorization.expiresAt &&
    w.buildSha == p.buildSha && w.caseId == p.caseId && w.historyBefore == sp.oldCheckpoint &&
    w.authorityBefore == before && w.authorityFrozen == FrozenHead(o, r, before) &&
    w.authorityAfter == ActiveHead(o, r, before, newer) &&
    sp.oldCheckpoint.journalId == p.historyId && sp.oldCheckpoint.sequence != 0 &&
    sp.oldCheckpoint.keyId == older.cap.custody.keyId &&
    sp.oldCheckpoint.sequence < p.checkpoint.value.sequence &&
    p.checkpoint.value.keyId == newer.cap.custody.keyId
  }

  predicate AnchorHolds(o: Oracle, p: Policy, raw: string, head: Head) {
    match o.anchor(raw)
    case None => false
    case Some(a) =>
      AnchorReaches(a, head) && SignedBy(o, p, "old_history", head.keyId, AnchorText(o, a), a.signature)
  }

  function HandoverOf(o: Oracle, sp: SuccessionPolicy, older: Genesis, newer: Genesis, r: Rotation): Quorum.Handover {
    var q := o.quorumTransition(sp.oldCheckpoint, older, newer);
    Quorum.Handover(older.cap.quorum, newer.cap.quorum, older.epoch, newer.epoch, older.quorumHash, newer.quorumHash,
                    q, o.historyTransition(sp.oldCheckpoint, older, newer, q), sp.oldCheckpoint,
                    FrozenHead(o, r, sp.oldAuthorityCheckpoint))
  }

  /** A commit named by the destination happened under the old Genesis, before the observation. */
  predicate CommitPrecedes(o: Oracle, b: Bundle, older: Genesis, observedAt: int) {
    b.destination.Some? && o.destination(b.destination.value.payload).Some? &&
    o.destination(b.destination.value.payload).value.commit.Some? ==>
      var at := o.time(o.destination(b.destination.value.payload).value.commit.value.committedAt);
      at.Some? && InForce(older, at.value) && at.value <= observedAt
  }

  /** Epochs, grants and the doubly approved rotation of the governance authority. */
  predicate AuthorityHolds(o: Oracle, p: Policy, e: Execution, s: SuccessionEvidence, older: Genesis, newer: Genesis, now: int)
    requires p.succession.Some?
  {
    older.epoch < newer.epoch && e.authorityEpoch == older.epoch && InForce(older, now) && InForce(newer, now) &&
    GrantsHold(o, p, older, newer) && o.rotation(s.authorityRotation).Some? &&
    var r := o.rotation(s.authorityRotation).value;
    RotationBinds(o, r.authorization, p.succession.value.oldAuthorityCheckpoint, older, newer, now) &&
    RotationApproved(o, p, r, older, newer)
  }

  /** The witnessed hand-over itself. */
  predicate ObservationHolds(o: Oracle, p: Policy, b: Bundle, s: SuccessionEvidence, older: Genesis, newer: Genesis, r: Rotation, now: int)
    requires p.succession.Some? && p.checkpoint.Some?
  {
    var sp := p.succession.value;
    Stated(o, p, o.observed, "succession_witness", s.witnessed).Some? &&
    var w := Stated(o, p, o.observed, "succession_witness", s.witnessed).value;
    ObservationBinds(o, p, w, r, older, newer, now) && AnchorHolds(o, p, s.beforeAnchor, sp.oldCheckpoint) &&
    Quorum.Accepts(HandoverOf(o, sp, older, newer, r), w.quorum, p.checkpoint.value,
                   ActiveHead(o, r, sp.oldAuthorityCheckpoint, newer)) &&
    CommitPrecedes(o, b, older, o.time(w.observedAt).value)
  }

  /** The part of `succession` after both Genesis documents. */
  predicate HandoverHolds(o: Oracle, p: Policy, b: Bundle, e: Execution, s: SuccessionEvidence, older: Genesis, newer: Genesis)
    requires p.succession.Some? && p.checkpoint.Some?
  {
    match o.time(p.succession.value.evaluationTime)
    case None => false
    case Some(now) =>
      AuthorityHolds(o, p, e, s, older, newer, now) &&
      ObservationHolds(o, p, b, s, older, newer, o.rotation(s.authorityRotation).value, now)
  }

  ghost function OldGenesis(o: Oracle, p: Policy, b: Bundle): Option<Genesis>
    requires p.succession.Some? && b.succession.Some?
  {
    var sp := p.succession.value;
    GenesisOf(o, p, sp.historyPurpose, "old_genesis", b.succession.value.oldGenesis, sp.oldManifestHash)
  }

  ghost function NewGenesis(o: Oracle, p: Policy, b: Bundle): Option<Genesis>
    requires p.succession.Some? && b.succession.Some?
  {
    var sp := p.succession.value;
    GenesisOf(o, p, sp.historyPurpose, "new_genesis", b.succession.value.newGenesis, sp.newManifestHash)
  }

  /** When `succession` reports VALID. */
  ghost predicate SuccessionHolds(o: Oracle, p: Policy, b: Bundle, e: Execution) {
    b.succession.Some? && p.succession.Some? && p.checkpoint.Some? && b.history.Some? &&
    GradesAgree(e, p.succession.value.grades) &&
    OldGenesis(o, p, b).Some? && NewGenesis(o, p, b).Some? &&
    HandoverHolds(o, p, b, e, b.succession.value, OldGenesis(o, p, b).value, NewGenesis(o, p, b).value)
  }

  lemma GenesisQuorumIsSafe(o: Oracle, p: Policy, purpose: string, role: string, g: PortableGenesis, expected: string)
    requires GenesisOf(o, p, purpose, role, g, expected).Some?
    ensures Quorum.SafeQuorum(GenesisOf(o, p, purpose, role, g, expected).value.cap.quorum)
  {
  }

  /** A succession bundle supports at most one final checkpoint: whatever heads two
      relying parties pin, both can find it VALID only if they pin the same head. */
  lemma SuccessionPinsCheckpoint(o: Oracle, p: Policy, b: Bundle, e: Execution, other: Head)
    requires SuccessionHolds(o, p, b, e)
    requires SuccessionHolds(o, p.(checkpoint := Some(other)), b, e)
    ensures p.checkpoint == Some(other)
  {
    var p' := p.(checkpoint := Some(other));
    var sp, s := p.succession.value, b.succession.value;
    SameGenesis(o, p, sp.historyPurpose, "old_genesis", s.oldGenesis, sp.oldManifestHash, other);
    SameGenesis(o, p, sp.historyPurpose, "new_genesis", s.newGenesis, sp.newManifestHash, other);
    var older, newer := OldGenesis(o, p, b).value, NewGenesis(o, p, b).value;
    var r := o.rotation(s.authorityRotation).value;
    SameStatement(o, p, s.witnessed, other);
    var w := Stated(o, p, o.observed, "succession_witness", s.witnessed).value;
    var active := ActiveHead(o, r, sp.oldAuthorityCheckpoint, newer);
    GenesisQuorumIsSafe(o, p, sp.historyPurpose, "old_genesis", s.oldGenesis, sp.oldManifestHash);
    GenesisQuorumIsSafe(o, p, sp.historyPurpose, "new_genesis", s.newGenesis, sp.newManifestHash);
    Quorum.AcceptedHeadsUnique(HandoverOf(o, sp, older, newer, r), w.quorum, p.checkpoint.value, active, other, active);
  }

  lemma SameGenesis(o: Oracle, p: Policy, purpose: string, role: string, g: PortableGenesis, expected: string, other: Head)
    ensures GenesisOf(o, p, purpose, role, g, expected)
         == GenesisOf(o, p.(checkpoint := Some(other)), purpose, role, g, expected)
  {
  }

  lemma SameStatement(o: Oracle, p: Policy, env: Envelope, other: Head)
    ensures Stated(o, p, o.observed, "succession_witness", env)
         == Stated(o, p.(checkpoint := Some(other)), o.observed, "succession_witness", env)
  {
  }

  /******* The report *******/

  datatype Validity = Valid | Invalid | NotChecked

  datatype AtCommit = AtCommitUnproven | ValidAtCommit | InvalidAtCommit

  datatype EffectEvidence = NoEvidence | NativeTallyOnly | PostconditionOnly | ExactAttestedCommit

  datatype SuccessionStatus = NotProvided | SuccessionInvalid | SuccessionValid

  function ExecutionOf(o: Oracle, p: Policy, b: Bundle): Option<Execution> {
    Stated(o, p, o.execution, "execution", b.execution)
  }

  /** The derived closure of a bundle. */
  function ClosureOf(o: Oracle, p: Policy, b: Bundle, e: Execution): Closure {
    match DestinationOf(o, p, b)
    case None => ClosureUnknown
    case Some(d) => if Closes(o, p, e, d, AdmittedBy(o, p, b, e)) then ClosureClosed else ClosureUnknown
  }

  function BundleCausality(o: Oracle, p: Policy, b: Bundle, e: Execution): Causality {
    match DestinationOf(o, p, b)
    case None => Unproven
    case Some(d) => CausalityOf(o, p, e, d, AdmittedBy(o, p, b, e))
  }

  ghost predicate HistoryTrusted(o: Oracle, p: Policy, b: Bundle, e: Execution) {
    b.history.Some? && HistoryVerdict(o, p, b, e, SuccessionHolds(o, p, b, e)).Walked?
  }

  predicate DestinationPartSound(o: Oracle, p: Policy, b: Bundle, e: Execution) {
    if b.destination == None then e.grade != Native
    else DestinationOf(o, p, b).Some? &&
         DestinationSound(o, p, e, DestinationOf(o, p, b).value, AdmittedBy(o, p, b, e))
  }

  predicate SuccessionAsked(p: Policy, b: Bundle) { b.succession.Some? || p.succession.Some? }

  ghost predicate SuccessionPartSound(o: Oracle, p: Policy, b: Bundle, e: Execution) {
    if SuccessionAsked(p, b) then SuccessionHolds(o, p, b, e) && HistoryTrusted(o, p, b, e)
    else e.evidenceGrades == None
  }

  ghost predicate HistoryPartSound(o: Oracle, p: Policy, b: Bundle, e: Execution) {
    b.history.Some? ==> !HistoryVerdict(o, p, b, e, SuccessionHolds(o, p, b, e)).Faulty?
  }

  ghost predicate ClaimsDerived(o: Oracle, p: Policy, b: Bundle, e: Execution) {
    e.claimedClosure == ClosureOf(o, p, b, e) && e.claimedCausality == BundleCausality(o, p, b, e) &&
    e.claimedHistory == (if HistoryTrusted(o, p, b, e) then TrustedHistory else UntrustedHistory)
  }

  ghost predicate ClaimsHold(o: Oracle, p: Policy, b: Bundle, e: Execution) {
    ExecutionSound(o, p, e) && AdmissionSound(o, p, b, e) && DestinationPartSound(o, p, b, e) &&
    SuccessionPartSound(o, p, b, e) && HistoryPartSound(o, p, b, e) && ClaimsDerived(o, p, b, e)
  }

  /** Exactly when the verifier supports the claims of a bundle. */
  ghost predicate Supported(o: Oracle, p: Policy, b: Bundle) {
    PolicyUsable(b, p) && ExecutionOf(o, p, b).Some? && ClaimsHold(o, p, b, ExecutionOf(o, p, b).value)
  }

  /******* What a supported report means *******/

  /** Every statement it rests on decodes and is signed by the key the policy names for its role. */
  lemma SupportedIsSigned(o: Oracle, p: Policy, b: Bundle)
    requires Supported(o, p, b)
    ensures Signed(o, p, "execution", b.execution) && Signed(o, p, "admission", b.admission)
    ensures b.destination.Some? ==> Signed(o, p, "destination", b.destination.value)
    ensures HistoryTrusted(o, p, b, ExecutionOf(o, p, b).value) ==> Signed(o, p, "witness", b.history.value.witnessed)
  {
    hide SuccessionHolds, SignedBy, AnchorVerdict;
  }

  /** Under EXACT_EFFECT a closed claim names exactly one committed effect: the
      admitted one, by this attempt and owner, under authority still active, and its
      identity is the digest of the request itself. */
  lemma ExactClosure(o: Oracle, p: Policy, b: Bundle)
    requires Supported(o, p, b) && p.requiredClaimType == ExactEffect
    requires ClosureOf(o, p, b, ExecutionOf(o, p, b).value) == ClosureClosed
    ensures var e := ExecutionOf(o, p, b).value;
      DestinationOf(o, p, b).Some? &&
      var d := DestinationOf(o, p, b).value;
      d.effectCount == 1 && d.observed == e.request.after && d.commit.Some? &&
      var c := d.commit.value;
      c.attemptId == e.request.attemptId && c.owner == e.request.executor && c.custodyGeneration == e.custodyGeneration &&
      c.authorityActive && c.authorityEpoch == e.authorityEpoch && c.authorityGeneration == e.authorityGeneration &&
      c.operation == e.request.operation && c.before == e.request.before && c.after == e.request.after &&
      c.effectId == Digest(o.h, RelationParts("effect-v0", e.request)) &&
      AdmittedBy(o, p, b, e) && e.claimedCausality == ExactCommitRecord
  {
    hide SuccessionHolds, HistoryVerdict, Stated;
  }

  /** Two supported closures of the same effect identity made the same change. */
  lemma ClosedEffectDetermined(o: Oracle, p: Policy, b: Bundle, p': Policy, b': Bundle)
    requires Supported(o, p, b) && Supported(o, p', b')
    requires ExecutionOf(o, p, b).value.effectId == ExecutionOf(o, p', b').value.effectId
    requires Fits(RelationParts("effect-v0", ExecutionOf(o, p, b).value.request))
    requires Fits(RelationParts("effect-v0", ExecutionOf(o, p', b').value.request))
    ensures var q, q' := ExecutionOf(o, p, b).value.request, ExecutionOf(o, p', b').value.request;
      Collide(o.h, Frame(RelationParts("effect-v0", q)), Frame(RelationParts("effect-v0", q'))) ||
      (q.subject == q'.subject && q.before == q'.before && q.after == q'.after && q.operation == q'.operation &&
       q.admissionBinding == q'.admissionBinding)
  {
    var q, q' := ExecutionOf(o, p, b).value.request, ExecutionOf(o, p', b').value.request;
    DigestInjective(o.h, RelationParts("effect-v0", q), RelationParts("effect-v0", q'));
    if RelationParts("effect-v0", q) == RelationParts("effect-v0", q') {
      SamePartsSameRequest("effect-v0", q, q');
      assert RelationParts("admission-v0", q) == RelationParts("admission-v0", q');
    }
  }

  lemma SamePartsSameRequest(domain: string, q: Request, q': Request)
    requires RelationParts(domain, q) == RelationParts(domain, q')
    ensures q.subject == q'.subject && q.before == q'.before && q.operation == q'.operation
    ensures q.after.revision == q'.after.revision && q.after.digest == q'.after.digest
  {
    var a, b := RelationParts(domain, q), RelationParts(domain, q');
    assert a[1] == b[1] && a[2] == b[2] && a[3] == b[3] && a[4] == b[4];
    assert a[5] == b[5] && a[6] == b[6] && a[7] == b[7] && a[8] == b[8];
  }
}
