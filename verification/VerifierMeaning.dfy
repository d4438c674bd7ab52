/** What the fields of a report (evidenceverify/verify.go, history.go, succession.go) mean,
    read off the signed documents themselves. */
module VerifierMeaning {
  import opened Text
  import opened Framing
  import opened Verifier
  import Quorum = QuorumSuccession
  import History = HistoryChain
  import Runtime

  /******* Signatures *******/

  /** The policy names this key for the role, and the key verifies the message. */
  predicate KeySigns(o: Oracle, p: Policy, role: string, keyId: string, message: string, signature: string) {
    role in p.roleKeys && p.roleKeys[role] == keyId != "" && keyId in p.publicKeys &&
    o.publicKey(p.publicKeys[keyId]).Some? && o.genuine(o.publicKey(p.publicKeys[keyId]).value, message, signature)
  }

  lemma SignedByMeaning(o: Oracle, p: Policy, role: string, keyId: string, message: string, signature: string)
    ensures SignedBy(o, p, role, keyId, message, signature) <==> KeySigns(o, p, role, keyId, message, signature)
  {
  }

  /** The envelope's signature is the role key's, over schema, role and payload. */
  predicate Sealed(o: Oracle, p: Policy, role: string, env: Envelope) {
    KeySigns(o, p, role, env.keyId,
             "aegis/composite-evidence/v1" + [0 as char] + role + [0 as char] + o.compact(env.payload), env.signature)
  }

  lemma StatedMeaning<T>(o: Oracle, p: Policy, decode: string -> Option<T>, role: string, env: Envelope, v: T)
    ensures Stated(o, p, decode, role, env) == Some(v) <==> decode(env.payload) == Some(v) && Sealed(o, p, role, env)
  {
    hide TrustedKey, KeySigns;
    SignedByMeaning(o, p, role, env.keyId, SigningBytes(o, role, env.payload), env.signature);
  }

  /******* Admission *******/

  /** The one admission statement that admits this execution. */
  function Admitting(p: Policy, e: Execution): Admission {
    var q := e.request;
    Admission(p.buildSha, p.caseId, p.admissionPolicyHash, q.admissionBinding, q.before, q.operation,
              e.authorityEpoch, e.authorityGeneration, true)
  }

  /** `admitted` exactly if the execution says so and the signed admission is exactly the one
      for this build, case, policy, request, before-state, operation and active authority. */
  lemma AdmittedMeaning(o: Oracle, p: Policy, b: Bundle, e: Execution)
    ensures AdmittedBy(o, p, b, e) <==>
      e.admitted && o.admission(b.admission.payload) == Some(Admitting(p, e)) && Sealed(o, p, "admission", b.admission)
  {
    hide Sealed, Signed;
    StatedMeaning(o, p, o.admission, "admission", b.admission, Admitting(p, e));
    if AdmittedBy(o, p, b, e) { assert AdmissionOf(o, p, b) == Some(Admitting(p, e)); }
  }

  /******* Destination *******/

  /** The signed destination statement is for this build, case and profile and observed a
      complete state without an error. */
  predicate Shows(o: Oracle, p: Policy, b: Bundle, d: Destination) {
    b.destination.Some? && o.destination(b.destination.value.payload) == Some(d) &&
    Sealed(o, p, "destination", b.destination.value) &&
    d.buildSha == p.buildSha && d.caseId == p.caseId && d.profile == p.destinationProfile &&
    d.observationError == "" && d.observed.target != "" && d.observed.revision != "" && d.observed.digest != ""
  }

  /** The one commit record that proves this effect, up to its time. */
  function Proving(e: Execution, committedAt: string): Commit {
    var q := e.request;
    Commit(e.effectId, q.attemptId, q.executor, e.custodyGeneration, q.admissionBinding, e.authorityEpoch,
           e.authorityGeneration, true, q.operation, q.before, q.after, committedAt)
  }

  /** It is the only committed effect and carries exactly that record, of an admitted execution. */
  predicate Commits(o: Oracle, p: Policy, b: Bundle, e: Execution, d: Destination) {
    d.effectCount == 1 && d.commit.Some? && o.time(d.commit.value.committedAt).Some? &&
    d.commit.value == Proving(e, d.commit.value.committedAt) &&
    e.admitted && o.admission(b.admission.payload) == Some(Admitting(p, e)) && Sealed(o, p, "admission", b.admission)
  }

  lemma ProvenMeaning(o: Oracle, p: Policy, b: Bundle, e: Execution, d: Destination)
    ensures ProvenCommit(o, e, d, AdmittedBy(o, p, b, e)) <==> Commits(o, p, b, e, d)
  {
    hide Sealed, AdmittedBy, Admitting;
    AdmittedMeaning(o, p, b, e);
  }

  lemma ShowsMeaning(o: Oracle, p: Policy, b: Bundle, d: Destination)
    ensures Shows(o, p, b, d) <==> DestinationOf(o, p, b) == Some(d) && Measured(p, d)
  {
    hide Sealed, Stated;
    if b.destination.Some? { StatedMeaning(o, p, o.destination, "destination", b.destination.value, d); }
  }

  /** When an attempt is CLOSED: the signed destination shows the intended after-state, and
      under EXACT_EFFECT also the exact commit. */
  ghost predicate ClosedByEvidence(o: Oracle, p: Policy, b: Bundle, e: Execution) {
    exists d :: Shows(o, p, b, d) && d.observed == e.request.after &&
                (p.requiredClaimType == Postcondition || Commits(o, p, b, e, d))
  }

  ghost predicate CommitShown(o: Oracle, p: Policy, b: Bundle, e: Execution) {
    exists d :: Shows(o, p, b, d) && Commits(o, p, b, e, d)
  }

  ghost predicate AfterStateShown(o: Oracle, p: Policy, b: Bundle, e: Execution) {
    exists d :: Shows(o, p, b, d) && d.observed == e.request.after
  }

  /** The derived closure and causality, for every policy. */
  lemma EffectMeaning(o: Oracle, p: Policy, b: Bundle, e: Execution)
    ensures ClosureOf(o, p, b, e) == if ClosedByEvidence(o, p, b, e) then ClosureClosed else ClosureUnknown
    ensures BundleCausality(o, p, b, e) ==
      if CommitShown(o, p, b, e) then ExactCommitRecord
      else if AfterStateShown(o, p, b, e) then StateOnly else Unproven
  {
    hide Shows, Commits, ProvenCommit, Measured, AdmittedBy;
    forall d ensures Shows(o, p, b, d) <==> DestinationOf(o, p, b) == Some(d) && Measured(p, d) { ShowsMeaning(o, p, b, d); }
    if DestinationOf(o, p, b).Some? { ProvenMeaning(o, p, b, e, DestinationOf(o, p, b).value); }
  }

  /******* History *******/

  /** The entry at `i`: it decodes, carries on the chain, hashes to what it says, and keeps
      the predecessor's head at the predecessor's position. */
  predicate Chained(o: Oracle, p: Policy, raw: seq<string>, es: seq<History.Entry>, i: nat)
    requires i < |es| == |raw|
  {
    var e := es[i];
    o.entry(raw[i]) == Some(e) && e.version == 2 && e.journalId == p.historyId && e.sequence == i + 1 &&
    e.prevHash == (if i == 0 then "" else es[i - 1].entryHash) && e.event.occurredAt != ZERO_TIME &&
    e.entryHash == o.h(o.entryText(e.(entryHash := ""))) &&
    (p.succession.Some? && i + 1 == p.succession.value.oldCheckpoint.sequence ==>
       e.entryHash == p.succession.value.oldCheckpoint.headHash)
  }

  predicate AllChained(o: Oracle, p: Policy, raw: seq<string>, es: seq<History.Entry>) {
    |es| == |raw| && forall i :: 0 <= i < |es| ==> Chained(o, p, raw, es, i)
  }

  /** The entry loop accepts exactly the chained entries. */
  lemma {:induction false} WalkMeaning(o: Oracle, p: Policy, raw: seq<string>, es: seq<History.Entry>)
    ensures WalkEntries(o, p, raw) == Walked(es) <==> AllChained(o, p, raw, es)
    decreases |raw|
  {
    if raw != [] {
      var n := |raw| - 1;
      if es == [] || |es| != |raw| {
        if WalkEntries(o, p, raw).Walked? { WalkedIsChain(o, p, raw); }
      } else {
        hide Chained;
        WalkMeaning(o, p, raw[..n], es[..n]);
        WalkLastMeaning(o, p, raw, es);
        PrefixChained(o, p, raw, es);
      }
    }
  }

  lemma PrefixChained(o: Oracle, p: Policy, raw: seq<string>, es: seq<History.Entry>)
    requires |es| == |raw| > 0
    ensures var n := |raw| - 1; AllChained(o, p, raw, es) <==> AllChained(o, p, raw[..n], es[..n]) && Chained(o, p, raw, es, n)
  {
    var n := |raw| - 1;
    forall i | 0 <= i < n ensures Chained(o, p, raw, es, i) <==> Chained(o, p, raw[..n], es[..n], i) { }
  }

  lemma WalkLastMeaning(o: Oracle, p: Policy, raw: seq<string>, es: seq<History.Entry>)
    requires |es| == |raw| > 0
    ensures var n := |raw| - 1;
      WalkEntries(o, p, raw) == Walked(es) <==> WalkEntries(o, p, raw[..n]) == Walked(es[..n]) && Chained(o, p, raw, es, n)
  {
    var n := |raw| - 1;
    assert es == es[..n] + [es[n]];
    if WalkEntries(o, p, raw).Walked? {
      var before := WalkEntries(o, p, raw[..n]).entries;
      WalkLast(o, p, raw, n);
      if WalkEntries(o, p, raw) == Walked(es) { assert before == es[..n]; }
    }
  }

  /** Everything a trusted history shows: the pinned head, witnessed and anchored, reached by
      the chained entries, the last of which binds this evidence and outcome. */
  ghost predicate HistoryProven(o: Oracle, p: Policy, b: Bundle, e: Execution, es: seq<History.Entry>) {
    b.history.Some? && p.checkpoint.Some? && p.historyId != "" &&
    (b.succession.Some? || p.succession.Some? ==> SuccessionHolds(o, p, b, e)) &&
    var h, head := b.history.value, p.checkpoint.value;
    head.journalId == p.historyId &&
    o.witnessOf(h.witnessed.payload) == Some(Witness(p.buildSha, p.caseId, head)) && Sealed(o, p, "witness", h.witnessed) &&
    Anchored(o, p, "history", h.anchor, head) &&
    es != [] && |es| == head.sequence && AllChained(o, p, h.entries, es) && es[|es| - 1].entryHash == head.headHash &&
    Concludes(o, b, e, es[|es| - 1].event)
  }

  /** A signed anchor of exactly this head. */
  predicate Anchored(o: Oracle, p: Policy, role: string, raw: string, head: Head) {
    o.anchor(raw).Some? &&
    var a := o.anchor(raw).value;
    a == Anchor(2, head, a.updatedAt, a.signature) && a.updatedAt != ZERO_TIME &&
    KeySigns(o, p, role, head.keyId, o.anchorText(Anchor(2, head, a.updatedAt, "")), a.signature)
  }

  predicate Concludes(o: Oracle, b: Bundle, e: Execution, last: History.Event) {
    last.kind == "OUTCOME" && last.actionId == e.effectId && last.attemptId == e.request.attemptId &&
    last.payloadDigest == Digest(o.h, HistoryParts(o, b)) &&
    last.outcomeVerdict == (match e.claimedClosure case ClosureUnknown => "UNKNOWN" case ClosureClosed => "CLOSED" case OtherClosure(t) => t)
  }

  lemma AnchoredMeaning(o: Oracle, p: Policy, role: string, raw: string, head: Head)
    ensures Anchored(o, p, role, raw, head) <==>
      o.anchor(raw).Some? && AnchorReaches(o.anchor(raw).value, head) &&
      SignedBy(o, p, role, head.keyId, AnchorText(o, o.anchor(raw).value), o.anchor(raw).value.signature)
  {
    hide KeySigns, SignedBy;
    if o.anchor(raw).Some? {
      var a := o.anchor(raw).value;
      SignedByMeaning(o, p, role, head.keyId, AnchorText(o, a), a.signature);
    }
  }

  lemma TrustedEntries(o: Oracle, p: Policy, b: Bundle, e: Execution, es: seq<History.Entry>)
    requires b.history.Some?
    ensures HistoryVerdict(o, p, b, e, SuccessionHolds(o, p, b, e)) == Walked(es) <==> HistoryProven(o, p, b, e, es)
  {
    hide SuccessionHolds, Anchored, Sealed, AllChained, WalkEntries, Stated, HistoryParts, SignedBy, AnchorReaches, AnchorText;
    if p.checkpoint.Some? {
      var h, head := b.history.value, p.checkpoint.value;
      StatedMeaning(o, p, o.witnessOf, "witness", h.witnessed, Witness(p.buildSha, p.caseId, head));
      AnchoredMeaning(o, p, "history", h.anchor, head);
      WalkMeaning(o, p, h.entries, es);
      ChainedLength(o, p, h.entries, es);
    }
  }

  /** TRUSTED_HISTORY exactly if some entries prove it. */
  lemma TrustMeaning(o: Oracle, p: Policy, b: Bundle, e: Execution)
    ensures HistoryTrusted(o, p, b, e) <==> exists es :: HistoryProven(o, p, b, e, es)
  {
    hide SuccessionHolds, HistoryVerdict;
    if b.history.Some? {
      forall es ensures HistoryVerdict(o, p, b, e, SuccessionHolds(o, p, b, e)) == Walked(es) <==> HistoryProven(o, p, b, e, es) {
        TrustedEntries(o, p, b, e, es);
      }
      hide HistoryProven;
    }
  }

  lemma ChainedLength(o: Oracle, p: Policy, raw: seq<string>, es: seq<History.Entry>)
    ensures AllChained(o, p, raw, es) ==> |es| == |raw|
  {
  }

  /** Trusted bundles under one pinned checkpoint carry the same admission, execution and
      destination documents, unless the hash collides on entries or on the bindings. */
  lemma CheckpointPinsDocuments(o: Oracle, p: Policy, b: Bundle, e: Execution, b': Bundle, e': Execution, valid: bool, valid': bool)
    requires History.Injective(o.entryText)
    requires Fits(HistoryParts(o, b)) && Fits(HistoryParts(o, b'))
    requires b.history.Some? && HistoryVerdict(o, p, b, e, valid).Walked?
    requires b'.history.Some? && HistoryVerdict(o, p, b', e', valid').Walked?
    ensures History.EntriesCollide(CodecOf(o), HistoryVerdict(o, p, b, e, valid).entries, HistoryVerdict(o, p, b', e', valid').entries) ||
            Collide(o.h, Frame(HistoryParts(o, b)), Frame(HistoryParts(o, b'))) ||
            (o.compact(b.admission.payload) == o.compact(b'.admission.payload) &&
             o.compact(b.execution.payload) == o.compact(b'.execution.payload) &&
             DestinationText(o, b) == DestinationText(o, b') && (b.succession.Some? <==> b'.succession.Some?) &&
             (b.succession.Some? ==> SuccessionText(o, b.succession.value) == SuccessionText(o, b'.succession.value)))
  {
    CheckpointPinsClaim(o, p, b, e, b', e', valid, valid');
    hide HistoryVerdict, History.EntriesCollide;
    if HistoryParts(o, b) == HistoryParts(o, b') { SamePartsSameDocuments(o, b, b'); }
  }

  function DestinationText(o: Oracle, b: Bundle): string {
    if b.destination.Some? then o.compact(b.destination.value.payload) else ""
  }

  function SuccessionText(o: Oracle, s: SuccessionEvidence): (string, string, string, string) {
    (o.h(s.oldGenesis.payload), o.h(s.newGenesis.payload), o.compact(s.authorityRotation), o.compact(s.beforeAnchor))
  }

  lemma SamePartsSameDocuments(o: Oracle, b: Bundle, b': Bundle)
    requires HistoryParts(o, b) == HistoryParts(o, b')
    ensures o.compact(b.admission.payload) == o.compact(b'.admission.payload)
    ensures o.compact(b.execution.payload) == o.compact(b'.execution.payload)
    ensures DestinationText(o, b) == DestinationText(o, b') && (b.succession.Some? <==> b'.succession.Some?)
    ensures b.succession.Some? ==> SuccessionText(o, b.succession.value) == SuccessionText(o, b'.succession.value)
  {
    var x, y := HistoryParts(o, b), HistoryParts(o, b');
    assert |x| == if b.succession.Some? then 9 else 4;
    assert x[1] == y[1] && x[2] == y[2] && x[3] == y[3];
    if |x| == 9 { assert x[5] == y[5] && x[6] == y[6] && x[7] == y[7] && x[8] == y[8]; }
  }

  /******* Succession *******/

  /** A Genesis document with the expected hash, signed for its role, valid for this build,
      whose capability envelope governs exactly one reading of the history. */
  ghost predicate GenesisProven(o: Oracle, p: Policy, role: string, doc: PortableGenesis, expected: string, g: Genesis) {
    o.canonical(doc.payload) && o.h(doc.payload) == expected && KeySigns(o, p, role, doc.keyId, doc.payload, doc.signature) &&
    o.manifest(doc.payload) == Some(Manifest(g.epoch, o.h(doc.capabilityEnvelope), g.validFrom, g.validUntil, p.buildSha)) &&
    g.epoch != 0 && g.validFrom != ZERO_TIME && g.validFrom < g.validUntil &&
    o.capability(doc.capabilityEnvelope) == Some(g.cap) && p.succession.Some? &&
    CapabilityProven(o, p, p.succession.value.historyPurpose, g.cap) &&
    g == Genesis(g.epoch, expected, o.h(doc.capabilityEnvelope), o.quorumHash(g.cap.quorum), o.historiesHash(g.cap.histories),
                 o.governanceHash(g.cap.governance), o.fingerprint(o.publicKey(g.cap.governance.publicKey).value),
                 g.cap, g.validFrom, g.validUntil)
  }

  ghost predicate CapabilityProven(o: Oracle, p: Policy, purpose: string, c: Capability) {
    c.quorumProtocol == "aegis-ege/quorum-trust-policy/v1" && Quorum.SafeQuorum(c.quorum) &&
    c.historyProtocol == "aegis-ege/governed-history-trust-policy/v1" &&
    OneReading(c.histories, purpose, p.historyId) &&
    o.publicKey(c.governance.publicKey).Some? && c.governance.authorityId != "" &&
    c.governance.protocol == "aegis-ege/enrollment-successor-governance-policy/v1"
  }

  /** The history is listed under the purpose, and no purpose is listed twice. */
  ghost predicate OneReading(hs: seq<HistoryIdentity>, purpose: string, journal: string) {
    HistoryIdentity(purpose, journal) in hs && (forall x :: x in hs ==> x.purpose != "" && x.journalId != "") &&
    forall i, j :: 0 <= i < j < |hs| ==> hs[i].purpose != hs[j].purpose
  }

  lemma CapabilityMeaning(o: Oracle, p: Policy, purpose: string, c: Capability)
    ensures CapabilityHolds(o, p, purpose, c) <==> CapabilityProven(o, p, purpose, c)
  {
    hide Quorum.SafeQuorum, Governs, OneReading;
    GovernsMeaning(c.histories, purpose, p.historyId);
  }

  lemma GovernsMeaning(hs: seq<HistoryIdentity>, purpose: string, journal: string)
    ensures Governs(hs, purpose, journal) <==> OneReading(hs, purpose, journal)
  {
    hide Distinct, Purposes;
    DistinctMeaning(hs);
    NamedMeaning(hs);
  }

  lemma NamedMeaning(hs: seq<HistoryIdentity>)
    ensures (forall x :: x in hs ==> x.purpose != "" && x.journalId != "") <==>
            (forall i :: 0 <= i < |hs| ==> hs[i].purpose != "" && hs[i].journalId != "")
  {
    assert forall i :: 0 <= i < |hs| ==> hs[i] in hs;
  }

  lemma DistinctMeaning(hs: seq<HistoryIdentity>)
    ensures Distinct(Purposes(hs)) <==> forall i, j :: 0 <= i < j < |hs| ==> hs[i].purpose != hs[j].purpose
  {
    if Distinct(Purposes(hs)) {
      forall i, j | 0 <= i < j < |hs| ensures hs[i].purpose != hs[j].purpose { assert Purposes(hs)[i] != Purposes(hs)[j]; }
    } else {
      var i, j :| 0 <= i < j < |hs| && Purposes(hs)[i] == Purposes(hs)[j];
      assert hs[i].purpose == hs[j].purpose;
    }
  }

  lemma GenesisMeaning(o: Oracle, p: Policy, role: string, doc: PortableGenesis, expected: string, g: Genesis)
    requires p.succession.Some?
    ensures GenesisOf(o, p, p.succession.value.historyPurpose, role, doc, expected) == Some(g) <==> GenesisProven(o, p, role, doc, expected, g)
  {
    hide CapabilityProven, CapabilityHolds, KeySigns, SignedBy;
    SignedByMeaning(o, p, role, doc.keyId, doc.payload, doc.signature);
    if o.capability(doc.capabilityEnvelope).Some? {
      CapabilityMeaning(o, p, p.succession.value.historyPurpose, o.capability(doc.capabilityEnvelope).value);
      CapabilityKeyed(o, p, p.succession.value.historyPurpose, o.capability(doc.capabilityEnvelope).value);
    }
  }

  lemma CapabilityKeyed(o: Oracle, p: Policy, purpose: string, c: Capability)
    ensures CapabilityProven(o, p, purpose, c) ==> o.publicKey(c.governance.publicKey).Some?
  {
  }

  /** The rotation, field by field: its exact predecessor and both Genesis documents. */
  function ExactRotation(a: Authorization, before: Head, older: Genesis, newer: Genesis): Authorization {
    Authorization("aegis-ege/successor-governance-rotation/v1", a.rotationId, "governance/enrollment-successor-authority",
                  Quorum.Head(a.previous.journalId, before.sequence, before.headHash, before.keyId),
                  older.epoch, newer.epoch, older.manifest, newer.manifest, older.envelope, newer.envelope,
                  older.governanceHash, newer.governanceHash, older.cap.governance.authorityId, newer.cap.governance.authorityId,
                  older.authorityKey, newer.authorityKey, a.notBefore, a.expiresAt)
  }

  /** The rotation starts at the pinned authority head, which is the old Genesis', changes
      key and policy, and is in force now. */
  predicate RotationProven(o: Oracle, a: Authorization, before: Head, older: Genesis, newer: Genesis, now: int) {
    a == ExactRotation(a, before, older, newer) && a.rotationId != "" &&
    before == Quorum.Head("governance/enrollment-successor-authority", before.sequence, o.authorityState(older), older.authorityKey) &&
    before.sequence <= 0x1F_FFFF_FFFF_FFFD && older.authorityKey != newer.authorityKey && older.governanceHash != newer.governanceHash &&
    a.notBefore != ZERO_TIME && a.notBefore <= now < a.expiresAt
  }

  /** The Genesis authority signed this text, with the key the policy trusts for its role. */
  predicate AuthoritySigned(o: Oracle, p: Policy, role: string, ap: Approval, g: Genesis, text: string) {
    ap.keyId == g.authorityKey &&
    KeySigns(o, p, role, g.authorityKey, "aegis-ege/successor-governance-rotation/v1" + [0 as char] + text, ap.signature) &&
    o.keyText(o.publicKey(p.publicKeys[g.authorityKey]).value) == g.cap.governance.publicKey
  }

  /** Both authorities signed the text of the one authorization that carries the authority
      from the old Genesis to the new one. */
  predicate BothAuthoritiesSigned(o: Oracle, p: Policy, r: Rotation, older: Genesis, newer: Genesis) {
    o.rotationText(r.authorization).Some? &&
    AuthoritySigned(o, p, "old_authority", r.oldApproval, older, o.rotationText(r.authorization).value) &&
    AuthoritySigned(o, p, "new_authority", r.newApproval, newer, o.rotationText(r.authorization).value)
  }

  lemma RotationMeaning(o: Oracle, p: Policy, r: Rotation, before: Head, older: Genesis, newer: Genesis, now: int)
    ensures RotationBinds(o, r.authorization, before, older, newer, now) <==> RotationProven(o, r.authorization, before, older, newer, now)
    ensures RotationApproved(o, p, r, older, newer) <==> BothAuthoritiesSigned(o, p, r, older, newer)
  {
  }

  /** One custodian's grant: exactly this custodian, for this history and purpose, with a trusted key. */
  predicate GrantProven(o: Oracle, p: Policy, role: string, g: Grant, want: Identity)
    requires p.succession.Some?
  {
    g == Grant(p.succession.value.historyPurpose, p.historyId, want, g.keyId, "append_history") &&
    want.id != "" && want.kind != "" && g.keyId != "" && role in p.roleKeys && p.roleKeys[role] == g.keyId &&
    g.keyId in p.publicKeys && o.publicKey(p.publicKeys[g.keyId]).Some?
  }

  /** Two Genesis documents in force, an epoch forward, with different custodians and keys,
      and the rotation between their authorities signed by both. */
  predicate AuthorityProven(o: Oracle, p: Policy, e: Execution, s: SuccessionEvidence, older: Genesis, newer: Genesis, now: int)
    requires p.succession.Some?
  {
    var sp := p.succession.value;
    older.epoch < newer.epoch && e.authorityEpoch == older.epoch &&
    older.validFrom <= now < older.validUntil && newer.validFrom <= now < newer.validUntil &&
    GrantProven(o, p, "old_history", older.cap.custody, sp.oldCustodian) && GrantProven(o, p, "history", newer.cap.custody, sp.newCustodian) &&
    sp.oldCustodian != sp.newCustodian && older.cap.custody.keyId != newer.cap.custody.keyId &&
    o.rotation(s.authorityRotation).Some? &&
    RotationProven(o, o.rotation(s.authorityRotation).value.authorization, sp.oldAuthorityCheckpoint, older, newer, now) &&
    BothAuthoritiesSigned(o, p, o.rotation(s.authorityRotation).value, older, newer)
  }

  lemma AuthorityMeaning(o: Oracle, p: Policy, e: Execution, s: SuccessionEvidence, older: Genesis, newer: Genesis, now: int)
    requires p.succession.Some?
    ensures AuthorityHolds(o, p, e, s, older, newer, now) <==> AuthorityProven(o, p, e, s, older, newer, now)
  {
    hide RotationProven, BothAuthoritiesSigned, RotationBinds, RotationApproved;
    if o.rotation(s.authorityRotation).Some? {
      RotationMeaning(o, p, o.rotation(s.authorityRotation).value, p.succession.value.oldAuthorityCheckpoint, older, newer, now);
    }
  }

  /** The witnessed observation, field by field: taken while the rotation was in force, of the
      pinned heads before and the heads that this rotation freezes and activates. */
  predicate HandoverSeen(o: Oracle, p: Policy, b: Bundle, s: SuccessionEvidence, older: Genesis, newer: Genesis, r: Rotation, w: Observed, now: int)
    requires p.succession.Some? && p.checkpoint.Some?
  {
    var sp, head, digest := p.succession.value, p.checkpoint.value, o.rotationDigest(r);
    var before := sp.oldAuthorityCheckpoint;
    var frozen := Quorum.Head(r.authorization.journalId, before.sequence + 1, digest, "joint:" + digest);
    var active := Quorum.Head(r.authorization.journalId, before.sequence + 2, o.authorityState(newer), newer.authorityKey + "/rotation/" + digest);
    o.observed(s.witnessed.payload) == Some(w) && Sealed(o, p, "succession_witness", s.witnessed) &&
    w == Observed(p.buildSha, p.caseId, w.observedAt, sp.oldCheckpoint, before, frozen, active, w.quorum) &&
    o.time(w.observedAt).Some? && r.authorization.notBefore <= o.time(w.observedAt).value <= now &&
    o.time(w.observedAt).value < r.authorization.expiresAt &&
    sp.oldCheckpoint.journalId == p.historyId && 0 < sp.oldCheckpoint.sequence < head.sequence &&
    sp.oldCheckpoint.keyId == older.cap.custody.keyId && head.keyId == newer.cap.custody.keyId &&
    Anchored(o, p, "old_history", s.beforeAnchor, sp.oldCheckpoint) &&
    Quorum.Accepts(HandoverOf(o, sp, older, newer, r), w.quorum, head, active) &&
    CommitInTime(o, b, older, o.time(w.observedAt).value)
  }

  /** A commit named by the destination happened under the old Genesis and before the observation. */
  predicate CommitInTime(o: Oracle, b: Bundle, older: Genesis, observedAt: int) {
    b.destination == None || o.destination(b.destination.value.payload) == None ||
    o.destination(b.destination.value.payload).value.commit == None ||
    var at := o.time(o.destination(b.destination.value.payload).value.commit.value.committedAt);
    at.Some? && older.validFrom <= at.value < older.validUntil && at.value <= observedAt
  }

  lemma HandoverMeaning(o: Oracle, p: Policy, b: Bundle, s: SuccessionEvidence, older: Genesis, newer: Genesis, r: Rotation, now: int)
    requires p.succession.Some? && p.checkpoint.Some?
    ensures ObservationHolds(o, p, b, s, older, newer, r, now) <==> exists w :: HandoverSeen(o, p, b, s, older, newer, r, w, now)
  {
    hide Anchored, AnchorReaches, SignedBy, Sealed, Stated, Quorum.Accepts, HandoverOf;
    AnchoredMeaning(o, p, "old_history", s.beforeAnchor, p.succession.value.oldCheckpoint);
    forall w ensures Stated(o, p, o.observed, "succession_witness", s.witnessed) == Some(w) <==>
                     o.observed(s.witnessed.payload) == Some(w) && Sealed(o, p, "succession_witness", s.witnessed)
    {
      StatedMeaning(o, p, o.observed, "succession_witness", s.witnessed, w);
    }
    if ObservationHolds(o, p, b, s, older, newer, r, now) {
      assert HandoverSeen(o, p, b, s, older, newer, r, Stated(o, p, o.observed, "succession_witness", s.witnessed).value, now);
    }
  }

  /** The composite grade is the weakest of its three known components, all as expected. */
  predicate WeakestGrade(e: Execution, g: Grades) {
    e.evidenceGrades == Some(g) && g.effect.Rank() > 0 && g.succession.Rank() > 0 && g.genesis.Rank() > 0 &&
    e.grade.Rank() <= g.effect.Rank() && e.grade.Rank() <= g.succession.Rank() && e.grade.Rank() <= g.genesis.Rank() &&
    (e.grade.Rank() == g.effect.Rank() || e.grade.Rank() == g.succession.Rank() || e.grade.Rank() == g.genesis.Rank())
  }

  ghost predicate SuccessionProven(o: Oracle, p: Policy, b: Bundle, e: Execution, older: Genesis, newer: Genesis, now: int) {
    b.succession.Some? && p.succession.Some? && p.checkpoint.Some? && b.history.Some? &&
    var s, sp := b.succession.value, p.succession.value;
    WeakestGrade(e, sp.grades) && o.time(sp.evaluationTime) == Some(now) &&
    GenesisProven(o, p, "old_genesis", s.oldGenesis, sp.oldManifestHash, older) &&
    GenesisProven(o, p, "new_genesis", s.newGenesis, sp.newManifestHash, newer) &&
    AuthorityProven(o, p, e, s, older, newer, now) &&
    exists w :: HandoverSeen(o, p, b, s, older, newer, o.rotation(s.authorityRotation).value, w, now)
  }

  lemma GradesMeaning(e: Execution, g: Grades)
    ensures GradesAgree(e, g) <==> WeakestGrade(e, g)
  {
  }

  /** A succession is VALID exactly if two signed Genesis documents, a rotation signed by both
      authorities and a witnessed hand-over of the pinned heads prove it. */
  lemma SuccessionMeaning(o: Oracle, p: Policy, b: Bundle, e: Execution)
    ensures SuccessionHolds(o, p, b, e) <==> exists older, newer, now :: SuccessionProven(o, p, b, e, older, newer, now)
  {
    hide GenesisOf, GenesisProven, AuthorityHolds, AuthorityProven, ObservationHolds, HandoverSeen, GradesAgree, WeakestGrade;
    if b.succession.Some? && p.succession.Some? && p.checkpoint.Some? {
      var s, sp := b.succession.value, p.succession.value;
      GradesMeaning(e, sp.grades);
      GenesisEither(o, p, "old_genesis", s.oldGenesis, sp.oldManifestHash);
      GenesisEither(o, p, "new_genesis", s.newGenesis, sp.newManifestHash);
      if OldGenesis(o, p, b).Some? && NewGenesis(o, p, b).Some? && o.time(sp.evaluationTime).Some? {
        var older, newer, now := OldGenesis(o, p, b).value, NewGenesis(o, p, b).value, o.time(sp.evaluationTime).value;
        AuthorityMeaning(o, p, e, s, older, newer, now);
        AuthorityDecodes(o, p, e, s, older, newer, now);
        if o.rotation(s.authorityRotation).Some? {
          HandoverMeaning(o, p, b, s, older, newer, o.rotation(s.authorityRotation).value, now);
        }
        assert SuccessionHolds(o, p, b, e) ==> SuccessionProven(o, p, b, e, older, newer, now);
      }
    }
  }

  lemma AuthorityDecodes(o: Oracle, p: Policy, e: Execution, s: SuccessionEvidence, older: Genesis, newer: Genesis, now: int)
    requires p.succession.Some?
    ensures AuthorityHolds(o, p, e, s, older, newer, now) ==> o.rotation(s.authorityRotation).Some?
  {
  }

  lemma GenesisEither(o: Oracle, p: Policy, role: string, doc: PortableGenesis, expected: string)
    requires p.succession.Some?
    ensures forall g :: GenesisProven(o, p, role, doc, expected, g) <==>
                        GenesisOf(o, p, p.succession.value.historyPurpose, role, doc, expected) == Some(g)
  {
    forall g ensures GenesisProven(o, p, role, doc, expected, g) <==>
                     GenesisOf(o, p, p.succession.value.historyPurpose, role, doc, expected) == Some(g)
    {
      GenesisMeaning(o, p, role, doc, expected, g);
    }
  }

  /******* The whole report *******/

  /** The signed execution statement is for this build, case and claim type, complete, within
      the allowed grade, and its identities are the digests of its own request. */
  predicate ExecutionProven(o: Oracle, p: Policy, b: Bundle, e: Execution) {
    var q := e.request;
    o.execution(b.execution.payload) == Some(e) && Sealed(o, p, "execution", b.execution) &&
    e.buildSha == p.buildSha && e.caseId == p.caseId && e.claimType == p.requiredClaimType &&
    (e.claimType == ExactEffect || e.claimType == Postcondition) &&
    e.grade.Rank() != 0 && e.grade.Rank() <= p.maximumGrade.Rank() &&
    q.subject.id != "" && q.subject.kind != "" && q.executor.id != "" && q.executor.kind != "" &&
    q.before.target != "" && q.before.revision != "" && q.before.digest != "" &&
    q.after.target == q.before.target && q.after.revision != "" && q.after.digest != "" &&
    q.operation != "" && q.attemptId != "" && e.intentId != "" &&
    e.authorityEpoch != 0 && e.authorityGeneration != 0 && e.custodyGeneration != 0 &&
    e.effectId == Digest(o.h, ["effect-v0"] + BoundParts(q)) && q.admissionBinding == Digest(o.h, ["admission-v0"] + BoundParts(q))
  }

  function BoundParts(q: Request): seq<string> {
    [q.subject.id, q.subject.kind, q.before.target, q.before.revision, q.before.digest, q.operation, q.after.revision, q.after.digest]
  }

  /** A signed admission for this build, case and policy; an admitted execution needs the exact one. */
  predicate AdmissionProven(o: Oracle, p: Policy, b: Bundle, e: Execution) {
    o.admission(b.admission.payload).Some? && Sealed(o, p, "admission", b.admission) &&
    var a := o.admission(b.admission.payload).value;
    a.buildSha == p.buildSha && a.caseId == p.caseId && a.policyHash == p.admissionPolicyHash &&
    (e.admitted ==> a == Admitting(p, e))
  }

  /** Either no destination, below native grade, or a signed one for this build, case and
      profile that reports at most one effect, no regressed authority, and either nothing
      or a complete state with at most the exact commit. */
  predicate DestinationProven(o: Oracle, p: Policy, b: Bundle, e: Execution) {
    if b.destination == None then e.grade != Native
    else
      o.destination(b.destination.value.payload).Some? && Sealed(o, p, "destination", b.destination.value) &&
      DestinationStates(o, p, b, e, o.destination(b.destination.value.payload).value)
  }

  predicate DestinationStates(o: Oracle, p: Policy, b: Bundle, e: Execution, d: Destination) {
    d.buildSha == p.buildSha && d.caseId == p.caseId && d.profile == p.destinationProfile &&
    d.effectCount <= 1 && d.currentAuthorityGeneration >= e.authorityGeneration &&
    (d.observationError != "" ==> d.observed == Runtime.State("", "", "") && d.commit == None) &&
    (d.observationError == "" ==>
       d.observed.target != "" && d.observed.revision != "" && d.observed.digest != "" && (d.commit.Some? ==> Commits(o, p, b, e, d)))
  }

  /** Whatever succession or history is offered is proven, and no grades are claimed without one. */
  ghost predicate ContinuityProven(o: Oracle, p: Policy, b: Bundle, e: Execution) {
    (if b.succession.Some? || p.succession.Some?
     then (exists older, newer, now :: SuccessionProven(o, p, b, e, older, newer, now)) && exists es :: HistoryProven(o, p, b, e, es)
     else e.evidenceGrades == None) &&
    HistoryReadable(o, p, b, e)
  }

  /** Every step of an offered history that is reached reads and verifies: its witness, its
      anchor, the anchor's signature, and the entries up to the first break of the chain. */
  ghost predicate HistoryReadable(o: Oracle, p: Policy, b: Bundle, e: Execution) {
    b.history.Some? && p.checkpoint.Some? && p.historyId != "" &&
    (b.succession.Some? || p.succession.Some? ==> SuccessionHolds(o, p, b, e)) ==>
      var h, head := b.history.value, p.checkpoint.value;
      o.witnessOf(h.witnessed.payload).Some? && Sealed(o, p, "witness", h.witnessed) &&
      (o.witnessOf(h.witnessed.payload).value == Witness(p.buildSha, p.caseId, head) && head.journalId == p.historyId ==>
         AnchorReadable(o, p, h, head))
  }

  ghost predicate AnchorReadable(o: Oracle, p: Policy, h: HistoryEvidence, head: Head) {
    o.anchor(h.anchor).Some? &&
    var a := o.anchor(h.anchor).value;
    a == Anchor(2, head, a.updatedAt, a.signature) && a.updatedAt != ZERO_TIME ==>
      KeySigns(o, p, "history", head.keyId, o.anchorText(Anchor(2, head, a.updatedAt, "")), a.signature) &&
      (h.entries != [] && |h.entries| == head.sequence ==> EntriesReadable(o, p, h.entries))
  }

  ghost predicate EntriesReadable(o: Oracle, p: Policy, raw: seq<string>) {
    forall n, es :: 0 <= n < |raw| && AllChained(o, p, raw[..n], es) ==> o.entry(raw[n]).Some?
  }

  lemma {:induction false} FaultyMeaning(o: Oracle, p: Policy, raw: seq<string>)
    ensures WalkEntries(o, p, raw).Faulty? <==> !EntriesReadable(o, p, raw)
    decreases |raw|
  {
    hide AllChained;
    if raw != [] {
      var n := |raw| - 1;
      FaultyMeaning(o, p, raw[..n]);
      forall es ensures WalkEntries(o, p, raw[..n]) == Walked(es) <==> AllChained(o, p, raw[..n], es) { WalkMeaning(o, p, raw[..n], es); }
      assert forall k :: 0 <= k <= n ==> raw[..n][..k] == raw[..k];
      if !EntriesReadable(o, p, raw) {
        var k, es :| 0 <= k < |raw| && AllChained(o, p, raw[..k], es) && o.entry(raw[k]) == None;
        if k < n { assert raw[..n][k] == raw[k] && AllChained(o, p, raw[..n][..k], es); }
      }
      if !EntriesReadable(o, p, raw[..n]) {
        var k, es :| 0 <= k < n && AllChained(o, p, raw[..n][..k], es) && o.entry(raw[..n][k]) == None;
        assert raw[..n][k] == raw[k] && AllChained(o, p, raw[..k], es);
      }
    }
  }

  lemma HistoryPartMeaning(o: Oracle, p: Policy, b: Bundle, e: Execution)
    ensures HistoryPartSound(o, p, b, e) <==> HistoryReadable(o, p, b, e)
  {
    hide SuccessionHolds, Sealed, KeySigns, SignedBy, WalkEntries, Stated, EntriesReadable, BindsOutcome;
    if b.history.Some? {
      var h := b.history.value;
      FaultyMeaning(o, p, h.entries);
      StatedDecodes(o, p, o.witnessOf, "witness", h.witnessed);
      if o.witnessOf(h.witnessed.payload).Some? {
        StatedMeaning(o, p, o.witnessOf, "witness", h.witnessed, o.witnessOf(h.witnessed.payload).value);
      }
      if o.anchor(h.anchor).Some? {
        var a := o.anchor(h.anchor).value;
        if p.checkpoint.Some? { SignedByMeaning(o, p, "history", p.checkpoint.value.keyId, AnchorText(o, a), a.signature); }
      }
    }
  }

  /** The policy fixes a build, a case, the destination profile, an admission policy, a known
      claim type and a known grade. */
  predicate PolicyProven(b: Bundle, p: Policy) {
    b.schema == p.schema == "aegis/composite-evidence/v1" && |p.buildSha| == 40 &&
    (forall i :: 0 <= i < 40 ==> '0' <= p.buildSha[i] <= '9' || 'a' <= p.buildSha[i] <= 'f') &&
    p.caseId != "" && p.destinationProfile == "postgresql/native-fence/v1" && p.admissionPolicyHash != "" &&
    (p.requiredClaimType == ExactEffect || p.requiredClaimType == Postcondition) &&
    (p.maximumGrade == Unit || p.maximumGrade == Simulation || p.maximumGrade == Native)
  }

  lemma PolicyMeaning(b: Bundle, p: Policy)
    ensures PolicyUsable(b, p) <==> PolicyProven(b, p)
  {
  }

  /** The claims are exactly what the evidence shows. */
  ghost predicate ClaimsMatch(o: Oracle, p: Policy, b: Bundle, e: Execution) {
    e.claimedClosure == (if ClosedByEvidence(o, p, b, e) then ClosureClosed else ClosureUnknown) &&
    e.claimedCausality == (if CommitShown(o, p, b, e) then ExactCommitRecord else if AfterStateShown(o, p, b, e) then StateOnly else Unproven) &&
    e.claimedHistory == (if exists es :: HistoryProven(o, p, b, e, es) then TrustedHistory else UntrustedHistory)
  }

  ghost predicate EvidenceProven(o: Oracle, p: Policy, b: Bundle, e: Execution) {
    AdmissionProven(o, p, b, e) && DestinationProven(o, p, b, e) && ContinuityProven(o, p, b, e) && ClaimsMatch(o, p, b, e)
  }

  /** When `Verify` supports a bundle, in terms of its signed documents. */
  lemma SupportMeaning(o: Oracle, p: Policy, b: Bundle)
    ensures Supported(o, p, b) <==>
      PolicyProven(b, p) && exists e :: ExecutionProven(o, p, b, e) && EvidenceProven(o, p, b, e)
  {
    hide ExecutionProven, AdmissionProven, DestinationProven, ContinuityProven, ClaimsMatch, PolicyUsable, Stated, Sealed,
      ExecutionSound, AdmissionSound, DestinationPartSound, SuccessionPartSound, HistoryPartSound, ClaimsDerived, PolicyProven;
    PolicyMeaning(b, p);
    forall e ensures ExecutionProven(o, p, b, e) <==> ExecutionOf(o, p, b) == Some(e) && ExecutionSound(o, p, e) { ExecutionMeaning(o, p, b, e); }
    if ExecutionOf(o, p, b).Some? {
      var e := ExecutionOf(o, p, b).value;
      PartsMeaning(o, p, b, e);
      assert ClaimsHold(o, p, b, e) <==> ExecutionSound(o, p, e) && AdmissionProven(o, p, b, e) && DestinationProven(o, p, b, e) &&
                                         ContinuityProven(o, p, b, e) && ClaimsMatch(o, p, b, e);
    }
  }

  lemma ExecutionMeaning(o: Oracle, p: Policy, b: Bundle, e: Execution)
    ensures ExecutionProven(o, p, b, e) <==> ExecutionOf(o, p, b) == Some(e) && ExecutionSound(o, p, e)
  {
    hide Sealed, Stated, Digest;
    StatedMeaning(o, p, o.execution, "execution", b.execution, e);
    assert forall domain :: RelationParts(domain, e.request) == [domain] + BoundParts(e.request);
  }

  lemma PartsMeaning(o: Oracle, p: Policy, b: Bundle, e: Execution)
    ensures AdmissionSound(o, p, b, e) <==> AdmissionProven(o, p, b, e)
    ensures DestinationPartSound(o, p, b, e) <==> DestinationProven(o, p, b, e)
    ensures (SuccessionPartSound(o, p, b, e) && HistoryPartSound(o, p, b, e)) <==> ContinuityProven(o, p, b, e)
    ensures ClaimsDerived(o, p, b, e) <==> ClaimsMatch(o, p, b, e)
  {
    hide SuccessionHolds, SuccessionProven, HistoryProven, HistoryTrusted, HistoryPartSound, HistoryReadable, ClosedByEvidence, CommitShown, AfterStateShown,
      ClosureOf, BundleCausality, AdmissionSound, AdmissionProven, DestinationPartSound, DestinationProven;
    AdmissionMeaning(o, p, b, e);
    DestinationMeaning(o, p, b, e);
    EffectMeaning(o, p, b, e);
    TrustMeaning(o, p, b, e);
    HistoryPartMeaning(o, p, b, e);
    SuccessionMeaning(o, p, b, e);
  }

  lemma AdmissionMeaning(o: Oracle, p: Policy, b: Bundle, e: Execution)
    ensures AdmissionSound(o, p, b, e) <==> AdmissionProven(o, p, b, e)
  {
    hide Sealed, Stated;
    if o.admission(b.admission.payload).Some? {
      StatedMeaning(o, p, o.admission, "admission", b.admission, o.admission(b.admission.payload).value);
    }
    StatedDecodes(o, p, o.admission, "admission", b.admission);
  }

  lemma StatedDecodes<T>(o: Oracle, p: Policy, decode: string -> Option<T>, role: string, env: Envelope)
    ensures Stated(o, p, decode, role, env).Some? ==> decode(env.payload) == Stated(o, p, decode, role, env)
  {
    hide Signed;
  }

  lemma DestinationMeaning(o: Oracle, p: Policy, b: Bundle, e: Execution)
    ensures DestinationPartSound(o, p, b, e) <==> DestinationProven(o, p, b, e)
  {
    hide Sealed, Stated, Commits, ProvenCommit, AdmittedBy;
    if b.destination.Some? {
      StatedDecodes(o, p, o.destination, "destination", b.destination.value);
      if o.destination(b.destination.value.payload).Some? {
        var d := o.destination(b.destination.value.payload).value;
        StatedMeaning(o, p, o.destination, "destination", b.destination.value, d);
        ProvenMeaning(o, p, b, e, d);
      }
    }
  }
}
