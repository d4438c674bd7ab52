/** `Verify` itself: an assessment that builds its report step by step
    (evidenceverify/verify.go, history.go, succession.go). */
module VerifierRun {
  import opened Text
  import opened Framing
  import opened Verifier
  import Meaning = VerifierMeaning
  import Quorum = QuorumSuccession
  import History = HistoryChain

  /** The report under construction.  Error and uncertainty messages are counted, not
      spelled out. */
  class Assessment {
    const o: Oracle
    const p: Policy
    var structure: Validity
    var signatures: Validity
    var trustRoots: Validity
    var admitted: bool
    var intentId: string
    var effectId: string
    var attemptId: string
    var authorityAtCommit: AtCommit
    var authorityActive: Option<bool>
    var effectEvidence: EffectEvidence
    var committedEffects: Option<nat>
    var causality: Causality
    var closure: Closure
    var historicalTrust: Trust
    var claimsSupported: bool
    var uncertainty: nat
    var errors: nat
    var succession: SuccessionStatus
    var custodian: Option<Identity>

    constructor (o: Oracle, p: Policy)
      ensures this.o == o && this.p == p && Fresh()
    {
      this.o, this.p := o, p;
      structure, signatures, trustRoots, admitted := Valid, NotChecked, NotChecked, false;
      intentId, effectId, attemptId := "", "", "";
      authorityAtCommit, authorityActive, effectEvidence, committedEffects := AtCommitUnproven, None, NoEvidence, None;
      causality, closure, historicalTrust, claimsSupported := Unproven, ClosureUnknown, UntrustedHistory, false;
      uncertainty, errors, succession, custodian := 0, 0, NotProvided, None;
    }

    /** The report as `Verify` starts it. */
    predicate Fresh() reads this {
      structure == Valid && signatures == NotChecked && trustRoots == NotChecked && !admitted &&
      authorityAtCommit == AtCommitUnproven && effectEvidence == NoEvidence &&
      causality == Unproven && closure == ClosureUnknown && historicalTrust == UntrustedHistory &&
      !claimsSupported && errors == 0 && succession == NotProvided && custodian == None
    }

    method Fail()
      modifies this`errors
      ensures errors == old(errors) + 1
    {
      errors := errors + 1;
    }

    method Uncertain()
      modifies this`uncertainty
      ensures uncertainty == old(uncertainty) + 1
    {
      uncertainty := uncertainty + 1;
    }

    method Key(role: string, keyId: string) returns (key: Option<string>)
      modifies this`signatures, this`trustRoots, this`errors
      ensures key == TrustedKey(o, p, role, keyId)
      ensures key.Some? ==> signatures == old(signatures) && trustRoots == old(trustRoots) && errors == old(errors)
      ensures key == None ==> trustRoots == Invalid && errors > old(errors)
    {
      key := TrustedKey(o, p, role, keyId);
      if key == None {
        trustRoots := Invalid;
        if signatures != Invalid { signatures := NotChecked; }
        Fail();
      }
    }

    /** `verifySignature` */
    method VerifySignature(role: string, keyId: string, message: string, signature: string) returns (ok: bool)
      modifies this`signatures, this`trustRoots, this`errors
      ensures ok == SignedBy(o, p, role, keyId, message, signature)
      ensures ok ==> signatures == old(signatures) && trustRoots == old(trustRoots) && errors == old(errors)
      ensures !ok ==> errors > old(errors)
    {
      var key := Key(role, keyId);
      if key == None { return false; }
      ok := o.genuine(key.value, message, signature);
      if !ok {
        signatures := Invalid;
        Fail();
      }
    }

    method Statement<T>(decode: string -> Option<T>, role: string, env: Envelope) returns (v: Option<T>)
      modifies this`structure, this`signatures, this`trustRoots, this`errors
      ensures v == Stated(o, p, decode, role, env)
      ensures v.Some? ==> structure == old(structure) && signatures == old(signatures) &&
                          trustRoots == old(trustRoots) && errors == old(errors)
      ensures v == None ==> errors > old(errors)
    {
      v := decode(env.payload);
      if v == None {
        structure := Invalid;
        Fail();
        return;
      }
      var ok := VerifySignature(role, env.keyId, SigningBytes(o, role, env.payload), env.signature);
      if !ok { v := None; }
    }

    method AssessDestination(e: Execution, d: Destination)
      requires closure == ClosureUnknown && causality == Unproven
      requires effectEvidence == NoEvidence && authorityAtCommit == AtCommitUnproven
      modifies this`structure, this`errors, this`uncertainty, this`closure, this`causality, this`effectEvidence,
               this`authorityAtCommit, this`authorityActive, this`committedEffects
      ensures closure == if Closes(o, p, e, d, admitted) then ClosureClosed else ClosureUnknown
      ensures causality == CausalityOf(o, p, e, d, admitted)
      ensures errors >= old(errors)
      ensures errors == old(errors) <==> DestinationSound(o, p, e, d, admitted)
      ensures effectEvidence == ExactAttestedCommit <==> Measured(p, d) && ExactCommit(o, e, d)
      ensures authorityAtCommit == ValidAtCommit <==> Measured(p, d) && ProvenCommit(o, e, d, admitted)
      ensures structure == old(structure) || errors > old(errors)
    {
      if !Addressed(p, d) {
        Fail();
        return;
      }
      authorityActive, committedEffects := Some(d.authorityCurrentlyActive), Some(d.effectCount);
      if d.effectCount > 1 { Fail(); }
      if d.currentAuthorityGeneration < e.authorityGeneration { Fail(); }
      if d.observationError != "" {
        if d.observed != NO_STATE || d.commit.Some? {
          Fail();
          return;
        }
        effectEvidence := NativeTallyOnly;
        Uncertain();
        return;
      }
      if !Filled(d.observed) {
        structure := Invalid;
        Fail();
        return;
      }
      AssessCommit(e, d);
    }

    /** The part of `destination` after a complete observation. */
    method AssessCommit(e: Execution, d: Destination)
      requires Measured(p, d)
      requires closure == ClosureUnknown && causality == Unproven
      requires effectEvidence == NoEvidence && authorityAtCommit == AtCommitUnproven
      modifies this`errors, this`uncertainty, this`closure, this`causality, this`effectEvidence, this`authorityAtCommit
      ensures closure == if Closes(o, p, e, d, admitted) then ClosureClosed else ClosureUnknown
      ensures causality == CausalityOf(o, p, e, d, admitted)
      ensures errors >= old(errors)
      ensures errors == old(errors) <==> (d.commit.Some? ==> ProvenCommit(o, e, d, admitted))
      ensures effectEvidence == ExactAttestedCommit <==> ExactCommit(o, e, d)
      ensures authorityAtCommit == ValidAtCommit <==> ProvenCommit(o, e, d, admitted)
    {
      if d.observed == e.request.after {
        effectEvidence, causality := PostconditionOnly, StateOnly;
        if p.requiredClaimType == Postcondition { closure := ClosureClosed; }
      }
      if d.commit == None {
        Uncertain();
        return;
      }
      if !ExactCommit(o, e, d) {
        Fail();
        return;
      }
      effectEvidence := ExactAttestedCommit;
      if !Continuing(e, d.commit.value, admitted) {
        authorityAtCommit := InvalidAtCommit;
        Fail();
        return;
      }
      authorityAtCommit, causality := ValidAtCommit, ExactCommitRecord;
      if d.observed == e.request.after {
        closure := ClosureClosed;
      } else {
        Uncertain();
      }
    }

    /** The loop of `history`, carrying the previous hash and the last event. */
    method WalkHistory(raw: seq<string>) returns (walk: Walk)
      ensures walk == WalkEntries(o, p, raw)
    {
      var prev := "";
      var entries: seq<History.Entry> := [];
      for i := 0 to |raw|
        invariant WalkEntries(o, p, raw[..i]) == Walked(entries)
        invariant prev == History.HeadHash(entries)
      {
        WalkStops(o, p, raw, i);
        var entry := o.entry(raw[i]);
        if entry == None { return Faulty; }
        var e := entry.value;
        if e.version != 2 || e.journalId != p.historyId || e.sequence != i + 1 || e.prevHash != prev ||
           e.event.occurredAt == ZERO_TIME {
          return Broken;
        }
        if History.ContentHash(CodecOf(o), e) != e.entryHash { return Broken; }
        if p.succession.Some? && e.sequence == p.succession.value.oldCheckpoint.sequence &&
           e.entryHash != p.succession.value.oldCheckpoint.headHash {
          return Broken;
        }
        prev := e.entryHash;
        entries := entries + [e];
      }
      assert raw[..|raw|] == raw;
      walk := Walked(entries);
    }

    method AssessHistory(b: Bundle, e: Execution)
      requires b.history.Some? && historicalTrust == UntrustedHistory
      modifies this`structure, this`signatures, this`trustRoots, this`errors, this`uncertainty, this`historicalTrust
      ensures historicalTrust == TrustOf(HistoryVerdict(o, p, b, e, succession == SuccessionValid))
      ensures errors >= old(errors)
      ensures errors == old(errors) <==> !HistoryVerdict(o, p, b, e, succession == SuccessionValid).Faulty?
      ensures errors > old(errors) || (structure == old(structure) && signatures == old(signatures) && trustRoots == old(trustRoots))
    {
      if (b.succession.Some? || p.succession.Some?) && succession != SuccessionValid {
        Uncertain();
        return;
      }
      if p.checkpoint == None || p.historyId == "" {
        Uncertain();
        return;
      }
      var observed := Statement(o.witnessOf, "witness", b.history.value.witnessed);
      if observed == None { return; }
      if !WitnessAgrees(p, observed.value, p.checkpoint.value) {
        Uncertain();
        return;
      }
      AssessAnchor(b, e, observed.value.head);
    }

    method AssessAnchor(b: Bundle, e: Execution, head: Head)
      requires b.history.Some? && historicalTrust == UntrustedHistory
      modifies this`structure, this`signatures, this`trustRoots, this`errors, this`uncertainty, this`historicalTrust
      ensures historicalTrust == TrustOf(AnchorVerdict(o, p, b, e, head))
      ensures errors >= old(errors)
      ensures errors == old(errors) <==> !AnchorVerdict(o, p, b, e, head).Faulty?
      ensures errors > old(errors) || (structure == old(structure) && signatures == old(signatures) && trustRoots == old(trustRoots))
    {
      var anchor := o.anchor(b.history.value.anchor);
      if anchor == None {
        structure := Invalid;
        Fail();
        return;
      }
      if !AnchorReaches(anchor.value, head) {
        Uncertain();
        return;
      }
      var ok := VerifySignature("history", head.keyId, AnchorText(o, anchor.value), anchor.value.signature);
      if !ok { return; }
      AssessEntries(b, e, head);
    }

    method AssessEntries(b: Bundle, e: Execution, head: Head)
      requires b.history.Some? && historicalTrust == UntrustedHistory
      modifies this`structure, this`errors, this`uncertainty, this`historicalTrust
      ensures historicalTrust == TrustOf(EntriesVerdict(o, p, b, e, head))
      ensures errors >= old(errors)
      ensures errors == old(errors) <==> !EntriesVerdict(o, p, b, e, head).Faulty?
      ensures errors > old(errors) || structure == old(structure)
    {
      var raw := b.history.value.entries;
      if raw == [] || |raw| != head.sequence {
        Uncertain();
        return;
      }
      var walk := WalkHistory(raw);
      match walk
      case Faulty =>
        structure := Invalid;
        Fail();
      case Broken =>
        Uncertain();
      case Walked(entries) =>
        if entries != [] && History.HeadHash(entries) == head.headHash &&
           BindsOutcome(o, b, e, entries[|entries| - 1].event) {
          historicalTrust := TrustedHistory;
        } else {
          Uncertain();
        }
    }

    /** The sorted scan of `genesis` over the witnesses. */
    method CheckQuorum(q: Quorum.Quorum) returns (ok: bool)
      ensures ok <==> Quorum.SafeQuorum(q)
    {
      if q.threshold <= |q.members| / 2 || q.threshold > |q.members| { return false; }
      for i := 0 to |q.members|
        invariant forall j :: 0 <= j < i ==> q.members[j].id != "" && |q.members[j].manifestHash| == 71
      {
        if q.members[i].id == "" || |q.members[i].manifestHash| != 71 { return false; }
      }
      ok := AllDistinct(MemberIds(q.members));
      DistinctMembers(q.members);
    }

    method CheckHistories(hs: seq<HistoryIdentity>, purpose: string) returns (ok: bool)
      ensures ok <==> Governs(hs, purpose, p.historyId)
    {
      var found := false;
      for i := 0 to |hs|
        invariant forall j :: 0 <= j < i ==> hs[j].purpose != "" && hs[j].journalId != ""
        invariant found <==> HistoryIdentity(purpose, p.historyId) in hs[..i]
      {
        if hs[i].purpose == "" || hs[i].journalId == "" { return false; }
        if hs[i].purpose == purpose && hs[i].journalId == p.historyId { found := true; }
      }
      assert hs[..|hs|] == hs;
      var distinct := AllDistinct(Purposes(hs));
      ok := distinct && found;
    }

    method AssessGenesis(purpose: string, role: string, g: PortableGenesis, expected: string) returns (r: Option<Genesis>)
      modifies this`signatures, this`trustRoots, this`errors
      ensures r == GenesisOf(o, p, purpose, role, g, expected)
      ensures errors >= old(errors)
      ensures errors > old(errors) || (signatures == old(signatures) && trustRoots == old(trustRoots))
      ensures r.Some? ==> errors == old(errors)
    {
      if !o.canonical(g.payload) || o.h(g.payload) != expected { return None; }
      var ok := VerifySignature(role, g.keyId, g.payload, g.signature);
      if !ok { return None; }
      var m := o.manifest(g.payload);
      if m == None { return None; }
      if m.value.epoch == 0 || o.h(g.capabilityEnvelope) != m.value.envelopeHash || m.value.revision != p.buildSha ||
         m.value.validFrom == ZERO_TIME || m.value.validUntil <= m.value.validFrom {
        return None;
      }
      var c := o.capability(g.capabilityEnvelope);
      if c == None { return None; }
      ok := CheckCapability(purpose, c.value);
      if !ok { return None; }
      r := Some(GenesisFrom(o, g, expected, m.value, c.value));
    }

    method CheckCapability(purpose: string, c: Capability) returns (ok: bool)
      ensures ok <==> CapabilityHolds(o, p, purpose, c)
    {
      if c.quorumProtocol != "aegis-ege/quorum-trust-policy/v1" { return false; }
      ok := CheckQuorum(c.quorum);
      if !ok { return; }
      if c.historyProtocol != "aegis-ege/governed-history-trust-policy/v1" { return false; }
      ok := CheckHistories(c.histories, purpose);
      if !ok { return; }
      ok := o.publicKey(c.governance.publicKey).Some? && c.governance.authorityId != "" &&
            c.governance.protocol == "aegis-ege/enrollment-successor-governance-policy/v1";
    }

    method AssessGrant(role: string, grant: Grant, want: Identity) returns (ok: bool)
      requires p.succession.Some?
      modifies this`signatures, this`trustRoots, this`errors
      ensures ok == GrantHolds(o, p, role, grant, want)
      ensures ok ==> errors == old(errors) && signatures == old(signatures) && trustRoots == old(trustRoots)
      ensures !ok ==> errors > old(errors)
    {
      var key := Key(role, grant.keyId);
      ok := key.Some? && GrantHolds(o, p, role, grant, want);
      if !ok { Fail(); }
    }

    method AssessGrants(older: Genesis, newer: Genesis) returns (ok: bool)
      requires p.succession.Some?
      modifies this`signatures, this`trustRoots, this`errors
      ensures ok == GrantsHold(o, p, older, newer)
      ensures ok ==> errors == old(errors) && signatures == old(signatures) && trustRoots == old(trustRoots)
      ensures !ok ==> errors > old(errors)
    {
      var sp := p.succession.value;
      ok := AssessGrant("old_history", older.cap.custody, sp.oldCustodian);
      if !ok { return; }
      ok := AssessGrant("history", newer.cap.custody, sp.newCustodian);
      if !ok { return; }
      ok := sp.oldCustodian != sp.newCustodian && older.cap.custody.keyId != newer.cap.custody.keyId;
      if !ok { Fail(); }
    }

    method AssessApproval(role: string, ap: Approval, g: Genesis, text: string) returns (ok: bool)
      modifies this`signatures, this`trustRoots, this`errors
      ensures ok == ApprovalHolds(o, p, role, ap, g, text)
      ensures ok ==> errors == old(errors) && signatures == old(signatures) && trustRoots == old(trustRoots)
      ensures !ok ==> errors > old(errors)
    {
      var key := Key(role, ap.keyId);
      ok := key.Some? && ap.keyId == g.authorityKey && o.keyText(key.value) == g.cap.governance.publicKey;
      if ok { ok := VerifySignature(role, ap.keyId, ROTATION_VERSION + [0 as char] + text, ap.signature); }
      if !ok { Fail(); }
    }

    method AssessRotation(r: Rotation, older: Genesis, newer: Genesis) returns (ok: bool)
      modifies this`signatures, this`trustRoots, this`errors
      ensures ok == RotationApproved(o, p, r, older, newer)
      ensures ok ==> errors == old(errors) && signatures == old(signatures) && trustRoots == old(trustRoots)
      ensures !ok ==> errors > old(errors)
    {
      var text := o.rotationText(r.authorization);
      if text == None {
        Fail();
        return false;
      }
      ok := AssessApproval("old_authority", r.oldApproval, older, text.value);
      if !ok { return; }
      ok := AssessApproval("new_authority", r.newApproval, newer, text.value);
    }

    /** `predecessorAnchor` */
    method AssessPredecessor(raw: string, head: Head) returns (ok: bool)
      modifies this`signatures, this`trustRoots, this`errors
      ensures ok == AnchorHolds(o, p, raw, head)
      ensures ok ==> errors == old(errors) && signatures == old(signatures) && trustRoots == old(trustRoots)
      ensures !ok ==> errors > old(errors)
    {
      var a := o.anchor(raw);
      if a == None || !AnchorReaches(a.value, head) {
        Fail();
        return false;
      }
      ok := VerifySignature("old_history", head.keyId, AnchorText(o, a.value), a.value.signature);
    }

    /** The rotation of the authority, up to its two approvals. */
    method AssessAuthority(e: Execution, s: SuccessionEvidence, older: Genesis, newer: Genesis, now: int) returns (ok: bool)
      requires p.succession.Some?
      modifies this`signatures, this`trustRoots, this`errors
      ensures ok == AuthorityHolds(o, p, e, s, older, newer, now)
      ensures ok ==> errors == old(errors) && signatures == old(signatures) && trustRoots == old(trustRoots)
      ensures !ok ==> errors > old(errors)
    {
      if older.epoch >= newer.epoch || e.authorityEpoch != older.epoch || !InForce(older, now) || !InForce(newer, now) {
        Fail();
        return false;
      }
      ok := AssessGrants(older, newer);
      if !ok { return; }
      var r := o.rotation(s.authorityRotation);
      if r == None || !RotationBinds(o, r.value.authorization, p.succession.value.oldAuthorityCheckpoint, older, newer, now) {
        Fail();
        return false;
      }
      ok := AssessRotation(r.value, older, newer);
    }

    method AssessObservation(b: Bundle, s: SuccessionEvidence, older: Genesis, newer: Genesis, r: Rotation, now: int) returns (ok: bool)
      requires p.succession.Some? && p.checkpoint.Some?
      requires Quorum.SafeQuorum(older.cap.quorum) && Quorum.SafeQuorum(newer.cap.quorum) && older.epoch < newer.epoch
      modifies this`structure, this`signatures, this`trustRoots, this`errors
      ensures ok == ObservationHolds(o, p, b, s, older, newer, r, now)
      ensures ok ==> errors == old(errors) && structure == old(structure) &&
                     signatures == old(signatures) && trustRoots == old(trustRoots)
      ensures !ok ==> errors > old(errors)
    {
      hide Stated, AnchorHolds, CommitPrecedes, Quorum.Accepts;
      var sp := p.succession.value;
      var w := Statement(o.observed, "succession_witness", s.witnessed);
      if w == None { return false; }
      if !ObservationBinds(o, p, w.value, r, older, newer, now) {
        Fail();
        return false;
      }
      ok := AssessPredecessor(s.beforeAnchor, sp.oldCheckpoint);
      if !ok { return; }
      var err := Quorum.VerifyQuorumSuccession(HandoverOf(o, sp, older, newer, r), w.value.quorum, p.checkpoint.value,
                                               ActiveHead(o, r, sp.oldAuthorityCheckpoint, newer));
      if err.Some? || !CommitPrecedes(o, b, older, o.time(w.value.observedAt).value) {
        Fail();
        return false;
      }
    }

    method AssessSuccession(b: Bundle, e: Execution)
      modifies this`structure, this`signatures, this`trustRoots, this`errors, this`uncertainty, this`succession, this`custodian
      ensures succession == if SuccessionHolds(o, p, b, e) then SuccessionValid else SuccessionInvalid
      ensures custodian == if SuccessionHolds(o, p, b, e) then Some(p.succession.value.newCustodian) else old(custodian)
      ensures errors >= old(errors)
      ensures errors == old(errors) <==> SuccessionHolds(o, p, b, e)
      ensures errors > old(errors) || (structure == old(structure) && signatures == old(signatures) && trustRoots == old(trustRoots))
    {
      hide GenesisOf, HandoverHolds, GradesAgree, Quorum.SafeQuorum;
      succession := SuccessionInvalid;
      if b.succession == None || p.succession == None || p.checkpoint == None || b.history == None {
        Fail();
        return;
      }
      var s, sp := b.succession.value, p.succession.value;
      if !GradesAgree(e, sp.grades) {
        Fail();
        return;
      }
      var older := AssessGenesis(sp.historyPurpose, "old_genesis", s.oldGenesis, sp.oldManifestHash);
      if older == None {
        Fail();
        return;
      }
      var newer := AssessGenesis(sp.historyPurpose, "new_genesis", s.newGenesis, sp.newManifestHash);
      if newer == None {
        Fail();
        return;
      }
      GenesisQuorumIsSafe(o, p, sp.historyPurpose, "old_genesis", s.oldGenesis, sp.oldManifestHash);
      GenesisQuorumIsSafe(o, p, sp.historyPurpose, "new_genesis", s.newGenesis, sp.newManifestHash);
      var ok := AssessHandover(b, e, s, older.value, newer.value);
      if !ok { return; }
      succession, custodian := SuccessionValid, Some(sp.newCustodian);
      Uncertain();
    }

    method AssessHandover(b: Bundle, e: Execution, s: SuccessionEvidence, older: Genesis, newer: Genesis) returns (ok: bool)
      requires p.succession.Some? && p.checkpoint.Some?
      requires Quorum.SafeQuorum(older.cap.quorum) && Quorum.SafeQuorum(newer.cap.quorum)
      modifies this`structure, this`signatures, this`trustRoots, this`errors
      ensures ok == HandoverHolds(o, p, b, e, s, older, newer)
      ensures ok ==> errors == old(errors) && structure == old(structure) &&
                     signatures == old(signatures) && trustRoots == old(trustRoots)
      ensures !ok ==> errors > old(errors)
    {
      hide ObservationHolds, Quorum.SafeQuorum;
      var now := o.time(p.succession.value.evaluationTime);
      if now == None {
        Fail();
        return false;
      }
      ok := AssessAuthority(e, s, older, newer, now.value);
      if !ok { return; }
      ok := AssessObservation(b, s, older, newer, o.rotation(s.authorityRotation).value, now.value);
    }

    method AssessAdmission(b: Bundle, e: Execution)
      requires !admitted
      modifies this`structure, this`signatures, this`trustRoots, this`errors, this`admitted
      ensures admitted == AdmittedBy(o, p, b, e)
      ensures errors >= old(errors)
      ensures errors == old(errors) <==> AdmissionSound(o, p, b, e)
      ensures errors > old(errors) || (structure == old(structure) && signatures == old(signatures) && trustRoots == old(trustRoots))
    {
      var a := Statement(o.admission, "admission", b.admission);
      if a == None { return; }
      if !InContext(p, a.value) { Fail(); }
      admitted := Admits(p, e, a.value);
      if e.admitted && !admitted { Fail(); }
    }

    /** The checks of the execution statement, none of which stops the assessment. */
    method AssessExecution(e: Execution)
      modifies this`errors
      ensures errors >= old(errors)
      ensures errors == old(errors) <==> ExecutionSound(o, p, e)
    {
      if e.buildSha != p.buildSha || e.caseId != p.caseId { Fail(); }
      if e.grade.Rank() == 0 || e.grade.Rank() > p.maximumGrade.Rank() { Fail(); }
      if !ExactRequest(e) { Fail(); }
      if !IdentityBound(o, e) { Fail(); }
      if e.claimType.OtherClaim? { Fail(); }
      if e.claimType != p.requiredClaimType { Fail(); }
    }

    /** The admission and destination parts. */
    method AssessEffect(b: Bundle, e: Execution)
      requires !admitted && closure == ClosureUnknown && causality == Unproven
      requires effectEvidence == NoEvidence && authorityAtCommit == AtCommitUnproven
      modifies this`structure, this`signatures, this`trustRoots, this`errors, this`uncertainty, this`admitted, this`closure,
               this`causality, this`effectEvidence, this`authorityAtCommit, this`authorityActive, this`committedEffects
      ensures admitted == AdmittedBy(o, p, b, e)
      ensures closure == ClosureOf(o, p, b, e) && causality == BundleCausality(o, p, b, e)
      ensures errors >= old(errors)
      ensures errors == old(errors) <==> AdmissionSound(o, p, b, e) && DestinationPartSound(o, p, b, e)
      ensures errors > old(errors) || (structure == old(structure) && signatures == old(signatures) && trustRoots == old(trustRoots))
    {
      AssessAdmission(b, e);
      AssessDestinationPart(b, e);
    }

    method AssessDestinationPart(b: Bundle, e: Execution)
      requires admitted == AdmittedBy(o, p, b, e) && closure == ClosureUnknown && causality == Unproven
      requires effectEvidence == NoEvidence && authorityAtCommit == AtCommitUnproven
      modifies this`structure, this`signatures, this`trustRoots, this`errors, this`uncertainty, this`closure,
               this`causality, this`effectEvidence, this`authorityAtCommit, this`authorityActive, this`committedEffects
      ensures closure == ClosureOf(o, p, b, e) && causality == BundleCausality(o, p, b, e)
      ensures errors >= old(errors)
      ensures errors == old(errors) <==> DestinationPartSound(o, p, b, e)
      ensures errors > old(errors) || (structure == old(structure) && signatures == old(signatures) && trustRoots == old(trustRoots))
    {
      hide Stated, DestinationSound, Closes, CausalityOf;
      if b.destination == None {
        Uncertain();
        if e.grade == Native { Fail(); }
      } else {
        var d := Statement(o.destination, "destination", b.destination.value);
        if d.Some? { AssessDestination(e, d.value); }
      }
    }

    /** The succession and history parts, and the rule that a custodian keeps its
        authority only over a trusted history. */
    method AssessContinuity(b: Bundle, e: Execution)
      requires historicalTrust == UntrustedHistory && succession == NotProvided && custodian == None
      modifies this`structure, this`signatures, this`trustRoots, this`errors, this`uncertainty, this`succession,
               this`custodian, this`historicalTrust
      ensures historicalTrust == if HistoryTrusted(o, p, b, e) then TrustedHistory else UntrustedHistory
      ensures succession == SuccessionValid <==> SuccessionAsked(p, b) && SuccessionHolds(o, p, b, e)
      ensures custodian.Some? <==> succession == SuccessionValid && historicalTrust == TrustedHistory
      ensures custodian.Some? ==> custodian == Some(p.succession.value.newCustodian)
      ensures errors >= old(errors)
      ensures errors == old(errors) <==> SuccessionPartSound(o, p, b, e) && HistoryPartSound(o, p, b, e)
      ensures errors > old(errors) || (structure == old(structure) && signatures == old(signatures) && trustRoots == old(trustRoots))
    {
      hide SuccessionHolds, HistoryVerdict;
      SuccessionOnlyIfAsked(o, p, b, e);
      if b.succession.Some? || p.succession.Some? {
        AssessSuccession(b, e);
      } else if e.evidenceGrades.Some? {
        Fail();
      }
      if b.history == None {
        Uncertain();
      } else {
        AssessHistory(b, e);
      }
      if succession == SuccessionValid && historicalTrust != TrustedHistory {
        custodian := None;
        Fail();
      }
    }

    /** `Verify` on decoded documents; `None` is a decoding error. */
    method Verify(bundle: Option<Bundle>, policyDecodes: bool)
      requires Fresh()
      modifies this
      ensures claimsSupported <==> bundle.Some? && policyDecodes && Supported(o, p, bundle.value)
      ensures claimsSupported ==> structure == Valid && signatures == Valid && trustRoots == Valid && errors == 0
      ensures bundle.Some? && ExecutionOf(o, p, bundle.value).Some? && claimsSupported ==>
                Reports(bundle.value, ExecutionOf(o, p, bundle.value).value)
      ensures closure == ClosureClosed ==>
                bundle.Some? && ExecutionOf(o, p, bundle.value).Some? &&
                ClosureOf(o, p, bundle.value, ExecutionOf(o, p, bundle.value).value) == ClosureClosed
      ensures closure == if Examined(bundle, policyDecodes) &&
                            Meaning.ClosedByEvidence(o, p, bundle.value, ExecutionOf(o, p, bundle.value).value)
                         then ClosureClosed else ClosureUnknown
      ensures causality == if !Examined(bundle, policyDecodes) then Unproven
                           else if Meaning.CommitShown(o, p, bundle.value, ExecutionOf(o, p, bundle.value).value) then ExactCommitRecord
                           else if Meaning.AfterStateShown(o, p, bundle.value, ExecutionOf(o, p, bundle.value).value) then StateOnly
                           else Unproven
      ensures custodian.Some? ==> succession == SuccessionValid && historicalTrust == TrustedHistory
    {
      hide PolicyUsable, Stated, ClosureOf, BundleCausality, AdmittedBy, ClaimsHold, Meaning.ClosedByEvidence, Meaning.CommitShown,
        Meaning.AfterStateShown;
      if bundle == None || !policyDecodes || !PolicyUsable(bundle.value, p) {
        structure := Invalid;
        Fail();
        return;
      }
      var b := bundle.value;
      signatures, trustRoots := Valid, Valid;
      var execution := Statement(o.execution, "execution", b.execution);
      if execution == None { return; }
      AssessClaims(b, execution.value);
      Meaning.EffectMeaning(o, p, b, execution.value);
    }

    /** The bundle and the policy are usable, and the execution statement is genuine. */
    predicate Examined(bundle: Option<Bundle>, policyDecodes: bool) {
      bundle.Some? && policyDecodes && PolicyUsable(bundle.value, p) && ExecutionOf(o, p, bundle.value).Some?
    }

    /** The report's derived fields, as the evidence implies them and the statement claims them. */
    ghost predicate Reports(b: Bundle, e: Execution) reads this {
      closure == ClosureOf(o, p, b, e) == e.claimedClosure &&
      causality == BundleCausality(o, p, b, e) == e.claimedCausality &&
      historicalTrust == e.claimedHistory && admitted == AdmittedBy(o, p, b, e) &&
      intentId == e.intentId && effectId == e.effectId && attemptId == e.request.attemptId
    }

    /** `Verify` after the execution statement. */
    method AssessClaims(b: Bundle, e: Execution)
      requires !admitted && closure == ClosureUnknown && causality == Unproven
      requires effectEvidence == NoEvidence && authorityAtCommit == AtCommitUnproven
      requires historicalTrust == UntrustedHistory && succession == NotProvided && custodian == None
      modifies this`structure, this`signatures, this`trustRoots, this`errors, this`uncertainty, this`admitted, this`closure,
               this`causality, this`effectEvidence, this`authorityAtCommit, this`authorityActive, this`committedEffects,
               this`succession, this`custodian, this`historicalTrust, this`intentId, this`effectId, this`attemptId,
               this`claimsSupported
      ensures errors >= old(errors) && claimsSupported == (errors == 0)
      ensures errors == old(errors) <==> ClaimsHold(o, p, b, e)
      ensures errors > old(errors) || (structure == old(structure) && signatures == old(signatures) && trustRoots == old(trustRoots))
      ensures errors == old(errors) ==>
                e.claimedClosure == closure && e.claimedCausality == causality && e.claimedHistory == historicalTrust
      ensures causality == BundleCausality(o, p, b, e) && admitted == AdmittedBy(o, p, b, e)
      ensures intentId == e.intentId && effectId == e.effectId && attemptId == e.request.attemptId
      ensures closure == ClosureOf(o, p, b, e)
      ensures custodian.Some? ==> succession == SuccessionValid && historicalTrust == TrustedHistory
    {
      hide *;
      ClaimsHoldParts(o, p, b, e);
      intentId, effectId, attemptId := e.intentId, e.effectId, e.request.attemptId;
      AssessExecution(e);
      AssessEffect(b, e);
      AssessContinuity(b, e);
      CompareClaims(b, e);
      claimsSupported := errors == 0;
    }

    method CompareClaims(b: Bundle, e: Execution)
      requires closure == ClosureOf(o, p, b, e) && causality == BundleCausality(o, p, b, e)
      requires historicalTrust == if HistoryTrusted(o, p, b, e) then TrustedHistory else UntrustedHistory
      modifies this`errors, this`uncertainty
      ensures errors >= old(errors)
      ensures errors == old(errors) <==> ClaimsDerived(o, p, b, e)
      ensures errors == old(errors) ==>
                e.claimedClosure == closure && e.claimedCausality == causality && e.claimedHistory == historicalTrust
    {
      hide ClosureOf, BundleCausality, HistoryTrusted;
      if e.claimedClosure != closure { Fail(); }
      if e.claimedCausality != causality { Fail(); }
      if e.claimedHistory != historicalTrust { Fail(); }
      if closure == ClosureUnknown { Uncertain(); }
    }
  }

  lemma ClaimsHoldParts(o: Oracle, p: Policy, b: Bundle, e: Execution)
    ensures ClaimsHold(o, p, b, e) <==>
      ExecutionSound(o, p, e) && AdmissionSound(o, p, b, e) && DestinationPartSound(o, p, b, e) &&
      SuccessionPartSound(o, p, b, e) && HistoryPartSound(o, p, b, e) && ClaimsDerived(o, p, b, e)
  {
    hide ExecutionSound, AdmissionSound, DestinationPartSound, SuccessionPartSound, HistoryPartSound, ClaimsDerived;
  }

  lemma SuccessionOnlyIfAsked(o: Oracle, p: Policy, b: Bundle, e: Execution)
    ensures SuccessionHolds(o, p, b, e) ==> SuccessionAsked(p, b)
  {
    hide OldGenesis, NewGenesis, HandoverHolds;
  }

  function MemberIds(ms: seq<Quorum.Member>): seq<string> {
    seq(|ms|, i requires 0 <= i < |ms| => ms[i].id)
  }

  lemma DistinctMembers(ms: seq<Quorum.Member>)
    ensures Distinct(MemberIds(ms)) <==> forall i, j :: 0 <= i < j < |ms| ==> ms[i].id != ms[j].id
  {
    var ids := MemberIds(ms);
    assert forall i :: 0 <= i < |ms| ==> ids[i] == ms[i].id;
    if Distinct(ids) {
      forall i, j | 0 <= i < j < |ms| ensures ms[i].id != ms[j].id { assert ids[i] != ids[j]; }
    }
  }

  function TrustOf(w: Walk): Trust { if w.Walked? then TrustedHistory else UntrustedHistory }

  lemma WalkStops(o: Oracle, p: Policy, raw: seq<string>, i: nat)
    requires i < |raw| && WalkEntries(o, p, raw[..i]).Walked?
    ensures WalkEntries(o, p, raw[..i + 1]) == WalkNext(o, p, WalkEntries(o, p, raw[..i]).entries, raw[i], i)
    ensures !WalkEntries(o, p, raw[..i + 1]).Walked? ==> WalkEntries(o, p, raw) == WalkEntries(o, p, raw[..i + 1])
  {
    assert raw[..i + 1][..i] == raw[..i];
    if !WalkEntries(o, p, raw[..i + 1]).Walked? { WalkStuck(o, p, raw, i + 1); }
  }

  lemma {:induction false} WalkStuck(o: Oracle, p: Policy, raw: seq<string>, n: nat)
    requires n <= |raw| && !WalkEntries(o, p, raw[..n]).Walked?
    ensures WalkEntries(o, p, raw) == WalkEntries(o, p, raw[..n])
    decreases |raw|
  {
    if n == |raw| {
      assert raw[..n] == raw;
    } else {
      var m := |raw| - 1;
      assert raw[..m][..n] == raw[..n];
      WalkStuck(o, p, raw[..m], n);
    }
  }
}
