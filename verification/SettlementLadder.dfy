/** Layers three to seven of the settlement ladder (internal/computesettlement/hardware.go,
    metering.go, performance.go, workload.go, provenance.go) and the ladder as a whole.
    Signature checks and document digests are functions of an `Oracle`. */
module SettlementLadder {
  import opened Text
  import opened Framing
  import opened Streams
  import opened SettlementFacts
  import Metering
  import Performance

  /******* Documents *******/

  datatype Hardware = Hardware(version: string, attestationId: string, sequence: uint64, subject: string,
                               hardwareSet: string, topology: string, evidenceDigest: string, verifierId: string,
                               observedAt: int, validUntil: int)

  datatype Signed<T> = Signed(body: T, keyId: string, signature: string)

  datatype Lease = Lease(leaseId: string, subject: string, contractDigest: string, hardwareSet: string,
                         topology: string, admissionDigest: string, startsAt: int, endsAt: int)

  datatype Receipt = Receipt(receiptId: string, leaseId: string, contractDigest: string, hardwareSet: string,
                             topology: string, admissionDigest: string, completionDigest: string,
                             startedAt: int, finishedAt: int)

  datatype HardwarePolicy = HardwarePolicy(maxAdmissionAge: duration, maxCompletionLag: duration)

  datatype Stream<T> = Stream(source: string, digest: string, items: seq<T>)

  datatype Profile = Profile(workloadId: string, workloadDigest: string, artifactDigest: string,
                             benchmarkDigest: string, runtimeDigest: string, inputDigest: string)

  datatype Measurement = Measurement(version: string, attestationId: string, source: string, evidenceDigest: string,
                                     subject: string, leaseId: string, receiptId: string, contractDigest: string,
                                     profileDigest: string, metric: string, unit: string,
                                     startedAt: int, finishedAt: int, measuredAt: int)

  datatype Root = Root(activationDigest: string, processDigest: string, cgroupDigest: string, bootDigest: string)

  datatype Provenance = Provenance(version: string, provenanceId: string, subject: string, leaseId: string,
                                   receiptId: string, contractDigest: string, profileDigest: string,
                                   artifactDigest: string, root: Root, hardwareDigest: string, observedAt: int)

  datatype Binding = Binding(version: string, bindingId: string, source: string, measurementDigest: string,
                             provenanceDigest: string, evidenceDigest: string, leaseId: string, receiptId: string,
                             boundAt: int)

  datatype Oracle = Oracle(
    hardwareGenuine: Signed<Hardware> -> bool,
    hardwareDigest: Signed<Hardware> -> string,
    measurementGenuine: (string, Signed<Measurement>) -> bool,
    measurementDigest: Signed<Measurement> -> string,
    profileDigest: Profile -> string,
    provenanceGenuine: Signed<Provenance> -> bool,
    provenanceDigest: Signed<Provenance> -> string,
    bindingGenuine: Signed<Binding> -> bool)

  predicate SignaturePresent<T>(s: Signed<T>) { !Blank(s.keyId) && !Blank(s.signature) }

  /******* Layer 3: hardware continuity *******/

  predicate HardwareValid(a: Hardware) {
    a.version == "aegis.compute/hardware-identity-attestation/v0" && !Blank(a.attestationId) && a.sequence != 0 &&
    !Blank(a.subject) && !Blank(a.hardwareSet) && !Blank(a.topology) && !Blank(a.evidenceDigest) &&
    !Blank(a.verifierId) && a.observedAt != ZERO_TIME && a.validUntil != ZERO_TIME && a.observedAt < a.validUntil
  }

  predicate HardwareVerified(o: Oracle, s: Signed<Hardware>) {
    SignaturePresent(s) && HardwareValid(s.body) && o.hardwareGenuine(s)
  }

  predicate LeaseValid(l: Lease) {
    !Blank(l.leaseId) && !Blank(l.subject) && !Blank(l.contractDigest) && !Blank(l.hardwareSet) &&
    !Blank(l.topology) && !Blank(l.admissionDigest) && l.startsAt != ZERO_TIME && l.endsAt != ZERO_TIME &&
    l.startsAt < l.endsAt
  }

  predicate ReceiptValid(r: Receipt) {
    !Blank(r.receiptId) && !Blank(r.leaseId) && !Blank(r.contractDigest) && !Blank(r.hardwareSet) &&
    !Blank(r.topology) && !Blank(r.admissionDigest) && !Blank(r.completionDigest) &&
    r.startedAt != ZERO_TIME && r.finishedAt != ZERO_TIME
  }

  /** The receipt, the lease and both attestations name the same things. */
  predicate ReceiptBinds(o: Oracle, l: Lease, r: Receipt, admission: Signed<Hardware>, completion: Signed<Hardware>) {
    r.leaseId == l.leaseId && r.contractDigest == l.contractDigest &&
    r.hardwareSet == l.hardwareSet && r.topology == l.topology &&
    r.admissionDigest == l.admissionDigest == o.hardwareDigest(admission) &&
    r.completionDigest == o.hardwareDigest(completion) &&
    l.startsAt <= r.startedAt <= r.finishedAt <= l.endsAt
  }

  /** The same hardware at admission and at completion, freshly observed. */
  predicate SameHardware(l: Lease, r: Receipt, start: Hardware, end: Hardware, policy: HardwarePolicy) {
    start.subject == end.subject == l.subject && start.hardwareSet == end.hardwareSet == l.hardwareSet &&
    start.topology == end.topology == l.topology && start.sequence < end.sequence &&
    start.observedAt <= l.startsAt < start.validUntil &&
    (policy.maxAdmissionAge > 0 ==> Sub(l.startsAt, start.observedAt) <= policy.maxAdmissionAge) &&
    r.finishedAt <= end.observedAt < end.validUntil &&
    (policy.maxCompletionLag > 0 ==> Sub(end.observedAt, r.finishedAt) <= policy.maxCompletionLag)
  }

  predicate Continuous(o: Oracle, l: Lease, r: Receipt, admission: Signed<Hardware>, completion: Signed<Hardware>, policy: HardwarePolicy) {
    LeaseValid(l) && ReceiptValid(r) && HardwareVerified(o, admission) && HardwareVerified(o, completion) &&
    ReceiptBinds(o, l, r, admission, completion) && SameHardware(l, r, admission.body, completion.body, policy)
  }

  /** The continuity checks of `ReconcileAttestedExecution`, on any earlier disposition. */
  method AttestExecution(base: Disposition, o: Oracle, l: Lease, r: Receipt, admission: Signed<Hardware>,
                         completion: Signed<Hardware>, policy: HardwarePolicy) returns (d: Disposition, established: bool)
    ensures established == Continuous(o, l, r, admission, completion, policy)
    ensures d == if established then base else Unknown
  {
    hide LeaseValid, ReceiptValid, HardwareVerified;
    d, established := Unknown, false;
    if !LeaseValid(l) || !ReceiptValid(r) { return; }
    if !HardwareVerified(o, admission) || !HardwareVerified(o, completion) { return; }
    var admissionDigest, completionDigest := o.hardwareDigest(admission), o.hardwareDigest(completion);
    if r.leaseId != l.leaseId || r.contractDigest != l.contractDigest { return; }
    if r.hardwareSet != l.hardwareSet || r.topology != l.topology { return; }
    if r.admissionDigest != l.admissionDigest || r.admissionDigest != admissionDigest { return; }
    if r.completionDigest != completionDigest { return; }
    if r.startedAt < l.startsAt || r.finishedAt > l.endsAt || r.finishedAt < r.startedAt { return; }
    var start, end := admission.body, completion.body;
    if start.subject != l.subject || end.subject != l.subject { return; }
    if start.hardwareSet != l.hardwareSet || start.topology != l.topology { return; }
    if end.hardwareSet != l.hardwareSet || end.topology != l.topology { return; }
    if end.sequence <= start.sequence { return; }
    if start.observedAt > l.startsAt || l.startsAt >= start.validUntil { return; }
    if policy.maxAdmissionAge > 0 && Sub(l.startsAt, start.observedAt) > policy.maxAdmissionAge { return; }
    if end.observedAt < r.finishedAt || end.observedAt >= end.validUntil { return; }
    if policy.maxCompletionLag > 0 && Sub(end.observedAt, r.finishedAt) > policy.maxCompletionLag { return; }
    d, established := base, true;
  }

  /******* Streams bound to assessed evidence *******/

  function BySource(obs: seq<Observation>): map<string, Observation> {
    if obs == [] then map[] else BySource(obs[..|obs| - 1])[obs[|obs| - 1].source := obs[|obs| - 1]]
  }

  method CollectObservations(obs: seq<Observation>) returns (m: map<string, Observation>)
    ensures m == BySource(obs)
  {
    m := map[];
    for i := 0 to |obs|
      invariant m == BySource(obs[..i])
    {
      m := m[obs[i].source := obs[i]];
      assert obs[..i + 1][..i] == obs[..i];
    }
    assert obs[..|obs|] == obs;
  }

  predicate HeaderOk<T>(evidence: map<string, Observation>, s: Stream<T>) {
    var name := Trim(s.source);
    name != "" && !Blank(s.digest) && name in evidence && evidence[name].evidenceDigest == s.digest
  }

  function StreamNames<T>(streams: seq<Stream<T>>): seq<string> {
    seq(|streams|, i requires 0 <= i < |streams| => Trim(streams[i].source))
  }

  /** At least two differently named streams, each bound to assessed evidence. */
  ghost predicate StreamsBound<T>(obs: seq<Observation>, streams: seq<Stream<T>>) {
    |streams| >= 2 && Distinct(StreamNames(streams)) &&
    forall i :: 0 <= i < |streams| ==> HeaderOk(BySource(obs), streams[i])
  }

  /******* Layer 4: metering *******/

  ghost function MeterAssessment(w: Window, q: Metering.Requirement, slices: seq<Metering.Slice>): Metering.Assessment
    requires Metering.Acceptable(w, q, slices)
  {
    var order :| Metering.Ordering(w, q, slices, order);
    Metering.CountersRise(w, q, order, |order| - 1);
    Metering.AssessmentOf(order)
  }

  ghost predicate MetersAccepted(w: Window, q: Metering.Requirement, streams: seq<Stream<Metering.Slice>>) {
    forall i :: 0 <= i < |streams| ==> Metering.Acceptable(w, q, streams[i].items)
  }

  ghost predicate Metered(w: Window, q: Metering.Requirement, obs: seq<Observation>, streams: seq<Stream<Metering.Slice>>) {
    q.expected != 0 && q.requiredGpus != 0 && StreamsBound(obs, streams) && MetersAccepted(w, q, streams)
  }

  ghost predicate EveryTotal(w: Window, q: Metering.Requirement, streams: seq<Stream<Metering.Slice>>, total: nat)
    requires MetersAccepted(w, q, streams)
  {
    forall i :: 0 <= i < |streams| ==> MeterAssessment(w, q, streams[i].items).delivered == total
  }

  /** The disposition metering alone would give. */
  ghost function MeterDisposition(w: Window, q: Metering.Requirement, streams: seq<Stream<Metering.Slice>>): Disposition
    requires |streams| >= 2 && MetersAccepted(w, q, streams)
  {
    var first := MeterAssessment(w, q, streams[0].items).delivered;
    if !EveryTotal(w, q, streams, first) then Disputed
    else if first == q.expected then Settled
    else if first < q.expected then CreditDue
    else Disputed
  }

  method AssessMeters(w: Window, q: Metering.Requirement, obs: seq<Observation>, streams: seq<Stream<Metering.Slice>>)
    returns (ok: bool, totals: seq<uint64>)
    requires |streams| >= 2
    ensures ok <==> StreamsBound(obs, streams) && MetersAccepted(w, q, streams)
    ensures ok ==> |totals| == |streams| && forall i :: 0 <= i < |streams| ==> totals[i] == MeterAssessment(w, q, streams[i].items).delivered
  {
    hide Trim, Blank, Distinct, Metering.Acceptable, MeterAssessment, BySource;
    var evidence := CollectObservations(obs);
    var seen: set<string> := {};
    ghost var names := StreamNames(streams);
    totals := [];
    DistinctStart(names);
    for i := 0 to |streams|
      invariant seen == Elements(names[..i]) && Distinct(names[..i])
      invariant forall j :: 0 <= j < i ==> HeaderOk(evidence, streams[j]) && Metering.Acceptable(w, q, streams[j].items)
      invariant |totals| == i && forall j :: 0 <= j < i ==> totals[j] == MeterAssessment(w, q, streams[j].items).delivered
    {
      var s := streams[i];
      var name := Trim(s.source);
      DistinctNext(names, i);
      if name == "" || Blank(s.digest) { return false, totals; }
      if name in seen { return false, totals; }
      seen := seen + {name};
      if name !in evidence || evidence[name].evidenceDigest != s.digest { return false, totals; }
      var total := MeterTotal(w, q, s.items);
      if total == None { return false, totals; }
      totals := totals + [total.value];
    }
    assert names[..|streams|] == names;
    ok := true;
  }

  method MeterTotal(w: Window, q: Metering.Requirement, slices: seq<Metering.Slice>) returns (total: Option<uint64>)
    ensures total.Some? <==> Metering.Acceptable(w, q, slices)
    ensures total.Some? ==> total.value == MeterAssessment(w, q, slices).delivered
  {
    var a := Metering.AssessMeterStream(w, q, slices);
    total := if a == None then None else Some(a.value.delivered);
  }

  /** The metering checks of `ReconcileMeteredExecution` on an earlier disposition. */
  method MeterExecution(base: Disposition, hardware: bool, w: Window, q: Metering.Requirement,
                        obs: seq<Observation>, streams: seq<Stream<Metering.Slice>>) returns (d: Disposition, established: bool)
    ensures established <==> base == Settled && hardware && Metered(w, q, obs, streams)
    ensures d == if established then MeterDisposition(w, q, streams) else Unknown
  {
    hide StreamsBound, MetersAccepted, MeterAssessment;
    d, established := Unknown, false;
    if base != Settled || !hardware { return; }
    if q.expected == 0 || q.requiredGpus == 0 || |streams| < 2 {
      TooFew(obs, streams);
      return;
    }
    var ok, totals := AssessMeters(w, q, obs, streams);
    if !ok { return; }
    established := true;
    var reference := totals[0];
    for i := 1 to |totals|
      invariant forall j :: 0 <= j < i ==> totals[j] == reference
    {
      if totals[i] != reference { return Disputed, true; }
    }
    d := if reference == q.expected then Settled else if reference < q.expected then CreditDue else Disputed;
  }

  lemma TooFew<T>(obs: seq<Observation>, streams: seq<Stream<T>>)
    ensures |streams| < 2 ==> !StreamsBound(obs, streams)
  {
  }

  /******* Layer 5: performance *******/

  ghost function PerfAssessment(w: Window, env: Performance.Envelope, samples: seq<Performance.Sample>): Performance.Assessment
    requires Performance.Acceptable(w, env, samples)
  {
    var order :| Performance.Ordering(w, env, samples, order);
    Performance.AssessmentOf(env, order)
  }

  predicate EnvelopeValid(env: Performance.Envelope) {
    !Blank(env.metric) && !Blank(env.unit) && env.minimum != 0 && env.maxGap >= 0 && env.maxBelow >= 0
  }

  ghost predicate SamplesAccepted(w: Window, env: Performance.Envelope, streams: seq<Stream<Performance.Sample>>) {
    forall i :: 0 <= i < |streams| ==> Performance.Acceptable(w, env, streams[i].items)
  }

  ghost predicate Performed(w: Window, env: Performance.Envelope, obs: seq<Observation>, streams: seq<Stream<Performance.Sample>>) {
    EnvelopeValid(env) && StreamsBound(obs, streams) && SamplesAccepted(w, env, streams)
  }

  ghost predicate Compliant(w: Window, env: Performance.Envelope, s: Stream<Performance.Sample>)
    requires Performance.Acceptable(w, env, s.items)
  {
    PerfAssessment(w, env, s.items).compliant
  }

  ghost predicate AllCompliant(w: Window, env: Performance.Envelope, streams: seq<Stream<Performance.Sample>>)
    requires SamplesAccepted(w, env, streams)
  {
    forall i :: 0 <= i < |streams| ==> Compliant(w, env, streams[i])
  }

  ghost predicate NoneCompliant(w: Window, env: Performance.Envelope, streams: seq<Stream<Performance.Sample>>)
    requires SamplesAccepted(w, env, streams)
  {
    forall i :: 0 <= i < |streams| ==> !Compliant(w, env, streams[i])
  }

  /** All streams measured the same time below the floor. */
  ghost predicate SameDegradation(w: Window, env: Performance.Envelope, streams: seq<Stream<Performance.Sample>>)
    requires SamplesAccepted(w, env, streams) && streams != []
  {
    forall i :: 0 <= i < |streams| ==> PerfAssessment(w, env, streams[i].items).below == PerfAssessment(w, env, streams[0].items).below
  }

  ghost function PerfDisposition(w: Window, env: Performance.Envelope, streams: seq<Stream<Performance.Sample>>): Disposition
    requires |streams| >= 2 && SamplesAccepted(w, env, streams)
  {
    if AllCompliant(w, env, streams) then Settled
    else if NoneCompliant(w, env, streams) && SameDegradation(w, env, streams) then CreditDue
    else Disputed
  }

  method AssessSamples(w: Window, env: Performance.Envelope, samples: seq<Performance.Sample>) returns (a: Option<Performance.Assessment>)
    ensures a.Some? <==> Performance.Acceptable(w, env, samples)
    ensures a.Some? ==> a.value == PerfAssessment(w, env, samples)
  {
    a := Performance.AssessPerformanceStream(w, env, samples);
  }

  method AssessPerformance(w: Window, env: Performance.Envelope, obs: seq<Observation>, streams: seq<Stream<Performance.Sample>>)
    returns (ok: bool, assessed: seq<Performance.Assessment>)
    requires |streams| >= 2
    ensures ok <==> StreamsBound(obs, streams) && SamplesAccepted(w, env, streams)
    ensures ok ==> |assessed| == |streams| && forall i :: 0 <= i < |streams| ==> assessed[i] == PerfAssessment(w, env, streams[i].items)
  {
    hide Trim, Blank, Distinct, Performance.Acceptable, PerfAssessment, BySource;
    var evidence := CollectObservations(obs);
    var seen: set<string> := {};
    ghost var names := StreamNames(streams);
    assessed := [];
    DistinctStart(names);
    for i := 0 to |streams|
      invariant seen == Elements(names[..i]) && Distinct(names[..i])
      invariant forall j :: 0 <= j < i ==> HeaderOk(evidence, streams[j]) && Performance.Acceptable(w, env, streams[j].items)
      invariant |assessed| == i && forall j :: 0 <= j < i ==> assessed[j] == PerfAssessment(w, env, streams[j].items)
    {
      var s := streams[i];
      var name := Trim(s.source);
      DistinctNext(names, i);
      if name == "" || Blank(s.digest) { return false, assessed; }
      if name in seen { return false, assessed; }
      seen := seen + {name};
      if name !in evidence || evidence[name].evidenceDigest != s.digest { return false, assessed; }
      var a := AssessSamples(w, env, s.items);
      if a == None { return false, assessed; }
      assessed := assessed + [a.value];
    }
    assert names[..|streams|] == names;
    ok := true;
  }

  /** The performance checks of `ReconcilePerformanceExecution`. */
  method PerformExecution(base: Disposition, metering: bool, w: Window, env: Performance.Envelope,
                          obs: seq<Observation>, streams: seq<Stream<Performance.Sample>>) returns (d: Disposition, established: bool)
    ensures established <==> base == Settled && metering && Performed(w, env, obs, streams)
    ensures d == if base != Settled then base else if established then PerfDisposition(w, env, streams) else Unknown
  {
    hide StreamsBound, SamplesAccepted, PerfAssessment, EnvelopeValid;
    if base != Settled { return base, false; }
    d, established := Unknown, false;
    if !metering || !EnvelopeValid(env) { return; }
    if |streams| < 2 {
      TooFew(obs, streams);
      return;
    }
    var ok, assessed := AssessPerformance(w, env, obs, streams);
    if !ok { return; }
    established := true;
    var compliant := CountCompliant(assessed);
    if compliant == |assessed| { return Settled, true; }
    if compliant > 0 {
      return Disputed, true;
    }
    assert NoneCompliant(w, env, streams);
    var agrees := DegradationAgrees(assessed);
    d := if agrees then CreditDue else Disputed;
  }

  method CountCompliant(assessed: seq<Performance.Assessment>) returns (n: nat)
    ensures n <= |assessed|
    ensures n == |assessed| <==> forall i :: 0 <= i < |assessed| ==> assessed[i].compliant
    ensures n == 0 <==> forall i :: 0 <= i < |assessed| ==> !assessed[i].compliant
  {
    n := 0;
    for i := 0 to |assessed|
      invariant n <= i
      invariant n == i <==> forall j :: 0 <= j < i ==> assessed[j].compliant
      invariant n == 0 <==> forall j :: 0 <= j < i ==> !assessed[j].compliant
    {
      if assessed[i].compliant { n := n + 1; }
    }
  }

  /** `performanceDegradationAgrees` */
  method DegradationAgrees(assessed: seq<Performance.Assessment>) returns (same: bool)
    requires assessed != []
    ensures same <==> forall i :: 0 <= i < |assessed| ==> assessed[i].below == assessed[0].below
  {
    for i := 1 to |assessed|
      invariant forall j :: 0 <= j < i ==> assessed[j].below == assessed[0].below
    {
      if assessed[i].below != assessed[0].below { return false; }
    }
    same := true;
  }

  /******* Lists indexed by a name *******/

  predicate IndexedBy<T(==)>(m: map<string, T>, keys: seq<string>, items: seq<T>) {
    |keys| == |items| && m.Keys == Elements(keys) &&
    forall i :: 0 <= i < |keys| ==> keys[i] in m && m[keys[i]] == items[i]
  }

  /** A map filled in a loop that stops at the first repeated key. */
  method CollectIndex<T(==)>(keys: seq<string>, items: seq<T>) returns (ok: bool, m: map<string, T>)
    requires |keys| == |items|
    ensures ok <==> Distinct(keys)
    ensures ok ==> IndexedBy(m, keys, items)
  {
    hide Distinct;
    m := map[];
    DistinctStart(keys);
    for i := 0 to |keys|
      invariant Distinct(keys[..i]) && IndexedBy(m, keys[..i], items[..i])
    {
      DistinctNext(keys, i);
      if keys[i] in m { return false, m; }
      IndexedNext(m, keys, items, i);
      m := m[keys[i] := items[i]];
    }
    assert keys[..|keys|] == keys && items[..|keys|] == items;
    ok := true;
  }

  lemma IndexedNext<T>(m: map<string, T>, keys: seq<string>, items: seq<T>, i: nat)
    requires |keys| == |items| && i < |keys| && IndexedBy(m, keys[..i], items[..i]) && keys[i] !in m
    ensures IndexedBy(m[keys[i] := items[i]], keys[..i + 1], items[..i + 1])
  {
    var a, b := keys[..i], items[..i];
    assert keys[..i + 1] == a + [keys[i]] && items[..i + 1] == b + [items[i]];
    assert forall j :: 0 <= j < i ==> a[j] in m && m[a[j]] == b[j];
  }

  lemma IndexedLookup<T>(m: map<string, T>, keys: seq<string>, items: seq<T>, j: nat)
    requires IndexedBy(m, keys, items) && j < |keys|
    ensures keys[j] in m && m[keys[j]] == items[j]
  {
  }

  lemma IndexedPosition<T>(m: map<string, T>, keys: seq<string>, items: seq<T>, k: string) returns (j: nat)
    requires IndexedBy(m, keys, items) && k in m
    ensures j < |keys| && keys[j] == k && m[k] == items[j]
  {
    assert k in Elements(keys);
    j :| 0 <= j < |keys| && keys[j] == k;
  }

  /******* Layer 6: workload binding *******/

  predicate ProfileComplete(p: Profile) {
    !Blank(p.workloadId) && !Blank(p.workloadDigest) && !Blank(p.artifactDigest) && !Blank(p.benchmarkDigest) &&
    !Blank(p.runtimeDigest) && !Blank(p.inputDigest)
  }

  predicate MeasurementValid(a: Measurement) {
    a.version == "aegis.compute/workload-measurement-attestation/v0" && !Blank(a.attestationId) && !Blank(a.source) &&
    !Blank(a.evidenceDigest) && !Blank(a.subject) && !Blank(a.leaseId) && !Blank(a.receiptId) &&
    !Blank(a.contractDigest) && !Blank(a.profileDigest) && !Blank(a.metric) && !Blank(a.unit) &&
    a.startedAt != ZERO_TIME && a.finishedAt != ZERO_TIME && a.measuredAt != ZERO_TIME &&
    a.startedAt < a.finishedAt <= a.measuredAt
  }

  /** A signed measurement of exactly this execution, workload, metric and evidence. */
  predicate MeasurementBinds(o: Oracle, l: Lease, r: Receipt, env: Performance.Envelope, profile: Profile,
                             s: Signed<Measurement>, streamDigest: string) {
    var a := s.body;
    SignaturePresent(s) && MeasurementValid(a) && o.measurementGenuine(Trim(a.source), s) &&
    a.subject == l.subject && a.leaseId == l.leaseId && a.receiptId == r.receiptId && a.contractDigest == l.contractDigest &&
    a.profileDigest == o.profileDigest(profile) && a.evidenceDigest == streamDigest &&
    a.metric == env.metric && a.unit == env.unit &&
    a.startedAt == r.startedAt && a.finishedAt == r.finishedAt && a.measuredAt >= r.finishedAt
  }

  function RawSources<T>(streams: seq<Stream<T>>): seq<string> {
    seq(|streams|, i requires 0 <= i < |streams| => streams[i].source)
  }

  function MeasuredSources(ms: seq<Signed<Measurement>>): seq<string> {
    seq(|ms|, i requires 0 <= i < |ms| => Trim(ms[i].body.source))
  }

  predicate StreamMeasured(o: Oracle, l: Lease, r: Receipt, env: Performance.Envelope, profile: Profile,
                           streams: seq<Stream<Performance.Sample>>, s: Signed<Measurement>) {
    Trim(s.body.source) != "" &&
    exists j :: 0 <= j < |streams| && streams[j].source == Trim(s.body.source) &&
                MeasurementBinds(o, l, r, env, profile, s, streams[j].digest)
  }

  /** Every performance stream has its own measurement of the contracted workload. */
  ghost predicate WorkloadBound(o: Oracle, l: Lease, r: Receipt, env: Performance.Envelope, profile: Profile,
                                streams: seq<Stream<Performance.Sample>>, ms: seq<Signed<Measurement>>) {
    ProfileComplete(profile) && |ms| == |streams| && Distinct(RawSources(streams)) && Distinct(MeasuredSources(ms)) &&
    forall i :: 0 <= i < |ms| ==> StreamMeasured(o, l, r, env, profile, streams, ms[i])
  }

  /** The workload checks of `ReconcileWorkloadBoundPerformance`. */
  method BindWorkload(base: Disposition, performance: bool, o: Oracle, l: Lease, r: Receipt, env: Performance.Envelope,
                      profile: Profile, streams: seq<Stream<Performance.Sample>>, ms: seq<Signed<Measurement>>)
    returns (d: Disposition, established: bool)
    ensures established <==> performance && WorkloadBound(o, l, r, env, profile, streams, ms)
    ensures d == if performance && !established then Unknown else base
  {
    hide Trim, Blank, Distinct, MeasurementBinds, ProfileComplete;
    if !performance { return base, false; }
    d, established := Unknown, false;
    if !ProfileComplete(profile) || |ms| != |streams| { return; }
    ghost var keys := RawSources(streams);
    var ok, bySource := CollectIndex(RawSources(streams), streams);
    if !ok { return; }
    var seen: set<string> := {};
    ghost var names := MeasuredSources(ms);
    DistinctStart(names);
    for i := 0 to |ms|
      invariant seen == Elements(names[..i]) && Distinct(names[..i])
      invariant forall k :: 0 <= k < i ==> StreamMeasured(o, l, r, env, profile, streams, ms[k])
    {
      var source := Trim(ms[i].body.source);
      DistinctNext(names, i);
      MeasuredThroughIndex(o, l, r, env, profile, streams, bySource, ms[i]);
      if source == "" || source in seen { return; }
      seen := seen + {source};
      if source !in bySource { return; }
      if !MeasurementBinds(o, l, r, env, profile, ms[i], bySource[source].digest) { return; }
    }
    assert names[..|ms|] == names;
    d, established := base, true;
  }

  lemma MeasuredThroughIndex(o: Oracle, l: Lease, r: Receipt, env: Performance.Envelope, profile: Profile,
                             streams: seq<Stream<Performance.Sample>>, bySource: map<string, Stream<Performance.Sample>>,
                             s: Signed<Measurement>)
    requires IndexedBy(bySource, RawSources(streams), streams)
    ensures StreamMeasured(o, l, r, env, profile, streams, s) <==>
            Trim(s.body.source) != "" && Trim(s.body.source) in bySource &&
            MeasurementBinds(o, l, r, env, profile, s, bySource[Trim(s.body.source)].digest)
  {
    hide Trim, MeasurementBinds, IndexedBy;
    var source, keys := Trim(s.body.source), RawSources(streams);
    if source in bySource {
      var j := IndexedPosition(bySource, keys, streams, source);
      assert streams[j].source == source;
    }
    if j :| 0 <= j < |streams| && streams[j].source == source && MeasurementBinds(o, l, r, env, profile, s, streams[j].digest) {
      IndexedLookup(bySource, keys, streams, j);
    }
  }

  /******* Layer 7: execution root *******/

  predicate RootComplete(t: Root) {
    !Blank(t.activationDigest) && !Blank(t.processDigest) && !Blank(t.cgroupDigest) && !Blank(t.bootDigest)
  }

  predicate ProvenanceVerified(o: Oracle, s: Signed<Provenance>) {
    var p := s.body;
    SignaturePresent(s) && p.version == "aegis.compute/workload-execution-provenance/v0" && !Blank(p.provenanceId) &&
    !Blank(p.subject) && !Blank(p.leaseId) && !Blank(p.receiptId) && !Blank(p.contractDigest) && !Blank(p.profileDigest) &&
    !Blank(p.artifactDigest) && RootComplete(p.root) && !Blank(p.hardwareDigest) && p.observedAt != ZERO_TIME &&
    o.provenanceGenuine(s)
  }

  /** The provenance names this execution, workload, root and hardware. */
  predicate ProvenanceBinds(o: Oracle, l: Lease, r: Receipt, completion: Signed<Hardware>, profile: Profile, root: Root, p: Provenance) {
    p.subject == l.subject && p.leaseId == l.leaseId && p.receiptId == r.receiptId && p.contractDigest == l.contractDigest &&
    p.profileDigest == o.profileDigest(profile) && p.artifactDigest == profile.artifactDigest && p.root == root &&
    p.hardwareDigest == o.hardwareDigest(completion) && r.startedAt <= p.observedAt <= r.finishedAt
  }

  predicate BindingVerified(o: Oracle, s: Signed<Binding>) {
    var b := s.body;
    SignaturePresent(s) && b.version == "aegis.compute/measurement-execution-binding/v0" && !Blank(b.bindingId) &&
    !Blank(b.source) && !Blank(b.measurementDigest) && !Blank(b.provenanceDigest) && !Blank(b.evidenceDigest) &&
    !Blank(b.leaseId) && !Blank(b.receiptId) && b.boundAt != ZERO_TIME && o.bindingGenuine(s)
  }

  predicate BindingTies(o: Oracle, l: Lease, r: Receipt, prov: Signed<Provenance>, b: Binding, m: Signed<Measurement>) {
    b.measurementDigest == o.measurementDigest(m) && b.provenanceDigest == o.provenanceDigest(prov) &&
    b.evidenceDigest == m.body.evidenceDigest && b.leaseId == l.leaseId && b.receiptId == r.receiptId &&
    b.boundAt >= prov.body.observedAt
  }

  function BoundSources(bs: seq<Signed<Binding>>): seq<string> {
    seq(|bs|, i requires 0 <= i < |bs| => Trim(bs[i].body.source))
  }

  predicate MeasurementRooted(o: Oracle, l: Lease, r: Receipt, prov: Signed<Provenance>, ms: seq<Signed<Measurement>>, s: Signed<Binding>) {
    BindingVerified(o, s) &&
    exists j :: 0 <= j < |ms| && Trim(ms[j].body.source) == Trim(s.body.source) && BindingTies(o, l, r, prov, s.body, ms[j])
  }

  predicate NamedMeasurements(ms: seq<Signed<Measurement>>) {
    forall i :: 0 <= i < |ms| ==> Trim(ms[i].body.source) != ""
  }

  /** Every measurement is bound by the provenance authority to one trusted execution. */
  ghost predicate Rooted(o: Oracle, l: Lease, r: Receipt, completion: Signed<Hardware>, profile: Profile, root: Root,
                         prov: Signed<Provenance>, ms: seq<Signed<Measurement>>, bs: seq<Signed<Binding>>) {
    RootComplete(root) && ProvenanceVerified(o, prov) && ProvenanceBinds(o, l, r, completion, profile, root, prov.body) &&
    NamedMeasurements(ms) && Distinct(MeasuredSources(ms)) && |bs| == |ms| && Distinct(BoundSources(bs)) &&
    forall i :: 0 <= i < |bs| ==> MeasurementRooted(o, l, r, prov, ms, bs[i])
  }

  /** The provenance checks of `ReconcileWorkloadRootedPerformance`. */
  method RootExecution(base: Disposition, workload: bool, o: Oracle, l: Lease, r: Receipt, completion: Signed<Hardware>,
                       profile: Profile, root: Root, prov: Signed<Provenance>, ms: seq<Signed<Measurement>>,
                       bs: seq<Signed<Binding>>) returns (d: Disposition, established: bool)
    ensures established <==> workload && Rooted(o, l, r, completion, profile, root, prov, ms, bs)
    ensures d == if workload && !established then Unknown else base
  {
    hide Trim, Distinct, RootComplete, ProvenanceVerified, ProvenanceBinds, BindingVerified, BindingTies, NamedMeasurements;
    if !workload { return base, false; }
    d, established := Unknown, false;
    if !RootComplete(root) || !ProvenanceVerified(o, prov) { return; }
    if !ProvenanceBinds(o, l, r, completion, profile, root, prov.body) { return; }
    var named := CheckNamed(ms);
    if !named { return; }
    var ok, bySource := CollectIndex(MeasuredSources(ms), ms);
    if !ok || |bs| != |ms| { return; }
    var seen: set<string> := {};
    ghost var names := BoundSources(bs);
    DistinctStart(names);
    for i := 0 to |bs|
      invariant seen == Elements(names[..i]) && Distinct(names[..i])
      invariant forall k :: 0 <= k < i ==> MeasurementRooted(o, l, r, prov, ms, bs[k])
    {
      DistinctNext(names, i);
      RootedThroughIndex(o, l, r, prov, ms, bySource, bs[i]);
      if !BindingVerified(o, bs[i]) { return; }
      var source := Trim(bs[i].body.source);
      if source in seen { return; }
      seen := seen + {source};
      if source !in bySource { return; }
      if !BindingTies(o, l, r, prov, bs[i].body, bySource[source]) { return; }
    }
    assert names[..|bs|] == names;
    d, established := base, true;
  }

  method CheckNamed(ms: seq<Signed<Measurement>>) returns (ok: bool)
    ensures ok <==> NamedMeasurements(ms)
  {
    hide Trim;
    for i := 0 to |ms|
      invariant forall j :: 0 <= j < i ==> Trim(ms[j].body.source) != ""
    {
      if Trim(ms[i].body.source) == "" { return false; }
    }
    ok := true;
  }

  lemma RootedThroughIndex(o: Oracle, l: Lease, r: Receipt, prov: Signed<Provenance>, ms: seq<Signed<Measurement>>,
                           bySource: map<string, Signed<Measurement>>, s: Signed<Binding>)
    requires IndexedBy(bySource, MeasuredSources(ms), ms)
    ensures MeasurementRooted(o, l, r, prov, ms, s) <==>
            BindingVerified(o, s) && Trim(s.body.source) in bySource &&
            BindingTies(o, l, r, prov, s.body, bySource[Trim(s.body.source)])
  {
    hide Trim, BindingVerified, BindingTies, IndexedBy;
    var source, keys := Trim(s.body.source), MeasuredSources(ms);
    if source in bySource {
      var j := IndexedPosition(bySource, keys, ms, source);
      assert Trim(ms[j].body.source) == source;
    }
    if j :| 0 <= j < |ms| && Trim(ms[j].body.source) == source && BindingTies(o, l, r, prov, s.body, ms[j]) {
      IndexedLookup(bySource, keys, ms, j);
    }
  }

  /******* The whole ladder *******/

  datatype Case = Case(
    contract: Facts, obs: seq<Observation>, sources: seq<Source>, subject: string, independent: bool,
    lease: Lease, receipt: Receipt, admission: Signed<Hardware>, completion: Signed<Hardware>, policy: HardwarePolicy,
    requirement: Metering.Requirement, meterGap: duration, meters: seq<Stream<Metering.Slice>>,
    envelope: Performance.Envelope, performance: seq<Stream<Performance.Sample>>,
    profile: Profile, measurements: seq<Signed<Measurement>>,
    root: Root, provenance: Signed<Provenance>, bindings: seq<Signed<Binding>>) {

    function MeterWindow(): Window {
      Window(lease.startsAt, lease.endsAt, receipt.startedAt, receipt.finishedAt, meterGap)
    }

    function PerfWindow(): Window {
      Window(lease.startsAt, lease.endsAt, receipt.startedAt, receipt.finishedAt, envelope.maxGap)
    }

    ghost predicate FactsHold() { EvidenceBound(obs, sources, subject) && independent && AllMatch(contract, obs) }

    ghost predicate HardwareHolds(o: Oracle) { Continuous(o, lease, receipt, admission, completion, policy) }

    ghost predicate MeteringHolds() { Metered(MeterWindow(), requirement, obs, meters) }

    ghost predicate PerformanceHolds() { Performed(PerfWindow(), envelope, obs, performance) }

    ghost predicate WorkloadHolds(o: Oracle) {
      WorkloadBound(o, lease, receipt, envelope, profile, performance, measurements)
    }

    ghost predicate RootHolds(o: Oracle) {
      Rooted(o, lease, receipt, completion, profile, root, provenance, measurements, bindings)
    }

    /** Facts, hardware and metering are all established, so meters and samples count. */
    ghost predicate Delivered(o: Oracle) { FactsHold() && HardwareHolds(o) && MeteringHolds() }

    /** Every layer is established, every observation matches the contract, every meter
        shows the expected total, and every performance stream complies. */
    ghost predicate FullySettled(o: Oracle) {
      Delivered(o) && EveryTotal(MeterWindow(), requirement, meters, requirement.expected) &&
      PerformanceHolds() && AllCompliant(PerfWindow(), envelope, performance) && WorkloadHolds(o) && RootHolds(o)
    }

    /** Facts, hardware and metering hold, and either the meters give `x`, or they show the
        contracted total and fully bound performance evidence gives `x`. */
    ghost predicate Gives(o: Oracle, x: Disposition) {
      Delivered(o) &&
      (MeterDisposition(MeterWindow(), requirement, meters) == x ||
       (EveryTotal(MeterWindow(), requirement, meters, requirement.expected) && PerformanceHolds() &&
        PerfDisposition(PerfWindow(), envelope, performance) == x && WorkloadHolds(o) && RootHolds(o)))
    }

    /** The disposition of the case, in terms of what holds of it. */
    ghost function Final(o: Oracle): Disposition {
      if FullySettled(o) then Settled
      else if Gives(o, CreditDue) then CreditDue
      else if Gives(o, Disputed) then Disputed
      else Unknown
    }
  }

  predicate Descends(trail: seq<Disposition>) {
    forall i :: 0 < i < |trail| ==> Downgrades(trail[i - 1], trail[i])
  }

  lemma FactsDecided(contract: Facts, obs: seq<Observation>) returns (d: Disposition)
    ensures Reconciles(contract, obs, d)
  {
    hide AllMatch, AllDiverge, AllSame, Judgeable;
    d := if AllMatch(contract, obs) then Settled
         else if AllDiverge(contract, obs) && AllSame(obs) then CreditDue
         else if obs != [] && Judgeable(contract, obs) then Disputed
         else Unknown;
  }

  /** `ReconcileWorkloadRootedPerformance`, the top of the ladder.  Each of its seven
      layers keeps the disposition, makes it UNKNOWN, or turns SETTLED into CREDIT_DUE
      or DISPUTED; SETTLED at the top means that everything below it holds. */
  method SettleCase(o: Oracle, c: Case) returns (d: Disposition, ghost trail: seq<Disposition>)
    ensures |trail| == 7 && Descends(trail) && trail[6] == d && Reconciles(c.contract, c.obs, trail[0])
    ensures d == Settled <==> c.FullySettled(o)
    ensures d == CreditDue <==> c.Gives(o, CreditDue)
    ensures d == Disputed <==> c.Gives(o, Disputed)
    ensures d == c.Final(o)
  {
    hide Reconciles, EvidenceBound, AllMatch, Continuous, Metered, MeterDisposition, Performed, PerfDisposition, WorkloadBound, Rooted,
      EveryTotal, AllCompliant;
    ghost var facts := FactsDecided(c.contract, c.obs);
    var evidence := ReconcileWithEvidence(c.contract, c.obs, c.sources, c.subject, c.independent);
    SettledFacts(c.contract, c.obs, facts, evidence);
    var attested, hardware := AttestExecution(evidence, o, c.lease, c.receipt, c.admission, c.completion, c.policy);
    var metered, metering := MeterExecution(attested, hardware, c.MeterWindow(), c.requirement, c.obs, c.meters);
    var performed, performance := PerformExecution(metered, metering, c.PerfWindow(), c.envelope, c.obs, c.performance);
    var bound, workload := BindWorkload(performed, performance, o, c.lease, c.receipt, c.envelope, c.profile, c.performance, c.measurements);
    var rooted;
    d, rooted := RootExecution(bound, workload, o, c.lease, c.receipt, c.completion, c.profile, c.root, c.provenance, c.measurements, c.bindings);
    if metering { MeterSettled(c.MeterWindow(), c.requirement, c.obs, c.meters); }
    if performance { PerfSettled(c.PerfWindow(), c.envelope, c.obs, c.performance); }
    trail := [facts, evidence, attested, metered, performed, bound, d];
  }

  /** The facts decide one disposition, and SETTLED is decided by matching alone. */
  lemma SettledFacts(contract: Facts, obs: seq<Observation>, facts: Disposition, evidence: Disposition)
    requires Reconciles(contract, obs, facts)
    ensures Reconciles(contract, obs, evidence) ==> evidence == facts
    ensures facts == Settled <==> AllMatch(contract, obs)
  {
    hide IsVerdict, AllAgree, FactsEqual, Reconciles;
    if Reconciles(contract, obs, evidence) { DispositionUnique(contract, obs, facts, evidence); }
    MatchingIsSettled(contract, obs, facts);
  }

  lemma MatchingIsSettled(contract: Facts, obs: seq<Observation>, d: Disposition)
    requires Reconciles(contract, obs, d)
    ensures d == Settled <==> AllMatch(contract, obs)
  {
    hide AllAgree, FirstFault, FactsEqual;
    if AllMatch(contract, obs) {
      var verdicts := seq(|obs|, i => Match);
      assert AllJudged(contract, obs, verdicts);
      MatchingDoesNotDiverge(contract, obs);
    }
  }

  lemma MatchingDoesNotDiverge(contract: Facts, obs: seq<Observation>)
    requires AllMatch(contract, obs)
    ensures !AllDiverge(contract, obs)
  {
    hide FirstFault;
    assert AllAgree(contract, obs[0].facts);
    if IsVerdict(contract, obs[0].facts, Diverged) { VerdictUnique(contract, obs[0].facts, Match, Diverged); }
  }

  lemma DispositionUnique(contract: Facts, obs: seq<Observation>, d: Disposition, e: Disposition)
    requires Reconciles(contract, obs, d) && Reconciles(contract, obs, e)
    ensures d == e
  {
    hide IsVerdict, AllAgree, FactsEqual;
    MatchingIsSettled(contract, obs, d);
    MatchingIsSettled(contract, obs, e);
    if AllDiverge(contract, obs) {
      var verdicts := seq(|obs|, i => Diverged);
      assert AllJudged(contract, obs, verdicts);
    }
  }

  lemma MeterSettled(w: Window, q: Metering.Requirement, obs: seq<Observation>, streams: seq<Stream<Metering.Slice>>)
    requires Metered(w, q, obs, streams)
    ensures |streams| >= 2 && MetersAccepted(w, q, streams)
    ensures MeterDisposition(w, q, streams) == Settled <==> EveryTotal(w, q, streams, q.expected)
    ensures Downgrades(Settled, MeterDisposition(w, q, streams))
  {
    hide MeterAssessment, Metering.Acceptable;
  }

  lemma PerfSettled(w: Window, env: Performance.Envelope, obs: seq<Observation>, streams: seq<Stream<Performance.Sample>>)
    requires Performed(w, env, obs, streams)
    ensures |streams| >= 2 && SamplesAccepted(w, env, streams)
    ensures PerfDisposition(w, env, streams) == Settled <==> AllCompliant(w, env, streams)
    ensures Downgrades(Settled, PerfDisposition(w, env, streams))
  {
    hide PerfAssessment, Performance.Acceptable;
  }

  /** Unless bound, independent observations all match, every disposition becomes UNKNOWN:
      metering keeps neither CREDIT_DUE nor DISPUTED of the facts. */
  lemma UnmatchedFactsEndUnknown(o: Oracle, c: Case)
    requires !c.FactsHold()
    ensures c.Final(o) == Unknown
  {
    hide EvidenceBound, AllMatch, Continuous, Metered, MeterDisposition, Performed, PerfDisposition, WorkloadBound, Rooted,
      EveryTotal, AllCompliant;
  }

  lemma CreditDueIsNoMatch(contract: Facts, obs: seq<Observation>)
    requires Reconciles(contract, obs, CreditDue)
    ensures !AllMatch(contract, obs)
  {
    hide IsVerdict, AllAgree, FactsEqual, Reconciles;
    MatchingIsSettled(contract, obs, CreditDue);
  }

  /** Two bound, independent sources that agree on the same shortfall of a contracted fact:
      the facts give CREDIT_DUE, the ladder UNKNOWN, whatever the other documents say. */
  lemma CreditDueBecomesUnknown(o: Oracle, rest: Case) returns (c: Case)
    ensures c == rest.(contract := c.contract, obs := c.obs, sources := c.sources, subject := c.subject, independent := true)
    ensures EvidenceBound(c.obs, c.sources, c.subject) && Reconciles(c.contract, c.obs, CreditDue)
    ensures c.Final(o) == Unknown
  {
    hide MeterDisposition, PerfDisposition;
    var short: Facts := map["gpus" := "7"];
    var obs := [Observation("a", "x", short, 1), Observation("b", "y", short, 1)];
    var sources := [Source("a", "x", 1, Some("s")), Source("b", "y", 1, Some("s"))];
    c := rest.(contract := map["gpus" := "8"], obs := obs, sources := sources, subject := "s", independent := true);
    ShortfallIsCredit(c.contract, short, obs);
    ShortfallIsBound(obs, sources);
    CreditDueIsNoMatch(c.contract, c.obs);
    UnmatchedFactsEndUnknown(o, c);
  }

  lemma ShortfallIsCredit(contract: Facts, short: Facts, obs: seq<Observation>)
    requires contract == map["gpus" := "8"] && short == map["gpus" := "7"]
    requires obs == [Observation("a", "x", short, 1), Observation("b", "y", short, 1)]
    ensures Reconciles(contract, obs, CreditDue)
  {
    assert "gpus" in contract && contract["gpus"][0] != short["gpus"][0];
    LessIrreflexive("gpus");
    assert FirstFault(contract, short, "gpus");
    assert IsVerdict(contract, short, Diverged);
  }

  lemma ShortfallIsBound(obs: seq<Observation>, sources: seq<Source>)
    requires |obs| == 2 && obs[0].source == "a" && obs[0].evidenceDigest == "x" && obs[1].source == "b" && obs[1].evidenceDigest == "y"
    requires obs[0].observedAt == obs[1].observedAt == 1
    requires sources == [Source("a", "x", 1, Some("s")), Source("b", "y", 1, Some("s"))]
    ensures EvidenceBound(obs, sources, "s")
  {
    TrimOne('a');
    TrimOne('b');
    TrimOne('s');
    TrimOne('x');
    TrimOne('y');
    hide Trim;
    assert Backs(sources[0], obs[0]) && Backs(sources[1], obs[1]);
    assert Names(sources)[0] == "a" && Names(sources)[1] == "b" && Reporters(obs)[0] == "a" && Reporters(obs)[1] == "b";
    assert "a"[0] != "b"[0];
  }

  lemma TrimOne(c: char)
    requires !IsSpace(c)
    ensures Trim([c]) == [c]
  {
  }
}
