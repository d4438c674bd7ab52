/** The evidence gate (internal/decision/evaluator.go, authorization.go,
    acquisition.go, reconciliation.go).  The epistemic layer is a fixed function of
    the request's snapshot: its evaluation is part of the request here. */
module EvidenceGate {
  import opened Text
  import opened Framing
  import opened Streams
  import opened EvidenceText

  datatype Decision = Allow | Block | Escalate

  datatype Reason =
    | EvidenceStale | EvidenceContradicted | InsufficientEvidence | BlastRadiusExceeded
    | InsufficientStateBinding | AssumptionExpired | AssumptionInvalidated | AssumptionValidityUnknown

  datatype Authorization = Authorization(actionId: string, action: string, target: string, resourceVersion: string,
                                         evidenceDigest: string, validUntil: int)

  datatype Result = Result(decision: Decision, reason: Option<Reason>, authorization: Option<Authorization>)

  /******* The epistemic gate *******/

  datatype Invalidation = StaleEvidence | AssumptionExpiry | DependencyInvalid | MissingEvidence | OtherInvalidation

  datatype Epistemic =
    | EvaluationFailed
    | Evaluated(valid: bool, degraded: bool, contradictory: bool, invalidations: set<Invalidation>)

  function Blocked(r: Reason): Result { Result(Block, Some(r), None) }

  function Escalated(r: Reason): Result { Result(Escalate, Some(r), None) }

  /** `evaluateEASL` */
  function GateOf(e: Epistemic): Option<Result> {
    if e.EvaluationFailed? then Some(Escalated(AssumptionValidityUnknown))
    else if e.valid then None
    else if e.contradictory then Some(Blocked(EvidenceContradicted))
    else if StaleEvidence in e.invalidations then Some(Blocked(EvidenceStale))
    else if AssumptionExpiry in e.invalidations then Some(Blocked(AssumptionExpired))
    else if DependencyInvalid in e.invalidations then Some(Blocked(AssumptionInvalidated))
    else if MissingEvidence in e.invalidations then Some(Escalated(InsufficientEvidence))
    else if e.degraded then Some(Escalated(EvidenceStale))
    else Some(Escalated(AssumptionValidityUnknown))
  }

  datatype Request = Request(actionId: string, action: string, target: string, resourceVersion: string,
                             requestedAt: int, ttl: duration, maxAge: duration, requiredSources: int,
                             blast: int, maxBlast: int, evidence: seq<Observation>, snapshot: Option<Epistemic>)

  function Gate(req: Request): Option<Result> {
    if req.snapshot == None then None else GateOf(req.snapshot.value)
  }

  /******* The decision *******/

  ghost predicate Stale(req: Request) {
    exists o :: o in req.evidence && Sub(req.requestedAt, o.observedAt) > req.maxAge
  }

  ghost predicate Contradicted(evidence: seq<Observation>) {
    exists o, p :: o in evidence && p in evidence && o.claim == p.claim && o.value != p.value
  }

  function SourceNames(evidence: seq<Observation>): set<string> {
    set o | o in evidence && o.source != "" :: o.source
  }

  predicate TooWide(req: Request) { req.maxBlast > 0 && req.blast > req.maxBlast }

  predicate TooFewSources(req: Request) {
    req.requiredSources > 0 && |SourceNames(req.evidence)| < req.requiredSources
  }

  predicate Bound(req: Request) {
    req.action != "" && req.target != "" && req.resourceVersion != "" && req.ttl > 0
  }

  function Grant(d: Hashing, req: Request): Authorization {
    Authorization(req.actionId, req.action, req.target, req.resourceVersion,
                  EvidenceDigest(d, req.evidence), req.requestedAt + req.ttl)
  }

  /** What the gate decides, as a property of the evidence and not of its order. */
  ghost function Decide(d: Hashing, req: Request): Result {
    if Gate(req).Some? then Gate(req).value
    else if Stale(req) then Blocked(EvidenceStale)
    else if Contradicted(req.evidence) then Blocked(EvidenceContradicted)
    else if TooWide(req) then Blocked(BlastRadiusExceeded)
    else if TooFewSources(req) then Escalated(InsufficientEvidence)
    else if !Bound(req) then Escalated(InsufficientStateBinding)
    else Result(Allow, None, Some(Grant(d, req)))
  }

  /** `Evaluate` */
  method Evaluate(d: Hashing, req: Request) returns (r: Result)
    ensures r == Decide(d, req)
  {
    hide GateOf, EvidenceDigest;
    if req.snapshot.Some? && GateOf(req.snapshot.value).Some? { return GateOf(req.snapshot.value).value; }
    var stale := AnyStale(req);
    if stale { return Blocked(EvidenceStale); }
    var contradicted := AnyContradiction(req.evidence);
    if contradicted { return Blocked(EvidenceContradicted); }
    if req.maxBlast > 0 && req.blast > req.maxBlast { return Blocked(BlastRadiusExceeded); }
    if req.requiredSources > 0 {
      var n := CountSources(req.evidence);
      if n < req.requiredSources { return Escalated(InsufficientEvidence); }
    }
    if req.action == "" || req.target == "" || req.resourceVersion == "" || req.ttl <= 0 {
      return Escalated(InsufficientStateBinding);
    }
    var digest := DigestEvidence(d, req.evidence);
    r := Result(Allow, None, Some(Authorization(req.actionId, req.action, req.target, req.resourceVersion,
                                                digest, req.requestedAt + req.ttl)));
  }

  method AnyStale(req: Request) returns (stale: bool)
    ensures stale <==> Stale(req)
  {
    for i := 0 to |req.evidence|
      invariant forall j :: 0 <= j < i ==> Sub(req.requestedAt, req.evidence[j].observedAt) <= req.maxAge
    {
      if Sub(req.requestedAt, req.evidence[i].observedAt) > req.maxAge { return true; }
    }
    stale := false;
  }

  /** The first value of each claim is the one every other must equal. */
  method AnyContradiction(evidence: seq<Observation>) returns (contradicted: bool)
    ensures contradicted <==> Contradicted(evidence)
  {
    var values: map<string, string> := map[];
    for i := 0 to |evidence|
      invariant forall j :: 0 <= j < i ==> evidence[j].claim in values && values[evidence[j].claim] == evidence[j].value
      invariant forall c :: c in values ==> exists j :: 0 <= j < i && evidence[j].claim == c && evidence[j].value == values[c]
    {
      var o := evidence[i];
      if o.claim !in values {
        values := values[o.claim := o.value];
      } else if values[o.claim] != o.value {
        var j :| 0 <= j < i && evidence[j].claim == o.claim && evidence[j].value == values[o.claim];
        assert evidence[j] in evidence && o in evidence;
        return true;
      }
    }
    contradicted := false;
  }

  method CountSources(evidence: seq<Observation>) returns (n: nat)
    ensures n == |SourceNames(evidence)|
  {
    var sources: set<string> := {};
    for i := 0 to |evidence|
      invariant sources == SourceNames(evidence[..i])
    {
      assert evidence[..i + 1] == evidence[..i] + [evidence[i]];
      if evidence[i].source != "" { sources := sources + {evidence[i].source}; }
    }
    assert evidence[..|evidence|] == evidence;
    n := |sources|;
  }

  /** Reordering the evidence changes nothing, not even the authorization. */
  lemma DecidePermutation(d: Hashing, req: Request, evidence: seq<Observation>)
    requires multiset(evidence) == multiset(req.evidence)
    ensures Decide(d, req.(evidence := evidence)) == Decide(d, req)
  {
    hide GateOf, EvidenceDigest;
    assert forall o :: o in evidence <==> o in req.evidence by {
      assert forall o :: o in evidence <==> o in multiset(evidence);
      assert forall o :: o in req.evidence <==> o in multiset(req.evidence);
    }
    assert SourceNames(evidence) == SourceNames(req.evidence);
    DigestPermutation(d, evidence, req.evidence);
  }

  /** A later request that keeps the old evidence and only moves the clock forward. */
  ghost predicate Extends(before: Request, now: Request) {
    before.evidence <= now.evidence && before.requestedAt <= now.requestedAt &&
    now == before.(evidence := now.evidence, requestedAt := now.requestedAt, resourceVersion := now.resourceVersion)
  }

  /** Stale or contradictory evidence is never cured by more observations, a newer
      resource version or a later clock. */
  lemma NeverCured(d: Hashing, req: Request, later: Request)
    requires Extends(req, later) && (Stale(req) || Contradicted(req.evidence))
    ensures Decide(d, later).decision != Allow
  {
    hide EvidenceDigest;
    if Stale(req) {
      var o :| o in req.evidence && Sub(req.requestedAt, o.observedAt) > req.maxAge;
      assert o in later.evidence;
    } else {
      var o, p :| o in req.evidence && p in req.evidence && o.claim == p.claim && o.value != p.value;
      assert o in later.evidence && p in later.evidence;
    }
  }

  /** An allowed request stays within every bound the gate knows. */
  lemma AllowMeans(d: Hashing, req: Request)
    ensures Decide(d, req).decision == Allow <==>
      Gate(req) == None && !Stale(req) && !Contradicted(req.evidence) && !TooWide(req) && !TooFewSources(req) && Bound(req)
  {
    hide EvidenceDigest;
  }

  /******* What a decision says of the request *******/

  /** There is no snapshot, or its evaluation succeeded and found it valid. */
  predicate SnapshotHolds(req: Request) {
    req.snapshot == None || (req.snapshot.value.Evaluated? && req.snapshot.value.valid)
  }

  /** A snapshot found invalid for a reason that more evidence does not repair. */
  predicate Refuted(e: Epistemic) {
    e.Evaluated? && !e.valid &&
    (e.contradictory || StaleEvidence in e.invalidations || AssumptionExpiry in e.invalidations || DependencyInvalid in e.invalidations)
  }

  /** ALLOW exactly if the snapshot holds, no observation is too old, no two contradict each
      other, the blast radius and the source count are within bounds, and the state is bound. */
  lemma AllowExactly(d: Hashing, req: Request)
    ensures Decide(d, req).decision == Allow <==>
      SnapshotHolds(req) &&
      (forall o :: o in req.evidence ==> req.requestedAt - o.observedAt <= req.maxAge || req.maxAge == MAX_INT64) &&
      (forall o, p :: o in req.evidence && p in req.evidence && o.claim == p.claim ==> o.value == p.value) &&
      (req.maxBlast <= 0 || req.blast <= req.maxBlast) &&
      (req.requiredSources <= 0 || |SourceNames(req.evidence)| >= req.requiredSources) &&
      req.action != "" && req.target != "" && req.resourceVersion != "" && req.ttl > 0
  {
    hide EvidenceDigest, SourceNames;
    AllowMeans(d, req);
  }

  /** A failed or invalid evaluation decides by itself, whatever the evidence: it blocks exactly
      if the snapshot is refuted, and otherwise escalates. */
  lemma SnapshotDecides(d: Hashing, req: Request, evidence: seq<Observation>)
    requires !SnapshotHolds(req)
    ensures Decide(d, req.(evidence := evidence)) == Decide(d, req) && Decide(d, req).authorization == None
    ensures Decide(d, req).decision == if Refuted(req.snapshot.value) then Block else Escalate
    ensures NeedsEvidence(Decide(d, req)) <==>
              var e := req.snapshot.value; e.Evaluated? && !Refuted(e) && MissingEvidence in e.invalidations
    ensures IsContradicted(Decide(d, req)) <==> req.snapshot.value.Evaluated? && req.snapshot.value.contradictory
  {
    hide EvidenceDigest;
  }

  /** With a snapshot that holds, the first thing that is wrong is the reason. */
  lemma ReasonExactly(d: Hashing, req: Request)
    requires SnapshotHolds(req)
    ensures var r := Decide(d, req);
      if exists o :: o in req.evidence && req.requestedAt - o.observedAt > req.maxAge && req.maxAge != MAX_INT64
      then r == Result(Block, Some(EvidenceStale), None)
      else if exists o, p :: o in req.evidence && p in req.evidence && o.claim == p.claim && o.value != p.value
      then r == Result(Block, Some(EvidenceContradicted), None)
      else if 0 < req.maxBlast < req.blast then r == Result(Block, Some(BlastRadiusExceeded), None)
      else if |SourceNames(req.evidence)| < req.requiredSources then r == Result(Escalate, Some(InsufficientEvidence), None)
      else if req.action == "" || req.target == "" || req.resourceVersion == "" || req.ttl <= 0
      then r == Result(Escalate, Some(InsufficientStateBinding), None)
      else r.decision == Allow && r.reason == None
  {
    hide EvidenceDigest, SourceNames;
    assert Stale(req) <==> exists o :: o in req.evidence && req.requestedAt - o.observedAt > req.maxAge && req.maxAge != MAX_INT64;
  }

  /** Only an allowed request is authorized: for exactly its own action, target and version, on
      its evidence, for its time to live from the request on. */
  lemma AuthorizationExactly(d: Hashing, req: Request, a: Authorization)
    ensures Decide(d, req).authorization == Some(a) <==>
      Decide(d, req).decision == Allow && a.evidenceDigest == EvidenceDigest(d, req.evidence) &&
      a == Authorization(req.actionId, req.action, req.target, req.resourceVersion, a.evidenceDigest, a.validUntil) &&
      a.validUntil - req.requestedAt == req.ttl
  {
    hide EvidenceDigest;
  }

  /** One authorization serves requests for one action on one version only, on the same plain
      evidence, unless the hash collides on the two texts. */
  lemma AuthorizationBinds(d: Hashing, p: Request, q: Request)
    requires Decide(d, p).authorization.Some? && Decide(d, p).authorization == Decide(d, q).authorization
    requires StampsApart(d) && AllPlain(p.evidence) && AllPlain(q.evidence)
    ensures p.actionId == q.actionId && p.action == q.action && p.target == q.target && p.resourceVersion == q.resourceVersion
    ensures p.requestedAt + p.ttl == q.requestedAt + q.ttl
    ensures multiset(p.evidence) == multiset(q.evidence) || Collide(d.h, EvidenceBytes(d, p.evidence), EvidenceBytes(d, q.evidence))
  {
    hide Decide, EvidenceDigest, EvidenceBytes, StampsApart, AllPlain;
    var a := Decide(d, p).authorization.value;
    AuthorizationExactly(d, p, a);
    AuthorizationExactly(d, q, a);
    DigestBindsEvidence(d, p.evidence, q.evidence);
  }

  /******* Acquiring evidence *******/

  datatype Outcome = Outcome(evidence: seq<Observation>, resourceVersion: string)

  /** What `Acquire` returns: an error, with the state of the context, or an answer. */
  datatype Reply = Failed(cancelled: bool) | Answered(outcome: Outcome)

  /** A probe is called at most once in a loop, so its behaviour is a function of the request. */
  datatype Probe = Probe(name: string, readOnly: bool, supports: (Request, Result) -> bool, acquire: Request -> Reply)

  /** `validateProbeOutcome` */
  predicate ValidOutcome(o: Outcome) {
    forall i :: 0 <= i < |o.evidence| ==> o.evidence[i].claim != "" && o.evidence[i].source != "" && o.evidence[i].observedAt != ZERO_TIME
  }

  predicate Useful(o: Outcome) { ValidOutcome(o) && (o.evidence != [] || o.resourceVersion != "") }

  predicate NeedsEvidence(r: Result) { r.decision == Escalate && r.reason == Some(InsufficientEvidence) }

  predicate IsContradicted(r: Result) { r.decision == Block && r.reason == Some(EvidenceContradicted) }

  /** When each loop is satisfied with what it has. */
  predicate Resolved(r: Result) { !NeedsEvidence(r) }

  predicate Reconciled(r: Result) { r.decision == Allow || r.decision == Block }

  /** What one probe did at its turn: it was not asked, it was asked in vain, or its
      answer was taken. */
  datatype Turn = Passed | Refused(cancelled: bool) | Took(outcome: Outcome)

  function TurnOf(p: Option<Probe>, r: Request, now: Result): Turn {
    if p.None? || !p.value.readOnly || !p.value.supports(r, now) then Passed
    else match p.value.acquire(r)
      case Failed(cancelled) => Refused(cancelled)
      case Answered(o) => if Useful(o) then Took(o) else Refused(false)
  }

  /** An answer is taken exactly from a read-only probe that supports the request, if it brings
      observations or a version, and every observation is named, attributed and dated. */
  lemma TakenExactly(p: Option<Probe>, r: Request, now: Result, o: Outcome)
    ensures TurnOf(p, r, now) == Took(o) <==>
      p.Some? && p.value.readOnly && p.value.supports(r, now) && p.value.acquire(r) == Answered(o) &&
      (o.evidence != [] || o.resourceVersion != "") &&
      forall x :: x in o.evidence ==> x.claim != "" && x.source != "" && x.observedAt != ZERO_TIME
    ensures TurnOf(p, r, now) == Passed <==> p == None || !p.value.readOnly || !p.value.supports(r, now)
  {
    if forall x :: x in o.evidence ==> x.claim != "" && x.source != "" && x.observedAt != ZERO_TIME {
      assert forall i :: 0 <= i < |o.evidence| ==> o.evidence[i] in o.evidence;
    }
  }

  /** The observations taken, in order. */
  function Gathered(turns: seq<Turn>): seq<Observation> {
    if turns == [] then []
    else
      var last := turns[|turns| - 1];
      Gathered(turns[..|turns| - 1]) + (if last.Took? then last.outcome.evidence else [])
  }

  /** The last resource version that an answer named. */
  function LastVersion(version: string, turns: seq<Turn>): string {
    if turns == [] then version
    else
      var last := turns[|turns| - 1];
      if last.Took? && last.outcome.resourceVersion != "" then last.outcome.resourceVersion
      else LastVersion(version, turns[..|turns| - 1])
  }

  /** The probes asked, by index. */
  function Asked(turns: seq<Turn>): seq<nat> {
    if turns == [] then []
    else Asked(turns[..|turns| - 1]) + (if turns[|turns| - 1].Passed? then [] else [|turns| - 1])
  }

  function Latest(current: int, evidence: seq<Observation>): (latest: int)
    ensures current <= latest && forall i :: 0 <= i < |evidence| ==> evidence[i].observedAt <= latest
    ensures latest == current || exists i :: 0 <= i < |evidence| && evidence[i].observedAt == latest
  {
    if evidence == [] then current
    else
      var before := Latest(current, evidence[..|evidence| - 1]);
      if evidence[|evidence| - 1].observedAt > before then evidence[|evidence| - 1].observedAt else before
  }

  lemma {:induction false} LatestConcat(current: int, a: seq<Observation>, b: seq<Observation>)
    ensures Latest(current, a + b) == Latest(Latest(current, a), b)
    decreases |b|
  {
    if b == [] {
      assert a + b == a;
    } else {
      var front := b[..|b| - 1];
      assert (a + b)[..|a + b| - 1] == a + front;
      LatestConcat(current, a, front);
    }
  }

  /** The request after these turns: what was taken is appended, the clock is the latest
      time seen, and the version is the last one named. */
  function After(base: Request, turns: seq<Turn>): Request {
    base.(evidence := base.evidence + Gathered(turns), requestedAt := Latest(base.requestedAt, Gathered(turns)),
          resourceVersion := LastVersion(base.resourceVersion, turns))
  }

  /** One turn's effect on the request. */
  function Absorbed(r: Request, t: Turn): Request {
    if !t.Took? then r
    else r.(evidence := r.evidence + t.outcome.evidence, requestedAt := Latest(r.requestedAt, t.outcome.evidence),
            resourceVersion := if t.outcome.resourceVersion != "" then t.outcome.resourceVersion else r.resourceVersion)
  }

  lemma AfterNext(base: Request, turns: seq<Turn>, t: Turn)
    ensures After(base, turns + [t]) == Absorbed(After(base, turns), t)
  {
    var taken, more := Gathered(turns), if t.Took? then t.outcome.evidence else [];
    assert (turns + [t])[..|turns|] == turns;
    hide Latest;
    assert Gathered(turns + [t]) == taken + more;
    assert base.evidence + (taken + more) == base.evidence + taken + more;
    LatestConcat(base.requestedAt, taken, more);
    if !t.Took? { assert taken + more == taken; }
  }

  lemma AskedNext(turns: seq<Turn>, t: Turn)
    ensures Asked(turns + [t]) == Asked(turns) + (if t.Passed? then [] else [|turns|])
  {
    assert (turns + [t])[..|turns|] == turns;
  }

  /** What the next probe does when it is reached after these turns. */
  ghost function TurnAt(d: Hashing, probes: seq<Option<Probe>>, base: Request, before: seq<Turn>): Turn
    requires |before| < |probes|
  {
    TurnOf(probes[|before|], After(base, before), Decide(d, After(base, before)))
  }

  ghost predicate Stops(d: Hashing, enough: Result -> bool, base: Request, turns: seq<Turn>) {
    turns != [] && var last := turns[|turns| - 1];
    last == Refused(true) || (last.Took? && enough(Decide(d, After(base, turns))))
  }

  /** These turns are what the first probes do, one after the other, within the budget and
      with no reason to stop on the way. */
  ghost predicate Runs(d: Hashing, enough: Result -> bool, probes: seq<Option<Probe>>, base: Request, turns: seq<Turn>, budget: int) {
    |turns| <= |probes| && |Asked(turns)| <= budget &&
    (forall j :: 0 <= j < |turns| ==> turns[j] == TurnAt(d, probes, base, turns[..j])) &&
    forall j :: 0 <= j < |turns| ==> !Stops(d, enough, base, turns[..j])
  }

  /** A run that ends here: at the last probe, at a reason to stop, or for lack of budget. */
  ghost predicate Completes(d: Hashing, enough: Result -> bool, probes: seq<Option<Probe>>, base: Request, turns: seq<Turn>, budget: int) {
    Runs(d, enough, probes, base, turns, budget) &&
    (|turns| == |probes| || Stops(d, enough, base, turns) ||
     (|Asked(turns)| == budget && !TurnAt(d, probes, base, turns).Passed?))
  }

  /** `latestObservationTime` */
  method LatestTime(current: int, evidence: seq<Observation>) returns (latest: int)
    ensures latest == Latest(current, evidence)
  {
    latest := current;
    for i := 0 to |evidence|
      invariant latest == Latest(current, evidence[..i])
    {
      assert evidence[..i + 1][..i] == evidence[..i];
      if evidence[i].observedAt > latest { latest := evidence[i].observedAt; }
    }
    assert evidence[..|evidence|] == evidence;
  }

  /** The loop of both operations; they differ in when they are satisfied. */
  method Acquire(d: Hashing, enough: Result -> bool, base: Request, first: Result, probes: seq<Option<Probe>>, budget: nat)
    returns (final: Result, effective: Request, acquired: seq<nat>, ghost turns: seq<Turn>)
    requires first == Decide(d, base)
    ensures Completes(d, enough, probes, base, turns, budget)
    ensures effective == After(base, turns) && final == Decide(d, effective) && acquired == Asked(turns)
  {
    hide Decide, Useful;
    final, effective, acquired, turns := first, base, [], [];
    assert base.evidence + [] == base.evidence;
    var i := 0;
    while i < |probes|
      invariant i == |turns| <= |probes| && Runs(d, enough, probes, base, turns, budget)
      invariant !Stops(d, enough, base, turns)
      invariant effective == After(base, turns) && final == Decide(d, effective) && acquired == Asked(turns)
    {
      ghost var turn := TurnAt(d, probes, base, turns);
      var probe := probes[i];
      var asked := probe.Some? && probe.value.readOnly && probe.value.supports(effective, final);
      if asked && |acquired| >= budget { return; }
      RunsNext(d, enough, probes, base, turns, budget);
      AfterNext(base, turns, turn);
      AskedNext(turns, turn);
      turns := turns + [turn];
      if asked {
        acquired := acquired + [i];
        var reply := probe.value.acquire(effective);
        if reply.Failed? {
          if reply.cancelled { return; }
        } else if Useful(reply.outcome) {
          var at := LatestTime(effective.requestedAt, reply.outcome.evidence);
          effective := effective.(
            evidence := effective.evidence + reply.outcome.evidence, requestedAt := at,
            resourceVersion := if reply.outcome.resourceVersion != "" then reply.outcome.resourceVersion else effective.resourceVersion);
          final := Evaluate(d, effective);
          if enough(final) { return; }
        }
      }
      i := i + 1;
    }
  }

  lemma RunsNext(d: Hashing, enough: Result -> bool, probes: seq<Option<Probe>>, base: Request, turns: seq<Turn>, budget: int)
    requires Runs(d, enough, probes, base, turns, budget) && |turns| < |probes| && !Stops(d, enough, base, turns)
    requires TurnAt(d, probes, base, turns).Passed? || |Asked(turns)| < budget
    ensures Runs(d, enough, probes, base, turns + [TurnAt(d, probes, base, turns)], budget)
  {
    hide Decide, TurnOf, After;
    var t := TurnAt(d, probes, base, turns);
    AskedNext(turns, t);
    assert forall j :: 0 <= j <= |turns| ==> (turns + [t])[..j] == turns[..j];
    assert turns[..|turns|] == turns;
    hide TurnAt, Asked, Stops;
  }

  /** The environment and the budget leave the loop no freedom: two complete runs are one. */
  lemma RunDetermined(d: Hashing, enough: Result -> bool, probes: seq<Option<Probe>>, base: Request, a: seq<Turn>, b: seq<Turn>, budget: int)
    requires Completes(d, enough, probes, base, a, budget) && Completes(d, enough, probes, base, b, budget)
    ensures a == b
  {
    if |a| <= |b| { CompletePrefix(d, enough, probes, base, a, b, budget); } else { CompletePrefix(d, enough, probes, base, b, a, budget); }
  }

  lemma CompletePrefix(d: Hashing, enough: Result -> bool, probes: seq<Option<Probe>>, base: Request, a: seq<Turn>, b: seq<Turn>, budget: int)
    requires Completes(d, enough, probes, base, a, budget) && Runs(d, enough, probes, base, b, budget) && |a| <= |b|
    ensures a == b
  {
    hide Stops, TurnAt, Asked;
    SamePrefix(d, enough, probes, base, a, b, |a|, budget);
    assert a == a[..|a|] == b[..|a|];
    if |a| < |b| {
      AskedGrows(b, |a| + 1);
      assert b[..|a| + 1] == a + [b[|a|]];
      AskedNext(a, b[|a|]);
    }
  }

  lemma {:induction false} SamePrefix(d: Hashing, enough: Result -> bool, probes: seq<Option<Probe>>, base: Request, a: seq<Turn>, b: seq<Turn>, n: nat, budget: int)
    requires Runs(d, enough, probes, base, a, budget) && Runs(d, enough, probes, base, b, budget) && n <= |a| && n <= |b|
    ensures a[..n] == b[..n]
  {
    hide TurnAt, Stops, Asked;
    if n > 0 {
      SamePrefix(d, enough, probes, base, a, b, n - 1, budget);
      assert a[..n] == a[..n - 1] + [a[n - 1]] && b[..n] == b[..n - 1] + [b[n - 1]];
    }
  }

  lemma {:induction false} AskedGrows(turns: seq<Turn>, n: nat)
    requires n <= |turns|
    ensures |Asked(turns[..n])| <= |Asked(turns)|
    decreases |turns|
  {
    if n < |turns| {
      AskedGrows(turns[..|turns| - 1], n);
      assert turns[..|turns| - 1][..n] == turns[..n];
    } else {
      assert turns[..n] == turns;
    }
  }

  /** The observation was in the answer that a read-only probe gave at its turn. */
  ghost predicate Reacquired(probes: seq<Option<Probe>>, base: Request, turns: seq<Turn>, o: Observation) {
    exists j :: 0 <= j < |turns| && j < |probes| && turns[j].Took? && o in turns[j].outcome.evidence &&
      probes[j].Some? && probes[j].value.readOnly &&
      probes[j].value.acquire(After(base, turns[..j])) == Answered(turns[j].outcome)
  }

  lemma GatheredIsReacquired(d: Hashing, enough: Result -> bool, probes: seq<Option<Probe>>, base: Request, turns: seq<Turn>, budget: int)
    requires Runs(d, enough, probes, base, turns, budget)
    ensures forall o :: o in Gathered(turns) ==> Reacquired(probes, base, turns, o)
  {
    hide Decide, Useful, After, Gathered;
    forall o | o in Gathered(turns) ensures Reacquired(probes, base, turns, o) {
      var j := GatheredFrom(turns, o);
      assert turns[j] == TurnAt(d, probes, base, turns[..j]);
    }
  }

  lemma {:induction false} GatheredFrom(turns: seq<Turn>, o: Observation) returns (j: nat)
    requires o in Gathered(turns)
    ensures j < |turns| && turns[j].Took? && o in turns[j].outcome.evidence
    decreases |turns|
  {
    var n := |turns| - 1;
    if turns[n].Took? && o in turns[n].outcome.evidence { return n; }
    j := GatheredFrom(turns[..n], o);
  }

  /** Every probe asked is read-only, and none is asked twice. */
  predicate OnlyReadOnly(probes: seq<Option<Probe>>, acquired: seq<nat>) {
    (forall i :: 0 <= i < |acquired| ==>
       acquired[i] < |probes| && probes[acquired[i]].Some? && probes[acquired[i]].value.readOnly) &&
    forall i, j :: 0 <= i < j < |acquired| ==> acquired[i] < acquired[j]
  }

  lemma {:induction false} AskedReadOnly(d: Hashing, enough: Result -> bool, probes: seq<Option<Probe>>, base: Request, turns: seq<Turn>, budget: int)
    requires Runs(d, enough, probes, base, turns, budget)
    ensures OnlyReadOnly(probes, Asked(turns)) && forall i :: 0 <= i < |Asked(turns)| ==> Asked(turns)[i] < |turns|
    decreases |turns|
  {
    hide Decide, Useful, After;
    if turns != [] {
      var n := |turns| - 1;
      var front := turns[..n];
      AskedGrows(turns, n);
      assert forall j :: 0 <= j <= n ==> front[..j] == turns[..j];
      AskedReadOnly(d, enough, probes, base, front, budget);
      assert turns[n] == TurnAt(d, probes, base, turns[..n]);
    }
  }

  /** With no probe asked nothing changes. */
  lemma {:induction false} NothingAsked(base: Request, turns: seq<Turn>)
    requires Asked(turns) == []
    ensures After(base, turns) == base && Gathered(turns) == []
    decreases |turns|
  {
    if turns == [] {
      assert base.evidence + [] == base.evidence;
    } else {
      var front := turns[..|turns| - 1];
      assert turns == front + [turns[|turns| - 1]];
      AfterNext(base, front, turns[|turns| - 1]);
      NothingAsked(base, front);
    }
  }

  /** What a complete run may have done: only read-only probes were asked, each once and
      within the budget, every observation it added is one of their answers, and nothing
      changes unless one was asked. */
  lemma AcquisitionMeaning(d: Hashing, enough: Result -> bool, probes: seq<Option<Probe>>, base: Request, turns: seq<Turn>, budget: int)
    requires Completes(d, enough, probes, base, turns, budget)
    ensures OnlyReadOnly(probes, Asked(turns)) && |Asked(turns)| <= budget
    ensures forall o :: o in Gathered(turns) ==> Reacquired(probes, base, turns, o)
    ensures Extends(base, After(base, turns))
    ensures Asked(turns) == [] ==> After(base, turns) == base
  {
    hide Decide, TurnAt, Reacquired, OnlyReadOnly;
    GatheredIsReacquired(d, enough, probes, base, turns, budget);
    AskedReadOnly(d, enough, probes, base, turns, budget);
    if Asked(turns) == [] { NothingAsked(base, turns); }
  }

  /** `ResolveUnknown`: bounded, read-only, and its final decision is the gate's on the old
      evidence followed by what the probes answered. */
  method ResolveUnknown(d: Hashing, req: Request, probes: seq<Option<Probe>>, maxAttempts: int)
    returns (initial: Result, final: Result, effective: Request, acquired: seq<nat>, ghost turns: seq<Turn>)
    ensures initial == Decide(d, req) && final == Decide(d, effective)
    ensures effective == After(req, turns) && Extends(req, effective) && acquired == Asked(turns)
    ensures if NeedsEvidence(initial) && maxAttempts > 0 then Completes(d, Resolved, probes, req, turns, maxAttempts) else turns == [] && effective == req
    ensures OnlyReadOnly(probes, acquired) && |acquired| <= (if maxAttempts > 0 then maxAttempts else 0)
    ensures effective.evidence == req.evidence + Gathered(turns) && forall o :: o in Gathered(turns) ==> Reacquired(probes, req, turns, o)
    ensures Stale(req) || Contradicted(req.evidence) ==> final.decision != Allow
    ensures initial.decision != Allow && final.decision == Allow ==> NeedsEvidence(initial) && acquired != []
  {
    hide Decide, Completes, Reacquired, Stale, Contradicted;
    initial := Evaluate(d, req);
    final, effective, acquired, turns := initial, req, [], [];
    assert req.evidence + [] == req.evidence;
    if NeedsEvidence(initial) && maxAttempts > 0 {
      final, effective, acquired, turns := Acquire(d, Resolved, req, initial, probes, maxAttempts);
      AcquisitionMeaning(d, Resolved, probes, req, turns, maxAttempts);
    }
    if Stale(req) || Contradicted(req.evidence) { NeverCured(d, req, effective); }
  }

  /** `ReconcileContradiction`: the contradictory evidence is dropped, never outvoted.  What
      authorizes is reacquired from the probes, with the demanded number of sources. */
  method ReconcileContradiction(d: Hashing, req: Request, probes: seq<Option<Probe>>, maxAttempts: int)
    returns (initial: Result, final: Result, effective: Request, acquired: seq<nat>, ghost turns: seq<Turn>)
    ensures initial == Decide(d, req) && final == Decide(d, effective) && acquired == Asked(turns)
    ensures !IsContradicted(initial) || maxAttempts <= 0 ==> effective == req && turns == []
    ensures IsContradicted(initial) && maxAttempts > 0 ==>
              effective == After(req.(evidence := []), turns) && Extends(req.(evidence := []), effective) &&
              effective.evidence == Gathered(turns) &&
              Completes(d, Reconciled, probes, req.(evidence := []), turns, maxAttempts)
    ensures OnlyReadOnly(probes, acquired) && |acquired| <= (if maxAttempts > 0 then maxAttempts else 0)
    ensures forall o :: o in Gathered(turns) ==> Reacquired(probes, req.(evidence := []), turns, o)
    ensures final.decision == Allow && IsContradicted(initial) && req.requiredSources > 0 ==>
              acquired != [] && |SourceNames(Gathered(turns))| >= req.requiredSources
  {
    hide Decide, Completes, Reacquired;
    initial := Evaluate(d, req);
    final, effective, acquired, turns := initial, req, [], [];
    if !IsContradicted(initial) || maxAttempts <= 0 { return; }
    var epoch := req.(evidence := []);
    final := Evaluate(d, epoch);
    final, effective, acquired, turns := Acquire(d, Reconciled, epoch, final, probes, maxAttempts);
    assert [] + Gathered(turns) == Gathered(turns);
    AcquisitionMeaning(d, Reconciled, probes, epoch, turns, maxAttempts);
    AllowMeans(d, effective);
    assert SourceNames([]) == {};
  }

  /** Without evidence the gate allows exactly when no source count is demanded and
      everything else is in order, so only a positive source count makes probe
      evidence necessary. */
  lemma EmptyEpochAllows(d: Hashing, req: Request)
    ensures Decide(d, req.(evidence := [])).decision == Allow <==>
      Gate(req) == None && !TooWide(req) && req.requiredSources <= 0 && Bound(req)
  {
    AllowMeans(d, req.(evidence := []));
    assert SourceNames([]) == {};
  }

  /** A contradicted request that a fresh epoch allows with no probe at all. */
  lemma NoProbeNeeded(d: Hashing) returns (req: Request)
    ensures IsContradicted(Decide(d, req)) && Decide(d, req.(evidence := [])).decision == Allow
  {
    var o, p := Observation("c", "s", "1", 1), Observation("c", "t", "2", 1);
    req := Request("id", "act", "tgt", "v", 1, 1, 1, 0, 0, 0, [o, p], None);
    EmptyEpochAllows(d, req);
    assert o in req.evidence && p in req.evidence && o.value[0] != p.value[0];
    hide EvidenceDigest;
  }
}
