/** The first two settlement layers (internal/computesettlement/reconcile.go,
    evidence.go, with the comparison of internal/outcome/outcome.go). */
module SettlementFacts {
  import opened Text

  datatype Disposition = Settled | CreditDue | Disputed | Unknown

  /** How a later layer may change a disposition. */
  predicate Downgrades(was: Disposition, now: Disposition) {
    now == was || now == Unknown || (was == Settled && (now == CreditDue || now == Disputed))
  }

  type Facts = map<string, string>

  datatype Observation = Observation(source: string, evidenceDigest: string, facts: Facts, observedAt: int)

  datatype Verdict = Match | Diverged | Undetermined

  /******* Comparing facts *******/

  predicate Agrees(expected: Facts, observed: Facts, k: string)
    requires k in expected
  {
    k in observed && observed[k] == expected[k]
  }

  /** The comparison stops at the least key that is missing or different. */
  ghost predicate FirstFault(expected: Facts, observed: Facts, k: string) {
    k in expected && !Agrees(expected, observed, k) &&
    forall j :: j in expected && Less(j, k) ==> Agrees(expected, observed, j)
  }

  predicate AllAgree(expected: Facts, observed: Facts) {
    forall k :: k in expected ==> Agrees(expected, observed, k)
  }

  ghost predicate IsVerdict(expected: Facts, observed: Facts, v: Verdict) {
    match v
    case Match => AllAgree(expected, observed)
    case Diverged => exists k :: FirstFault(expected, observed, k) && k in observed
    case Undetermined => exists k :: FirstFault(expected, observed, k) && k !in observed
  }

  /** The verdict is determined by the two fact sets. */
  lemma VerdictUnique(expected: Facts, observed: Facts, v: Verdict, w: Verdict)
    requires IsVerdict(expected, observed, v) && IsVerdict(expected, observed, w)
    ensures v == w
  {
    hide Less;
    if !v.Match? && !w.Match? {
      var j :| FirstFault(expected, observed, j) && (j in observed <==> v == Diverged);
      var k :| FirstFault(expected, observed, k) && (k in observed <==> w == Diverged);
      LessTotal(j, k);
    }
  }

  /** `outcome.Compare` */
  method Compare(expected: Facts, observed: Facts) returns (v: Verdict)
    ensures IsVerdict(expected, observed, v)
  {
    hide Less;
    var keys := SortKeys(expected.Keys);
    assert forall k :: k in expected ==> k in keys by { assert forall k :: k in expected ==> k in Elements(keys); }
    for i := 0 to |keys|
      invariant forall j :: 0 <= j < i ==> keys[j] in expected && Agrees(expected, observed, keys[j])
    {
      assert keys[i] in Elements(keys);
      if !Agrees(expected, observed, keys[i]) {
        LeastFault(expected, observed, keys, i);
        return if keys[i] in observed then Diverged else Undetermined;
      }
    }
    forall k | k in expected ensures Agrees(expected, observed, k) {
      var j :| 0 <= j < |keys| && keys[j] == k;
    }
    v := Match;
  }

  lemma LeastFault(expected: Facts, observed: Facts, keys: seq<string>, i: nat)
    requires Ascending(keys) && Elements(keys) == expected.Keys && i < |keys|
    requires forall j :: 0 <= j < i ==> keys[j] in expected && Agrees(expected, observed, keys[j])
    requires keys[i] in expected && !Agrees(expected, observed, keys[i])
    ensures FirstFault(expected, observed, keys[i])
  {
    forall j | j in expected && Less(j, keys[i]) ensures Agrees(expected, observed, j) {
      assert j in Elements(keys);
      var n :| 0 <= n < |keys| && keys[n] == j;
      if i <= n {
        LessIrreflexive(j);
        if i < n { LessTransitive(j, keys[i], j); }
      }
    }
  }

  /******* Agreement between observations *******/

  /** `factsEqual`: Go reads the empty string for a missing key. */
  predicate FactsEqual(left: Facts, right: Facts) {
    |left| == |right| && forall k :: k in left ==> (if k in right then right[k] else "") == left[k]
  }

  /** Two fact sets that pass are the same map exactly when no empty value of the first
      stands for a key the second lacks. */
  lemma FactsEqualIsEquality(left: Facts, right: Facts)
    ensures left == right <==> FactsEqual(left, right) && forall k :: k in left && left[k] == "" ==> k in right
  {
    if FactsEqual(left, right) && forall k :: k in left && left[k] == "" ==> k in right {
      assert left.Keys <= right.Keys;
      assert |left.Keys| == |left| && |right.Keys| == |right|;
      SubsetSize(left.Keys, right.Keys);
    }
  }

  /** Without empty values the test is map equality, in either direction. */
  lemma NonEmptyFactsEqual(left: Facts, right: Facts)
    requires forall k :: k in left ==> left[k] != ""
    ensures FactsEqual(left, right) <==> left == right
  {
    FactsEqualIsEquality(left, right);
  }

  lemma EmptyFactDefeatsEquality()
    ensures FactsEqual(map["a" := ""], map["b" := "x"]) && map["a" := ""] != map["b" := "x"]
  {
    var left: Facts, right: Facts := map["a" := ""], map["b" := "x"];
    assert "a" in left && "a" !in right;
  }

  method CheckFactsEqual(left: Facts, right: Facts) returns (same: bool)
    ensures same <==> FactsEqual(left, right)
  {
    if |left| != |right| { return false; }
    var rest := left.Keys;
    while rest != {}
      invariant rest <= left.Keys
      invariant forall k :: k in left && k !in rest ==> (if k in right then right[k] else "") == left[k]
      decreases rest
    {
      var k :| k in rest;
      if (if k in right then right[k] else "") != left[k] { return false; }
      rest := rest - {k};
    }
    same := true;
  }

  predicate AllSame(obs: seq<Observation>) {
    forall i :: 0 < i < |obs| ==> FactsEqual(obs[0].facts, obs[i].facts)
  }

  /** `observationsAgree` */
  method ObservationsAgree(obs: seq<Observation>) returns (same: bool)
    ensures same <==> AllSame(obs)
  {
    hide FactsEqual;
    if |obs| < 2 { return true; }
    for i := 1 to |obs|
      invariant forall j :: 0 < j < i ==> FactsEqual(obs[0].facts, obs[j].facts)
    {
      same := CheckFactsEqual(obs[0].facts, obs[i].facts);
      if !same { return; }
    }
    same := true;
  }

  /******* Layer 1: reconciliation *******/

  predicate Attributed(o: Observation) {
    o.source != "" && o.evidenceDigest != "" && o.observedAt != ZERO_TIME
  }

  /** Every observation is attributed and has a determinate verdict. */
  ghost predicate AllJudged(contract: Facts, obs: seq<Observation>, verdicts: seq<Verdict>) {
    |verdicts| == |obs| &&
    forall i :: 0 <= i < |obs| ==> Attributed(obs[i]) && verdicts[i] != Undetermined && IsVerdict(contract, obs[i].facts, verdicts[i])
  }

  ghost predicate Judgeable(contract: Facts, obs: seq<Observation>) {
    exists verdicts :: AllJudged(contract, obs, verdicts)
  }

  ghost predicate AllMatch(contract: Facts, obs: seq<Observation>) {
    obs != [] && forall i :: 0 <= i < |obs| ==> Attributed(obs[i]) && AllAgree(contract, obs[i].facts)
  }

  ghost predicate AllDiverge(contract: Facts, obs: seq<Observation>) {
    obs != [] && forall i :: 0 <= i < |obs| ==> Attributed(obs[i]) && IsVerdict(contract, obs[i].facts, Diverged)
  }

  /** What each disposition of the first layer means. */
  ghost predicate Reconciles(contract: Facts, obs: seq<Observation>, d: Disposition) {
    match d
    case Settled => AllMatch(contract, obs)
    case CreditDue => AllDiverge(contract, obs) && AllSame(obs)
    case Disputed =>
      obs != [] && Judgeable(contract, obs) && !AllMatch(contract, obs) && !(AllDiverge(contract, obs) && AllSame(obs))
    case Unknown => obs == [] || !Judgeable(contract, obs)
  }

  function Count(vs: seq<Verdict>, v: Verdict): nat {
    if vs == [] then 0 else Count(vs[..|vs| - 1], v) + (if vs[|vs| - 1] == v then 1 else 0)
  }

  lemma {:induction false} CountAll(vs: seq<Verdict>, v: Verdict)
    ensures Count(vs, v) <= |vs|
    ensures Count(vs, v) == |vs| <==> forall i :: 0 <= i < |vs| ==> vs[i] == v
    ensures Count(vs, v) == 0 <==> forall i :: 0 <= i < |vs| ==> vs[i] != v
  {
    if vs != [] {
      var n := |vs| - 1;
      CountAll(vs[..n], v);
      assert forall i :: 0 <= i < n ==> vs[..n][i] == vs[i];
    }
  }

  method Reconcile(contract: Facts, obs: seq<Observation>) returns (d: Disposition)
    ensures Reconciles(contract, obs, d)
  {
    hide IsVerdict, FactsEqual, AllAgree;
    if obs == [] { return Unknown; }
    ghost var verdicts: seq<Verdict> := [];
    var matches, divergences := 0, 0;
    for i := 0 to |obs|
      invariant |verdicts| == i && matches == Count(verdicts, Match) && divergences == Count(verdicts, Diverged)
      invariant forall j :: 0 <= j < i ==> Attributed(obs[j]) && verdicts[j] != Undetermined && IsVerdict(contract, obs[j].facts, verdicts[j])
    {
      if !Attributed(obs[i]) {
        NotJudgeable(contract, obs, i, Undetermined);
        return Unknown;
      }
      var v := Compare(contract, obs[i].facts);
      if v == Undetermined {
        NotJudgeable(contract, obs, i, v);
        return Unknown;
      }
      assert (verdicts + [v])[..i] == verdicts;
      verdicts := verdicts + [v];
      if v == Match { matches := matches + 1; } else { divergences := divergences + 1; }
    }
    assert AllJudged(contract, obs, verdicts);
    CountAll(verdicts, Match);
    CountAll(verdicts, Diverged);
    d := Decide(contract, obs, verdicts, matches, divergences);
  }

  lemma NotJudgeable(contract: Facts, obs: seq<Observation>, i: nat, v: Verdict)
    requires i < |obs|
    requires !Attributed(obs[i]) || (v == Undetermined && IsVerdict(contract, obs[i].facts, v))
    ensures !Judgeable(contract, obs)
  {
    hide IsVerdict;
    forall verdicts ensures !AllJudged(contract, obs, verdicts) {
      if AllJudged(contract, obs, verdicts) && Attributed(obs[i]) {
        VerdictUnique(contract, obs[i].facts, v, verdicts[i]);
      }
    }
  }

  method Decide(contract: Facts, obs: seq<Observation>, ghost verdicts: seq<Verdict>, matches: nat, divergences: nat) returns (d: Disposition)
    requires obs != [] && AllJudged(contract, obs, verdicts)
    requires matches == |obs| <==> forall i :: 0 <= i < |obs| ==> verdicts[i] == Match
    requires divergences == |obs| <==> forall i :: 0 <= i < |obs| ==> verdicts[i] == Diverged
    requires matches == 0 <==> forall i :: 0 <= i < |obs| ==> verdicts[i] != Match
    requires divergences == 0 <==> forall i :: 0 <= i < |obs| ==> verdicts[i] != Diverged
    ensures Reconciles(contract, obs, d)
  {
    hide FactsEqual;
    VerdictsDecide(contract, obs, verdicts);
    hide IsVerdict;
    if matches == |obs| { return Settled; }
    if matches > 0 && divergences > 0 { return Disputed; }
    if divergences == |obs| {
      var same := ObservationsAgree(obs);
      return if same then CreditDue else Disputed;
    }
    assert false;
  }

  lemma VerdictsDecide(contract: Facts, obs: seq<Observation>, verdicts: seq<Verdict>)
    requires obs != [] && AllJudged(contract, obs, verdicts)
    ensures AllMatch(contract, obs) <==> forall i :: 0 <= i < |obs| ==> verdicts[i] == Match
    ensures AllDiverge(contract, obs) <==> forall i :: 0 <= i < |obs| ==> verdicts[i] == Diverged
    ensures Judgeable(contract, obs)
  {
    hide FirstFault, AllAgree;
    forall i | 0 <= i < |obs|
      ensures AllAgree(contract, obs[i].facts) <==> verdicts[i] == Match
      ensures IsVerdict(contract, obs[i].facts, Diverged) <==> verdicts[i] == Diverged
    {
      MatchIffAgree(contract, obs[i].facts, verdicts[i]);
      if IsVerdict(contract, obs[i].facts, Diverged) { VerdictUnique(contract, obs[i].facts, Diverged, verdicts[i]); }
    }
  }

  lemma MatchIffAgree(expected: Facts, observed: Facts, v: Verdict)
    requires IsVerdict(expected, observed, v)
    ensures AllAgree(expected, observed) <==> v == Match
  {
    if AllAgree(expected, observed) { VerdictUnique(expected, observed, Match, v); }
  }

  /******* Layer 2: evidence *******/

  datatype Source = Source(name: string, digest: string, observedAt: int, subject: Option<string>)

  predicate SourceComplete(s: Source, subject: string) {
    Trim(s.name) != "" && !Blank(s.digest) && s.observedAt != ZERO_TIME &&
    s.subject.Some? && Trim(s.subject.value) == subject
  }

  function Names(ss: seq<Source>): seq<string> { seq(|ss|, i requires 0 <= i < |ss| => Trim(ss[i].name)) }

  function Reporters(obs: seq<Observation>): seq<string> { seq(|obs|, i requires 0 <= i < |obs| => obs[i].source) }

  predicate Backs(s: Source, o: Observation) {
    Trim(s.name) == o.source && s.digest == o.evidenceDigest && s.observedAt == o.observedAt
  }

  predicate Backed(sources: seq<Source>, o: Observation) {
    exists j :: 0 <= j < |sources| && Backs(sources[j], o)
  }

  /** A map from trimmed names back to the sources. */
  predicate Indexes(byName: map<string, Source>, sources: seq<Source>) {
    byName.Keys == Elements(Names(sources)) &&
    forall i :: 0 <= i < |sources| ==> Names(sources)[i] in byName && byName[Names(sources)[i]] == sources[i]
  }

  /** Observations and assessed sources correspond one to one. */
  ghost predicate EvidenceBound(obs: seq<Observation>, sources: seq<Source>, subject: string) {
    Trim(subject) != "" && obs != [] && |sources| == |obs| &&
    (forall i :: 0 <= i < |sources| ==> SourceComplete(sources[i], Trim(subject))) && Distinct(Names(sources)) &&
    (forall i :: 0 <= i < |obs| ==> Backed(sources, obs[i])) && Distinct(Reporters(obs))
  }

  method CheckEvidence(obs: seq<Observation>, sources: seq<Source>, subject: string) returns (ok: bool)
    ensures ok <==> EvidenceBound(obs, sources, subject)
  {
    hide Trim, Blank, Indexes, Backed, Distinct;
    if Trim(subject) == "" || obs == [] || |sources| != |obs| { return false; }
    var byName;
    ok, byName := CollectSources(sources, Trim(subject));
    if !ok { return; }
    ok := MatchObservations(obs, sources, byName);
  }

  method CollectSources(sources: seq<Source>, subject: string) returns (ok: bool, byName: map<string, Source>)
    ensures ok <==> (forall i :: 0 <= i < |sources| ==> SourceComplete(sources[i], subject)) && Distinct(Names(sources))
    ensures ok ==> Indexes(byName, sources)
  {
    hide Trim, Blank, Distinct, Indexes;
    byName := map[];
    ghost var names := Names(sources);
    DistinctStart(names);
    IndexesStart(sources);
    for i := 0 to |sources|
      invariant forall j :: 0 <= j < i ==> SourceComplete(sources[j], subject)
      invariant byName.Keys == Elements(names[..i]) && Distinct(names[..i])
      invariant Indexes(byName, sources[..i])
    {
      var s := sources[i];
      var name := Trim(s.name);
      if name == "" || Blank(s.digest) || s.observedAt == ZERO_TIME { return false, byName; }
      DistinctNext(names, i);
      if name in byName { return false, byName; }
      if s.subject == None || Trim(s.subject.value) != subject { return false, byName; }
      IndexesNext(byName, sources, i);
      byName := byName[name := s];
    }
    assert names[..|sources|] == names && sources[..|sources|] == sources;
    ok := true;
  }

  lemma IndexesStart(sources: seq<Source>)
    ensures Indexes(map[], sources[..0])
  {
    assert Names(sources[..0]) == [];
  }

  lemma IndexesNext(byName: map<string, Source>, sources: seq<Source>, i: nat)
    requires i < |sources| && Indexes(byName, sources[..i]) && Trim(sources[i].name) !in byName
    ensures Indexes(byName[Trim(sources[i].name) := sources[i]], sources[..i + 1])
  {
    hide Trim;
    var a, b := Names(sources[..i]), Names(sources[..i + 1]);
    assert b == a + [Trim(sources[i].name)];
    assert forall j :: 0 <= j < i ==> a[j] in byName && byName[a[j]] == sources[..i][j];
  }

  lemma DistinctStart(s: seq<string>)
    ensures Distinct(s[..0]) && Elements(s[..0]) == {}
  {
  }

  method MatchObservations(obs: seq<Observation>, ghost sources: seq<Source>, byName: map<string, Source>) returns (ok: bool)
    requires Indexes(byName, sources)
    ensures ok <==> (forall i :: 0 <= i < |obs| ==> Backed(sources, obs[i])) && Distinct(Reporters(obs))
  {
    hide Trim, Distinct, Indexes, Backed;
    var seen: set<string> := {};
    ghost var names := Reporters(obs);
    DistinctStart(names);
    for i := 0 to |obs|
      invariant seen == Elements(names[..i]) && Distinct(names[..i])
      invariant forall k :: 0 <= k < i ==> Backed(sources, obs[k])
    {
      var o := obs[i];
      DistinctNext(names, i);
      BackedThroughMap(sources, byName, o);
      if o.source !in byName { return false; }
      if o.source in seen { return false; }
      seen := seen + {o.source};
      var s := byName[o.source];
      if s.digest != o.evidenceDigest || s.observedAt != o.observedAt { return false; }
    }
    assert names[..|obs|] == names;
    ok := true;
  }

  lemma BackedThroughMap(sources: seq<Source>, byName: map<string, Source>, o: Observation)
    requires Indexes(byName, sources)
    ensures Backed(sources, o) <==>
            o.source in byName && byName[o.source].digest == o.evidenceDigest && byName[o.source].observedAt == o.observedAt
  {
    hide Trim;
    var names := Names(sources);
    if o.source in byName {
      assert o.source in Elements(names);
      var j :| 0 <= j < |names| && names[j] == o.source;
      assert byName[names[j]] == sources[j];
    }
    if j :| 0 <= j < |sources| && Backs(sources[j], o) {
      assert names[j] in Elements(names);
    }
  }

  /** `ReconcileWithEvidence`; `independent` is the verdict of the independence
      assessment of the sources. */
  method ReconcileWithEvidence(contract: Facts, obs: seq<Observation>, sources: seq<Source>, subject: string, independent: bool)
    returns (d: Disposition)
    ensures EvidenceBound(obs, sources, subject) && independent ==> Reconciles(contract, obs, d)
    ensures !(EvidenceBound(obs, sources, subject) && independent) ==> d == Unknown
  {
    hide EvidenceBound, Reconciles;
    var bound := CheckEvidence(obs, sources, subject);
    if !bound || !independent { return Unknown; }
    d := Reconcile(contract, obs);
  }
}
