/** The replay of a quorum hand-over (`verifyQuorumSuccession`,
    evidenceverify/succession.go): freeze every shared witness under both
    policies, then activate the new policy. */
module QuorumSuccession {
  import opened Text

  datatype Member = Member(id: string, manifestHash: string)

  datatype Quorum = Quorum(threshold: int, members: seq<Member>)

  datatype Policy = Policy(phase: string, epoch: nat, policyHash: string, fromHash: string, toHash: string)

  datatype Head = Head(journalId: string, sequence: nat, headHash: string, keyId: string)

  datatype Transition = Transition(ordinal: nat, witnessId: string, before: Policy, after: Policy,
                                   head: Head, authorityHead: Head)

  datatype WitnessState = WitnessState(policy: Policy, historyHead: Head, authorityHead: Head)

  datatype Observation = Observation(quorumHash: string, historyHash: string,
                                     transitions: seq<Transition>, current: map<string, WitnessState>)

  /** Both Genesis documents and the commitments computed from them. */
  datatype Handover = Handover(oldQuorum: Quorum, newQuorum: Quorum, oldEpoch: nat, newEpoch: nat,
                               oldHash: string, newHash: string, quorumHash: string, historyHash: string,
                               head: Head, frozen: Head)

  datatype Failure =
    | NoBlockingSet | UnboundCommitments | Discontinuous | Bypassed | SimultaneousAuthority
    | OmittedWitness | PolicyDiffers | NotAllActivated | QuorumNotCurrent

  /******* What `genesis` and `succession` established before the replay *******/

  /** The quorum check of `genesis`: a majority threshold over distinct witnesses. */
  predicate SafeQuorum(q: Quorum) {
    |q.members| / 2 < q.threshold <= |q.members| &&
    (forall i :: 0 <= i < |q.members| ==> q.members[i].id != "" && |q.members[i].manifestHash| == 71) &&
    (forall i, j :: 0 <= i < j < |q.members| ==> q.members[i].id != q.members[j].id)
  }

  predicate Established(c: Handover) {
    SafeQuorum(c.oldQuorum) && SafeQuorum(c.newQuorum) && c.oldEpoch < c.newEpoch
  }

  /******* Reference definitions *******/

  /** Go's map literal filled in a loop: the last binding of an id wins. */
  function MemberMap(ms: seq<Member>): map<string, string> {
    if ms == [] then map[]
    else MemberMap(ms[..|ms| - 1])[ms[|ms| - 1].id := ms[|ms| - 1].manifestHash]
  }

  function Old(c: Handover): map<string, string> { MemberMap(c.oldQuorum.members) }

  function New(c: Handover): map<string, string> { MemberMap(c.newQuorum.members) }

  /** Go's lookup: the zero value for a missing key. */
  function Lookup(m: map<string, string>, id: string): string {
    if id in m then m[id] else ""
  }

  function Shared(c: Handover): set<string> {
    set id | id in Old(c) && Lookup(New(c), id) == Old(c)[id]
  }

  predicate Blocking(c: Handover) {
    |Shared(c)| >= |Old(c)| - c.oldQuorum.threshold + 1 &&
    |Shared(c)| >= |New(c)| - c.newQuorum.threshold + 1 &&
    |Shared(c)| >= c.newQuorum.threshold
  }

  function OldPolicy(c: Handover): Policy { Policy("ACTIVE", c.oldEpoch, c.oldHash, "", "") }

  function NewPolicy(c: Handover): Policy { Policy("ACTIVE", c.newEpoch, c.newHash, "", "") }

  function Joint(c: Handover): Policy { Policy("JOINT_FROZEN", c.newEpoch, c.quorumHash, c.oldHash, c.newHash) }

  type States = map<string, Policy>

  function InitialStates(c: Handover): States {
    map id | id in Old(c).Keys + New(c).Keys :: if id in Old(c) then OldPolicy(c) else NewPolicy(c)
  }

  datatype Replay = Replay(states: States, allFrozen: bool)

  /** The two checks a transition must pass, given what was replayed so far. */
  function CheckTransition(c: Handover, rs: Replay, i: nat, t: Transition): Option<Failure> {
    if t.ordinal != i + 1 || t.witnessId !in Shared(c) || t.head != c.head || t.authorityHead != c.frozen ||
       t.witnessId !in rs.states || t.before != rs.states[t.witnessId] then Some(Discontinuous)
    else if (t.before == OldPolicy(c) && t.after == Joint(c)) ||
            (t.before == Joint(c) && t.after == NewPolicy(c) && rs.allFrozen) then None
    else Some(Bypassed)
  }

  predicate Frozen(c: Handover, states: States) {
    forall id :: id in Shared(c) ==> id in states && states[id] == Joint(c)
  }

  function Advance(c: Handover, rs: Replay, t: Transition): Replay {
    var states := rs.states[t.witnessId := t.after];
    Replay(states, rs.allFrozen || Frozen(c, states))
  }

  /** The replay of a trace by the transition checks alone. */
  function Replayed(c: Handover, ts: seq<Transition>): Option<Replay> {
    if ts == [] then Some(Replay(InitialStates(c), false))
    else
      var n := |ts| - 1;
      match Replayed(c, ts[..n])
      case None => None
      case Some(rs) =>
        if CheckTransition(c, rs, n, ts[n]) == None then Some(Advance(c, rs, ts[n])) else None
  }

  function Holding(members: set<string>, states: States, p: Policy): set<string> {
    set id | id in members && id in states && states[id] == p
  }

  /** The condition rejected at line 388. */
  predicate BothCurrent(c: Handover, states: States) {
    |Holding(Old(c).Keys, states, OldPolicy(c))| >= c.oldQuorum.threshold &&
    |Holding(New(c).Keys, states, NewPolicy(c))| >= c.newQuorum.threshold
  }

  /** The new members that currently hold the given pair of heads. */
  function Carriers(c: Handover, states: States, current: map<string, WitnessState>, final: Head, active: Head): set<string> {
    Carrying(Holding(New(c).Keys, states, NewPolicy(c)), current, final, active)
  }

  function Carrying(ids: set<string>, current: map<string, WitnessState>, final: Head, active: Head): set<string> {
    set id | id in ids && id in current && current[id].historyHead == final && current[id].authorityHead == active
  }

  predicate CurrentMatches(states: States, current: map<string, WitnessState>) {
    |current| == |states| && forall id :: id in states ==> id in current && current[id].policy == states[id]
  }

  predicate AllActivated(c: Handover, states: States) {
    forall id :: id in Shared(c) ==> id in states && states[id] == NewPolicy(c)
  }

  /** What acceptance means, with the check of line 388 left out. */
  predicate Accepts(c: Handover, o: Observation, final: Head, active: Head) {
    Blocking(c) && c.quorumHash != "" && c.historyHash != "" &&
    o.quorumHash == c.quorumHash && o.historyHash == c.historyHash &&
    Replayed(c, o.transitions).Some? &&
    var states := Replayed(c, o.transitions).value.states;
    CurrentMatches(states, o.current) && AllActivated(c, states) &&
    |Carriers(c, states, o.current, final, active)| >= c.newQuorum.threshold
  }

  /******* Members and counting *******/

  lemma {:induction false} MemberMapKeys(ms: seq<Member>)
    ensures forall id :: id in MemberMap(ms) <==> exists i :: 0 <= i < |ms| && ms[i].id == id
    ensures forall id :: id in MemberMap(ms) ==> exists i :: 0 <= i < |ms| && ms[i].id == id && ms[i].manifestHash == MemberMap(ms)[id]
  {
    if ms != [] {
      var n := |ms| - 1;
      MemberMapKeys(ms[..n]);
      forall id | id in MemberMap(ms)
        ensures exists i :: 0 <= i < |ms| && ms[i].id == id && ms[i].manifestHash == MemberMap(ms)[id]
      {
        if id == ms[n].id {
          assert ms[n].manifestHash == MemberMap(ms)[id];
        } else {
          assert id in MemberMap(ms[..n]);
          var i :| 0 <= i < |ms[..n]| && ms[..n][i].id == id && ms[..n][i].manifestHash == MemberMap(ms[..n])[id];
          assert ms[i].id == id;
        }
      }
      forall id | exists i :: 0 <= i < |ms| && ms[i].id == id ensures id in MemberMap(ms) {
        var i :| 0 <= i < |ms| && ms[i].id == id;
        if i < n { assert ms[..n][i].id == id; }
      }
    }
  }

  /** Distinct ids: the map has as many members as the list. */
  lemma {:induction false} MemberMapSize(ms: seq<Member>)
    requires forall i, j :: 0 <= i < j < |ms| ==> ms[i].id != ms[j].id
    ensures |MemberMap(ms)| == |ms|
  {
    if ms != [] {
      var n := |ms| - 1;
      MemberMapSize(ms[..n]);
      MemberMapKeys(ms[..n]);
      assert ms[n].id !in MemberMap(ms[..n]);
    }
  }

  lemma SharedAreNew(c: Handover)
    requires SafeQuorum(c.oldQuorum)
    ensures Shared(c) <= Old(c).Keys && Shared(c) <= New(c).Keys
  {
    MemberMapKeys(c.oldQuorum.members);
    forall id | id in Shared(c) ensures id in New(c) {
      assert Old(c)[id] != "";
    }
  }

  lemma Complement(all: set<string>, part: set<string>, rest: set<string>)
    requires part <= all && rest <= all - part
    ensures |rest| <= |all| - |part|
  {
    SubsetSize(rest, all - part);
    assert |all - part| == |all| - |part| by { assert all == part + (all - part); }
  }

  lemma PoliciesDiffer(c: Handover)
    requires c.oldEpoch < c.newEpoch
    ensures OldPolicy(c) != Joint(c) && Joint(c) != NewPolicy(c) && OldPolicy(c) != NewPolicy(c)
  {
    assert "ACTIVE"[0] != "JOINT_FROZEN"[0];
  }

  /******* The shape of an accepted trace *******/

  function Freeze(c: Handover, i: nat, id: string): Transition {
    Transition(i + 1, id, OldPolicy(c), Joint(c), c.head, c.frozen)
  }

  function Activate(c: Handover, i: nat, id: string): Transition {
    Transition(i + 1, id, Joint(c), NewPolicy(c), c.head, c.frozen)
  }

  /** The trace that freezes the witnesses of `fs` in order, then activates those of `acts`. */
  function Script(c: Handover, fs: seq<string>, acts: seq<string>): seq<Transition> {
    seq(|fs| + |acts|, i requires 0 <= i < |fs| + |acts| =>
      if i < |fs| then Freeze(c, i, fs[i]) else Activate(c, i, acts[i - |fs|]))
  }

  function StatesAfter(c: Handover, fs: seq<string>, acts: seq<string>): States {
    map id | id in InitialStates(c) ::
      if id in acts then NewPolicy(c) else if id in fs then Joint(c) else InitialStates(c)[id]
  }

  /** The replayed trace froze `fs`, then activated `acts`, and nothing else. */
  ghost predicate Shape(c: Handover, rs: Replay, ts: seq<Transition>, fs: seq<string>, acts: seq<string>) {
    Distinct(fs) && Distinct(acts) &&
    Elements(fs) <= Shared(c) && Elements(acts) <= Elements(fs) &&
    (acts != [] ==> Elements(fs) == Shared(c)) &&
    ts == Script(c, fs, acts) &&
    rs.states == StatesAfter(c, fs, acts) &&
    (rs.allFrozen <==> ts != [] && Elements(fs) == Shared(c))
  }

  lemma FreezeStep(c: Handover, rs: Replay, ts: seq<Transition>, fs: seq<string>, t: Transition)
    requires Established(c) && Shape(c, rs, ts, fs, [])
    requires CheckTransition(c, rs, |ts|, t) == None && t.before == OldPolicy(c)
    ensures Shape(c, Advance(c, rs, t), ts + [t], fs + [t.witnessId], [])
  {
    PoliciesDiffer(c);
    SharedAreNew(c);
    var fs' := fs + [t.witnessId];
    var rs' := Advance(c, rs, t);
    assert t.witnessId !in fs;
    assert ts + [t] == Script(c, fs', []);
    assert rs'.states == StatesAfter(c, fs', []);
    assert Elements(fs') == Elements(fs) + {t.witnessId};
    assert Frozen(c, rs'.states) <==> Elements(fs') == Shared(c) by {
      assert forall id :: id in Shared(c) ==> id in InitialStates(c) && InitialStates(c)[id] == OldPolicy(c);
      assert forall id :: id in Shared(c) ==> (rs'.states[id] == Joint(c) <==> id in Elements(fs'));
    }
    assert Elements(fs) != Shared(c);
  }

  lemma ActivateStep(c: Handover, rs: Replay, ts: seq<Transition>, fs: seq<string>, acts: seq<string>, t: Transition)
    requires Established(c) && Shape(c, rs, ts, fs, acts)
    requires CheckTransition(c, rs, |ts|, t) == None && t.before == Joint(c)
    ensures Shape(c, Advance(c, rs, t), ts + [t], fs, acts + [t.witnessId])
  {
    PoliciesDiffer(c);
    var acts' := acts + [t.witnessId];
    assert t.witnessId !in acts;
    assert t == Activate(c, |fs| + |acts|, t.witnessId);
    assert ts + [t] == Script(c, fs, acts') by {
      assert forall i :: 0 <= i < |ts| ==> ts[i] == Script(c, fs, acts')[i];
    }
    assert Advance(c, rs, t).states == StatesAfter(c, fs, acts');
    assert Elements(acts') == Elements(acts) + {t.witnessId};
  }

  /** Every trace the checks accept so far is some freezes followed by some
      activations, the latter only after every shared witness is frozen. */
  lemma {:induction false} AcceptedShape(c: Handover, ts: seq<Transition>) returns (fs: seq<string>, acts: seq<string>)
    requires Established(c) && Replayed(c, ts).Some?
    ensures Shape(c, Replayed(c, ts).value, ts, fs, acts)
  {
    if ts == [] {
      fs, acts := [], [];
      assert Elements([]) == {};
      assert StatesAfter(c, [], []) == InitialStates(c);
    } else {
      var n := |ts| - 1;
      fs, acts := AcceptedShape(c, ts[..n]);
      var rs := Replayed(c, ts[..n]).value;
      assert ts == ts[..n] + [ts[n]];
      assert |ts[..n]| == n;
      PoliciesDiffer(c);
      if ts[n].before == OldPolicy(c) {
        SharedAreNew(c);
        assert forall id :: id in Elements(fs) ==> rs.states[id] != OldPolicy(c);
        FreezeStep(c, rs, ts[..n], fs, ts[n]);
        fs := fs + [ts[n].witnessId];
      } else {
        ActivateStep(c, rs, ts[..n], fs, acts, ts[n]);
        acts := acts + [ts[n].witnessId];
      }
    }
  }

  /** Old and new authority are never current together, for every accepted prefix:
      the rejection at line 388 is unreachable. */
  lemma NeverBothCurrent(c: Handover, ts: seq<Transition>)
    requires Established(c) && Blocking(c) && Replayed(c, ts).Some?
    ensures !BothCurrent(c, Replayed(c, ts).value.states)
  {
    var fs, acts := AcceptedShape(c, ts);
    var states := Replayed(c, ts).value.states;
    PoliciesDiffer(c);
    SharedAreNew(c);
    if acts == [] {
      var holders := Holding(New(c).Keys, states, NewPolicy(c));
      Complement(New(c).Keys, Shared(c), holders);
    } else {
      var holders := Holding(Old(c).Keys, states, OldPolicy(c));
      assert forall id :: id in Shared(c) ==> id in Elements(fs);
      Complement(Old(c).Keys, Shared(c), holders);
    }
  }

  /******* Exactly which traces activate every shared witness *******/

  ghost predicate Ordering(s: seq<string>, ids: set<string>) {
    Distinct(s) && Elements(s) == ids
  }

  lemma {:induction false} OrderingLength(s: seq<string>, ids: set<string>)
    requires Ordering(s, ids)
    ensures |s| == |ids|
  {
    if s != [] {
      var n := |s| - 1;
      assert s == s[..n] + [s[n]];
      assert Elements(s[..n]) == ids - {s[n]} by {
        assert forall x :: x in s[..n] <==> x in s && x != s[n];
      }
      OrderingLength(s[..n], ids - {s[n]});
    }
  }

  lemma CanFreeze(c: Handover, rs: Replay, ts: seq<Transition>, fs: seq<string>, id: string)
    requires Established(c) && Shape(c, rs, ts, fs, []) && id in Shared(c) && id !in fs
    ensures CheckTransition(c, rs, |ts|, Freeze(c, |ts|, id)) == None
  {
    SharedAreNew(c);
  }

  /** The script replays, to the state its shape predicts. */
  ghost predicate Replays(c: Handover, fs: seq<string>, acts: seq<string>) {
    Replayed(c, Script(c, fs, acts)).Some? &&
    Shape(c, Replayed(c, Script(c, fs, acts)).value, Script(c, fs, acts), fs, acts)
  }

  lemma ExtendFreezes(c: Handover, fs: seq<string>, id: string)
    requires Established(c) && Replays(c, fs, []) && id in Shared(c) && id !in fs
    ensures Replays(c, fs + [id], [])
  {
    var ts := Script(c, fs, []);
    var rs := Replayed(c, ts).value;
    CanFreeze(c, rs, ts, fs, id);
    FreezeStep(c, rs, ts, fs, Freeze(c, |ts|, id));
    ReplayLast(c, ts, Freeze(c, |ts|, id));
  }

  lemma {:induction false} ScriptFreezes(c: Handover, fs: seq<string>)
    requires Established(c) && Distinct(fs) && Elements(fs) <= Shared(c)
    ensures Replays(c, fs, [])
    decreases |fs|
  {
    if fs == [] {
      assert Script(c, fs, []) == [] && Elements(fs) == {} && StatesAfter(c, [], []) == InitialStates(c);
    } else {
      var n := |fs| - 1;
      assert fs == fs[..n] + [fs[n]];
      assert fs[n] in Elements(fs);
      ScriptFreezes(c, fs[..n]);
      ExtendFreezes(c, fs[..n], fs[n]);
    }
  }

  lemma CanActivate(c: Handover, rs: Replay, ts: seq<Transition>, fs: seq<string>, acts: seq<string>, id: string)
    requires Established(c) && Shape(c, rs, ts, fs, acts) && ts != [] && Elements(fs) == Shared(c)
    requires id in Shared(c) && id !in acts
    ensures CheckTransition(c, rs, |ts|, Activate(c, |ts|, id)) == None
  {
    SharedAreNew(c);
    assert id in Elements(fs);
  }

  lemma ExtendActivations(c: Handover, fs: seq<string>, acts: seq<string>, id: string)
    requires Established(c) && Replays(c, fs, acts) && fs != [] && Elements(fs) == Shared(c)
    requires id in Shared(c) && id !in acts
    ensures Replays(c, fs, acts + [id])
  {
    var ts := Script(c, fs, acts);
    var rs := Replayed(c, ts).value;
    CanActivate(c, rs, ts, fs, acts, id);
    ActivateStep(c, rs, ts, fs, acts, Activate(c, |ts|, id));
    ReplayLast(c, ts, Activate(c, |ts|, id));
  }

  lemma {:induction false} ScriptActivates(c: Handover, fs: seq<string>, acts: seq<string>)
    requires Established(c) && Ordering(fs, Shared(c)) && fs != []
    requires Distinct(acts) && Elements(acts) <= Shared(c)
    ensures Replays(c, fs, acts)
    decreases |acts|
  {
    if acts == [] {
      ScriptFreezes(c, fs);
    } else {
      var n := |acts| - 1;
      assert acts == acts[..n] + [acts[n]];
      assert acts[n] in Elements(acts);
      ScriptActivates(c, fs, acts[..n]);
      ExtendActivations(c, fs, acts[..n], acts[n]);
    }
  }

  /** A trace replays and activates every shared witness exactly when it freezes all
      of them in some order and then activates all of them in some order. */
  lemma ActivatingTraces(c: Handover, ts: seq<Transition>)
    requires Established(c) && Blocking(c)
    ensures (Replayed(c, ts).Some? && AllActivated(c, Replayed(c, ts).value.states)) <==>
            (exists fs, acts :: Ordering(fs, Shared(c)) && Ordering(acts, Shared(c)) && ts == Script(c, fs, acts))
    ensures Replayed(c, ts).Some? && AllActivated(c, Replayed(c, ts).value.states) ==> |ts| == 2 * |Shared(c)|
  {
    PoliciesDiffer(c);
    SharedAreNew(c);
    if Replayed(c, ts).Some? && AllActivated(c, Replayed(c, ts).value.states) {
      var fs, acts := AcceptedShape(c, ts);
      var states := Replayed(c, ts).value.states;
      assert forall id :: id in Shared(c) ==> states[id] == NewPolicy(c) && id in acts;
      assert Elements(acts) == Shared(c);
      assert Elements(fs) == Shared(c);
      OrderingLength(fs, Shared(c));
      OrderingLength(acts, Shared(c));
    }
    if fs, acts :| Ordering(fs, Shared(c)) && Ordering(acts, Shared(c)) && ts == Script(c, fs, acts) {
      OrderingLength(fs, Shared(c));
      ScriptActivates(c, fs, acts);
      assert forall id :: id in Shared(c) ==> id in Elements(acts);
    }
  }

  /******* Uniqueness of the accepted heads *******/

  lemma QuorumsIntersect(all: set<string>, a: set<string>, b: set<string>, t: int)
    requires a <= all && b <= all && |a| >= t && |b| >= t && 2 * t > |all|
    ensures a * b != {}
  {
    SubsetSize(a + b, all);
    assert |a| + |b| == |a + b| + |a * b|;
  }

  /** One observation supports at most one pair of current heads. */
  lemma AcceptedHeadsUnique(c: Handover, o: Observation, final: Head, active: Head, final': Head, active': Head)
    requires SafeQuorum(c.newQuorum)
    requires Accepts(c, o, final, active) && Accepts(c, o, final', active')
    ensures final == final' && active == active'
  {
    var states := Replayed(c, o.transitions).value.states;
    var a := Carriers(c, states, o.current, final, active);
    var b := Carriers(c, states, o.current, final', active');
    MemberMapSize(c.newQuorum.members);
    QuorumsIntersect(New(c).Keys, a, b, c.newQuorum.threshold);
    var id :| id in a * b;
  }

  /******* The verifier *******/

  method CollectMembers(ms: seq<Member>) returns (m: map<string, string>)
    ensures m == MemberMap(ms)
  {
    m := map[];
    for i := 0 to |ms|
      invariant m == MemberMap(ms[..i])
    {
      m := m[ms[i].id := ms[i].manifestHash];
      assert ms[..i + 1][..i] == ms[..i];
    }
    assert ms[..|ms|] == ms;
  }

  method CollectShared(oldMembers: map<string, string>, newMembers: map<string, string>) returns (shared: seq<string>)
    ensures Ascending(shared)
    ensures Elements(shared) == set id | id in oldMembers && Lookup(newMembers, id) == oldMembers[id]
  {
    var found: set<string> := {};
    var rest := oldMembers.Keys;
    while rest != {}
      invariant rest <= oldMembers.Keys
      invariant found == set id | id in oldMembers && id !in rest && Lookup(newMembers, id) == oldMembers[id]
      decreases rest
    {
      var id :| id in rest;
      rest := rest - {id};
      if Lookup(newMembers, id) == oldMembers[id] { found := found + {id}; }
    }
    shared := SortKeys(found);
  }

  method CollectStates(c: Handover, oldMembers: map<string, string>, newMembers: map<string, string>) returns (states: States)
    requires oldMembers == Old(c) && newMembers == New(c)
    ensures states == InitialStates(c)
  {
    states := map[];
    var rest := oldMembers.Keys;
    while rest != {}
      invariant rest <= oldMembers.Keys
      invariant states == map id | id in oldMembers && id !in rest :: OldPolicy(c)
      decreases rest
    {
      var id :| id in rest;
      rest := rest - {id};
      states := states[id := OldPolicy(c)];
    }
    rest := newMembers.Keys;
    while rest != {}
      invariant rest <= newMembers.Keys
      invariant states.Keys == oldMembers.Keys + (newMembers.Keys - rest)
      invariant forall id :: id in states ==> states[id] == if id in oldMembers then OldPolicy(c) else NewPolicy(c)
      decreases rest
    {
      var id :| id in rest;
      rest := rest - {id};
      if id !in states { states := states[id := NewPolicy(c)]; }
    }
  }

  method CheckFrozen(c: Handover, states: States, shared: seq<string>) returns (all: bool)
    requires Elements(shared) == Shared(c) && Shared(c) <= states.Keys
    ensures all <==> Frozen(c, states)
  {
    all := true;
    for i := 0 to |shared|
      invariant all <==> forall j :: 0 <= j < i ==> states[shared[j]] == Joint(c)
    {
      assert shared[i] in Elements(shared);
      if states[shared[i]] != Joint(c) { all := false; }
    }
    assert forall id :: id in Shared(c) ==> id in Elements(shared);
    assert forall j :: 0 <= j < |shared| ==> shared[j] in Elements(shared);
  }

  method CountHolding(members: set<string>, states: States, p: Policy) returns (n: nat)
    ensures n == |Holding(members, states, p)|
  {
    n := 0;
    var rest := states.Keys;
    ghost var counted: set<string> := {};
    while rest != {}
      invariant rest <= states.Keys
      invariant counted == Holding(members, states, p) - rest
      invariant n == |counted|
      decreases rest
    {
      var id :| id in rest;
      rest := rest - {id};
      if id in members && states[id] == p {
        n := n + 1;
        counted := counted + {id};
      }
    }
    assert counted == Holding(members, states, p);
  }

  method CheckBothCurrent(c: Handover, states: States, oldMembers: map<string, string>, newMembers: map<string, string>) returns (both: bool)
    requires oldMembers == Old(c) && newMembers == New(c)
    ensures both <==> BothCurrent(c, states)
  {
    var oldCount := CountHolding(oldMembers.Keys, states, OldPolicy(c));
    var newCount := CountHolding(newMembers.Keys, states, NewPolicy(c));
    both := oldCount >= c.oldQuorum.threshold && newCount >= c.newQuorum.threshold;
  }

  /** The replay loop; its failure is the one the code reports. */
  method ReplayTrace(c: Handover, ts: seq<Transition>, oldMembers: map<string, string>, newMembers: map<string, string>, shared: seq<string>)
    returns (states: States, err: Option<Failure>)
    requires oldMembers == Old(c) && newMembers == New(c) && Elements(shared) == Shared(c)
    ensures err == None ==> Replayed(c, ts).Some? && Replayed(c, ts).value.states == states
    ensures err == Some(SimultaneousAuthority) ==>
              exists n :: 0 <= n <= |ts| && Replayed(c, ts[..n]).Some? && BothCurrent(c, Replayed(c, ts[..n]).value.states)
    ensures err.Some? && err != Some(SimultaneousAuthority) ==> Replayed(c, ts) == None
  {
    hide Replayed, BothCurrent, Old, New, Shared;
    states := CollectStates(c, oldMembers, newMembers);
    SharedStart(c);
    var allFrozen := false;
    err := None;
    for i := 0 to |ts|
      invariant err == None && Replayed(c, ts[..i]) == Some(Replay(states, allFrozen))
      invariant Shared(c) <= states.Keys
    {
      var t := ts[i];
      assert ts[..i + 1] == ts[..i] + [t];
      err := CheckTransition(c, Replay(states, allFrozen), i, t);
      ReplayLast(c, ts[..i], t);
      if err.Some? {
        ReplayedPrefix(c, ts, i + 1);
        return;
      }
      states := states[t.witnessId := t.after];
      if !allFrozen {
        allFrozen := CheckFrozen(c, states, shared);
      }
      assert Replayed(c, ts[..i + 1]).value.states == states;
      var both := CheckBothCurrent(c, states, oldMembers, newMembers);
      if both {
        err := Some(SimultaneousAuthority);
        return;
      }
    }
    assert ts[..|ts|] == ts;
  }

  lemma SharedStart(c: Handover)
    ensures Shared(c) <= InitialStates(c).Keys
    ensures Replayed(c, []) == Some(Replay(InitialStates(c), false))
  {
  }

  lemma ReplayLast(c: Handover, ts: seq<Transition>, t: Transition)
    requires Replayed(c, ts).Some?
    ensures Replayed(c, ts + [t]) ==
            if CheckTransition(c, Replayed(c, ts).value, |ts|, t) == None
            then Some(Advance(c, Replayed(c, ts).value, t)) else None
  {
    assert (ts + [t])[..|ts|] == ts;
  }

  lemma {:induction false} ReplayedPrefix(c: Handover, ts: seq<Transition>, n: nat)
    requires n <= |ts| && Replayed(c, ts[..n]) == None
    ensures Replayed(c, ts) == None
    decreases |ts|
  {
    if n < |ts| {
      assert ts[..|ts| - 1][..n] == ts[..n];
      ReplayedPrefix(c, ts[..|ts| - 1], n);
    } else {
      assert ts[..n] == ts;
    }
  }

  predicate Carries(members: set<string>, p: Policy, states: States, current: map<string, WitnessState>, final: Head, active: Head, id: string) {
    id in members && id in states && states[id] == p &&
    id in current && current[id].historyHead == final && current[id].authorityHead == active
  }

  lemma CarryingMembers(members: set<string>, p: Policy, states: States, current: map<string, WitnessState>, final: Head, active: Head)
    ensures forall id :: id in Carrying(Holding(members, states, p), current, final, active)
                         <==> Carries(members, p, states, current, final, active, id)
  {
  }

  /** The final loop over the configured witnesses. */
  method CountCarriers(members: set<string>, p: Policy, states: States, current: map<string, WitnessState>, final: Head, active: Head)
    returns (n: nat, differs: bool)
    ensures !differs <==> forall id :: id in states ==> id in current && current[id].policy == states[id]
    ensures !differs ==> n == |Carrying(Holding(members, states, p), current, final, active)|
  {
    hide Carrying, Holding;
    n, differs := 0, false;
    var rest := states.Keys;
    ghost var counted: set<string> := {};
    while rest != {}
      invariant rest <= states.Keys
      invariant forall id :: id in states && id !in rest ==> id in current && current[id].policy == states[id]
      invariant forall id :: id in counted <==> id in states && id !in rest && Carries(members, p, states, current, final, active, id)
      invariant n == |counted|
      decreases rest
    {
      var id :| id in rest;
      if id !in current || current[id].policy != states[id] {
        differs := true;
        return;
      }
      rest := rest - {id};
      if Carries(members, p, states, current, final, active, id) {
        n := n + 1;
        counted := counted + {id};
      }
    }
    CarryingMembers(members, p, states, current, final, active);
    assert counted == Carrying(Holding(members, states, p), current, final, active);
  }

  /** Everything after the replay loop. */
  method CheckCurrent(c: Handover, o: Observation, states: States, newMembers: map<string, string>, shared: seq<string>, final: Head, active: Head)
    returns (err: Option<Failure>)
    requires newMembers == New(c) && Elements(shared) == Shared(c)
    ensures err != Some(SimultaneousAuthority)
    ensures err == None <==> CurrentMatches(states, o.current) && AllActivated(c, states) &&
                             |Carriers(c, states, o.current, final, active)| >= c.newQuorum.threshold
  {
    if |o.current| != |states| { return Some(OmittedWitness); }
    var newCount, differs := CountCarriers(newMembers.Keys, NewPolicy(c), states, o.current, final, active);
    if differs { return Some(PolicyDiffers); }
    for i := 0 to |shared|
      invariant forall j :: 0 <= j < i ==> shared[j] in states && states[shared[j]] == NewPolicy(c)
    {
      if shared[i] !in states || states[shared[i]] != NewPolicy(c) {
        assert shared[i] in Elements(shared);
        return Some(NotAllActivated);
      }
    }
    assert forall id :: id in Shared(c) ==> id in Elements(shared);
    if newCount < c.newQuorum.threshold { return Some(QuorumNotCurrent); }
    return None;
  }

  /** `verifyQuorumSuccession`.  Given what `genesis` and `succession` established,
      it accepts exactly the observations that `Accepts` describes, and it never
      reports simultaneous authority. */
  method VerifyQuorumSuccession(c: Handover, o: Observation, final: Head, active: Head) returns (err: Option<Failure>)
    ensures err == None ==> Accepts(c, o, final, active)
    ensures Established(c) ==> (err == None <==> Accepts(c, o, final, active))
    ensures Established(c) ==> err != Some(SimultaneousAuthority)
  {
    var oldMembers := CollectMembers(c.oldQuorum.members);
    var newMembers := CollectMembers(c.newQuorum.members);
    var shared := CollectShared(oldMembers, newMembers);
    assert Elements(shared) == Shared(c);
    SharedCount(shared);
    if |shared| < |oldMembers| - c.oldQuorum.threshold + 1 ||
       |shared| < |newMembers| - c.newQuorum.threshold + 1 || |shared| < c.newQuorum.threshold {
      return Some(NoBlockingSet);
    }
    if c.quorumHash == "" || c.historyHash == "" || o.quorumHash != c.quorumHash || o.historyHash != c.historyHash {
      return Some(UnboundCommitments);
    }
    var states;
    states, err := ReplayTrace(c, o.transitions, oldMembers, newMembers, shared);
    if err.Some? {
      if Established(c) && err == Some(SimultaneousAuthority) {
        ghost var n :| 0 <= n <= |o.transitions| && Replayed(c, o.transitions[..n]).Some? &&
                       BothCurrent(c, Replayed(c, o.transitions[..n]).value.states);
        NeverBothCurrent(c, o.transitions[..n]);
      }
      return;
    }
    err := CheckCurrent(c, o, states, newMembers, shared, final, active);
  }

  lemma SharedCount(shared: seq<string>)
    requires Ascending(shared)
    ensures |shared| == |Elements(shared)|
  {
    AscendingDistinct(shared);
    OrderingLength(shared, Elements(shared));
  }
}
