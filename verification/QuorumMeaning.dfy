/** When a quorum hand-over (`verifyQuorumSuccession`, evidenceverify/succession.go) is accepted,
    in terms of the two member lists, the trace, and the current policies. */
module QuorumMeaning {
  import opened Text
  import opened QuorumSuccession

  /** The witnesses that both quorums list with the same manifest. */
  function Common(c: Handover): set<string> {
    set m | m in c.oldQuorum.members && m in c.newQuorum.members :: m.id
  }

  function Ids(ms: seq<Member>): set<string> { set m | m in ms :: m.id }

  lemma {:induction false} MapMeaning(ms: seq<Member>)
    requires forall i, j :: 0 <= i < j < |ms| ==> ms[i].id != ms[j].id
    ensures MemberMap(ms).Keys == Ids(ms) && |MemberMap(ms)| == |ms|
    ensures forall m: Member :: m in ms <==> m.id in MemberMap(ms) && MemberMap(ms)[m.id] == m.manifestHash
  {
    MemberMapSize(ms);
    MemberMapKeys(ms);
    var mm := MemberMap(ms);
    forall m | m in ms ensures m.id in mm && mm[m.id] == m.manifestHash {
      var j :| 0 <= j < |ms| && ms[j] == m;
      assert ms[j].id in mm;
      var i :| 0 <= i < |ms| && ms[i].id == m.id && ms[i].manifestHash == mm[m.id];
      assert i == j;
    }
    forall m: Member | m.id in mm && mm[m.id] == m.manifestHash ensures m in ms {
      var i :| 0 <= i < |ms| && ms[i].id == m.id && ms[i].manifestHash == mm[m.id];
      assert ms[i] == m;
    }
    forall id ensures id in mm <==> id in Ids(ms) {
      if id in mm {
        var i :| 0 <= i < |ms| && ms[i].id == id;
        assert ms[i] in ms;
      }
    }
  }

  lemma CommonMeaning(c: Handover)
    requires Established(c)
    ensures Shared(c) == Common(c) && Old(c).Keys == Ids(c.oldQuorum.members) && New(c).Keys == Ids(c.newQuorum.members)
    ensures |Old(c)| == |c.oldQuorum.members| && |New(c)| == |c.newQuorum.members|
  {
    MapMeaning(c.oldQuorum.members);
    MapMeaning(c.newQuorum.members);
    SharedAreNew(c);
    forall id ensures id in Shared(c) <==> id in Common(c) {
      if id in Shared(c) {
        var m := Member(id, Old(c)[id]);
        assert m in c.oldQuorum.members && m in c.newQuorum.members;
      }
      if id in Common(c) {
        var m :| m in c.oldQuorum.members && m in c.newQuorum.members && m.id == id;
        assert Old(c)[id] == m.manifestHash && New(c)[id] == m.manifestHash;
      }
    }
  }

  /** A quorum is safe exactly if its threshold is a majority it can reach, of named members
      with full manifest digests and no name twice. */
  lemma SafeMeaning(q: Quorum)
    ensures SafeQuorum(q) <==>
      |q.members| < 2 * q.threshold && q.threshold <= |q.members| && (forall m :: m in q.members ==> m.id != "" && |m.manifestHash| == 71) &&
      forall i, j :: 0 <= i < |q.members| && 0 <= j < |q.members| && q.members[i].id == q.members[j].id ==> i == j
  {
    assert forall i :: 0 <= i < |q.members| ==> q.members[i] in q.members;
  }

  /** Every common witness is new in the end, and the others keep the side they are on. */
  function Settled(c: Handover, id: string): Policy {
    if id in Common(c) || id !in Ids(c.oldQuorum.members)
    then Policy("ACTIVE", c.newEpoch, c.newHash, "", "") else Policy("ACTIVE", c.oldEpoch, c.oldHash, "", "")
  }

  /** The `i`-th step, which freezes this witness under both policies, or activates it. */
  function FreezeOf(c: Handover, i: nat, id: string): Transition {
    Transition(i + 1, id, Policy("ACTIVE", c.oldEpoch, c.oldHash, "", ""),
               Policy("JOINT_FROZEN", c.newEpoch, c.quorumHash, c.oldHash, c.newHash), c.head, c.frozen)
  }

  function ActivateOf(c: Handover, i: nat, id: string): Transition {
    Transition(i + 1, id, Policy("JOINT_FROZEN", c.newEpoch, c.quorumHash, c.oldHash, c.newHash),
               Policy("ACTIVE", c.newEpoch, c.newHash, "", ""), c.head, c.frozen)
  }

  /** The trace freezes `fs` and then activates `acts`, in these orders. */
  predicate Performs(c: Handover, ts: seq<Transition>, fs: seq<string>, acts: seq<string>) {
    |ts| == |fs| + |acts| &&
    (forall i :: 0 <= i < |fs| ==> ts[i] == FreezeOf(c, i, fs[i])) &&
    forall i :: |fs| <= i < |ts| ==> ts[i] == ActivateOf(c, i, acts[i - |fs|])
  }

  ghost predicate HandsOver(c: Handover, ts: seq<Transition>) {
    exists fs, acts :: Ordering(fs, Common(c)) && Ordering(acts, Common(c)) && Performs(c, ts, fs, acts)
  }

  /** The new members that hold both final heads under the new policy. */
  function Holders(c: Handover, current: map<string, WitnessState>, final: Head, active: Head): set<string> {
    set id | id in Ids(c.newQuorum.members) && id in current &&
             current[id] == WitnessState(Policy("ACTIVE", c.newEpoch, c.newHash, "", ""), final, active)
  }

  /** The whole acceptance: enough common witnesses to block either quorum and to be a new one, the
      exact commitments, a trace that freezes all of them and then activates all of them, and a
      complete observation in which a new quorum holds both heads. */
  ghost predicate Accepted(c: Handover, o: Observation, final: Head, active: Head) {
    |Common(c)| > |c.oldQuorum.members| - c.oldQuorum.threshold && |Common(c)| > |c.newQuorum.members| - c.newQuorum.threshold &&
    |Common(c)| >= c.newQuorum.threshold &&
    o.quorumHash == c.quorumHash != "" && o.historyHash == c.historyHash != "" && HandsOver(c, o.transitions) &&
    o.current.Keys == Ids(c.oldQuorum.members) + Ids(c.newQuorum.members) &&
    (forall id :: id in o.current ==> o.current[id].policy == Settled(c, id)) &&
    |Holders(c, o.current, final, active)| >= c.newQuorum.threshold
  }

  lemma ScriptMeaning(c: Handover, ts: seq<Transition>, fs: seq<string>, acts: seq<string>)
    ensures ts == Script(c, fs, acts) <==> Performs(c, ts, fs, acts)
  {
    var script := Script(c, fs, acts);
    assert |script| == |fs| + |acts|;
    forall i | 0 <= i < |script| ensures script[i] == if i < |fs| then FreezeOf(c, i, fs[i]) else ActivateOf(c, i, acts[i - |fs|]) {
      assert i < |fs| ==> script[i] == Freeze(c, i, fs[i]);
      assert i >= |fs| ==> script[i] == Activate(c, i, acts[i - |fs|]);
    }
    if Performs(c, ts, fs, acts) {
      assert forall i :: 0 <= i < |ts| ==> ts[i] == script[i];
    }
  }

  lemma FinalStates(c: Handover, ts: seq<Transition>)
    requires Established(c) && Blocking(c) && Replayed(c, ts).Some? && AllActivated(c, Replayed(c, ts).value.states)
    ensures var states := Replayed(c, ts).value.states;
      states.Keys == Ids(c.oldQuorum.members) + Ids(c.newQuorum.members) && forall id :: id in states ==> states[id] == Settled(c, id)
  {
    CommonMeaning(c);
    PoliciesDiffer(c);
    var fs, acts := AcceptedShape(c, ts);
    var states := Replayed(c, ts).value.states;
    assert forall id :: id in Shared(c) ==> states[id] == NewPolicy(c);
    forall id | id in states ensures states[id] == Settled(c, id) {
      assert id in acts ==> id in Elements(acts);
      assert id in fs ==> id in Elements(fs);
    }
  }

  lemma TraceMeaning(c: Handover, ts: seq<Transition>)
    requires Established(c) && Blocking(c)
    ensures Replayed(c, ts).Some? && AllActivated(c, Replayed(c, ts).value.states) <==> HandsOver(c, ts)
  {
    hide Replayed, AllActivated, Blocking;
    ActivatingTraces(c, ts);
    CommonMeaning(c);
    forall fs, acts ensures ts == Script(c, fs, acts) <==> Performs(c, ts, fs, acts) { ScriptMeaning(c, ts, fs, acts); }
  }

  /** Given two safe quorums and an epoch forward, a hand-over is accepted exactly then. */
  lemma AcceptsMeaning(c: Handover, o: Observation, final: Head, active: Head)
    requires Established(c)
    ensures Accepts(c, o, final, active) <==> Accepted(c, o, final, active)
  {
    hide Replayed, AllActivated, HandsOver, Common, Ids, Shared, SafeQuorum, Settled, Carriers, Holders;
    CommonMeaning(c);
    if Blocking(c) {
      TraceMeaning(c, o.transitions);
      if HandsOver(c, o.transitions) {
        FinalStates(c, o.transitions);
        CurrentMeaning(c, Replayed(c, o.transitions).value.states, o.current);
        if CurrentMatches(Replayed(c, o.transitions).value.states, o.current) {
          HoldersMeaning(c, Replayed(c, o.transitions).value.states, o.current, final, active);
        }
      }
    }
  }

  lemma CurrentMeaning(c: Handover, states: States, current: map<string, WitnessState>)
    requires forall id :: id in states ==> states[id] == Settled(c, id)
    ensures CurrentMatches(states, current) <==> current.Keys == states.Keys && forall id :: id in current ==> current[id].policy == Settled(c, id)
  {
    hide Settled;
    if CurrentMatches(states, current) {
      assert states.Keys <= current.Keys && |states.Keys| == |states| && |current.Keys| == |current|;
      SubsetSize(states.Keys, current.Keys);
      SameSize(states.Keys, current.Keys);
    } else if current.Keys == states.Keys {
      assert |states.Keys| == |states| && |current.Keys| == |current|;
    }
  }

  lemma SameSize(a: set<string>, b: set<string>)
    requires a <= b && |a| == |b|
    ensures a == b
  {
    assert b == a + (b - a);
    assert |b - a| == 0;
  }

  lemma HoldersMeaning(c: Handover, states: States, current: map<string, WitnessState>, final: Head, active: Head)
    requires Established(c) && states.Keys == current.Keys
    requires forall id :: id in states ==> states[id] == current[id].policy
    ensures Carriers(c, states, current, final, active) == Holders(c, current, final, active)
  {
    CommonMeaning(c);
  }
}
