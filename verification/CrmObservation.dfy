/** What the reads after a mutation establish (`observePostcondition`,
    internal/eepcrm/executor.go): three reads, of which the last two are compared. */
module CrmObservation {
  import opened Text
  import opened Framing
  import opened Postcondition
  import opened CrmEvidence

  /** One read of the customer: whether it arrived, whether it is bound to the destination,
      whether it names the customer, and the state it shows. */
  datatype Read = Read(arrived: bool, bound: bool, target: bool, state: Option<map<string, Json>>)

  predicate Good(r: Read) { r.arrived && r.bound && r.target && r.state.Some? }

  /** The reads that were made: only the last one may be bad, and a bad one ends them. */
  predicate Made(rs: seq<Read>) {
    1 <= |rs| <= 3 && (forall i :: 0 <= i < |rs| - 1 ==> Good(rs[i])) &&
    (|rs| < 3 ==> !Good(rs[|rs| - 1]))
  }

  predicate AllGood(rs: seq<Read>) {
    |rs| == 3 && Good(rs[0]) && Good(rs[1]) && Good(rs[2])
  }

  /** How many reads were evaluated. */
  function Usables(rs: seq<Read>): (n: nat)
    requires rs != []
    ensures n <= |rs| && (Made(rs) ==> forall i :: 0 <= i < n ==> Good(rs[i]))
  {
    if Good(rs[|rs| - 1]) then |rs| else |rs| - 1
  }

  ghost function EvaluationOf(h: string -> string, plan: Plan, r: Read): Evaluation
    requires r.state.Some?
  {
    Evaluated(h, plan, r.state.value)
  }

  ghost predicate LastTwoAgree(h: string -> string, plan: Plan, rs: seq<Read>)
    requires AllGood(rs)
  {
    Equivalent(EvaluationOf(h, plan, rs[1]), EvaluationOf(h, plan, rs[2]))
  }

  /** The status that the reads give. */
  ghost function StatusOf(h: string -> string, plan: Plan, rs: seq<Read>): Status
    requires Made(rs)
  {
    var last := rs[|rs| - 1];
    if !last.arrived || !last.bound then Unavailable
    else if !Good(last) then WrongTarget
    else if LastTwoAgree(h, plan, rs) then Stable
    else Contradictory
  }

  /** The observation that the reads give; `stateHash` is the digest of a whole state. */
  ghost function ObservationOf(h: string -> string, stateHash: map<string, Json> -> string, plan: Plan, rs: seq<Read>): Observation
    requires Made(rs)
  {
    var n, status := Usables(rs), StatusOf(h, plan, rs);
    if n == 0 then Observation(None, "", status, 0, true)
    else
      var last := rs[n - 1];
      assert Good(last);
      Observation(Some(EvaluationOf(h, plan, last)), Sha(stateHash(last.state.value)), status, n, status != Stable)
  }

  lemma ObservationIsPlausible(h: string -> string, stateHash: map<string, Json> -> string, plan: Plan, rs: seq<Read>)
    requires Made(rs)
    ensures Observes(h, plan, ObservationOf(h, stateHash, plan, rs))
  {
    hide Evaluated, Equivalent;
    var n := Usables(rs);
    if n > 0 {
      ShaNotBlank(stateHash(rs[n - 1].state.value));
      assert Built(h, plan, EvaluationOf(h, plan, rs[n - 1]));
    }
  }

  /** An observation is stable exactly when all three reads are good and the last two show
      the same value, or the same absence, at every patched key, or the hash collides. */
  lemma StableMeansLastTwoAgree(h: string -> string, stateHash: map<string, Json> -> string, plan: Plan, rs: seq<Read>)
    requires Made(rs)
    ensures var o := ObservationOf(h, stateHash, plan, rs);
      (!o.failed <==> o.status == Stable) &&
      (AllGood(rs) && AgreeOn(plan.patch, rs[1].state.value, rs[2].state.value) ==> o.status == Stable) &&
      (o.status == Stable ==>
         AllGood(rs) && (ValuesCollide(h, plan.patch, rs[1].state.value, rs[2].state.value) ||
                         AgreeOn(plan.patch, rs[1].state.value, rs[2].state.value)))
  {
    hide Evaluated, AgreeOn, Equivalent, ValuesCollide;
    if AllGood(rs) { EquivalentStatesAgree(h, plan, rs[1].state.value, rs[2].state.value); }
  }

  /** A stable VERIFIED observation means that the last two reads held every patched value,
      collision or not. */
  lemma StableVerifiedHolds(h: string -> string, stateHash: map<string, Json> -> string, plan: Plan, rs: seq<Read>)
    requires Made(rs) && Usable(plan)
    ensures var o := ObservationOf(h, stateHash, plan, rs);
      !o.failed && o.evaluation.value.result == Verified ==>
        AllGood(rs) && HoldsAll(plan.patch, rs[1].state.value) && HoldsAll(plan.patch, rs[2].state.value)
  {
    hide HoldsAll, Evaluated, Blank, Usable;
    var o := ObservationOf(h, stateHash, plan, rs);
    if !o.failed {
      ResultMeaning(h, plan, rs[1].state.value);
      ResultMeaning(h, plan, rs[2].state.value);
      EquivalentStatesAgree(h, plan, rs[1].state.value, rs[2].state.value);
    }
  }

  /** Three good reads of which the last two evaluate alike. */
  ghost predicate Steady(h: string -> string, plan: Plan, rs: seq<Read>) { AllGood(rs) && LastTwoAgree(h, plan, rs) }

  /** Whether the reads after a PATCH decide the attempt: they are steady, and the request
      was accepted or the last read holds every patched value. */
  ghost predicate Settles(h: string -> string, accepted: bool, plan: Plan, rs: seq<Read>) {
    Steady(h, plan, rs) && (accepted || HoldsAll(plan.patch, rs[2].state.value))
  }

  lemma SteadyMeaning(h: string -> string, stateHash: map<string, Json> -> string, plan: Plan, rs: seq<Read>)
    requires Made(rs) && Usable(plan)
    ensures var o := ObservationOf(h, stateHash, plan, rs);
      (o.failed <==> !Steady(h, plan, rs)) &&
      (!o.failed ==> o.evaluation.Some? && (o.evaluation.value.result == Verified <==> HoldsAll(plan.patch, rs[2].state.value)))
  {
    hide HoldsAll, Evaluated, Usable, Equivalent;
    if Steady(h, plan, rs) { ResultMeaning(h, plan, rs[2].state.value); }
  }

  /** The first read never matters beyond being good. */
  lemma FirstReadIgnored(h: string -> string, stateHash: map<string, Json> -> string, plan: Plan, rs: seq<Read>, other: Read)
    requires AllGood(rs) && Good(other)
    ensures ObservationOf(h, stateHash, plan, rs[0 := other]) == ObservationOf(h, stateHash, plan, rs)
  {
    hide Evaluated, Equivalent;
  }

  /** A stable observation agrees with all three reads exactly when the first read also
      shows the values of the last, or the hash collides. */
  lemma AllThreeAgreeIff(h: string -> string, stateHash: map<string, Json> -> string, plan: Plan, rs: seq<Read>)
    requires Made(rs) && ObservationOf(h, stateHash, plan, rs).status == Stable
    ensures AllGood(rs)
    ensures AgreeOn(plan.patch, rs[0].state.value, rs[2].state.value) ==>
              Equivalent(EvaluationOf(h, plan, rs[0]), EvaluationOf(h, plan, rs[2]))
    ensures Equivalent(EvaluationOf(h, plan, rs[0]), EvaluationOf(h, plan, rs[2])) ==>
              ValuesCollide(h, plan.patch, rs[0].state.value, rs[2].state.value) ||
              AgreeOn(plan.patch, rs[0].state.value, rs[2].state.value)
  {
    hide Evaluated, AgreeOn, Equivalent, ValuesCollide;
    EquivalentStatesAgree(h, plan, rs[0].state.value, rs[2].state.value);
  }

  /** A value that was absent from the first read and present in the next two is
      reported as stably VERIFIED. */
  lemma FirstReadMayDiffer(h: string -> string, stateHash: map<string, Json> -> string) returns (plan: Plan, rs: seq<Read>)
    ensures Made(rs) && Usable(plan) && AllGood(rs)
    ensures var o := ObservationOf(h, stateHash, plan, rs);
      o.status == Stable && !o.failed && o.evaluation.value.result == Verified
    ensures EvaluationOf(h, plan, rs[0]).result == Unsatisfied
  {
    hide Evaluated, Equivalent, Blank;
    var before, after: map<string, Json> := map["id" := "c"], map["id" := "c", "name" := "n"];
    plan := Plan("c", map["name" := "n"]);
    rs := [Read(true, true, true, Some(before)), Read(true, true, true, Some(after)), Read(true, true, true, Some(after))];
    StartNotBlank("c");
    assert "name" in plan.patch && "name"[0] != "id"[0];
    assert HoldsAll(plan.patch, after) && !HoldsAll(plan.patch, before);
    ResultMeaning(h, plan, before);
    ResultMeaning(h, plan, after);
    EquivalentStatesAgree(h, plan, after, after);
  }
}
