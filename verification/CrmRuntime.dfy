/** `Execute`, `ReconcileAttempt` and `RetireAttemptUnknown` (internal/eepcrm) as
    methods.  Between any two calls other processes take arbitrary steps, and every
    reply is arbitrary; each method is proved to be one process of `CrmAttempts`, so
    its theorems hold for any mix of concurrent callers. */
module CrmRuntime {
  import opened Text
  import opened Framing
  import opened CrmAttempts
  import Post = Postcondition
  import Ev = CrmEvidence
  import Obs = CrmObservation

  datatype Failure =
    | NotAdmitted | ClaimRefused | JournalFailed | ReadFailed | SnapshotUnbound | InvalidEvidence
    | FinalizationFailed | BoundaryNotEntered | StaleRejected | OutcomeUnknown | NotVerified
    | NotRecoverable | RetirementReasonMissing

  function ToVerdict(r: Post.Result): Verdict {
    match r
    case Verified => Verdict.Verified
    case Partial => Verdict.Partial
    case _ => Verdict.Unsatisfied
  }

  function ResponseOf(status: int): Response {
    if 200 <= status < 300 then Success else if status == 412 then PreconditionFailed else Ambiguous
  }

  const BLANK_REPLY := Reply(true, false, None, None, Ambiguous, None)

  /** The steps of a schedule that belong to other processes. */
  function Others(steps: seq<Step>, pid: nat): (r: seq<Step>)
    ensures forall i :: 0 <= i < |r| ==> r[i].pid != pid
  {
    if steps == [] then []
    else if steps[0].pid == pid then Others(steps[1..], pid)
    else [steps[0]] + Others(steps[1..], pid)
  }

  lemma {:induction false} OthersLeaveAlone(s: System, steps: seq<Step>, pid: nat)
    requires pid in s.procs && forall i :: 0 <= i < |steps| ==> steps[i].pid != pid
    ensures pid in Run(s, steps).procs && Run(s, steps).procs[pid] == s.procs[pid]
    decreases |steps|
  {
    if steps != [] { OthersLeaveAlone(Apply(s, steps[0]), steps[1..], pid); }
  }

  class World {
    const d: Ev.Digests
    /** `journal.DigestPayload` of a whole customer state. */
    const stateHash: map<string, Post.Json> -> string
    var sys: System
    ghost var past: seq<Step>
    /** Every read of the customer, in order. */
    ghost var seen: seq<Obs.Read>

    ghost predicate Valid() reads this { sys == Run(INITIAL, past) }

    constructor (d: Ev.Digests, stateHash: map<string, Post.Json> -> string)
      ensures Valid() && sys == INITIAL
    {
      this.d, this.stateHash := d, stateHash;
      sys, past, seen := INITIAL, [], [];
    }

    ghost predicate At(pid: nat, pc: Pc) reads this { pid in sys.procs && sys.procs[pid] == pc }

    /** The last event is this process's change of the record, and the record shows it. */
    ghost predicate Stored(pid: nat, a: Action) reads this`sys {
      a.Swap? && sys.store == Some(a.to) && sys.log != [] && sys.log[|sys.log| - 1] == Changed(pid, a.from, a.to, a.basis)
    }

    /** The last two reads held every intended value. */
    ghost predicate LastTwoHold(patch: map<string, Post.Json>) reads this`seen {
      |seen| >= 2 && Holds(patch, seen[|seen| - 2]) && Holds(patch, seen[|seen| - 1])
    }

    /** The last read held every intended value. */
    ghost predicate LastHolds(patch: map<string, Post.Json>) reads this`seen {
      seen != [] && Holds(patch, seen[|seen| - 1])
    }

    /** `getCustomer` and the identity checks on its answer. */
    method Get() returns (r: Obs.Read)
      modifies this`seen
      ensures seen == old(seen) + [r]
    {
      r := *;
      seen := seen + [r];
    }

    method Begin(pid: nat, op: Operation)
      requires Valid() && pid !in sys.procs
      modifies this`sys, this`past
      ensures Valid() && At(pid, Start(op))
    {
      RunConcat(INITIAL, past, [Spawn(pid, op)]);
      sys := Apply(sys, Spawn(pid, op));
      past := past + [Spawn(pid, op)];
    }

    /** One call: the others run, then the call takes effect with the given reply. */
    method Call(pid: nat, a: Action, r: Reply, ghost pc: Pc) returns (granted: bool)
      requires Valid() && At(pid, pc) && Asks(pc) == a
      modifies this`sys, this`past
      ensures Valid() && At(pid, After(pc, r, granted))
      ensures granted ==> r.ok && (a.Swap? ==> Stored(pid, a))
    {
      var others: seq<Step> := *;
      others := Others(others, pid);
      OthersLeaveAlone(sys, others, pid);
      RunConcat(INITIAL, past, others);
      sys := Run(sys, others);
      past := past + others;
      granted := r.ok && Possible(sys.store, a) && !r.ackLost;
      RunConcat(INITIAL, past, [Move(pid, r)]);
      sys := MoveOne(sys, pid, r);
      past := past + [Move(pid, r)];
    }

    /** A call to the journal, to a check or to the store that either succeeds or not. */
    method Try(pid: nat, a: Action, ghost pc: Pc) returns (ok: bool, ghost r: Reply, granted: bool)
      requires Valid() && At(pid, pc) && Asks(pc) == a
      modifies this`sys, this`past
      ensures Valid() && At(pid, After(pc, r, granted)) && r.ok == ok && (granted ==> ok && (a.Swap? ==> Stored(pid, a)))
    {
      var lost: bool;
      ok, lost := *, *;
      var reply := BLANK_REPLY.(ok := ok, ackLost := lost);
      r := reply;
      granted := Call(pid, a, reply, pc);
    }

    method Journal(pid: nat, ghost pc: Pc, ghost next: Pc) returns (ok: bool)
      requires Valid() && At(pid, pc) && Asks(pc) == Skip
      requires forall r, g :: After(pc, r, g) == if r.ok then next else Done
      modifies this`sys, this`past
      ensures Valid() && At(pid, if ok then next else Done)
    {
      ghost var r;
      var granted;
      ok, r, granted := Try(pid, Skip, pc);
    }

    method Store(pid: nat, a: Action, ghost pc: Pc, ghost next: Pc) returns (ok: bool)
      requires Valid() && At(pid, pc) && Asks(pc) == a
      requires forall r, g :: After(pc, r, g) == if g then next else Done
      modifies this`sys, this`past
      ensures Valid() && At(pid, if ok then next else Done)
    {
      ghost var r;
      var tried;
      tried, r, ok := Try(pid, a, pc);
    }

    /** `observePostcondition`: the observation is the one its reads give. */
    method Observe(plan: Post.Plan) returns (o: Ev.Observation, ghost rs: seq<Obs.Read>)
      requires Post.Usable(plan)
      modifies this`seen
      ensures seen == old(seen) + rs && Obs.Made(rs)
      ensures o == Obs.ObservationOf(d.h, stateHash, plan, rs)
    {
      hide Post.Evaluated, Post.Usable, Post.Equivalent;
      var evaluations: seq<Post.Evaluation> := [];
      var after := "";
      rs := [];
      for i := 0 to 3
        invariant |evaluations| == |rs| == i && seen == old(seen) + rs
        invariant forall j :: 0 <= j < i ==> Obs.Good(rs[j]) && evaluations[j] == Obs.EvaluationOf(d.h, plan, rs[j])
        invariant after == if i == 0 then "" else Ev.Sha(stateHash(rs[i - 1].state.value))
      {
        var read := Get();
        rs := rs + [read];
        var last := if i == 0 then None else Some(evaluations[i - 1]);
        if !read.arrived || !read.bound { return Ev.Observation(last, after, Ev.Unavailable, i, true), rs; }
        if !read.target || read.state == None { return Ev.Observation(last, after, Ev.WrongTarget, i, true), rs; }
        var e := Post.Evaluate(d.h, plan, read.state);
        evaluations := evaluations + [e.value];
        after := Ev.Sha(stateHash(read.state.value));
      }
      var same := Post.CheckEquivalent(evaluations[1], evaluations[2]);
      o := Ev.Observation(Some(evaluations[2]), after, if same then Ev.Stable else Ev.Contradictory, 3, !same);
    }

    /** An observation that teaches VERIFIED rests on two reads that held every value. */
    method Examine(plan: Post.Plan) returns (o: Ev.Observation, ghost rs: seq<Obs.Read>)
      requires Post.Usable(plan)
      modifies this`seen
      ensures Ev.Observes(d.h, plan, o)
      ensures seen == old(seen) + rs && Obs.Made(rs)
      ensures Learned(o).Some? <==> Obs.Steady(d.h, plan, rs)
      ensures Learned(o) == Some(Verdict.Verified) <==> Obs.Steady(d.h, plan, rs) && Post.HoldsAll(plan.patch, rs[2].state.value)
      ensures Learned(o) == Some(Verdict.Verified) ==> LastTwoHold(plan.patch)
      ensures Learned(o).Some? ==> (Learned(o) == Some(Verdict.Verified) <==> o.evaluation.value.result == Post.Verified)
    {
      hide Post.Evaluated, Post.Usable, Post.Equivalent, Post.HoldsAll, Obs.Steady, Ev.Observes;
      o, rs := Observe(plan);
      Obs.ObservationIsPlausible(d.h, stateHash, plan, rs);
      Obs.SteadyMeaning(d.h, stateHash, plan, rs);
      Obs.StableVerifiedHolds(d.h, stateHash, plan, rs);
      if Learned(o) == Some(Verdict.Verified) {
        assert seen[|seen| - 2] == rs[1] && seen[|seen| - 1] == rs[2];
      }
    }

    /** What a process learns from an observation. */
    function Learned(o: Ev.Observation): Option<Verdict> {
      if o.failed || o.evaluation == None then None else Some(ToVerdict(o.evaluation.value.result))
    }

    /** What a returned outcome without error stands for: the record is completed by this
        very process, on reads that held every intended value. */
    ghost predicate Succeeded(pid: nat, plan: Post.Plan, outcome: Option<Ev.Outcome>) reads this`sys, this`seen {
      outcome.Some? &&
      if outcome.value.result == Post.AlreadySatisfied
      then Stored(pid, Swap(Claimed, Completed, AlreadySatisfied)) && LastHolds(plan.patch)
      else outcome.value.result == Post.Verified && LastTwoHold(plan.patch) &&
           (Stored(pid, Swap(Accepted, Completed, StableObservation(Verdict.Verified))) ||
            Stored(pid, Swap(PossibleEffect, Completed, StableObservation(Verdict.Verified))))
    }

    /** How the answer to PATCH, the reads after it and the result fit together. */
    ghost predicate Reported(plan: Post.Plan, answer: Option<int>, rs: seq<Obs.Read>, err: Option<Failure>) {
      if rs != [] then Obs.Made(rs) && answer.Some? && answer.value != 412 && Concludes(200 <= answer.value < 300, plan, rs, err)
      else if answer == Some(412) then err == Some(StaleRejected) || err == Some(FinalizationFailed)
      else if answer.Some? then 200 <= answer.value < 300 && err == Some(FinalizationFailed)
      else err.Some? ==> err.value != OutcomeUnknown && err.value != NotVerified && err.value != StaleRejected
    }

    /** What the read before decides: a bad one ends the attempt, one that already holds every
        value needs no PATCH, and after any other PATCH is sent unless the boundary refuses. */
    ghost predicate Decided(plan: Post.Plan, before: Obs.Read, answer: Option<int>, err: Option<Failure>) {
      if !Obs.Good(before) then answer == None && err == Some(if before.arrived then SnapshotUnbound else ReadFailed)
      else if Post.HoldsAll(plan.patch, before.state.value)
      then answer == None && (err.Some? ==> (err.value == InvalidEvidence || err.value == JournalFailed || err.value == FinalizationFailed))
      else answer == None <==> err == Some(BoundaryNotEntered)
    }

    method Execute(pid: nat, ids: Ev.Ids, plan: Post.Plan)
      returns (outcome: Option<Ev.Outcome>, err: Option<Failure>, ghost answer: Option<int>, ghost rs: seq<Obs.Read>)
      requires Valid() && pid !in sys.procs && Ev.Identified(ids)
      modifies this
      ensures Valid() && (pid in sys.procs ==> At(pid, Done))
      ensures outcome.Some? ==> Ev.VerifiedOutcome(d, outcome.value)
      ensures err == None ==> Succeeded(pid, plan, outcome) && sys.store == Some(Completed)
      ensures Post.OrderKept(plan.patch.Keys) ==> err != Some(InvalidEvidence)
      ensures Reported(plan, answer, rs, err)
      ensures if |seen| == |old(seen)| then seen == old(seen) && (err == Some(NotAdmitted) || err == Some(ClaimRefused) || err == Some(JournalFailed))
              else |seen| > |old(seen)| && seen == old(seen) + [seen[|old(seen)|]] + rs && Decided(plan, seen[|old(seen)|], answer, err)
    {
      hide Run, Asks, After, Blank, LastTwoHold, LastHolds, Ev.VerifiedOutcome, Ev.Identified, Post.Usable, Post.OrderKept,
        Post.HoldsAll, Obs.Settles, Obs.Steady, Concludes, Obs.Good;
      outcome, answer, rs := None, None, [];
      var admitted: bool := *;
      if !admitted || Blank(plan.customerId) || |plan.patch| == 0 { return None, Some(NotAdmitted), None, []; }
      UsablePlan(plan);
      Begin(pid, Operation.Execute);
      err := ClaimAndAuthorize(pid);
      if err.Some? { return; }
      outcome, err, answer, rs := ExecuteClaimed(pid, ids, plan);
    }

    /** From the precondition read on. */
    method ExecuteClaimed(pid: nat, ids: Ev.Ids, plan: Post.Plan)
      returns (outcome: Option<Ev.Outcome>, err: Option<Failure>, ghost answer: Option<int>, ghost rs: seq<Obs.Read>)
      requires Valid() && At(pid, ExRead) && Ev.Identified(ids) && Post.Usable(plan)
      modifies this
      ensures Valid() && At(pid, Done)
      ensures outcome.Some? ==> Ev.VerifiedOutcome(d, outcome.value)
      ensures err == None ==> Succeeded(pid, plan, outcome)
      ensures Post.OrderKept(plan.patch.Keys) ==> err != Some(InvalidEvidence)
      ensures Reported(plan, answer, rs, err)
      ensures |seen| > |old(seen)| && seen == old(seen) + [seen[|old(seen)|]] + rs && Decided(plan, seen[|old(seen)|], answer, err)
    {
      hide Run, Asks, After, Blank, Stored, LastTwoHold, LastHolds, Ev.VerifiedOutcome, Post.Usable, Post.OrderKept, Post.Evaluated,
        Post.HoldsAll, Obs.Settles, Obs.Steady;
      outcome, answer, rs := None, None, [];
      var before, e;
      before, e, err := ReadBefore(pid, plan);
      if err.Some? { return; }
      var bound := ids.(beforeHash := stateHash(before));
      if e.result == Post.Verified {
        outcome, err := FinishSatisfied(pid, bound, plan, before, e);
      } else {
        outcome, err, answer, rs := ExecuteMutation(pid, bound, plan);
      }
    }

    /** From the first check of `Dispatch` to the end. */
    method ExecuteMutation(pid: nat, ids: Ev.Ids, plan: Post.Plan)
      returns (outcome: Option<Ev.Outcome>, err: Option<Failure>, ghost answer: Option<int>, ghost rs: seq<Obs.Read>)
      requires Valid() && At(pid, ExCheck) && Ev.Identified(ids) && Post.Usable(plan)
      modifies this
      ensures Valid() && At(pid, Done)
      ensures outcome.Some? ==> Ev.VerifiedOutcome(d, outcome.value)
      ensures err == None ==> outcome.Some? && outcome.value.result == Post.Verified && LastTwoHold(plan.patch)
      ensures err == None ==> Stored(pid, Swap(Accepted, Completed, StableObservation(Verdict.Verified))) ||
                              Stored(pid, Swap(PossibleEffect, Completed, StableObservation(Verdict.Verified)))
      ensures Post.OrderKept(plan.patch.Keys) ==> err != Some(InvalidEvidence)
      ensures seen == old(seen) + rs && Reported(plan, answer, rs, err) && (answer == None <==> err == Some(BoundaryNotEntered))
    {
      hide Run, Asks, After, Stored, LastTwoHold, Ev.VerifiedOutcome, Ev.Identified, Post.Usable, Post.OrderKept, Post.HoldsAll,
        Obs.Settles, Obs.Steady;
      rs := [];
      var status;
      status, err := DispatchPatch(pid);
      if err.Some? { return None, err, status, []; }
      answer := status;
      outcome, err, rs := ConcludeExecute(pid, ids, plan, status.value);
    }

    method ClaimAndAuthorize(pid: nat) returns (err: Option<Failure>)
      requires Valid() && At(pid, ExClaim)
      modifies this`sys, this`past
      ensures Valid() && At(pid, if err == None then ExRead else Done)
      ensures err.Some? ==> err.value == ClaimRefused || err.value == JournalFailed
    {
      hide Run;
      var ok := Store(pid, Create, ExClaim, ExAuthorize);
      if !ok { return Some(ClaimRefused); }
      ok := Journal(pid, ExAuthorize, ExRead);
      err := if ok then None else Some(JournalFailed);
    }

    /** The precondition read, and the evaluation that decides whether to dispatch. */
    method ReadBefore(pid: nat, plan: Post.Plan) returns (state: map<string, Post.Json>, e: Post.Evaluation, err: Option<Failure>)
      requires Valid() && At(pid, ExRead) && Post.Usable(plan)
      modifies this
      ensures Valid() && err != Some(InvalidEvidence)
      ensures |seen| == |old(seen)| + 1 && seen == old(seen) + [seen[|old(seen)|]]
      ensures var read := seen[|old(seen)|];
        if !Obs.Good(read) then err == Some(if read.arrived then SnapshotUnbound else ReadFailed)
        else err == None && state == read.state.value && (e.result == Post.Verified <==> Post.HoldsAll(plan.patch, state))
      ensures err.Some? ==> At(pid, Done)
      ensures err == None ==> e == Post.Evaluated(d.h, plan, state) && (e.result == Post.Verified ==> LastHolds(plan.patch))
      ensures err == None ==> At(pid, if e.result == Post.Verified then ExJournalSatisfied else ExCheck)
    {
      hide Run, Post.Evaluated, Post.Usable, Post.HoldsAll;
      var read := Get();
      state, e, err := map[], Post.Evaluation("", Post.Unknown, 0, 0, []), None;
      if !read.arrived || !read.bound || !read.target || read.state == None {
        var granted := Call(pid, Skip, BLANK_REPLY.(snapshot := if read.arrived then Some(Snapshot(false, None)) else None), ExRead);
        var blocked := Store(pid, Swap(Claimed, Blocked, BeforeDispatch), ExBlock, Done);
        err := Some(if read.arrived then SnapshotUnbound else ReadFailed);
        return;
      }
      state := read.state.value;
      var evaluated := Post.Evaluate(d.h, plan, Some(state));
      e := evaluated.value;
      Post.ResultMeaning(d.h, plan, state);
      var granted := Call(pid, Skip, BLANK_REPLY.(snapshot := Some(Snapshot(true, Some(ToVerdict(e.result))))), ExRead);
    }

    method FinishSatisfied(pid: nat, ids: Ev.Ids, plan: Post.Plan, state: map<string, Post.Json>, e: Post.Evaluation)
      returns (outcome: Option<Ev.Outcome>, err: Option<Failure>)
      requires Valid() && At(pid, ExJournalSatisfied) && Ev.Identified(ids) && Post.Usable(plan)
      requires e == Post.Evaluated(d.h, plan, state) && e.result == Post.Verified
      modifies this`sys, this`past
      ensures Valid() && At(pid, Done)
      ensures outcome.Some? ==> Ev.VerifiedOutcome(d, outcome.value)
      ensures outcome.Some? ==> outcome.value.result == Post.AlreadySatisfied
      ensures err.Some? ==> (err.value == InvalidEvidence || err.value == JournalFailed || err.value == FinalizationFailed)
      ensures err == None ==> outcome.Some? && Stored(pid, Swap(Claimed, Completed, AlreadySatisfied))
      ensures Post.OrderKept(plan.patch.Keys) ==> err != Some(InvalidEvidence)
    {
      hide Run, Ev.VerifiedOutcome, Ev.Identified, Post.Usable, Post.Evaluated, Post.OrderKept, Ev.ValidOutcome;
      var o := Ev.OutcomeOf(ids, Ev.Sha(ids.beforeHash), Post.AlreadySatisfied, Ev.NotDispatched, Ev.PreMutation, 1, Some(e), 0);
      Ev.SatisfiedOutcomeBuilds(d, ids, plan, state);
      outcome := Ev.NewOutcome(d, o);
      if outcome == None {
        Quit(pid, ExJournalSatisfied);
        return None, Some(InvalidEvidence);
      }
      Ev.BuiltOutcomeVerifies(d, o);
      err := JournalThenStore(pid, Swap(Claimed, Completed, AlreadySatisfied), ExJournalSatisfied, ExFinishSatisfied);
    }

    /** Leaving early is a crash as far as the protocol is concerned. */
    method Quit(pid: nat, ghost pc: Pc)
      requires Valid() && At(pid, pc)
      modifies this`sys, this`past
      ensures Valid() && At(pid, Done)
    {
      RunConcat(INITIAL, past, [Crash(pid)]);
      sys := Apply(sys, Crash(pid));
      past := past + [Crash(pid)];
    }

    /** The last store call of a process. */
    method StoreLast(pid: nat, a: Action, ghost pc: Pc) returns (stored: bool)
      requires Valid() && At(pid, pc) && Asks(pc) == a
      requires forall r, g :: After(pc, r, g) == Done
      modifies this`sys, this`past
      ensures Valid() && At(pid, Done) && (stored && a.Swap? ==> Stored(pid, a))
    {
      ghost var r;
      var ok;
      ok, r, stored := Try(pid, a, pc);
    }

    /** Journal the result, then store it. */
    method JournalThenStore(pid: nat, a: Action, ghost pc: Pc, ghost next: Pc) returns (err: Option<Failure>)
      requires Valid() && At(pid, pc) && Asks(pc) == Skip && Asks(next) == a
      requires forall r, g :: After(pc, r, g) == if r.ok then next else Done
      requires forall r, g :: After(next, r, g) == Done
      modifies this`sys, this`past
      ensures Valid() && At(pid, Done) && (err.Some? ==> (err.value == JournalFailed || err.value == FinalizationFailed))
      ensures err == None && a.Swap? ==> Stored(pid, a)
    {
      hide Run, Asks, After;
      var ok := Journal(pid, pc, next);
      if !ok { return Some(JournalFailed); }
      var stored := StoreLast(pid, a, next);
      err := if stored then None else Some(FinalizationFailed);
    }

    method FinishExecute(pid: nat, accepted: bool, v: Verdict) returns (err: Option<Failure>)
      requires Valid() && At(pid, ExJournalOutcome(accepted, v))
      modifies this`sys, this`past
      ensures Valid() && At(pid, Done) && (err.Some? ==> (err.value == JournalFailed || err.value == FinalizationFailed))
      ensures err == None ==> Stored(pid, Swap(if accepted then Accepted else PossibleEffect, Completed, StableObservation(v)))
    {
      hide Run;
      err := JournalThenStore(pid, Swap(if accepted then Accepted else PossibleEffect, Completed, StableObservation(v)),
                              ExJournalOutcome(accepted, v), ExFinish(accepted, v));
    }

    method FinishReconcile(pid: nat, was: AttemptState, v: Verdict) returns (err: Option<Failure>)
      requires Valid() && At(pid, ReJournal(was, v))
      modifies this`sys, this`past
      ensures Valid() && At(pid, Done) && (err.Some? ==> (err.value == JournalFailed || err.value == FinalizationFailed))
      ensures err == None ==> Stored(pid, Swap(was, Completed, StableObservation(v)))
    {
      hide Run;
      err := JournalThenStore(pid, Swap(was, Completed, StableObservation(v)), ReJournal(was, v), ReFinish(was, v));
    }

    method FinishRetire(pid: nat, was: AttemptState) returns (err: Option<Failure>)
      requires Valid() && At(pid, RtJournal(was))
      modifies this`sys, this`past
      ensures Valid() && At(pid, Done) && (err.Some? ==> (err.value == JournalFailed || err.value == FinalizationFailed))
      ensures err == None ==> Stored(pid, Swap(was, RetiredUnknown, Administrative))
    {
      hide Run;
      err := JournalThenStore(pid, Swap(was, RetiredUnknown, Administrative), RtJournal(was), RtFinish(was));
    }

    /** The checks and the custody write of `Dispatch`, up to PATCH. */
    method EnterBoundary(pid: nat) returns (ok: bool)
      requires Valid() && At(pid, ExCheck)
      modifies this`sys, this`past
      ensures Valid() && At(pid, if ok then ExPatch else Done)
    {
      hide Run;
      ok := Journal(pid, ExCheck, ExJournalDispatch);
      if !ok { return; }
      ok := Journal(pid, ExJournalDispatch, ExEnter);
      if !ok { return; }
      ok := Store(pid, Swap(Claimed, PossibleEffect, EnteringBoundary), ExEnter, ExRecheck);
      if !ok { return; }
      ok := Journal(pid, ExRecheck, ExPatch);
    }

    /** `Dispatch` around PATCH, and the store call that follows its answer. */
    method DispatchPatch(pid: nat) returns (answer: Option<int>, err: Option<Failure>)
      requires Valid() && At(pid, ExCheck)
      modifies this`sys, this`past
      ensures Valid()
      ensures err.Some? ==> At(pid, Done)
      ensures err == None ==> answer.Some? && answer.value != 412 && At(pid, ExObserve(200 <= answer.value < 300))
      ensures answer == None <==> err == Some(BoundaryNotEntered)
      ensures answer == Some(412) ==> err == Some(StaleRejected) || err == Some(FinalizationFailed)
      ensures answer.Some? && answer.value != 412 && err.Some? ==> 200 <= answer.value < 300 && err == Some(FinalizationFailed)
      ensures err == Some(StaleRejected) ==> Stored(pid, Swap(PossibleEffect, Blocked, StalePrecondition))
    {
      hide Run;
      answer, err := None, Some(BoundaryNotEntered);
      var ok := EnterBoundary(pid);
      if !ok { return; }
      var status: int := *;
      answer := Some(status);
      var granted := Call(pid, Send, BLANK_REPLY.(response := ResponseOf(status)), ExPatch);
      if status == 412 {
        var stored := StoreLast(pid, Swap(PossibleEffect, Blocked, StalePrecondition), ExReject);
        err := Some(if stored then StaleRejected else FinalizationFailed);
        return;
      }
      err := None;
      if 200 <= status < 300 {
        ok := Store(pid, Swap(PossibleEffect, Accepted, SuccessResponse), ExAccept, ExObserve(true));
        if !ok { err := Some(FinalizationFailed); }
      }
    }

    /** The protocol learns the verdict of an observation. */
    method LearnExecute(pid: nat, accepted: bool, learned: Option<Verdict>)
      requires Valid() && At(pid, ExObserve(accepted))
      modifies this`sys, this`past
      ensures Valid()
      ensures At(pid, if learned.Some? && Discharges(accepted, learned.value) then ExJournalOutcome(accepted, learned.value) else Done)
    {
      hide Run;
      var granted := Call(pid, Skip, BLANK_REPLY.(observed := learned), ExObserve(accepted));
    }

    method LearnReconcile(pid: nat, was: AttemptState, learned: Option<Verdict>)
      requires Valid() && At(pid, ReObserve(was))
      modifies this`sys, this`past
      ensures Valid()
      ensures At(pid, if learned.Some? && Discharges(was == Accepted, learned.value) then ReJournal(was, learned.value) else Done)
    {
      hide Run;
      var granted := Call(pid, Skip, BLANK_REPLY.(observed := learned), ReObserve(was));
    }

    /** Evidence that does not build ends the process where it stands. */
    method Abandon(pid: nat)
      requires Valid() && pid in sys.procs
      modifies this`sys, this`past
      ensures Valid() && At(pid, Done)
    {
      Quit(pid, sys.procs[pid]);
    }

    method BuildObserved(ids: Ev.Ids, plan: Post.Plan, o: Ev.Observation, status: int) returns (outcome: Option<Ev.Outcome>)
      requires Ev.Identified(ids) && Post.Usable(plan) && Ev.Observes(d.h, plan, o)
      ensures outcome.Some? ==> Ev.VerifiedOutcome(d, outcome.value)
      ensures outcome.Some? && Learned(o).Some? ==> outcome.value.result == o.evaluation.value.result && outcome.value.postcondition == o.evaluation
      ensures Post.OrderKept(plan.patch.Keys) ==> outcome.Some?
    {
      hide Ev.VerifiedOutcome, Ev.Identified, Post.Usable, Post.OrderKept, Ev.ValidOutcome, Ev.Built;
      var record := Ev.ObservedOutcome(ids, o, status);
      Ev.ObservedOutcomeBuilds(d, ids, plan, o, status);
      outcome := Ev.NewOutcome(d, record);
      if outcome.Some? { Ev.BuiltOutcomeVerifies(d, record); }
    }

    /** What an error says about the reads: OUTCOME_UNKNOWN exactly if they do not settle the
        attempt, and NOT_VERIFIED only of an accepted request whose last read lacks a value. */
    ghost predicate Concludes(accepted: bool, plan: Post.Plan, rs: seq<Obs.Read>, err: Option<Failure>) {
      (err != Some(InvalidEvidence) ==> (err == Some(OutcomeUnknown) <==> !Obs.Settles(d.h, accepted, plan, rs))) &&
      (err == None ==> Obs.Steady(d.h, plan, rs) && Post.HoldsAll(plan.patch, rs[2].state.value)) &&
      (err == Some(NotVerified) ==> Obs.Steady(d.h, plan, rs) && accepted && !Post.HoldsAll(plan.patch, rs[2].state.value)) &&
      (err.Some? ==> err.value == InvalidEvidence || err.value == OutcomeUnknown || err.value == JournalFailed ||
                     err.value == FinalizationFailed || err.value == NotVerified)
    }

    /** Observation, outcome record, journal and final transition.  A stored completion
        carries the verdict of the reads; a VERIFIED one rests on the last two of them. */
    method ConcludeExecute(pid: nat, ids: Ev.Ids, plan: Post.Plan, status: int)
      returns (outcome: Option<Ev.Outcome>, err: Option<Failure>, ghost rs: seq<Obs.Read>)
      requires Valid() && At(pid, ExObserve(200 <= status < 300)) && Ev.Identified(ids) && Post.Usable(plan)
      modifies this
      ensures Valid() && At(pid, Done)
      ensures outcome.Some? ==> Ev.VerifiedOutcome(d, outcome.value)
      ensures err == None || err == Some(NotVerified) ==>
                outcome.Some? && (outcome.value.result == Post.Verified <==> err == None) &&
                Stored(pid, Swap(if 200 <= status < 300 then Accepted else PossibleEffect, Completed,
                                 StableObservation(ToVerdict(outcome.value.result))))
      ensures err == None ==> LastTwoHold(plan.patch)
      ensures seen == old(seen) + rs && Obs.Made(rs) && Concludes(200 <= status < 300, plan, rs, err)
      ensures Post.OrderKept(plan.patch.Keys) ==> err != Some(InvalidEvidence)
    {
      hide Run, Asks, After, Stored, LastTwoHold, Ev.VerifiedOutcome, Ev.Identified, Post.Usable, Post.OrderKept, Ev.Observes, Post.HoldsAll, Post.Evaluated, Obs.Steady, Obs.Made;
      var o;
      o, rs := Examine(plan);
      var accepted := 200 <= status < 300;
      var learned := Learned(o);
      outcome := BuildObserved(ids, plan, o, status);
      if outcome == None {
        Abandon(pid);
        return None, Some(InvalidEvidence), rs;
      }
      LearnExecute(pid, accepted, learned);
      if learned == None || !Discharges(accepted, learned.value) { return outcome, Some(OutcomeUnknown), rs; }
      err := FinishExecute(pid, accepted, learned.value);
      if err == None && outcome.value.result != Post.Verified { err := Some(NotVerified); }
    }

    /** `loadRecoveryAttempt`: any failure ends recovery; the record is complete. */
    method LoadRecovery(pid: nat, record: Ev.Record, ghost pc: Pc) returns (ok: bool)
      requires Valid() && At(pid, pc) && (pc == ReLoad || pc == RtLoad) && Ev.RecordComplete(record)
      modifies this`sys, this`past
      ensures Valid()
      ensures ok ==> Unresolved(Some(record.state)) &&
                     At(pid, if pc == ReLoad then ReObserve(record.state) else RtJournal(record.state))
      ensures !ok ==> At(pid, Done)
    {
      hide Run, Ev.RecordComplete;
      var bound: bool := *;
      var granted := Call(pid, Skip, BLANK_REPLY.(loaded := if bound then Some(record.state) else None), pc);
      ok := bound && Unresolved(Some(record.state));
    }

    /** Whether an observation discharges the attempt as recorded. */
    predicate Closes(record: Ev.Record, o: Ev.Observation) {
      Learned(o).Some? && Discharges(record.state == Accepted, Learned(o).value)
    }

    method BuildReconciled(record: Ev.Record, plan: Post.Plan, o: Ev.Observation, detail: string, now: int)
      returns (closure: Option<Ev.Closure>)
      requires Ev.RecordComplete(record) && Post.Usable(plan) && Ev.Observes(d.h, plan, o) && Unresolved(Some(record.state))
      ensures closure.Some? ==> Ev.VerifiedClosure(d, closure.value) && !closure.value.newMutation
      ensures closure.Some? ==> (closure.value.after == Completed <==> Closes(record, o))
      ensures closure.Some? && Closes(record, o) ==> closure.value.result == o.evaluation.value.result
      ensures Post.OrderKept(plan.patch.Keys) ==> closure.Some?
    {
      hide Ev.VerifiedClosure, Ev.RecordComplete, Post.Usable, Post.OrderKept, Ev.ValidClosure, Ev.Built, Trim;
      var c := Ev.ReconciledClosure(record, o, detail, Some(now));
      Ev.ReconciledClosureBuilds(d, record, plan, o, detail, now);
      closure := Ev.NewClosure(d, c);
      if closure.Some? {
        Ev.BuiltClosureVerifies(d, c);
        if o.evaluation.Some? { Ev.BuiltValidates(d.h, plan, o.evaluation.value); }
      }
    }

    method ReconcileAttempt(pid: nat, record: Ev.Record, plan: Post.Plan, detail: string, now: int)
      returns (closure: Option<Ev.Closure>, err: Option<Failure>, ghost rs: seq<Obs.Read>)
      requires Valid() && pid !in sys.procs && Ev.RecordComplete(record) && Post.Usable(plan)
      modifies this
      ensures Valid() && At(pid, Done)
      ensures closure.Some? ==> Ev.VerifiedClosure(d, closure.value) && !closure.value.newMutation
      ensures err == None || err == Some(NotVerified) ==>
                closure.Some? && (closure.value.result == Post.Verified <==> err == None) && closure.value.after == Completed &&
                Stored(pid, Swap(record.state, Completed, StableObservation(ToVerdict(closure.value.result))))
      ensures err == None ==> LastTwoHold(plan.patch)
      ensures err != Some(NotRecoverable) ==>
                seen == old(seen) + rs && Obs.Made(rs) && Concludes(record.state == Accepted, plan, rs, err)
      ensures closure.Some? ==> (closure.value.after == Completed <==> Obs.Made(rs) && Obs.Settles(d.h, record.state == Accepted, plan, rs))
      ensures Post.OrderKept(plan.patch.Keys) ==> err != Some(InvalidEvidence)
    {
      hide Run, Asks, After, Stored, LastTwoHold, Ev.VerifiedClosure, Ev.RecordComplete, Post.Usable, Post.OrderKept, Ev.Observes, Post.HoldsAll, Post.Evaluated, Obs.Steady, Concludes, Obs.Settles, Obs.Made;
      Begin(pid, Reconcile);
      var loaded := LoadRecovery(pid, record, ReLoad);
      if !loaded { return None, Some(NotRecoverable), []; }
      closure, err, rs := ConcludeReconcile(pid, record, plan, detail, now);
    }

    method ConcludeReconcile(pid: nat, record: Ev.Record, plan: Post.Plan, detail: string, now: int)
      returns (closure: Option<Ev.Closure>, err: Option<Failure>, ghost rs: seq<Obs.Read>)
      requires Valid() && At(pid, ReObserve(record.state)) && Unresolved(Some(record.state))
      requires Ev.RecordComplete(record) && Post.Usable(plan)
      modifies this
      ensures Valid() && At(pid, Done)
      ensures closure.Some? ==> Ev.VerifiedClosure(d, closure.value) && !closure.value.newMutation
      ensures err == None || err == Some(NotVerified) ==>
                closure.Some? && (closure.value.result == Post.Verified <==> err == None) && closure.value.after == Completed &&
                Stored(pid, Swap(record.state, Completed, StableObservation(ToVerdict(closure.value.result))))
      ensures err == None ==> LastTwoHold(plan.patch)
      ensures seen == old(seen) + rs && Obs.Made(rs) && Concludes(record.state == Accepted, plan, rs, err)
      ensures closure.Some? ==> (closure.value.after == Completed <==> Obs.Made(rs) && Obs.Settles(d.h, record.state == Accepted, plan, rs))
      ensures Post.OrderKept(plan.patch.Keys) ==> err != Some(InvalidEvidence)
    {
      hide Run, Asks, After, Stored, LastTwoHold, Ev.VerifiedClosure, Ev.RecordComplete, Post.Usable, Post.OrderKept, Ev.Observes, Post.HoldsAll, Post.Evaluated, Obs.Steady, Obs.Made;
      var o;
      o, rs := Examine(plan);
      closure := BuildReconciled(record, plan, o, detail, now);
      if closure == None {
        Abandon(pid);
        return None, Some(InvalidEvidence), rs;
      }
      LearnReconcile(pid, record.state, Learned(o));
      if !Closes(record, o) { return closure, Some(OutcomeUnknown), rs; }
      var v := Learned(o).value;
      err := FinishReconcile(pid, record.state, v);
      if err == None && closure.value.result != Post.Verified { err := Some(NotVerified); }
    }

    method BuildRetired(record: Ev.Record, reason: string, now: int) returns (closure: Option<Ev.Closure>)
      requires Ev.RecordComplete(record)
      ensures closure.Some? && Ev.VerifiedClosure(d, closure.value) && closure.value.residualCustody
    {
      hide Ev.VerifiedClosure, Ev.RecordComplete, Ev.ValidClosure, Trim;
      var c := Ev.RetiredClosure(record, reason, Some(now));
      Ev.RetiredClosureBuilds(d, record, reason, now);
      closure := Ev.NewClosure(d, c);
      Ev.BuiltClosureVerifies(d, c);
    }

    method RetireAttemptUnknown(pid: nat, record: Ev.Record, reason: string, now: int)
      returns (closure: Option<Ev.Closure>, err: Option<Failure>)
      requires Valid() && pid !in sys.procs && Ev.RecordComplete(record)
      modifies this`sys, this`past
      ensures Valid() && (pid in sys.procs ==> At(pid, Done))
      ensures closure.Some? ==> Ev.VerifiedClosure(d, closure.value) && closure.value.residualCustody
      ensures err == None ==> closure.Some? && !Blank(reason) && Stored(pid, Swap(record.state, RetiredUnknown, Administrative))
      ensures err != Some(InvalidEvidence)
    {
      hide Run, Ev.VerifiedClosure, Ev.RecordComplete, Blank;
      if Blank(reason) { return None, Some(RetirementReasonMissing); }
      Begin(pid, Retire);
      var loaded := LoadRecovery(pid, record, RtLoad);
      if !loaded { return None, Some(NotRecoverable); }
      closure := BuildRetired(record, reason, now);
      err := FinishRetire(pid, record.state);
    }
  }

  predicate Holds(patch: map<string, Post.Json>, r: Obs.Read) {
    Obs.Good(r) && Post.HoldsAll(patch, r.state.value)
  }

  lemma UsablePlan(plan: Post.Plan)
    requires !Blank(plan.customerId) && |plan.patch| != 0
    ensures Post.Usable(plan)
  {
  }
}
