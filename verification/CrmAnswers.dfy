/** What the processes of one CRM attempt (internal/eepcrm) must have been told: over every
    schedule a process is what the answers to its own calls make of it, and sending PATCH or
    writing the record are exact conditions on the fields of those answers. */
module CrmAnswers {
  import opened Text
  import opened CrmAttempts

  /** The reply to one call, and whether the store call in it succeeded. */
  datatype Answer = Answer(reply: Reply, granted: bool)

  /******* A process is what it has heard *******/

  function AnswerOf(s: System, pid: nat, r: Reply): Answer
    requires pid in s.procs
  {
    Answer(r, r.ok && Possible(s.store, Asks(s.procs[pid])) && !r.ackLost)
  }

  function HeardIn(s: System, step: Step, pid: nat): seq<Answer> {
    if step.Move? && step.pid == pid && pid in s.procs then [AnswerOf(s, pid, step.reply)] else []
  }

  /** The answers a process has had so far, in order. */
  function Heard(steps: seq<Step>, pid: nat): seq<Answer> {
    if steps == [] then []
    else
      var front := steps[..|steps| - 1];
      Heard(front, pid) + HeardIn(Run(INITIAL, front), steps[|steps| - 1], pid)
  }

  /** The program point that answers lead to. */
  function Follow(pc: Pc, hs: seq<Answer>): Pc
    decreases |hs|
  {
    if hs == [] then pc else Follow(After(pc, hs[0].reply, hs[0].granted), hs[1..])
  }

  lemma {:induction false} FollowNext(pc: Pc, hs: seq<Answer>, h: Answer)
    ensures Follow(pc, hs + [h]) == After(Follow(pc, hs), h.reply, h.granted)
    decreases |hs|
  {
    hide After;
    if hs == [] {
      assert hs + [h] == [h] && [h][1..] == [];
    } else {
      assert (hs + [h])[1..] == hs[1..] + [h];
      FollowNext(After(pc, hs[0].reply, hs[0].granted), hs[1..], h);
    }
  }

  /** Where a process is that still has a call to make. */
  ghost predicate Accounted(steps: seq<Step>, pid: nat) {
    var s := Run(INITIAL, steps);
    (pid in s.procs <==> pid in s.ops) &&
    (pid in s.procs && s.procs[pid] != Done ==> s.procs[pid] == Follow(Start(s.ops[pid]), Heard(steps, pid)))
  }

  lemma RunLast(steps: seq<Step>, step: Step)
    ensures Run(INITIAL, steps + [step]) == Apply(Run(INITIAL, steps), step)
    ensures (steps + [step])[..|steps|] == steps
  {
    RunConcat(INITIAL, steps, [step]);
    var s := Run(INITIAL, steps);
    assert [step][1..] == [];
    assert Run(s, [step]) == Run(Apply(s, step), []);
  }

  /** In every schedule a process that has not ended is determined by its operation and by
      the answers to its own calls. */
  lemma {:induction false} ProcessIsWhatItHeard(steps: seq<Step>, pid: nat)
    ensures Accounted(steps, pid)
    decreases |steps|
  {
    hide Accounted, Heard, Run, Apply;
    if steps == [] {
      InitiallyAccounted(pid);
    } else {
      var n := |steps| - 1;
      ProcessIsWhatItHeard(steps[..n], pid);
      assert steps == steps[..n] + [steps[n]];
      StepAccounted(steps[..n], steps[n], pid);
    }
  }

  lemma InitiallyAccounted(pid: nat)
    ensures Accounted([], pid)
  {
  }

  lemma StepAccounted(steps: seq<Step>, step: Step, pid: nat)
    requires Accounted(steps, pid)
    ensures Accounted(steps + [step], pid)
  {
    hide Start, After, Run, Follow, AnswerOf, Asks;
    var s, hs := Run(INITIAL, steps), Heard(steps, pid);
    RunLast(steps, step);
    if step.Move? && step.pid == pid && pid in s.procs {
      FollowNext(Start(s.ops[pid]), hs, AnswerOf(s, pid, step.reply));
      MoveHeard(s, pid, step.reply);
      DoneEnds(step.reply);
    } else {
      assert hs + [] == hs;
      if pid !in s.procs {
        NothingHeard(steps, pid);
        FollowNone(step);
      }
    }
  }

  lemma DoneEnds(r: Reply)
    ensures forall g :: After(Done, r, g) == Done
  {
  }

  lemma FollowNone(step: Step)
    ensures step.Spawn? ==> Follow(Start(step.op), []) == Start(step.op)
  {
  }

  lemma MoveHeard(s: System, pid: nat, r: Reply)
    requires pid in s.procs
    ensures var h := AnswerOf(s, pid, r);
      MoveOne(s, pid, r).procs == s.procs[pid := After(s.procs[pid], r, h.granted)] && MoveOne(s, pid, r).ops == s.ops && h.reply == r
  {
    hide After;
  }

  lemma {:induction false} NothingHeard(steps: seq<Step>, pid: nat)
    requires pid !in Run(INITIAL, steps).procs
    ensures Heard(steps, pid) == []
    decreases |steps|
  {
    hide Start, After, Asks, AnswerOf;
    if steps != [] {
      var n := |steps| - 1;
      assert steps == steps[..n] + [steps[n]];
      RunLast(steps[..n], steps[n]);
      NothingHeard(steps[..n], pid);
    }
  }

  /******* What the answers must be *******/

  /** The attempt was claimed and its authorization journaled. */
  predicate Opens(hs: seq<Answer>) { |hs| >= 2 && hs[0].granted && hs[1].reply.ok }

  /** The read before showed the admitted customer and version, with this evaluation. */
  predicate ReadBefore(hs: seq<Answer>, v: Verdict) {
    Opens(hs) && |hs| >= 3 && hs[2].reply.snapshot == Some(Snapshot(true, Some(v)))
  }

  /** The read before failed or showed another customer or version. */
  predicate ReadUnbound(hs: seq<Answer>) {
    Opens(hs) && |hs| >= 3 && (hs[2].reply.snapshot == None || !hs[2].reply.snapshot.value.bound)
  }

  /** The value was not there yet, both checks passed, the intent was journaled, and the
      record said POSSIBLE_EFFECT before the second check. */
  predicate Dispatches(hs: seq<Answer>) {
    |hs| >= 7 && (ReadBefore(hs, Partial) || ReadBefore(hs, Unsatisfied)) &&
    hs[3].reply.ok && hs[4].reply.ok && hs[5].granted && hs[6].reply.ok
  }

  predicate Answered(hs: seq<Answer>, r: Response) { Dispatches(hs) && |hs| >= 8 && hs[7].reply.response == r }

  /** The PATCH was accepted and stored so, and a stable observation followed. */
  predicate AcceptedWith(hs: seq<Answer>, v: Verdict) {
    Answered(hs, Success) && |hs| >= 10 && hs[8].granted && hs[9].reply.observed == Some(v)
  }

  /** Nobody knows whether the PATCH was accepted, and a stable observation verified it. */
  predicate VerifiedAnyway(hs: seq<Answer>) {
    Answered(hs, Ambiguous) && |hs| >= 9 && hs[8].reply.observed == Some(Verified)
  }

  /** Exactly when `Execute` stands before each of its writes and before PATCH. */
  predicate ExecuteAt(hs: seq<Answer>, pc: Pc) {
    match pc
    case ExClaim => hs == []
    case ExBlock => |hs| == 3 && ReadUnbound(hs)
    case ExFinishSatisfied => |hs| == 4 && ReadBefore(hs, Verified) && hs[3].reply.ok
    case ExEnter => |hs| == 5 && (ReadBefore(hs, Partial) || ReadBefore(hs, Unsatisfied)) && hs[3].reply.ok && hs[4].reply.ok
    case ExPatch => |hs| == 7 && Dispatches(hs)
    case ExReject => |hs| == 8 && Answered(hs, PreconditionFailed)
    case ExAccept => |hs| == 8 && Answered(hs, Success)
    case ExFinish(accepted, v) =>
      if accepted then |hs| == 11 && AcceptedWith(hs, v) && hs[10].reply.ok
      else v == Verified && |hs| == 10 && VerifiedAnyway(hs) && hs[9].reply.ok
    case _ => false
  }

  predicate Writing(pc: Pc) { Asks(pc) != Skip }

  /** The points between the writes. */
  lemma Between()
    ensures !Writing(ExRead) && !Writing(ExJournalSatisfied) && !Writing(ExCheck) && !Writing(ExJournalDispatch) && !Writing(ExRecheck)
    ensures !Writing(ReLoad) && !Writing(RtLoad) && !Writing(Done)
    ensures forall pc: Pc :: pc.ExObserve? || pc.ExJournalOutcome? || pc.ReObserve? || pc.ReJournal? || pc.RtJournal? ==> !Writing(pc)
  {
  }

  lemma {:induction false} DoneStays(hs: seq<Answer>)
    ensures Follow(Done, hs) == Done
    decreases |hs|
  {
    if hs != [] { DoneStays(hs[1..]); }
  }

  /** One answer on. */
  lemma One(pc: Pc, hs: seq<Answer>)
    requires hs != []
    ensures Follow(pc, hs) == Follow(After(pc, hs[0].reply, hs[0].granted), hs[1..])
    ensures After(pc, hs[0].reply, hs[0].granted) == Done ==> Follow(pc, hs) == Done
    ensures |hs| == 1 ==> Follow(pc, hs) == After(pc, hs[0].reply, hs[0].granted)
  {
    DoneStays(hs[1..]);
  }

  lemma NoAnswer(pc: Pc)
    ensures Follow(pc, []) == pc
  {
  }

  lemma FromObserve(accepted: bool, hs: seq<Answer>, pc: Pc)
    requires Writing(pc)
    ensures Follow(ExObserve(accepted), hs) == pc <==>
      |hs| == 2 && hs[0].reply.observed.Some? && (accepted || hs[0].reply.observed == Some(Verified)) && hs[1].reply.ok &&
      pc == ExFinish(accepted, hs[0].reply.observed.value)
  {
    Between();
    hide Follow, Writing, Asks;
    NoAnswer(ExObserve(accepted));
    if |hs| >= 1 { One(ExObserve(accepted), hs); }
    if |hs| >= 2 && hs[0].reply.observed.Some? { One(ExJournalOutcome(accepted, hs[0].reply.observed.value), hs[1..]); }
    if |hs| >= 3 && hs[0].reply.observed.Some? { One(ExFinish(accepted, hs[0].reply.observed.value), hs[1..][1..]); }
  }

  lemma FromPatch(hs: seq<Answer>, pc: Pc)
    requires Writing(pc)
    ensures Follow(ExPatch, hs) == pc <==>
      if hs == [] then pc == ExPatch
      else match hs[0].reply.response
        case PreconditionFailed => |hs| == 1 && pc == ExReject
        case Success => if |hs| == 1 then pc == ExAccept else hs[1].granted && Follow(ExObserve(true), hs[2..]) == pc
        case Ambiguous => Follow(ExObserve(false), hs[1..]) == pc
  {
    if |hs| >= 1 { One(ExPatch, hs); }
    if |hs| >= 2 {
      assert hs[1..][1..] == hs[2..];
      if hs[0].reply.response == Success { One(ExAccept, hs[1..]); }
      if hs[0].reply.response == PreconditionFailed { One(ExReject, hs[1..]); }
    }
  }

  /** From the first check to PATCH. */
  lemma FromCheck(hs: seq<Answer>, pc: Pc)
    requires Writing(pc)
    ensures Follow(ExCheck, hs) == pc <==>
      |hs| >= 2 && hs[0].reply.ok && hs[1].reply.ok &&
      if |hs| == 2 then pc == ExEnter else |hs| >= 4 && hs[2].granted && hs[3].reply.ok && Follow(ExPatch, hs[4..]) == pc
  {
    Between();
    hide Follow, Writing, Asks;
    NoAnswer(ExCheck);
    if |hs| >= 1 { One(ExCheck, hs); }
    if |hs| >= 2 { One(ExJournalDispatch, hs[1..]); }
    if |hs| >= 3 { One(ExEnter, hs[1..][1..]); }
    if |hs| >= 4 {
      One(ExRecheck, hs[1..][1..][1..]);
      assert hs[1..][1..][1..][1..] == hs[4..];
    }
  }

  /** From the read before on. */
  lemma FromRead(hs: seq<Answer>, pc: Pc)
    requires Writing(pc)
    ensures Follow(ExRead, hs) == pc <==>
      |hs| >= 1 &&
      var seen := hs[0].reply.snapshot;
      if seen == None || !seen.value.bound then |hs| == 1 && pc == ExBlock
      else if seen.value.evaluation == None then false
      else if seen.value.evaluation == Some(Verified) then |hs| == 2 && hs[1].reply.ok && pc == ExFinishSatisfied
      else Follow(ExCheck, hs[1..]) == pc
  {
    Between();
    hide Follow, Writing, Asks;
    NoAnswer(ExRead);
    if |hs| >= 1 { One(ExRead, hs); }
    if |hs| >= 2 {
      One(ExBlock, hs[1..]);
      One(ExJournalSatisfied, hs[1..]);
      if |hs| >= 3 { One(ExFinishSatisfied, hs[1..][1..]); }
    }
  }

  /** `Execute`: exactly which answers lead to PATCH and to each write of the record. */
  lemma ExecuteExactly(hs: seq<Answer>, pc: Pc)
    requires Writing(pc)
    ensures Follow(Start(Execute), hs) == pc <==> ExecuteAt(hs, pc)
  {
    hide After, Dispatches, Answered, AcceptedWith, VerifiedAnyway;
    assert Start(Execute) == ExClaim;
    if |hs| >= 1 { ClaimOne(hs); }
    if |hs| >= 2 { AuthorizeOne(hs[1..]); }
    if |hs| >= 2 && Opens(hs) {
      assert hs[1..][1..] == hs[2..];
      OpenedExactly(hs, pc);
    } else {
      if hs != [] { NotOpened(hs, pc); }
    }
  }

  lemma NotOpened(hs: seq<Answer>, pc: Pc)
    requires Writing(pc) && !Opens(hs) && hs != []
    ensures !ExecuteAt(hs, pc)
  {
  }

  lemma OpenedExactly(hs: seq<Answer>, pc: Pc)
    requires Writing(pc) && Opens(hs)
    ensures Follow(ExRead, hs[2..]) == pc <==> ExecuteAt(hs, pc)
  {
    hide Follow;
    FromRead(hs[2..], pc);
    if |hs| >= 3 {
      assert hs[2..][0] == hs[2] && hs[2..][1..] == hs[3..];
      assert |hs| >= 4 ==> hs[2..][1] == hs[3] && hs[3..][0] == hs[3];
      assert |hs| >= 5 ==> hs[3..][1] == hs[4];
      assert |hs| >= 7 ==> hs[3..][2] == hs[5] && hs[3..][3] == hs[6];
      ReadCases(hs);
      FromCheck(hs[3..], pc);
      if |hs| >= 7 {
        assert hs[3..][4..] == hs[7..];
        PatchExactly(hs, pc);
      }
    }
  }

  /** The read before is unbound, unevaluated, or bound with one verdict. */
  lemma ReadCases(hs: seq<Answer>)
    requires Opens(hs) && |hs| >= 3
    ensures var seen := hs[2].reply.snapshot;
      (ReadUnbound(hs) <==> seen == None || !seen.value.bound) &&
      (seen.Some? && seen.value.bound ==>
         seen.value.evaluation == None || ReadBefore(hs, Verified) || ReadBefore(hs, Partial) || ReadBefore(hs, Unsatisfied)) &&
      forall v :: ReadBefore(hs, v) <==> seen.Some? && seen.value.bound && seen.value.evaluation == Some(v)
  {
    var seen := hs[2].reply.snapshot;
    if seen.Some? && seen.value.bound && seen.value.evaluation.Some? {
      match seen.value.evaluation.value
      case Verified => assert ReadBefore(hs, Verified);
      case Partial => assert ReadBefore(hs, Partial);
      case Unsatisfied => assert ReadBefore(hs, Unsatisfied);
    }
  }

  lemma ClaimOne(hs: seq<Answer>)
    requires hs != []
    ensures Follow(ExClaim, hs) == if hs[0].granted then Follow(ExAuthorize, hs[1..]) else Done
  {
    One(ExClaim, hs);
  }

  lemma AuthorizeOne(hs: seq<Answer>)
    requires hs != []
    ensures Follow(ExAuthorize, hs) == if hs[0].reply.ok then Follow(ExRead, hs[1..]) else Done
  {
    One(ExAuthorize, hs);
  }

  /** After the seven answers that lead to PATCH. */
  lemma PatchExactly(hs: seq<Answer>, pc: Pc)
    requires Writing(pc) && |hs| >= 7
    ensures Dispatches(hs) ==> (Follow(ExPatch, hs[7..]) == pc <==> ExecuteAt(hs, pc))
  {
    var rest := hs[7..];
    FromPatch(rest, pc);
    if |hs| >= 8 { FromObserve(false, rest[1..], pc); }
    if |hs| >= 9 { FromObserve(true, rest[2..], pc); }
    hide Follow;
  }

  /** The record was loaded unresolved, the observation settles it, and the closure is journaled. */
  predicate Reconciles(hs: seq<Answer>, was: AttemptState, v: Verdict) {
    |hs| >= 3 && hs[0].reply.loaded == Some(was) && (was == PossibleEffect || was == Accepted) &&
    hs[1].reply.observed == Some(v) && (was == Accepted || v == Verified) && hs[2].reply.ok
  }

  /** `ReconcileAttempt`: exactly which answers lead to its one write. */
  lemma ReconcileExactly(hs: seq<Answer>, pc: Pc)
    requires Writing(pc)
    ensures Follow(Start(Reconcile), hs) == pc <==> |hs| == 3 && pc.ReFinish? && Reconciles(hs, pc.was, pc.verdict)
  {
    Between();
    hide Follow, Writing, Asks;
    NoAnswer(ReLoad);
    if |hs| >= 1 { One(ReLoad, hs); }
    if |hs| >= 2 && hs[0].reply.loaded.Some? {
      var was := hs[0].reply.loaded.value;
      One(ReObserve(was), hs[1..]);
      if |hs| >= 3 && hs[1].reply.observed.Some? {
        One(ReJournal(was, hs[1].reply.observed.value), hs[1..][1..]);
        if |hs| >= 4 { One(ReFinish(was, hs[1].reply.observed.value), hs[1..][1..][1..]); }
      }
    }
  }

  predicate Retires(hs: seq<Answer>, was: AttemptState) {
    |hs| >= 2 && hs[0].reply.loaded == Some(was) && (was == PossibleEffect || was == Accepted) && hs[1].reply.ok
  }

  /** `RetireAttemptUnknown`: exactly which answers lead to its one write. */
  lemma RetireExactly(hs: seq<Answer>, pc: Pc)
    requires Writing(pc)
    ensures Follow(Start(Retire), hs) == pc <==> |hs| == 2 && pc.RtFinish? && Retires(hs, pc.was)
  {
    Between();
    hide Follow, Writing, Asks;
    NoAnswer(RtLoad);
    if |hs| >= 1 { One(RtLoad, hs); }
    if |hs| >= 2 && hs[0].reply.loaded.Some? {
      One(RtJournal(hs[0].reply.loaded.value), hs[1..]);
      if |hs| >= 3 { One(RtFinish(hs[0].reply.loaded.value), hs[1..][1..]); }
    }
  }

  /******* Every event in every schedule *******/

  /** What a process must have heard, and nothing more, when it causes an event. */
  predicate Causes(op: Operation, hs: seq<Answer>, e: Event) {
    match e
    case Created(_) => op == Execute && hs == []
    case Patched(_, _, _) => op == Execute && |hs| == 7 && Dispatches(hs)
    case Changed(_, from, to, basis) =>
      match basis
      case BeforeDispatch => op == Execute && from == Claimed && to == Blocked && |hs| == 3 && ReadUnbound(hs)
      case AlreadySatisfied =>
        op == Execute && from == Claimed && to == Completed && |hs| == 4 && ReadBefore(hs, Verified) && hs[3].reply.ok
      case EnteringBoundary =>
        op == Execute && from == Claimed && to == PossibleEffect && |hs| == 5 &&
        (ReadBefore(hs, Partial) || ReadBefore(hs, Unsatisfied)) && hs[3].reply.ok && hs[4].reply.ok
      case StalePrecondition =>
        op == Execute && from == PossibleEffect && to == Blocked && |hs| == 8 && Answered(hs, PreconditionFailed)
      case SuccessResponse => op == Execute && from == PossibleEffect && to == Accepted && |hs| == 8 && Answered(hs, Success)
      case StableObservation(v) =>
        to == Completed &&
        ((op == Execute && from == Accepted && |hs| == 11 && AcceptedWith(hs, v) && hs[10].reply.ok) ||
         (op == Execute && from == PossibleEffect && v == Verified && |hs| == 10 && VerifiedAnyway(hs) && hs[9].reply.ok) ||
         (op == Reconcile && |hs| == 3 && Reconciles(hs, from, v)))
      case Administrative => op == Retire && to == RetiredUnknown && |hs| == 2 && Retires(hs, from)
  }

  /** The event's process had heard just that at some time. */
  ghost predicate EventJustified(steps: seq<Step>, e: Event) {
    var s := Run(INITIAL, steps);
    e.pid in s.ops && exists n :: 0 <= n < |Heard(steps, e.pid)| && Causes(s.ops[e.pid], Heard(steps, e.pid)[..n], e)
  }

  /** The event that a move of this process logs, if any. */
  function Logged(s: System, pid: nat, r: Reply): seq<Event>
    requires pid in s.procs
  {
    var a := Asks(s.procs[pid]);
    if r.ok && Possible(s.store, a) then [Recorded(pid, a)]
    else if a.Send? then [Patched(pid, s.store, r.response)] else []
  }

  lemma LoggedCaused(op: Operation, hs: seq<Answer>, s: System, pid: nat, r: Reply, e: Event)
    requires pid in s.procs && s.procs[pid] == Follow(Start(op), hs) && e in Logged(s, pid, r)
    ensures Causes(op, hs, e) && e.pid == pid
  {
    var pc := s.procs[pid];
    hide Dispatches, Answered, AcceptedWith, VerifiedAnyway, ReadBefore, ReadUnbound, Follow, Reconciles, Retires;
    match op
    case Execute => ExecuteExactly(hs, pc);
    case Reconcile => ReconcileExactly(hs, pc);
    case Retire => RetireExactly(hs, pc);
  }

  /** In every schedule each creation, change and PATCH in the log was caused by exactly the
      answers that its process had heard until then. */
  lemma {:induction false} EveryEventIsJustified(steps: seq<Step>)
    ensures forall i :: 0 <= i < |Run(INITIAL, steps).log| ==> EventJustified(steps, Run(INITIAL, steps).log[i])
    decreases |steps|
  {
    hide Heard, Causes, After, Start, Follow, Run;
    if steps == [] {
      EmptyLog();
    } else {
      var n := |steps| - 1;
      assert steps == steps[..n] + [steps[n]];
      EveryEventIsJustified(steps[..n]);
      forall i | 0 <= i < |Run(INITIAL, steps).log| ensures EventJustified(steps, Run(INITIAL, steps).log[i]) {
        EventStaysJustified(steps[..n], steps[n], i);
      }
    }
  }

  lemma EmptyLog()
    ensures Run(INITIAL, []).log == []
  {
  }

  lemma EventStaysJustified(steps: seq<Step>, step: Step, i: nat)
    requires i < |Run(INITIAL, steps + [step]).log|
    requires forall j :: 0 <= j < |Run(INITIAL, steps).log| ==> EventJustified(steps, Run(INITIAL, steps).log[j])
    ensures EventJustified(steps + [step], Run(INITIAL, steps + [step]).log[i])
  {
    hide Causes, After, Start, Follow, Run, Asks, Possible, Recorded;
    var s, e := Run(INITIAL, steps), Run(INITIAL, steps + [step]).log[i];
    RunLast(steps, step);
    var hs, more := Heard(steps, e.pid), HeardIn(s, step, e.pid);
    assert Heard(steps + [step], e.pid) == hs + more;
    ProcessIsWhatItHeard(steps, e.pid);
    if i < |s.log| {
      assert e == s.log[i];
      var n :| 0 <= n < |hs| && Causes(s.ops[e.pid], hs[..n], e);
      assert (hs + more)[..n] == hs[..n];
    } else {
      assert e in Logged(s, step.pid, step.reply);
      ProcessIsWhatItHeard(steps, step.pid);
      NotDone(s, step.pid, step.reply);
      LoggedCaused(s.ops[step.pid], Heard(steps, step.pid), s, step.pid, step.reply, e);
      assert (hs + more)[..|hs|] == hs;
    }
  }

  lemma NotDone(s: System, pid: nat, r: Reply)
    requires pid in s.procs && Logged(s, pid, r) != []
    ensures s.procs[pid] != Done
  {
  }
}
