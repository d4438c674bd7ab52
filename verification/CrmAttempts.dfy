/** One CRM mutation attempt (internal/eepcrm): its durable record, and any number
    of `Execute`, `ReconcileAttempt` and `RetireAttemptUnknown` processes that may
    interleave and crash between any two steps.  Store, journal and HTTP replies are
    arbitrary; a stored change may also be reported as an error. */
module CrmAttempts {
  import opened Text

  datatype AttemptState = Claimed | PossibleEffect | Accepted | Blocked | Completed | RetiredUnknown {
    predicate Terminal() { Blocked? || Completed? || RetiredUnknown? }

    function Rank(): nat {
      match this
      case Claimed => 0
      case PossibleEffect => 1
      case Accepted => 2
      case _ => 3
    }
  }

  /** `allowedAttemptTransition` */
  predicate Allowed(from: AttemptState, to: AttemptState) {
    match from
    case Claimed => to.Blocked? || to.PossibleEffect? || to.Completed?
    case PossibleEffect => to.Blocked? || to.Accepted? || to.Completed? || to.RetiredUnknown?
    case Accepted => to.Completed? || to.RetiredUnknown?
    case _ => false
  }

  /** A typed evaluation of the intended postcondition. */
  datatype Verdict = Verified | Partial | Unsatisfied

  /** The destination's answer to PATCH with If-Match. */
  datatype Response = Success | PreconditionFailed | Ambiguous

  /** A precondition read: whether it names the admitted customer and version, and its evaluation. */
  datatype Snapshot = Snapshot(bound: bool, evaluation: Option<Verdict>)

  datatype Operation = Execute | Reconcile | Retire

  /** What justified a change of the record. */
  datatype Basis =
    | BeforeDispatch | AlreadySatisfied | EnteringBoundary | StalePrecondition | SuccessResponse
    | StableObservation(verdict: Verdict) | Administrative

  /** Where a process stands: its next store, journal or HTTP call. */
  datatype Pc =
    | ExClaim
    | ExAuthorize
    | ExRead
    | ExBlock
    | ExJournalSatisfied
    | ExFinishSatisfied
    | ExCheck
    | ExJournalDispatch
    | ExEnter
    | ExRecheck
    | ExPatch
    | ExReject
    | ExAccept
    | ExObserve(accepted: bool)
    | ExJournalOutcome(accepted: bool, verdict: Verdict)
    | ExFinish(accepted: bool, verdict: Verdict)
    | ReLoad
    | ReObserve(was: AttemptState)
    | ReJournal(was: AttemptState, verdict: Verdict)
    | ReFinish(was: AttemptState, verdict: Verdict)
    | RtLoad
    | RtJournal(was: AttemptState)
    | RtFinish(was: AttemptState)
    | Done

  datatype Reply = Reply(ok: bool, ackLost: bool, loaded: Option<AttemptState>, snapshot: Option<Snapshot>,
                         response: Response, observed: Option<Verdict>)

  datatype Action = Skip | Create | Swap(from: AttemptState, to: AttemptState, basis: Basis) | Send

  function Asks(pc: Pc): Action {
    match pc
    case ExClaim => Create
    case ExBlock => Swap(Claimed, Blocked, BeforeDispatch)
    case ExFinishSatisfied => Swap(Claimed, Completed, AlreadySatisfied)
    case ExEnter => Swap(Claimed, PossibleEffect, EnteringBoundary)
    case ExPatch => Send
    case ExReject => Swap(PossibleEffect, Blocked, StalePrecondition)
    case ExAccept => Swap(PossibleEffect, Accepted, SuccessResponse)
    case ExFinish(accepted, v) => Swap(if accepted then Accepted else PossibleEffect, Completed, StableObservation(v))
    case ReFinish(was, v) => Swap(was, Completed, StableObservation(v))
    case RtFinish(was) => Swap(was, RetiredUnknown, Administrative)
    case _ => Skip
  }

  function Start(op: Operation): Pc {
    match op
    case Execute => ExClaim
    case Reconcile => ReLoad
    case Retire => RtLoad
  }

  predicate Unresolved(s: Option<AttemptState>) {
    s == Some(PossibleEffect) || s == Some(Accepted)
  }

  /** Ambiguous acceptance is discharged by a VERIFIED observation only. */
  predicate Discharges(accepted: bool, v: Verdict) {
    accepted || v == Verified
  }

  function After(pc: Pc, r: Reply, granted: bool): Pc {
    match pc
    case ExClaim => if granted then ExAuthorize else Done
    case ExAuthorize => if r.ok then ExRead else Done
    case ExRead =>
      if r.snapshot == None || !r.snapshot.value.bound then ExBlock
      else if r.snapshot.value.evaluation == None then Done
      else if r.snapshot.value.evaluation.value == Verified then ExJournalSatisfied
      else ExCheck
    case ExJournalSatisfied => if r.ok then ExFinishSatisfied else Done
    case ExCheck => if r.ok then ExJournalDispatch else Done
    case ExJournalDispatch => if r.ok then ExEnter else Done
    case ExEnter => if granted then ExRecheck else Done
    case ExRecheck => if r.ok then ExPatch else Done
    case ExPatch =>
      (match r.response
       case Success => ExAccept
       case PreconditionFailed => ExReject
       case Ambiguous => ExObserve(false))
    case ExAccept => if granted then ExObserve(true) else Done
    case ExObserve(accepted) =>
      if r.observed.Some? && Discharges(accepted, r.observed.value)
      then ExJournalOutcome(accepted, r.observed.value) else Done
    case ExJournalOutcome(accepted, v) => if r.ok then ExFinish(accepted, v) else Done
    case ReLoad => if Unresolved(r.loaded) then ReObserve(r.loaded.value) else Done
    case ReObserve(was) =>
      if r.observed.Some? && Discharges(was == Accepted, r.observed.value)
      then ReJournal(was, r.observed.value) else Done
    case ReJournal(was, v) => if r.ok then ReFinish(was, v) else Done
    case RtLoad => if Unresolved(r.loaded) then RtJournal(r.loaded.value) else Done
    case RtJournal(was) => if r.ok then RtFinish(was) else Done
    case _ => Done
  }

  /******* The whole system *******/

  datatype Event =
    | Created(pid: nat)
    | Changed(pid: nat, from: AttemptState, to: AttemptState, basis: Basis)
    | Patched(pid: nat, at: Option<AttemptState>, response: Response)

  datatype System = System(store: Option<AttemptState>, procs: map<nat, Pc>, ops: map<nat, Operation>, log: seq<Event>)

  datatype Step = Spawn(pid: nat, op: Operation) | Move(pid: nat, reply: Reply) | Crash(pid: nat)

  /** `Claim` creates once; `Transition` compares the stored state. */
  predicate Possible(store: Option<AttemptState>, a: Action) {
    match a
    case Create => store == None
    case Swap(from, to, _) => Allowed(from, to) && store == Some(from)
    case _ => false
  }

  function Written(a: Action): AttemptState
    requires a.Create? || a.Swap?
  {
    if a.Create? then Claimed else a.to
  }

  function Recorded(pid: nat, a: Action): Event
    requires a.Create? || a.Swap?
  {
    if a.Create? then Created(pid) else Changed(pid, a.from, a.to, a.basis)
  }

  function MoveOne(s: System, pid: nat, r: Reply): System
    requires pid in s.procs
  {
    var pc := s.procs[pid];
    var a := Asks(pc);
    var changed := r.ok && Possible(s.store, a);
    System(if changed then Some(Written(a)) else s.store,
           s.procs[pid := After(pc, r, changed && !r.ackLost)],
           s.ops,
           if changed then s.log + [Recorded(pid, a)]
           else if a.Send? then s.log + [Patched(pid, s.store, r.response)]
           else s.log)
  }

  function Apply(s: System, step: Step): System {
    match step
    case Spawn(pid, op) =>
      if pid in s.procs then s else s.(procs := s.procs[pid := Start(op)], ops := s.ops[pid := op])
    case Crash(pid) => if pid in s.procs then s.(procs := s.procs[pid := Done]) else s
    case Move(pid, r) => if pid in s.procs then MoveOne(s, pid, r) else s
  }

  function Run(s: System, steps: seq<Step>): System
    decreases |steps|
  {
    if steps == [] then s else Run(Apply(s, steps[0]), steps[1..])
  }

  const INITIAL := System(None, map[], map[], [])

  lemma {:induction false} RunConcat(s: System, a: seq<Step>, b: seq<Step>)
    ensures Run(s, a + b) == Run(Run(s, a), b)
    decreases |a|
  {
    if a == [] {
      assert a + b == b;
    } else {
      assert (a + b)[1..] == a[1..] + b;
      RunConcat(Apply(s, a[0]), a[1..], b);
    }
  }

  /******* The record only moves forward *******/

  lemma AllowedRaisesRank(from: AttemptState, to: AttemptState)
    requires Allowed(from, to)
    ensures from.Rank() < to.Rank() <= 3 && !from.Terminal()
  {
  }

  /** How the record may differ later: created at most once, then only higher. */
  predicate Evolves(a: Option<AttemptState>, b: Option<AttemptState>) {
    a == None || (b.Some? && (a == b || (a.value.Rank() < b.value.Rank() && !a.value.Terminal())))
  }

  lemma ApplyEvolves(s: System, step: Step)
    ensures Evolves(s.store, Apply(s, step).store)
  {
    if step.Move? && step.pid in s.procs {
      var a := Asks(s.procs[step.pid]);
      if a.Swap? && Allowed(a.from, a.to) { AllowedRaisesRank(a.from, a.to); }
    }
  }

  /** Over every schedule the record only climbs, and a terminal record never changes. */
  lemma {:induction false} RunEvolves(s: System, steps: seq<Step>)
    ensures Evolves(s.store, Run(s, steps).store)
    decreases |steps|
  {
    if steps != [] {
      ApplyEvolves(s, steps[0]);
      RunEvolves(Apply(s, steps[0]), steps[1..]);
    }
  }

  lemma TerminalAbsorbs(s: System, steps: seq<Step>)
    requires s.store.Some? && s.store.value.Terminal()
    ensures Run(s, steps).store == s.store
  {
    RunEvolves(s, steps);
  }

  /** How many stored transitions a log records. */
  function Changes(log: seq<Event>): nat {
    if log == [] then 0 else Changes(log[..|log| - 1]) + (if log[|log| - 1].Changed? then 1 else 0)
  }

  function RankOf(s: Option<AttemptState>): nat { if s == None then 0 else s.value.Rank() }

  lemma ChangesSnoc(log: seq<Event>, e: Event)
    ensures Changes(log + [e]) == Changes(log) + (if e.Changed? then 1 else 0)
  {
    assert (log + [e])[..|log|] == log;
  }

  lemma ApplyCounts(s: System, step: Step)
    requires Changes(s.log) <= RankOf(s.store)
    ensures Changes(Apply(s, step).log) <= RankOf(Apply(s, step).store)
  {
    if step.Move? && step.pid in s.procs {
      var a := Asks(s.procs[step.pid]);
      if step.reply.ok && Possible(s.store, a) {
        ChangesSnoc(s.log, Recorded(step.pid, a));
        if a.Swap? { AllowedRaisesRank(a.from, a.to); }
      } else if a.Send? {
        ChangesSnoc(s.log, Patched(step.pid, s.store, step.reply.response));
      }
    }
  }

  lemma {:induction false} RunCounts(s: System, steps: seq<Step>)
    requires Changes(s.log) <= RankOf(s.store)
    ensures Changes(Run(s, steps).log) <= RankOf(Run(s, steps).store)
    decreases |steps|
  {
    if steps != [] {
      ApplyCounts(s, steps[0]);
      RunCounts(Apply(s, steps[0]), steps[1..]);
    }
  }

  /** At most three transitions of one attempt are ever stored. */
  lemma AtMostThreeTransitions(steps: seq<Step>)
    ensures Changes(Run(INITIAL, steps).log) <= 3
  {
    RunCounts(INITIAL, steps);
  }

  /******* The invariant *******/

  /** Claimed by this process, with the dispatch boundary not yet entered. */
  predicate Early(pc: Pc) {
    pc.ExAuthorize? || pc.ExRead? || pc.ExBlock? || pc.ExJournalSatisfied? || pc.ExFinishSatisfied? ||
    pc.ExCheck? || pc.ExJournalDispatch? || pc.ExEnter?
  }

  /** Boundary durably entered, PATCH not yet sent. */
  predicate Entered(pc: Pc) { pc.ExRecheck? || pc.ExPatch? }

  predicate Sent(pc: Pc) {
    pc.ExReject? || pc.ExAccept? || pc.ExObserve? || pc.ExJournalOutcome? || pc.ExFinish?
  }

  predicate Owning(pc: Pc) { Early(pc) || Entered(pc) || Sent(pc) }

  predicate NoPatch(log: seq<Event>) {
    forall i :: 0 <= i < |log| ==> !log[i].Patched?
  }

  predicate Answered(log: seq<Event>, r: Response) {
    exists i :: 0 <= i < |log| && log[i].Patched? && log[i].response == r
  }

  predicate ChangedTo(log: seq<Event>, to: AttemptState, from: AttemptState, basis: Basis) {
    exists i :: 0 <= i < |log| && log[i].Changed? && log[i].from == from && log[i].to == to && log[i].basis == basis
  }

  /** What a process knows, in terms of the store and the log. */
  predicate Consistent(store: Option<AttemptState>, log: seq<Event>, pc: Pc) {
    (Owning(pc) ==> store.Some?) &&
    (Early(pc) ==> store == Some(Claimed) && NoPatch(log)) &&
    (Entered(pc) ==> NoPatch(log) && store != Some(Claimed) && store != Some(Accepted) && store != Some(Blocked)
                     && !ChangedTo(log, Completed, Claimed, AlreadySatisfied)) &&
    (pc.ExReject? ==> Answered(log, PreconditionFailed)) &&
    (pc.ExAccept? ==> Answered(log, Success)) &&
    (pc.ExObserve? && pc.accepted ==> Answered(log, Success)) &&
    (pc.ExJournalOutcome? || pc.ExFinish? ==> Discharges(pc.accepted, pc.verdict)) &&
    (pc.ReJournal? || pc.ReFinish? ==> Discharges(pc.was == Accepted, pc.verdict)) &&
    (pc.ReObserve? || pc.ReJournal? || pc.ReFinish? || pc.RtJournal? || pc.RtFinish? ==> Unresolved(Some(pc.was)))
  }

  /** Why the stored state is what it is. */
  predicate Justified(store: Option<AttemptState>, log: seq<Event>) {
    (store == None ==> log == []) &&
    (store == Some(Claimed) ==> NoPatch(log) && forall i :: 0 <= i < |log| ==> !log[i].Changed?) &&
    (store == Some(Accepted) ==> Answered(log, Success)) &&
    (store == Some(Blocked) ==> NoPatch(log) || Answered(log, PreconditionFailed)) &&
    (store == Some(Completed) ==> CompletionJustified(log))
  }

  predicate CompletionJustified(log: seq<Event>) {
    (NoPatch(log) && ChangedTo(log, Completed, Claimed, AlreadySatisfied)) ||
    (Answered(log, Success) && exists v :: ChangedTo(log, Completed, Accepted, StableObservation(v))) ||
    ChangedTo(log, Completed, PossibleEffect, StableObservation(Verified))
  }

  predicate PatchesSound(s: System) {
    (forall i, j :: 0 <= i < j < |s.log| ==> !(s.log[i].Patched? && s.log[j].Patched?)) &&
    (forall i :: 0 <= i < |s.log| && s.log[i].Patched? ==>
       s.log[i].at.Some? && s.log[i].at.value.Rank() >= 1 &&
       s.log[i].pid in s.ops && s.ops[s.log[i].pid] == Execute)
  }

  predicate OneOwner(s: System) {
    forall p, q :: p in s.procs && q in s.procs && Owning(s.procs[p]) && Owning(s.procs[q]) ==> p == q
  }

  predicate OpsAgree(s: System) {
    s.ops.Keys == s.procs.Keys &&
    forall p :: p in s.procs && (Owning(s.procs[p]) || s.procs[p] == ExClaim) ==> s.ops[p] == Execute
  }

  ghost predicate Inv(s: System) {
    Justified(s.store, s.log) && PatchesSound(s) && OneOwner(s) && OpsAgree(s) &&
    forall p :: p in s.procs ==> Consistent(s.store, s.log, s.procs[p])
  }

  /******* Every step keeps the invariant *******/

  /** The event a step appends to the log, if any. */
  function EventOf(s: System, pid: nat, r: Reply): Option<Event>
    requires pid in s.procs
  {
    var a := Asks(s.procs[pid]);
    if r.ok && Possible(s.store, a) then Some(Recorded(pid, a))
    else if a.Send? then Some(Patched(pid, s.store, r.response))
    else None
  }

  lemma LogGrows(log: seq<Event>, e: Event)
    ensures NoPatch(log + [e]) <==> NoPatch(log) && !e.Patched?
    ensures forall r :: Answered(log + [e], r) <==> Answered(log, r) || (e.Patched? && e.response == r)
    ensures forall to, from, basis :: ChangedTo(log + [e], to, from, basis) <==>
              ChangedTo(log, to, from, basis) || (e.Changed? && e.from == from && e.to == to && e.basis == basis)
  {
    var longer := log + [e];
    assert forall i :: 0 <= i < |log| ==> longer[i] == log[i];
    assert longer[|log|] == e;
  }

  lemma MoveLog(s: System, pid: nat, r: Reply)
    requires pid in s.procs
    ensures var e := EventOf(s, pid, r);
      MoveOne(s, pid, r).log == (if e == None then s.log else s.log + [e.value])
  {
  }

  lemma MoveKeepsPatches(s: System, pid: nat, r: Reply)
    requires Inv(s) && pid in s.procs
    ensures PatchesSound(MoveOne(s, pid, r))
  {
    var t, e := MoveOne(s, pid, r), EventOf(s, pid, r);
    MoveLog(s, pid, r);
    assert Consistent(s.store, s.log, s.procs[pid]);
    if e.Some? && e.value.Patched? {
      assert s.procs[pid] == ExPatch;
    }
  }

  lemma MoveKeepsJustified(s: System, pid: nat, r: Reply)
    requires Justified(s.store, s.log) && pid in s.procs && Consistent(s.store, s.log, s.procs[pid])
    ensures Justified(MoveOne(s, pid, r).store, MoveOne(s, pid, r).log)
  {
    var t, e := MoveOne(s, pid, r), EventOf(s, pid, r);
    MoveLog(s, pid, r);
    if e.Some? {
      LogGrows(s.log, e.value);
      hide NoPatch, Answered, ChangedTo;
      if e.value.Changed? && t.store == Some(Completed) {
        assert ChangedTo(t.log, Completed, e.value.from, e.value.basis);
      }
    }
  }

  /** Only the claiming process passes `ExClaim`, and only while no record exists. */
  lemma MoveKeepsOwner(s: System, pid: nat, r: Reply)
    requires Inv(s) && pid in s.procs
    ensures OneOwner(MoveOne(s, pid, r)) && OpsAgree(MoveOne(s, pid, r))
  {
    hide Justified, PatchesSound, NoPatch, Answered, ChangedTo;
    var t := MoveOne(s, pid, r);
    forall q | q in s.procs ensures s.store == None ==> !Owning(s.procs[q]) {
      assert Consistent(s.store, s.log, s.procs[q]);
    }
    AfterOwning(s, pid, r);
  }

  lemma AfterOwning(s: System, pid: nat, r: Reply)
    requires pid in s.procs
    ensures Owning(MoveOne(s, pid, r).procs[pid]) ==>
              Owning(s.procs[pid]) || (s.procs[pid] == ExClaim && s.store == None)
  {
  }

  /** The moving process knows what it just learned. */
  lemma MoverConsistent(s: System, pid: nat, r: Reply)
    requires Inv(s) && pid in s.procs
    ensures Consistent(MoveOne(s, pid, r).store, MoveOne(s, pid, r).log, MoveOne(s, pid, r).procs[pid])
  {
    hide PatchesSound, OneOwner, OpsAgree;
    var e := EventOf(s, pid, r);
    MoveLog(s, pid, r);
    assert Consistent(s.store, s.log, s.procs[pid]);
    if e.Some? {
      LogGrows(s.log, e.value);
      NothingChangedYet(s.store, s.log);
      LearnedFromEvent(s, pid, r);
    } else {
      LearnedFromReply(s, pid, r);
    }
  }

  lemma NothingChangedYet(store: Option<AttemptState>, log: seq<Event>)
    requires Justified(store, log)
    ensures store == None ==> NoPatch(log)
    ensures store == Some(Claimed) ==> !ChangedTo(log, Completed, Claimed, AlreadySatisfied)
  {
  }

  lemma LearnedFromReply(s: System, pid: nat, r: Reply)
    requires pid in s.procs && EventOf(s, pid, r) == None && Consistent(s.store, s.log, s.procs[pid])
    ensures Consistent(s.store, s.log, MoveOne(s, pid, r).procs[pid])
  {
    hide NoPatch, Answered, ChangedTo;
  }

  lemma LearnedFromEvent(s: System, pid: nat, r: Reply)
    requires pid in s.procs && EventOf(s, pid, r).Some? && Consistent(s.store, s.log, s.procs[pid])
    requires var t, e := MoveOne(s, pid, r), EventOf(s, pid, r).value;
      (NoPatch(t.log) <==> NoPatch(s.log) && !e.Patched?) &&
      (e.Patched? ==> Answered(t.log, e.response)) &&
      (forall x :: Answered(s.log, x) ==> Answered(t.log, x)) &&
      (ChangedTo(t.log, Completed, Claimed, AlreadySatisfied) <==>
         ChangedTo(s.log, Completed, Claimed, AlreadySatisfied) || (e.Changed? && e.basis == AlreadySatisfied))
    requires s.store == None ==> NoPatch(s.log)
    requires s.store == Some(Claimed) ==> !ChangedTo(s.log, Completed, Claimed, AlreadySatisfied)
    ensures Consistent(MoveOne(s, pid, r).store, MoveOne(s, pid, r).log, MoveOne(s, pid, r).procs[pid])
  {
    hide NoPatch, Answered, ChangedTo;
  }

  /** What another process knows stays true. */
  lemma OtherConsistent(s: System, pid: nat, r: Reply, q: nat)
    requires Inv(s) && pid in s.procs && q in s.procs && q != pid
    ensures Consistent(MoveOne(s, pid, r).store, MoveOne(s, pid, r).log, s.procs[q])
  {
    hide PatchesSound, OpsAgree;
    var e := EventOf(s, pid, r);
    MoveLog(s, pid, r);
    assert Consistent(s.store, s.log, s.procs[q]) && Consistent(s.store, s.log, s.procs[pid]);
    assert Owning(s.procs[q]) ==> !Owning(s.procs[pid]);
    if e.Some? { LogGrows(s.log, e.value); }
    hide NoPatch, Answered, ChangedTo;
  }

  lemma ApplyKeepsInv(s: System, step: Step)
    requires Inv(s)
    ensures Inv(Apply(s, step))
  {
    var t := Apply(s, step);
    if step.Move? && step.pid in s.procs {
      MoveKeepsPatches(s, step.pid, step.reply);
      assert Consistent(s.store, s.log, s.procs[step.pid]);
      MoveKeepsJustified(s, step.pid, step.reply);
      MoveKeepsOwner(s, step.pid, step.reply);
      forall p | p in t.procs ensures Consistent(t.store, t.log, t.procs[p]) {
        if p == step.pid {
          MoverConsistent(s, p, step.reply);
        } else {
          OtherConsistent(s, step.pid, step.reply, p);
        }
      }
      hide Consistent, Justified, PatchesSound, OneOwner, OpsAgree;
    } else {
      SpawnOrCrash(s, step);
    }
  }

  lemma FreshConsistent(store: Option<AttemptState>, log: seq<Event>, pc: Pc)
    requires pc.ExClaim? || pc.ReLoad? || pc.RtLoad? || pc.Done?
    ensures Consistent(store, log, pc) && !Owning(pc)
  {
  }

  lemma SpawnOrCrash(s: System, step: Step)
    requires Inv(s) && !(step.Move? && step.pid in s.procs)
    ensures Inv(Apply(s, step))
  {
    hide Consistent, Justified, Owning;
    if !step.Move? {
      var pc := if step.Spawn? then Start(step.op) else Done;
      FreshConsistent(s.store, s.log, pc);
    }
  }

  lemma {:induction false} RunKeepsInv(s: System, steps: seq<Step>)
    requires Inv(s)
    ensures Inv(Run(s, steps))
    decreases |steps|
  {
    hide Inv;
    if steps != [] {
      ApplyKeepsInv(s, steps[0]);
      RunKeepsInv(Apply(s, steps[0]), steps[1..]);
    }
  }

  lemma Reachable(steps: seq<Step>)
    ensures Inv(Run(INITIAL, steps))
  {
    RunKeepsInv(INITIAL, steps);
  }

  /******* Main results *******/

  /** Over every interleaving and crash schedule at most one PATCH is sent; it is sent
      by an `Execute` process, never by recovery, and only after the record durably
      left CLAIMED. */
  lemma AtMostOnePatch(steps: seq<Step>)
    ensures var log := Run(INITIAL, steps).log;
      forall i, j :: 0 <= i < |log| && 0 <= j < |log| && log[i].Patched? && log[j].Patched? ==> i == j
    ensures var t := Run(INITIAL, steps);
      forall i :: 0 <= i < |t.log| && t.log[i].Patched? ==>
        t.log[i].at.Some? && t.log[i].at.value.Rank() >= 1 && t.log[i].pid in t.ops && t.ops[t.log[i].pid] == Execute
  {
    Reachable(steps);
    hide Consistent, Justified, OneOwner, OpsAgree;
  }

  /** A completed attempt was never dispatched and already satisfied, or accepted with
      a success response and stably observed, or of unknown acceptance with a stable
      VERIFIED observation. */
  lemma CompletedIsEarned(steps: seq<Step>)
    ensures Run(INITIAL, steps).store == Some(Completed) ==> CompletionJustified(Run(INITIAL, steps).log)
  {
    Reachable(steps);
    hide Consistent, PatchesSound, OneOwner, OpsAgree, CompletionJustified;
  }

  /** A blocked attempt sent no PATCH or was answered 412, for good. */
  lemma BlockedHadNoEffect(steps: seq<Step>, more: seq<Step>)
    ensures var t := Run(INITIAL, steps + more);
      Run(INITIAL, steps).store == Some(Blocked) ==>
        t.store == Some(Blocked) && (NoPatch(t.log) || Answered(t.log, PreconditionFailed))
  {
    if Run(INITIAL, steps).store == Some(Blocked) {
      RunConcat(INITIAL, steps, more);
      TerminalAbsorbs(Run(INITIAL, steps), more);
      Reachable(steps + more);
      hide Consistent, PatchesSound, OneOwner, OpsAgree;
    }
  }
}
