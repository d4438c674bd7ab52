/** When the PATCH of an attempt is sent relative to the changes of its record
    (internal/eepcrm/executor.go, recovery.go).  Recovery may finish a record that has
    entered the dispatch boundary before its PATCH leaves; this is the only way in which
    a PATCH can find another state than POSSIBLE_EFFECT. */
module CrmPatchOrder {
  import opened Text
  import opened CrmAttempts

  predicate Recovering(pc: Pc) {
    pc.ReLoad? || pc.ReObserve? || pc.ReJournal? || pc.ReFinish? || pc.RtLoad? || pc.RtJournal? || pc.RtFinish?
  }

  /** A stored change made by a recovery process. */
  predicate ByRecovery(ops: map<nat, Operation>, e: Event) {
    e.Changed? && e.pid in ops && ops[e.pid] != Execute
  }

  /** Some Reconcile or Retire process changed the record in this log. */
  predicate RecoveryChanged(ops: map<nat, Operation>, log: seq<Event>) {
    exists i :: 0 <= i < |log| && ByRecovery(ops, log[i])
  }

  predicate Dispatchable(store: Option<AttemptState>) {
    store == Some(PossibleEffect) || store == Some(Completed) || store == Some(RetiredUnknown)
  }

  /** The store tells an entered process whether recovery was there first. */
  predicate Told(ops: map<nat, Operation>, log: seq<Event>, store: Option<AttemptState>) {
    Dispatchable(store) && (store == Some(PossibleEffect) <==> !RecoveryChanged(ops, log))
  }

  predicate Known(ops: map<nat, Operation>, log: seq<Event>) {
    forall i :: 0 <= i < |log| ==> log[i].pid in ops
  }

  predicate PatchesTold(ops: map<nat, Operation>, log: seq<Event>) {
    forall i :: 0 <= i < |log| && log[i].Patched? ==> Told(ops, log[..i], log[i].at)
  }

  predicate RolesAgree(s: System) {
    forall p :: p in s.procs && Recovering(s.procs[p]) ==> p in s.ops && s.ops[p] != Execute
  }

  predicate EnteredTold(s: System) {
    forall p :: p in s.procs && Entered(s.procs[p]) ==> Told(s.ops, s.log, s.store)
  }

  ghost predicate OrderInv(s: System) {
    Inv(s) && Known(s.ops, s.log) && RolesAgree(s) && EnteredTold(s) && PatchesTold(s.ops, s.log)
  }

  /******* Every step keeps it *******/

  lemma ChangedSnoc(ops: map<nat, Operation>, log: seq<Event>, e: Event)
    ensures RecoveryChanged(ops, log + [e]) <==> RecoveryChanged(ops, log) || ByRecovery(ops, e)
  {
    var longer := log + [e];
    assert longer[|log|] == e && forall i :: 0 <= i < |log| ==> longer[i] == log[i];
  }

  lemma MovePatchesTold(s: System, pid: nat, r: Reply)
    requires OrderInv(s) && pid in s.procs
    ensures PatchesTold(s.ops, MoveOne(s, pid, r).log)
  {
    hide Inv, Told, RolesAgree;
    MoveLog(s, pid, r);
    var t, e := MoveOne(s, pid, r), EventOf(s, pid, r);
    forall i | 0 <= i < |t.log| && t.log[i].Patched? ensures Told(s.ops, t.log[..i], t.log[i].at) {
      assert t.log[..i] == s.log[..i];
      if i == |s.log| {
        assert s.log[..i] == s.log;
        assert s.procs[pid] == ExPatch;
      }
    }
  }

  lemma MoveRoles(s: System, pid: nat, r: Reply)
    requires OrderInv(s) && pid in s.procs
    ensures RolesAgree(MoveOne(s, pid, r)) && Known(s.ops, MoveOne(s, pid, r).log)
  {
    hide Told, EnteredTold, PatchesTold, Justified, PatchesSound, OneOwner, Consistent;
    MoveLog(s, pid, r);
  }

  /** The record as a process that has just entered the boundary finds it. */
  lemma MoveEntered(s: System, pid: nat, r: Reply, q: nat)
    requires OrderInv(s) && pid in s.procs && q in s.procs && Entered(MoveOne(s, pid, r).procs[q])
    ensures Told(s.ops, MoveOne(s, pid, r).log, MoveOne(s, pid, r).store)
  {
    hide PatchesSound, PatchesTold, Known, NoPatch, Answered, ChangedTo, CompletionJustified, RecoveryChanged;
    var t, e := MoveOne(s, pid, r), EventOf(s, pid, r);
    MoveLog(s, pid, r);
    assert Consistent(s.store, s.log, s.procs[pid]) && Consistent(s.store, s.log, s.procs[q]);
    if e.Some? { ChangedSnoc(s.ops, s.log, e.value); }
    if q == pid {
      if s.procs[pid] == ExEnter { NothingChanged(s); }
    } else {
      assert !Owning(s.procs[pid]);
    }
  }

  lemma NothingChanged(s: System)
    requires Inv(s) && s.store == Some(Claimed)
    ensures !RecoveryChanged(s.ops, s.log)
  {
    hide Consistent, PatchesSound, OneOwner, OpsAgree;
  }

  lemma MoveKeepsOrder(s: System, pid: nat, r: Reply)
    requires OrderInv(s) && pid in s.procs
    ensures OrderInv(MoveOne(s, pid, r))
  {
    MovePatchesTold(s, pid, r);
    MoveRoles(s, pid, r);
    ApplyKeepsInv(s, Move(pid, r));
    forall q | q in MoveOne(s, pid, r).procs && Entered(MoveOne(s, pid, r).procs[q])
      ensures Told(s.ops, MoveOne(s, pid, r).log, MoveOne(s, pid, r).store)
    {
      MoveEntered(s, pid, r, q);
    }
    hide Inv, Told, RolesAgree, Known, PatchesTold;
  }

  /** A new name for a process says nothing about the events of others. */
  lemma SameChanges(ops: map<nat, Operation>, log: seq<Event>, pid: nat, op: Operation)
    requires pid !in ops && Known(ops, log)
    ensures RecoveryChanged(ops[pid := op], log) <==> RecoveryChanged(ops, log)
  {
    assert forall i :: 0 <= i < |log| ==> (ByRecovery(ops[pid := op], log[i]) <==> ByRecovery(ops, log[i]));
  }

  lemma SpawnKeepsOrder(s: System, pid: nat, op: Operation)
    requires OrderInv(s) && pid !in s.procs
    ensures OrderInv(Apply(s, Spawn(pid, op)))
  {
    ApplyKeepsInv(s, Spawn(pid, op));
    assert pid !in s.ops;
    hide Inv, RecoveryChanged;
    var t := Apply(s, Spawn(pid, op));
    SameChanges(s.ops, s.log, pid, op);
    forall i | 0 <= i < |t.log| && t.log[i].Patched? ensures Told(t.ops, t.log[..i], t.log[i].at) {
      assert Known(s.ops, s.log[..i]);
      SameChanges(s.ops, s.log[..i], pid, op);
    }
  }

  lemma ApplyKeepsOrder(s: System, step: Step)
    requires OrderInv(s)
    ensures OrderInv(Apply(s, step))
  {
    if step.Move? && step.pid in s.procs {
      MoveKeepsOrder(s, step.pid, step.reply);
    } else if step.Spawn? && step.pid !in s.procs {
      SpawnKeepsOrder(s, step.pid, step.op);
    } else {
      ApplyKeepsInv(s, step);
      hide Inv, Told, PatchesTold, Known;
    }
  }

  lemma {:induction false} RunKeepsOrder(s: System, steps: seq<Step>)
    requires OrderInv(s)
    ensures OrderInv(Run(s, steps))
    decreases |steps|
  {
    hide OrderInv;
    if steps != [] {
      ApplyKeepsOrder(s, steps[0]);
      RunKeepsOrder(Apply(s, steps[0]), steps[1..]);
    }
  }

  /******* Main results *******/

  /** Every PATCH is sent at POSSIBLE_EFFECT, COMPLETED or RETIRED_UNKNOWN, and at
      POSSIBLE_EFFECT exactly when no recovery process changed the record before it. */
  lemma PatchPrecedesTerminalIff(steps: seq<Step>)
    ensures var t := Run(INITIAL, steps);
      forall i :: 0 <= i < |t.log| && t.log[i].Patched? ==>
        Dispatchable(t.log[i].at) &&
        (t.log[i].at == Some(PossibleEffect) <==> !RecoveryChanged(t.ops, t.log[..i]))
  {
    RunKeepsOrder(INITIAL, steps);
    hide Inv, Known, RolesAgree, EnteredTold;
  }

  /** No recovery process is started. */
  predicate NoRecovery(steps: seq<Step>) {
    forall i :: 0 <= i < |steps| && steps[i].Spawn? ==> steps[i].op == Execute
  }

  lemma {:induction false} OnlyExecutors(s: System, steps: seq<Step>)
    requires NoRecovery(steps) && forall p :: p in s.ops ==> s.ops[p] == Execute
    ensures forall p :: p in Run(s, steps).ops ==> Run(s, steps).ops[p] == Execute
    decreases |steps|
  {
    if steps != [] { OnlyExecutors(Apply(s, steps[0]), steps[1..]); }
  }

  /** The attempt is claimed and no process is left that could still send its PATCH. */
  predicate Ended(s: System) {
    s.store.Some? && forall p :: p in s.procs ==> !Early(s.procs[p]) && !Entered(s.procs[p])
  }

  lemma ApplyKeepsEnded(s: System, step: Step)
    requires Ended(s)
    ensures Ended(Apply(s, step)) && s.log <= Apply(s, step).log
    ensures forall i :: |s.log| <= i < |Apply(s, step).log| ==> !Apply(s, step).log[i].Patched?
  {
  }

  lemma {:induction false} NoPatchAfterEnd(s: System, steps: seq<Step>)
    requires Ended(s)
    ensures s.log <= Run(s, steps).log
    ensures forall i :: |s.log| <= i < |Run(s, steps).log| ==> !Run(s, steps).log[i].Patched?
    decreases |steps|
  {
    hide Ended;
    if steps != [] {
      ApplyKeepsEnded(s, steps[0]);
      NoPatchAfterEnd(Apply(s, steps[0]), steps[1..]);
    }
  }

  /** If recovery starts only after every Execute has sent its PATCH or can no longer send
      one, every PATCH finds POSSIBLE_EFFECT, whatever happens later. */
  lemma RecoveryAfterExecuteIsSafe(steps: seq<Step>, more: seq<Step>)
    requires NoRecovery(steps) && (more == [] || Ended(Run(INITIAL, steps)))
    ensures var t := Run(INITIAL, steps + more);
      forall i :: 0 <= i < |t.log| && t.log[i].Patched? ==> t.log[i].at == Some(PossibleEffect)
  {
    var s := Run(INITIAL, steps);
    RunConcat(INITIAL, steps, more);
    OnlyExecutors(INITIAL, steps);
    PatchPrecedesTerminalIff(steps);
    assert forall i :: 0 <= i < |s.log| ==> !RecoveryChanged(s.ops, s.log[..i]);
    if more != [] { NoPatchAfterEnd(s, more); }
  }

  /******* Schedules in which recovery is first *******/

  ghost predicate Reached(s: System) {
    exists steps :: Run(INITIAL, steps) == s
  }

  lemma ReachStep(s: System, step: Step)
    requires Reached(s)
    ensures Reached(Apply(s, step))
  {
    var steps :| Run(INITIAL, steps) == s;
    RunConcat(INITIAL, steps, [step]);
    assert Run(s, [step]) == Apply(s, step);
  }

  function At(s: System, pid: nat): Option<Pc> {
    if pid in s.procs then Some(s.procs[pid]) else None
  }

  /** Two processes stand at given calls of a reachable system. */
  ghost predicate Stand(s: System, store: Option<AttemptState>, executor: Pc, recovery: Option<Pc>) {
    Reached(s) && s.store == store && At(s, 0) == Some(executor) && At(s, 1) == recovery
  }

  lemma Walk(s: System, store: Option<AttemptState>, executor: Pc, recovery: Option<Pc>, pid: nat, r: Reply) returns (t: System)
    requires Stand(s, store, executor, recovery) && r.ok && !r.ackLost
    requires pid == 0 || (pid == 1 && recovery.Some?)
    ensures var pc := if pid == 0 then executor else recovery.value;
      var a := Asks(pc);
      var changed := Possible(store, a);
      Stand(t, if changed then Some(Written(a)) else store,
            if pid == 0 then After(pc, r, changed) else executor,
            if pid == 1 then Some(After(pc, r, changed)) else recovery)
  {
    hide Reached;
    ReachStep(s, Move(pid, r));
    t := Apply(s, Move(pid, r));
  }

  lemma SpawnExecutor() returns (s: System)
    ensures Stand(s, None, ExClaim, None)
  {
    assert Run(INITIAL, []) == INITIAL;
    ReachStep(INITIAL, Spawn(0, Execute));
    s := Apply(INITIAL, Spawn(0, Execute));
  }

  lemma Enter(r: Reply) returns (s: System)
    requires r.ok && !r.ackLost && r.snapshot == Some(Snapshot(true, Some(Partial)))
    ensures Stand(s, Some(PossibleEffect), ExPatch, None)
  {
    s := SpawnExecutor();
    hide Stand;
    s := Walk(s, None, ExClaim, None, 0, r);
    s := Walk(s, Some(Claimed), ExAuthorize, None, 0, r);
    s := Walk(s, Some(Claimed), ExRead, None, 0, r);
    s := Walk(s, Some(Claimed), ExCheck, None, 0, r);
    s := Walk(s, Some(Claimed), ExJournalDispatch, None, 0, r);
    s := Walk(s, Some(Claimed), ExEnter, None, 0, r);
    s := Walk(s, Some(PossibleEffect), ExRecheck, None, 0, r);
  }

  lemma SpawnRecovery(s: System, store: Option<AttemptState>, executor: Pc, op: Operation) returns (t: System)
    requires Stand(s, store, executor, None)
    ensures Stand(t, store, executor, Some(Start(op)))
  {
    hide Reached;
    ReachStep(s, Spawn(1, op));
    t := Apply(s, Spawn(1, op));
  }

  function Cooperative(): Reply {
    Reply(true, false, Some(PossibleEffect), Some(Snapshot(true, Some(Partial))), Ambiguous, Some(Verified))
  }

  lemma FinishEarly() returns (s: System)
    ensures Stand(s, Some(Completed), ExPatch, Some(Done))
  {
    hide Stand;
    var r := Cooperative();
    s := Enter(r);
    s := SpawnRecovery(s, Some(PossibleEffect), ExPatch, Reconcile);
    s := Walk(s, Some(PossibleEffect), ExPatch, Some(ReLoad), 1, r);
    s := Walk(s, Some(PossibleEffect), ExPatch, Some(ReObserve(PossibleEffect)), 1, r);
    s := Walk(s, Some(PossibleEffect), ExPatch, Some(ReJournal(PossibleEffect, Verified)), 1, r);
    s := Walk(s, Some(PossibleEffect), ExPatch, Some(ReFinish(PossibleEffect, Verified)), 1, r);
  }

  lemma RetireEarly() returns (s: System)
    ensures Stand(s, Some(RetiredUnknown), ExPatch, Some(Done))
  {
    hide Stand;
    var r := Cooperative();
    s := Enter(r);
    s := SpawnRecovery(s, Some(PossibleEffect), ExPatch, Retire);
    s := Walk(s, Some(PossibleEffect), ExPatch, Some(RtLoad), 1, r);
    s := Walk(s, Some(PossibleEffect), ExPatch, Some(RtJournal(PossibleEffect)), 1, r);
    s := Walk(s, Some(PossibleEffect), ExPatch, Some(RtFinish(PossibleEffect)), 1, r);
  }

  /** The PATCH is the last event and found the given state. */
  predicate PatchedLast(s: System, at: AttemptState) {
    s.log != [] && s.log[|s.log| - 1].Patched? && s.log[|s.log| - 1].at == Some(at)
  }

  lemma SendNow(s: System, at: AttemptState) returns (t: System)
    requires Stand(s, Some(at), ExPatch, Some(Done))
    ensures Reached(t) && t.store == Some(at) && PatchedLast(t, at)
  {
    hide Reached;
    ReachStep(s, Move(0, Cooperative()));
    t := Apply(s, Move(0, Cooperative()));
  }

  /** Recovery may complete an attempt whose PATCH has not left yet. */
  lemma CompletionMayPrecedePatch() returns (s: System)
    ensures Reached(s) && s.store == Some(Completed) && PatchedLast(s, Completed)
  {
    s := FinishEarly();
    s := SendNow(s, Completed);
  }

  /** An operator may retire an attempt whose PATCH has not left yet. */
  lemma RetirementMayPrecedePatch() returns (s: System)
    ensures Reached(s) && s.store == Some(RetiredUnknown) && PatchedLast(s, RetiredUnknown)
  {
    s := RetireEarly();
    s := SendNow(s, RetiredUnknown);
  }
}
