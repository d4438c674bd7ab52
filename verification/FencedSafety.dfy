/** Safety of the fenced custody protocol over every run. */
module FencedSafety {
  import opened Text
  import opened Framing
  import opened Runtime
  import opened FencedProtocol

  function PhaseRank(p: Phase): nat {
    match p
    case Reserved => 0
    case Crossing => 1
    case Unknown => 2
    case Closed => 3
  }

  /** The order every successful store write climbs: phase first, then generation. */
  predicate Below(a: FencedCustody, b: FencedCustody) {
    PhaseRank(a.phase) < PhaseRank(b.phase) ||
    (a.phase == b.phase && a.generation < b.generation)
  }

  /******* What each program point knows *******/

  /** The process won the swap into CROSSING and has not returned yet. */
  predicate Holds(pc: Pc) {
    pc.ExecuteRecheck? || pc.ExecuteContext? || pc.ExecuteEffect? ||
    pc.ExecuteMarkUnknown? || pc.ExecuteObserve? || pc.ExecuteClose?
  }

  predicate SameRecord(a: Pc, b: Pc) {
    Holds(a) && Holds(b) && KeyOf(a.c) == KeyOf(b.c)
  }

  predicate BeforeEffect(pc: Pc) {
    pc.ExecuteRecheck? || pc.ExecuteContext? || pc.ExecuteEffect?
  }

  /** The process has entered the effect callback, by its own account. */
  predicate SaysEntered(pc: Pc) {
    pc.ExecuteMarkUnknown? || pc.ExecuteObserve? || pc.ExecuteClose? ||
    (pc.Done? && pc.out.Execution? && pc.out.entered)
  }

  predicate ReturnedClosed(pc: Pc) {
    pc.Done? && pc.out.Execution? && pc.out.disposition == ClosedResult
  }

  predicate LocalsOk(pc: Pc) {
    match pc
    case ReserveCreate(_, c, _) => c.phase == Reserved && c.generation > 0
    case ReserveRecheck(_, c, _) => c.phase == Reserved
    case ExecuteCheck(_, c) => c.phase == Reserved
    case ExecuteLoad(_, c) => c.phase == Reserved
    case ExecuteCross(_, c) => c.phase == Reserved
    case ExecuteRecheck(_, c) => c.phase == Crossing
    case ExecuteContext(_, c) => c.phase == Crossing
    case ExecuteEffect(_, c) => c.phase == Crossing
    case ExecuteMarkUnknown(_, c) => c.phase == Crossing
    case ExecuteObserve(_, c) => c.phase == Unknown
    case ExecuteClose(_, c) => c.phase == Unknown
    case TakeoverVerify(_, c) => c.phase == Reserved && c.generation < MAX_UINT64
    case TakeoverSwap(_, c) => c.phase == Reserved && c.generation < MAX_UINT64
    case Done(Execution(d, entered, c, _)) =>
      (d == RejectedResult <==> !entered) && (d == ClosedResult ==> c.phase == Closed)
    case _ => true
  }

  /******* The invariant *******/

  ghost predicate StoreOk(s: System) {
    forall k :: k in s.store ==> KeyOf(s.store[k]) == k && s.store[k].generation > 0
  }

  ghost predicate HoldersOk(s: System) {
    (forall p :: p in s.procs ==> LocalsOk(s.procs[p])) &&
    (forall p :: p in s.procs && Holds(s.procs[p]) ==>
       KeyOf(s.procs[p].c) in s.store && s.store[KeyOf(s.procs[p].c)] == s.procs[p].c) &&
    (forall p, q :: p in s.procs && q in s.procs && SameRecord(s.procs[p], s.procs[q]) ==> p == q)
  }

  /** Each entry is the only one for its record, and fixed its owner and generation. */
  ghost predicate EntriesOk(s: System) {
    (forall i :: 0 <= i < |s.entries| ==>
       var c := s.entries[i].custody;
       KeyOf(c) in s.store && s.store[KeyOf(c)].phase != Reserved &&
       s.store[KeyOf(c)].owner == c.owner && s.store[KeyOf(c)].generation == c.generation) &&
    (forall i, j :: 0 <= i < j < |s.entries| ==> KeyOf(s.entries[i].custody) != KeyOf(s.entries[j].custody)) &&
    (forall p, i :: p in s.procs && BeforeEffect(s.procs[p]) && 0 <= i < |s.entries| ==>
       KeyOf(s.entries[i].custody) != KeyOf(s.procs[p].c))
  }

  ghost predicate Entered(s: System, pid: nat) {
    exists i :: 0 <= i < |s.entries| && s.entries[i].pid == pid
  }

  /** Unless it crashed, a process's own account of entering is the truth. */
  ghost predicate AccountsOk(s: System) {
    (forall i :: 0 <= i < |s.entries| ==> s.entries[i].pid in s.procs) &&
    (forall p :: p in s.procs && s.procs[p] != Done(Crashed) ==> (SaysEntered(s.procs[p]) <==> Entered(s, p)))
  }

  /** The store holds the highest write of each key, and writes only climb. */
  ghost predicate WritesOk(s: System) {
    (forall i :: 0 <= i < |s.writes| ==>
       var k := KeyOf(s.writes[i]);
       k in s.store && (s.writes[i] == s.store[k] || Below(s.writes[i], s.store[k]))) &&
    (forall i, j :: 0 <= i < j < |s.writes| && KeyOf(s.writes[i]) == KeyOf(s.writes[j]) ==>
       Below(s.writes[i], s.writes[j]))
  }

  /** A process that returned CLOSED left its record CLOSED for good. */
  ghost predicate ClosedOk(s: System) {
    forall p :: p in s.procs && ReturnedClosed(s.procs[p]) ==>
      KeyOf(s.procs[p].out.custody) in s.store &&
      s.store[KeyOf(s.procs[p].out.custody)] == s.procs[p].out.custody
  }

  ghost predicate Invariant(s: System) {
    StoreOk(s) && HoldersOk(s) && EntriesOk(s) && AccountsOk(s) && WritesOk(s) && ClosedOk(s)
  }

  /******* One step *******/

  lemma StartIsFresh(u: Rules, op: Operation)
    ensures LocalsOk(Start(u, op)) && !Holds(Start(u, op)) && !SaysEntered(Start(u, op)) && !ReturnedClosed(Start(u, op))
  {
  }

  /** How a process's next program point relates to its current one. */
  lemma AfterShape(u: Rules, pc: Pc, r: Reply, granted: bool)
    requires LocalsOk(pc)
    ensures var pc' := After(u, pc, r, granted);
      LocalsOk(pc') &&
      (SaysEntered(pc') <==> SaysEntered(pc) || pc.ExecuteEffect?) &&
      (ReturnedClosed(pc') ==> pc' == pc || (pc.ExecuteClose? && granted && pc'.out.custody == Asks(pc).next)) &&
      (BeforeEffect(pc') ==> (BeforeEffect(pc) && !pc.ExecuteEffect? && pc'.c == pc.c) || pc.ExecuteCross?) &&
      (Holds(pc') ==>
         KeyOf(pc'.c) == KeyOf(pc.c) &&
         (Holds(pc) || pc.ExecuteCross?) &&
         (if Asks(pc).Swap? then granted && pc'.c == Asks(pc).next else pc'.c == pc.c))
  {
  }

  /** Every write the protocol asks for climbs above the record it replaces. */
  lemma AskClimbs(pc: Pc)
    requires LocalsOk(pc) && Asks(pc).Swap?
    ensures KeyOf(Asks(pc).next) == KeyOf(Asks(pc).expected)
    ensures Below(Asks(pc).expected, Asks(pc).next)
    ensures Asks(pc).expected.generation <= Asks(pc).next.generation
    ensures Asks(pc).expected.phase != Closed
    ensures Asks(pc).expected.phase != Reserved ==>
              Holds(pc) && Asks(pc).next.owner == Asks(pc).expected.owner &&
              Asks(pc).next.generation == Asks(pc).expected.generation && Asks(pc).next.phase != Reserved
  {
  }

  predicate Changes(s: System, pid: nat, r: Reply)
    requires pid in s.procs
  {
    r.ok && Possible(s.store, Asks(s.procs[pid]))
  }

  lemma MoveKeepsStore(u: Rules, s: System, pid: nat, r: Reply)
    requires StoreOk(s) && HoldersOk(s) && pid in s.procs
    ensures StoreOk(MoveOne(u, s, pid, r))
  {
    if Changes(s, pid, r) && Asks(s.procs[pid]).Swap? {
      AskClimbs(s.procs[pid]);
    }
  }

  /** A swap out of CROSSING or UNKNOWN can only be the holder's own. */
  lemma OthersUntouched(s: System, pid: nat, p: nat, r: Reply)
    requires StoreOk(s) && HoldersOk(s) && pid in s.procs && p in s.procs && p != pid
    requires Changes(s, pid, r) && Holds(s.procs[p])
    ensures KeyOf(Written(Asks(s.procs[pid]))) != KeyOf(s.procs[p].c)
    ensures Asks(s.procs[pid]).Swap? ==> KeyOf(Asks(s.procs[pid]).expected) != KeyOf(s.procs[p].c)
  {
    var pc := s.procs[pid];
    if Asks(pc).Swap? { AskClimbs(pc); }
    assert SameRecord(pc, s.procs[p]) ==> pid == p;
    assert s.procs[p].c.phase != Reserved;
  }

  lemma MoveKeepsHolders(u: Rules, s: System, pid: nat, r: Reply)
    requires StoreOk(s) && HoldersOk(s) && pid in s.procs
    ensures HoldersOk(MoveOne(u, s, pid, r))
  {
    var s' := MoveOne(u, s, pid, r);
    var pc := s.procs[pid];
    AfterShape(u, pc, r, Changes(s, pid, r) && !r.ackLost);
    if Asks(pc).Swap? { AskClimbs(pc); }
    forall p | p in s'.procs && Holds(s'.procs[p])
      ensures KeyOf(s'.procs[p].c) in s'.store && s'.store[KeyOf(s'.procs[p].c)] == s'.procs[p].c
    {
      if p != pid && Changes(s, pid, r) { OthersUntouched(s, pid, p, r); }
    }
    forall p | p in s.procs && p != pid && SameRecord(s'.procs[pid], s.procs[p]) ensures false {
      assert SameRecord(pc, s.procs[p]) ==> pid == p;
      if pc.ExecuteCross? { OthersUntouched(s, pid, p, r); }
    }
  }

  /** Whoever is about to enter finds no earlier entry for its record. */
  lemma MoveKeepsUnentered(u: Rules, s: System, pid: nat, r: Reply, p: nat, i: nat)
    requires StoreOk(s) && HoldersOk(s) && EntriesOk(s) && pid in s.procs
    requires p in MoveOne(u, s, pid, r).procs && BeforeEffect(MoveOne(u, s, pid, r).procs[p])
    requires i < |MoveOne(u, s, pid, r).entries|
    ensures KeyOf(MoveOne(u, s, pid, r).entries[i].custody) != KeyOf(MoveOne(u, s, pid, r).procs[p].c)
  {
    var pc := s.procs[pid];
    AfterShape(u, pc, r, Changes(s, pid, r) && !r.ackLost);
    if p != pid {
      assert i == |s.entries| ==> pc.ExecuteEffect?;
      assert SameRecord(pc, s.procs[p]) ==> pid == p;
    } else if pc.ExecuteCross? {
      assert i < |s.entries|;
    }
  }

  lemma MoveKeepsEntries(u: Rules, s: System, pid: nat, r: Reply)
    requires StoreOk(s) && HoldersOk(s) && EntriesOk(s) && pid in s.procs
    ensures EntriesOk(MoveOne(u, s, pid, r))
  {
    var s' := MoveOne(u, s, pid, r);
    if Asks(s.procs[pid]).Swap? { AskClimbs(s.procs[pid]); }
    forall p, i | p in s'.procs && BeforeEffect(s'.procs[p]) && 0 <= i < |s'.entries|
      ensures KeyOf(s'.entries[i].custody) != KeyOf(s'.procs[p].c)
    {
      MoveKeepsUnentered(u, s, pid, r, p, i);
    }
  }

  lemma MoveKeepsAccounts(u: Rules, s: System, pid: nat, r: Reply)
    requires HoldersOk(s) && AccountsOk(s) && pid in s.procs
    ensures AccountsOk(MoveOne(u, s, pid, r))
  {
    var s' := MoveOne(u, s, pid, r);
    AfterShape(u, s.procs[pid], r, Changes(s, pid, r) && !r.ackLost);
    forall p | p in s'.procs && s'.procs[p] != Done(Crashed)
      ensures SaysEntered(s'.procs[p]) <==> Entered(s', p)
    {
      assert forall i :: 0 <= i < |s.entries| ==> s'.entries[i] == s.entries[i];
      if s.procs[pid].ExecuteEffect? {
        assert s'.entries[|s.entries|].pid == pid;
      }
      if Entered(s, p) {
        var i :| 0 <= i < |s.entries| && s.entries[i].pid == p;
        assert s'.entries[i].pid == p;
      }
    }
  }

  lemma MoveKeepsWrites(u: Rules, s: System, pid: nat, r: Reply)
    requires HoldersOk(s) && WritesOk(s) && pid in s.procs
    ensures WritesOk(MoveOne(u, s, pid, r))
  {
    if Asks(s.procs[pid]).Swap? { AskClimbs(s.procs[pid]); }
  }

  lemma MoveKeepsClosed(u: Rules, s: System, pid: nat, r: Reply)
    requires StoreOk(s) && HoldersOk(s) && ClosedOk(s) && pid in s.procs
    ensures ClosedOk(MoveOne(u, s, pid, r))
  {
    var s' := MoveOne(u, s, pid, r);
    var pc := s.procs[pid];
    AfterShape(u, pc, r, Changes(s, pid, r) && !r.ackLost);
    if Asks(pc).Swap? { AskClimbs(pc); }
    forall p | p in s'.procs && ReturnedClosed(s'.procs[p])
      ensures KeyOf(s'.procs[p].out.custody) in s'.store
      ensures s'.store[KeyOf(s'.procs[p].out.custody)] == s'.procs[p].out.custody
    {
      assert p != pid ==> LocalsOk(s.procs[p]);
    }
  }

  /** Replacing one process by one that holds nothing keeps the shared facts. */
  lemma ReplaceKeepsHolders(s: System, pid: nat, pc: Pc)
    requires HoldersOk(s) && LocalsOk(pc) && !Holds(pc)
    ensures HoldersOk(s.(procs := s.procs[pid := pc]))
  {
  }

  lemma ReplaceKeepsEntries(s: System, pid: nat, pc: Pc)
    requires EntriesOk(s) && !Holds(pc)
    ensures EntriesOk(s.(procs := s.procs[pid := pc]))
  {
  }

  lemma ReplaceKeeps(s: System, pid: nat, pc: Pc)
    requires StoreOk(s) && HoldersOk(s) && EntriesOk(s) && WritesOk(s) && ClosedOk(s)
    requires LocalsOk(pc) && !Holds(pc) && !ReturnedClosed(pc)
    ensures var s' := s.(procs := s.procs[pid := pc]);
      StoreOk(s') && HoldersOk(s') && EntriesOk(s') && WritesOk(s') && ClosedOk(s')
  {
    ReplaceKeepsHolders(s, pid, pc);
    ReplaceKeepsEntries(s, pid, pc);
  }

  lemma ReplaceKeepsAccounts(s: System, pid: nat, pc: Pc)
    requires AccountsOk(s) && !SaysEntered(pc)
    requires pid in s.procs ==> pc == Done(Crashed)
    ensures AccountsOk(s.(procs := s.procs[pid := pc]))
  {
    var s' := s.(procs := s.procs[pid := pc]);
    assert forall p :: Entered(s', p) <==> Entered(s, p);
    assert pid !in s.procs ==> !Entered(s, pid);
  }

  lemma SpawnKeepsInvariant(u: Rules, s: System, pid: nat, op: Operation)
    requires Invariant(s) && pid !in s.procs
    ensures Invariant(s.(procs := s.procs[pid := Start(u, op)]))
  {
    StartIsFresh(u, op);
    ReplaceKeeps(s, pid, Start(u, op));
    ReplaceKeepsAccounts(s, pid, Start(u, op));
  }

  lemma CrashKeepsInvariant(s: System, pid: nat)
    requires Invariant(s) && pid in s.procs
    ensures Invariant(s.(procs := s.procs[pid := Done(Crashed)]))
  {
    ReplaceKeeps(s, pid, Done(Crashed));
    ReplaceKeepsAccounts(s, pid, Done(Crashed));
  }

  lemma MoveKeepsInvariant(u: Rules, s: System, pid: nat, r: Reply)
    requires Invariant(s) && pid in s.procs
    ensures Invariant(MoveOne(u, s, pid, r))
  {
    MoveKeepsStore(u, s, pid, r);
    MoveKeepsHolders(u, s, pid, r);
    MoveKeepsEntries(u, s, pid, r);
    MoveKeepsAccounts(u, s, pid, r);
    MoveKeepsWrites(u, s, pid, r);
    MoveKeepsClosed(u, s, pid, r);
  }

  lemma ApplyKeepsInvariant(u: Rules, s: System, step: Step)
    requires Invariant(s)
    ensures Invariant(Apply(u, s, step))
  {
    match step
    case Spawn(pid, op) => if pid !in s.procs { SpawnKeepsInvariant(u, s, pid, op); }
    case Crash(pid) => if pid in s.procs { CrashKeepsInvariant(s, pid); }
    case Move(pid, r) => if pid in s.procs { MoveKeepsInvariant(u, s, pid, r); }
  }

  lemma {:induction false} RunKeepsInvariant(u: Rules, s: System, steps: seq<Step>)
    requires Invariant(s)
    ensures Invariant(Run(u, s, steps))
    decreases |steps|
  {
    if steps != [] {
      ApplyKeepsInvariant(u, s, steps[0]);
      RunKeepsInvariant(u, Apply(u, s, steps[0]), steps[1..]);
    }
  }

  lemma ReachableInvariant(u: Rules, steps: seq<Step>)
    ensures Invariant(Run(u, INITIAL, steps))
  {
    RunKeepsInvariant(u, INITIAL, steps);
  }

  /******* Whole runs *******/

  /** In every interleaving and crash schedule, the effect of one (effect, attempt)
      record is entered at most once. */
  lemma EffectEnteredAtMostOnce(u: Rules, steps: seq<Step>, i: nat, j: nat)
    requires i < |Run(u, INITIAL, steps).entries| && j < |Run(u, INITIAL, steps).entries|
    requires KeyOf(Run(u, INITIAL, steps).entries[i].custody) == KeyOf(Run(u, INITIAL, steps).entries[j].custody)
    ensures i == j
  {
    ReachableInvariant(u, steps);
  }

  /** The effect is entered only while the stored record is exactly the caller's
      custody: its owner, its generation, and phase CROSSING. */
  lemma EntryOnlyWhileCrossing(u: Rules, steps: seq<Step>, pid: nat, r: Reply)
    requires pid in Run(u, INITIAL, steps).procs
    ensures var s, s' := Run(u, INITIAL, steps), MoveOne(u, Run(u, INITIAL, steps), pid, r);
      s'.entries == s.entries ||
      (|s'.entries| == |s.entries| + 1 &&
       var e := s'.entries[|s.entries|];
       e.pid == pid && e.custody.phase == Crossing &&
       KeyOf(e.custody) in s.store && s.store[KeyOf(e.custody)] == e.custody &&
       s'.store == s.store)
  {
    ReachableInvariant(u, steps);
  }

  /** Every write strictly climbs, so no record value ever recurs. */
  lemma NoRecordRecurs(u: Rules, steps: seq<Step>, i: nat, j: nat)
    requires i < j < |Run(u, INITIAL, steps).writes|
    ensures Run(u, INITIAL, steps).writes[i] != Run(u, INITIAL, steps).writes[j]
  {
    ReachableInvariant(u, steps);
  }

  /** How a record may differ after more steps: it climbed, its generation did not
      drop, and once it left RESERVED its owner and generation are fixed. */
  predicate Evolved(a: FencedCustody, b: FencedCustody) {
    (a == b || Below(a, b)) && a.generation <= b.generation &&
    (a.phase != Reserved ==> b.phase != Reserved && a.owner == b.owner && a.generation == b.generation)
  }

  lemma ApplyEvolves(u: Rules, s: System, step: Step, k: Key)
    requires Invariant(s) && k in s.store
    ensures k in Apply(u, s, step).store && Evolved(s.store[k], Apply(u, s, step).store[k])
  {
    if step.Move? && step.pid in s.procs && Asks(s.procs[step.pid]).Swap? {
      AskClimbs(s.procs[step.pid]);
    }
  }

  lemma {:induction false} RunEvolves(u: Rules, s: System, steps: seq<Step>, k: Key)
    requires Invariant(s) && k in s.store
    ensures k in Run(u, s, steps).store && Evolved(s.store[k], Run(u, s, steps).store[k])
    decreases |steps|
  {
    if steps != [] {
      ApplyEvolves(u, s, steps[0], k);
      ApplyKeepsInvariant(u, s, steps[0]);
      RunEvolves(u, Apply(u, s, steps[0]), steps[1..], k);
    }
  }

  lemma {:induction false} RunExtendsEntries(u: Rules, s: System, steps: seq<Step>)
    ensures s.entries <= Run(u, s, steps).entries
    decreases |steps|
  {
    if steps != [] {
      RunExtendsEntries(u, Apply(u, s, steps[0]), steps[1..]);
    }
  }

  /** A taken-over owner never crosses: after the record reached generation g, whoever
      enters the effect for it, however late, holds generation g or above. */
  lemma FencedOut(u: Rules, before: seq<Step>, later: seq<Step>, k: Key, i: nat)
    requires k in Run(u, INITIAL, before).store
    requires |Run(u, INITIAL, before).entries| <= i < |Run(u, INITIAL, before + later).entries|
    requires KeyOf(Run(u, INITIAL, before + later).entries[i].custody) == k
    ensures Run(u, INITIAL, before + later).entries[i].custody.generation >= Run(u, INITIAL, before).store[k].generation
  {
    var s := Run(u, INITIAL, before);
    RunConcat(u, INITIAL, before, later);
    ReachableInvariant(u, before);
    ReachableInvariant(u, before + later);
    RunEvolves(u, s, later, k);
  }

  /** Custody that has left RESERVED is never executable again: no later step enters
      its effect a second time, and no takeover changes its owner. */
  lemma CrossedIsFinal(u: Rules, before: seq<Step>, later: seq<Step>, i: nat)
    requires i < |Run(u, INITIAL, before).entries|
    ensures var s, s' := Run(u, INITIAL, before), Run(u, INITIAL, before + later);
      var k := KeyOf(s.entries[i].custody);
      k in s'.store && s'.store[k].phase != Reserved &&
      s'.store[k].owner == s.entries[i].custody.owner &&
      s'.store[k].generation == s.entries[i].custody.generation &&
      forall j :: |s.entries| <= j < |s'.entries| ==> KeyOf(s'.entries[j].custody) != k
  {
    var s := Run(u, INITIAL, before);
    RunConcat(u, INITIAL, before, later);
    ReachableInvariant(u, before);
    ReachableInvariant(u, before + later);
    RunEvolves(u, s, later, KeyOf(s.entries[i].custody));
    RunExtendsEntries(u, s, later);
    assert Run(u, INITIAL, before + later).entries[i] == s.entries[i];
  }

  /** What a returned execution result says about the world. */
  lemma ResultIsTruthful(u: Rules, steps: seq<Step>, pid: nat)
    requires pid in Run(u, INITIAL, steps).procs
    requires Run(u, INITIAL, steps).procs[pid].Done? && Run(u, INITIAL, steps).procs[pid].out.Execution?
    ensures var s := Run(u, INITIAL, steps);
      var out := s.procs[pid].out;
      (out.disposition == RejectedResult <==> !Entered(s, pid)) &&
      (out.disposition == ClosedResult ==>
         KeyOf(out.custody) in s.store && s.store[KeyOf(out.custody)] == out.custody && out.custody.phase == Closed)
  {
    ReachableInvariant(u, steps);
    assert LocalsOk(Run(u, INITIAL, steps).procs[pid]);
  }

  /******* One logical effect *******/

  /** The record a process executes under names the effect and attempt it was asked for. */
  predicate Bound(u: Rules, req: Request, c: FencedCustody) {
    u.identity(req) == Some(c.effectId) && req.attemptId == c.attemptId
  }

  predicate BoundPc(u: Rules, pc: Pc) {
    (pc.ExecuteCheck? || pc.ExecuteLoad? || pc.ExecuteCross? || Holds(pc)) ==> Bound(u, pc.req, pc.c)
  }

  ghost predicate BoundOk(u: Rules, s: System) {
    (forall p :: p in s.procs ==> BoundPc(u, s.procs[p])) &&
    (forall i :: 0 <= i < |s.entries| ==> Bound(u, s.entries[i].req, s.entries[i].custody))
  }

  lemma AfterBound(u: Rules, pc: Pc, r: Reply, granted: bool)
    requires BoundPc(u, pc)
    ensures BoundPc(u, After(u, pc, r, granted))
  {
  }

  lemma {:induction false} RunKeepsBound(u: Rules, s: System, steps: seq<Step>)
    requires BoundOk(u, s)
    ensures BoundOk(u, Run(u, s, steps))
    decreases |steps|
  {
    if steps != [] {
      if steps[0].Move? && steps[0].pid in s.procs {
        var pc, r := s.procs[steps[0].pid], steps[0].reply;
        AfterBound(u, pc, r, Changes(s, steps[0].pid, r) && !r.ackLost);
      }
      RunKeepsBound(u, Apply(u, s, steps[0]), steps[1..]);
    }
  }

  /** Two entries ask for the same subject, before-state, operation and after-state in
      the same attempt. */
  predicate SameChange(a: Entry, b: Entry) {
    Project(a.req) == Project(b.req) && a.req.attemptId == b.req.attemptId
  }

  /** Under the runtime's own identities such entries are one entry, no matter which
      executors, admissions, owners or generations were involved. */
  lemma LogicalEffectAtMostOnce(h: string -> string, steps: seq<Step>)
    ensures var es := Run(RuntimeRules(h), INITIAL, steps).entries;
      forall i, j :: 0 <= i < |es| && 0 <= j < |es| && SameChange(es[i], es[j]) ==> i == j
  {
    var u := RuntimeRules(h);
    var s := Run(u, INITIAL, steps);
    var es := s.entries;
    RunKeepsBound(u, INITIAL, steps);
    forall i, j | 0 <= i < |es| && 0 <= j < |es| && SameChange(es[i], es[j]) ensures i == j {
      assert Bound(u, es[i].req, es[i].custody) && Bound(u, es[j].req, es[j].custody);
      EffectEnteredAtMostOnce(u, steps, i, j);
    }
  }
}
