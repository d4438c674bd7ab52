/** What the processes of governedaction/runtime/fenced.go must have been told: over every
    schedule a process is what the answers to its own calls make of it, and reserving,
    entering, closing and taking over are exact conditions on the fields of those answers. */
module FencedAnswers {
  import opened Text
  import opened Framing
  import opened Runtime
  import opened FencedProtocol
  import opened FencedSafety

  /** The reply to one call, and whether the store call in it succeeded. */
  datatype Answer = Answer(reply: Reply, granted: bool)

  /******* A process is what it has heard *******/

  function AnswerOf(s: System, pid: nat, r: Reply): Answer
    requires pid in s.procs
  {
    Answer(r, Changes(s, pid, r) && !r.ackLost)
  }

  /** What one more step lets the process hear. */
  function HeardIn(s: System, step: Step, pid: nat): seq<Answer> {
    if step.Move? && step.pid == pid && pid in s.procs then [AnswerOf(s, pid, step.reply)] else []
  }

  /** The answers a process has had so far, in order. */
  function Heard(u: Rules, steps: seq<Step>, pid: nat): seq<Answer> {
    if steps == [] then []
    else
      var front := steps[..|steps| - 1];
      Heard(u, front, pid) + HeardIn(Run(u, INITIAL, front), steps[|steps| - 1], pid)
  }

  /** The operation a process was started for. */
  function Started(steps: seq<Step>, pid: nat): Option<Operation> {
    if steps == [] then None
    else
      var before, last := Started(steps[..|steps| - 1], pid), steps[|steps| - 1];
      if before == None && last.Spawn? && last.pid == pid then Some(last.op) else before
  }

  /** The program point that answers lead to. */
  function Follow(u: Rules, pc: Pc, hs: seq<Answer>): Pc
    decreases |hs|
  {
    if hs == [] then pc else Follow(u, After(u, pc, hs[0].reply, hs[0].granted), hs[1..])
  }

  lemma {:induction false} FollowNext(u: Rules, pc: Pc, hs: seq<Answer>, h: Answer)
    ensures Follow(u, pc, hs + [h]) == After(u, Follow(u, pc, hs), h.reply, h.granted)
    decreases |hs|
  {
    hide After;
    if hs == [] {
      assert hs + [h] == [h] && [h][1..] == [];
    } else {
      assert (hs + [h])[1..] == hs[1..] + [h];
      FollowNext(u, After(u, pc, hs[0].reply, hs[0].granted), hs[1..], h);
    }
  }

  /** Where the process is, and how it got there. */
  ghost predicate Accounted(u: Rules, steps: seq<Step>, pid: nat) {
    var s := Run(u, INITIAL, steps);
    (pid in s.procs <==> Started(steps, pid).Some?) &&
    (pid in s.procs && s.procs[pid] != Done(Crashed) ==>
       s.procs[pid] == Follow(u, Start(u, Started(steps, pid).value), Heard(u, steps, pid)))
  }

  lemma RunLast(u: Rules, steps: seq<Step>)
    requires steps != []
    ensures Run(u, INITIAL, steps) == Apply(u, Run(u, INITIAL, steps[..|steps| - 1]), steps[|steps| - 1])
  {
    var front, last := steps[..|steps| - 1], steps[|steps| - 1];
    assert steps == front + [last] && [last][1..] == [];
    RunConcat(u, INITIAL, front, [last]);
    assert Run(u, Run(u, INITIAL, front), [last]) == Run(u, Apply(u, Run(u, INITIAL, front), last), []);
  }

  /** In every schedule a process that has not crashed is determined by its operation and by
      the answers to its own calls. */
  lemma {:induction false} ProcessIsWhatItHeard(u: Rules, steps: seq<Step>, pid: nat)
    ensures Accounted(u, steps, pid)
    decreases |steps|
  {
    hide Accounted, Heard, Run, Apply;
    if steps == [] {
      InitiallyAccounted(u, pid);
    } else {
      var n := |steps| - 1;
      ProcessIsWhatItHeard(u, steps[..n], pid);
      assert steps == steps[..n] + [steps[n]];
      StepAccounted(u, steps[..n], steps[n], pid);
    }
  }

  lemma InitiallyAccounted(u: Rules, pid: nat)
    ensures Accounted(u, [], pid)
  {
  }

  lemma HeardNext(u: Rules, steps: seq<Step>, step: Step, pid: nat)
    ensures Heard(u, steps + [step], pid) == Heard(u, steps, pid) + HeardIn(Run(u, INITIAL, steps), step, pid)
    ensures Run(u, INITIAL, steps + [step]) == Apply(u, Run(u, INITIAL, steps), step)
    ensures Started(steps + [step], pid) ==
      if Started(steps, pid) == None && step.Spawn? && step.pid == pid then Some(step.op) else Started(steps, pid)
  {
    hide Apply;
    assert (steps + [step])[..|steps|] == steps;
    RunLast(u, steps + [step]);
  }

  lemma StepAccounted(u: Rules, steps: seq<Step>, step: Step, pid: nat)
    requires Accounted(u, steps, pid)
    ensures Accounted(u, steps + [step], pid)
  {
    hide Start, After, Run, Heard, Started, Follow, AnswerOf;
    var s, hs := Run(u, INITIAL, steps), Heard(u, steps, pid);
    HeardNext(u, steps, step, pid);
    if step.Move? && step.pid == pid && pid in s.procs {
      var h := AnswerOf(s, pid, step.reply);
      FollowNext(u, Start(u, Started(steps, pid).value), hs, h);
      CrashedStays(u, step.reply);
      MoveHeard(u, s, pid, step.reply);
    } else {
      assert hs + [] == hs;
      if pid !in s.procs {
        NothingHeard(u, steps, pid);
        FollowNone(u, step);
      }
    }
  }

  lemma FollowNone(u: Rules, step: Step)
    ensures step.Spawn? ==> Follow(u, Start(u, step.op), []) == Start(u, step.op)
  {
  }

  lemma MoveHeard(u: Rules, s: System, pid: nat, r: Reply)
    requires pid in s.procs
    ensures var h := AnswerOf(s, pid, r); MoveOne(u, s, pid, r).procs == s.procs[pid := After(u, s.procs[pid], r, h.granted)] && h.reply == r
  {
    hide After;
  }

  lemma {:induction false} StartedStays(steps: seq<Step>, more: seq<Step>, pid: nat)
    requires Started(steps, pid).Some?
    ensures Started(steps + more, pid) == Started(steps, pid)
    decreases |more|
  {
    if more == [] {
      assert steps + more == steps;
    } else {
      var n := |more| - 1;
      assert (steps + more)[..|steps + more| - 1] == steps + more[..n];
      StartedStays(steps, more[..n], pid);
    }
  }

  /** A process that was started for `op` and has not crashed is where its answers lead. */
  lemma ProcessOf(u: Rules, before: seq<Step>, later: seq<Step>, pid: nat, op: Operation)
    requires pid !in Run(u, INITIAL, before).procs && before + [Spawn(pid, op)] <= later
    requires pid in Run(u, INITIAL, later).procs && Run(u, INITIAL, later).procs[pid] != Done(Crashed)
    ensures Run(u, INITIAL, later).procs[pid] == Follow(u, Start(u, op), Heard(u, later, pid))
  {
    hide Run, Heard, Follow, Start, Apply, Started;
    var begun := before + [Spawn(pid, op)];
    ProcessIsWhatItHeard(u, before, pid);
    HeardNext(u, before, Spawn(pid, op), pid);
    assert later == begun + later[|begun|..];
    StartedStays(begun, later[|begun|..], pid);
    ProcessIsWhatItHeard(u, later, pid);
  }

  lemma CrashedStays(u: Rules, r: Reply)
    ensures forall g :: After(u, Done(Crashed), r, g) == Done(Crashed)
  {
  }

  lemma {:induction false} NothingHeard(u: Rules, steps: seq<Step>, pid: nat)
    requires pid !in Run(u, INITIAL, steps).procs
    ensures Heard(u, steps, pid) == []
    decreases |steps|
  {
    hide Start, After;
    if steps != [] {
      RunLast(u, steps);
      NothingHeard(u, steps[..|steps| - 1], pid);
    }
  }

  /******* What the answers must be *******/

  /** The reply lets an admitted request through: the context is live, the state is the
      admitted one, and the admission, bound to this very request, was verified. */
  predicate Admitted(u: Rules, req: Request, r: Reply) {
    !r.cancelled && r.current == Some(req.current) &&
    u.admission(req) == Some(req.admission.bindingDigest) && r.attested
  }

  lemma BoundaryCheckMeaning(u: Rules, req: Request, r: Reply)
    ensures BoundaryCheck(u, req, r) == None <==> Admitted(u, req, r)
  {
  }

  /** The record is this request's own, and nobody has started on it. */
  predicate OwnReserved(u: Rules, req: Request, c: FencedCustody) {
    u.complete(c) && u.identity(req) == Some(c.effectId) && c.attemptId == req.attemptId &&
    c.target == req.current.target && c.owner == req.executor && c.phase == Reserved
  }

  /** Both checks of a reservation admit the request, and the record is created between them. */
  predicate Reserves(u: Rules, req: Request, hs: seq<Answer>) {
    |hs| >= 3 && u.validate(req) == None && u.identity(req).Some? &&
    Admitted(u, req, hs[0].reply) && hs[1].granted && Admitted(u, req, hs[2].reply)
  }

  /** A check admits the request, the record is loaded and swapped into CROSSING, another
      check admits the request again, and the context is still live. */
  predicate Enters(u: Rules, req: Request, c: FencedCustody, hs: seq<Answer>) {
    |hs| >= 5 && u.validate(req) == None && OwnReserved(u, req, c) &&
    Admitted(u, req, hs[0].reply) && hs[1].reply.loaded == Some(c) && hs[2].granted &&
    Admitted(u, req, hs[3].reply) && !hs[4].reply.cancelled
  }

  /** After the effect the record is marked, an observation is accepted, and it is closed. */
  predicate Closes(u: Rules, req: Request, c: FencedCustody, hs: seq<Answer>) {
    Enters(u, req, c, hs) && |hs| >= 9 && hs[6].granted && hs[7].reply.observation.Some? &&
    u.observation(c.effectId, req.transition.to, hs[7].reply.observation.value, hs[7].reply.attested) == None && hs[8].granted
  }

  /** The original owner's own untouched record is loaded, the authorization is bound to its
      next generation and owner and verified, and the swap succeeds. */
  predicate Transfers(u: Rules, t: TakeoverRequest, c: FencedCustody, hs: seq<Answer>) {
    |hs| >= 3 && u.validate(t.original) == None && u.transferable(t) &&
    hs[0].reply.loaded == Some(c) && OwnReserved(u, t.original, c) && c.generation < MAX_UINT64 &&
    t.authorization.bindingDigest == u.transferDigest(c, t.newOwner) && hs[1].reply.attested && hs[2].granted
  }

  lemma TransfersBelowMax(u: Rules, t: TakeoverRequest, c: FencedCustody, hs: seq<Answer>)
    ensures Transfers(u, t, c, hs) ==> c.generation < MAX_UINT64
  {
  }

  lemma {:induction false} DoneStays(u: Rules, pc: Pc, hs: seq<Answer>)
    requires pc.Done?
    ensures Follow(u, pc, hs) == pc
  {
    if hs != [] { DoneStays(u, pc, hs[1..]); }
  }

  lemma {:induction false} EnteredStays(u: Rules, pc: Pc, hs: seq<Answer>)
    requires SaysEntered(pc)
    ensures SaysEntered(Follow(u, pc, hs))
    decreases |hs|
  {
    if hs != [] { EnteredStays(u, After(u, pc, hs[0].reply, hs[0].granted), hs[1..]); }
  }

  lemma FromMark(u: Rules, req: Request, c: FencedCustody, hs: seq<Answer>)
    ensures SaysEntered(Follow(u, ExecuteMarkUnknown(req, c), hs))
    ensures ReturnedClosed(Follow(u, ExecuteMarkUnknown(req, c), hs)) <==>
      |hs| >= 3 && hs[0].granted && hs[1].reply.observation.Some? && hs[2].granted &&
      u.observation(c.effectId, req.transition.to, hs[1].reply.observation.value, hs[1].reply.attested) == None
  {
    EnteredStays(u, ExecuteMarkUnknown(req, c), hs);
    if hs != [] {
      DoneLater(u, ExecuteMarkUnknown(req, c), hs);
      if hs[0].granted { FromObserve(u, req, c.(phase := Unknown), hs[1..]); }
    }
  }

  lemma FromObserve(u: Rules, req: Request, c: FencedCustody, hs: seq<Answer>)
    ensures ReturnedClosed(Follow(u, ExecuteObserve(req, c), hs)) <==>
      |hs| >= 2 && hs[0].reply.observation.Some? && hs[1].granted &&
      u.observation(c.effectId, req.transition.to, hs[0].reply.observation.value, hs[0].reply.attested) == None
  {
    if hs != [] {
      DoneLater(u, ExecuteObserve(req, c), hs);
      if |hs| >= 2 { DoneLater(u, ExecuteClose(req, c), hs[1..]); }
    }
  }

  /** One call that ends the process decides its result. */
  lemma DoneLater(u: Rules, pc: Pc, hs: seq<Answer>)
    requires hs != []
    ensures var next := After(u, pc, hs[0].reply, hs[0].granted);
      Follow(u, pc, hs) == Follow(u, next, hs[1..]) && (next.Done? ==> Follow(u, pc, hs) == next)
  {
    var next := After(u, pc, hs[0].reply, hs[0].granted);
    if next.Done? { DoneStays(u, next, hs[1..]); }
  }

  lemma FromRecheck(u: Rules, req: Request, c: FencedCustody, hs: seq<Answer>)
    ensures var pc := Follow(u, ExecuteRecheck(req, c), hs);
      (SaysEntered(pc) <==> |hs| >= 3 && Admitted(u, req, hs[0].reply) && !hs[1].reply.cancelled) &&
      (ReturnedClosed(pc) <==>
         |hs| >= 6 && Admitted(u, req, hs[0].reply) && !hs[1].reply.cancelled && hs[3].granted &&
         hs[4].reply.observation.Some? && hs[5].granted &&
         u.observation(c.effectId, req.transition.to, hs[4].reply.observation.value, hs[4].reply.attested) == None)
  {
    if |hs| >= 1 { DoneLater(u, ExecuteRecheck(req, c), hs); }
    if |hs| >= 2 { DoneLater(u, ExecuteContext(req, c), hs[1..]); }
    if |hs| >= 3 {
      DoneLater(u, ExecuteEffect(req, c), hs[1..][1..]);
      FromMark(u, req, c, hs[1..][1..][1..]);
    }
  }

  lemma FromCheck(u: Rules, req: Request, c: FencedCustody, hs: seq<Answer>)
    requires u.validate(req) == None && OwnReserved(u, req, c)
    ensures var pc := Follow(u, ExecuteCheck(req, c), hs);
      (SaysEntered(pc) <==> |hs| >= 6 && Enters(u, req, c, hs)) && (ReturnedClosed(pc) <==> Closes(u, req, c, hs))
  {
    if |hs| >= 1 { DoneLater(u, ExecuteCheck(req, c), hs); }
    if |hs| >= 2 { DoneLater(u, ExecuteLoad(req, c), hs[1..]); }
    if |hs| >= 3 {
      DoneLater(u, ExecuteCross(req, c), hs[1..][1..]);
      FromRecheck(u, req, c.(phase := Crossing), hs[1..][1..][1..]);
    }
  }

  /** `ExecuteReservedFenced`: exactly which answers enter the effect, and which close it. */
  lemma ExecuteExactly(u: Rules, req: Request, c: FencedCustody, hs: seq<Answer>)
    ensures var pc := Follow(u, Start(u, Execute(req, c)), hs);
      (SaysEntered(pc) <==> |hs| >= 6 && Enters(u, req, c, hs)) && (ReturnedClosed(pc) <==> Closes(u, req, c, hs))
  {
    var pc := Start(u, Execute(req, c));
    if pc.Done? { DoneStays(u, pc, hs); } else { FromCheck(u, req, c, hs); }
  }

  predicate Prepared(pc: Pc, c: FencedCustody) { pc == Done(Preparation(Some(c), None)) }

  /** The result names custody, whether or not the second check failed. */
  predicate Recorded(pc: Pc) { pc.Done? && pc.out.Preparation? && pc.out.recorded.Some? }

  /** `ReserveFenced`: exactly which answers return custody without an error, and which
      return it at all. */
  lemma ReserveExactly(u: Rules, req: Request, c: FencedCustody, hs: seq<Answer>)
    ensures var pc := Follow(u, Start(u, Reserve(req)), hs);
      (Prepared(pc, c) <==>
         Reserves(u, req, hs) && c == FencedCustody(u.identity(req).value, req.attemptId, req.current.target, req.executor, 1, Reserved)) &&
      (Recorded(pc) <==>
         |hs| >= 3 && u.validate(req) == None && u.identity(req).Some? && Admitted(u, req, hs[0].reply) && hs[1].granted)
  {
    var pc := Start(u, Reserve(req));
    if pc.Done? {
      DoneStays(u, pc, hs);
    } else {
      if |hs| >= 1 { DoneLater(u, pc, hs); }
      if u.identity(req).Some? {
        var own := InitialCustody(u.identity(req).value, req);
        if |hs| >= 2 { DoneLater(u, ReserveCreate(req, own, false), hs[1..]); }
        if |hs| >= 3 { DoneLater(u, ReserveRecheck(req, own, false), hs[1..][1..]); }
      }
    }
  }

  /** `RunFenced`: a reservation, and then an execution on the record it made. */
  lemma RunExactly(u: Rules, req: Request, hs: seq<Answer>)
    ensures var pc := Follow(u, Start(u, RunBoth(req)), hs);
      (SaysEntered(pc) <==> |hs| >= 9 && Reserves(u, req, hs) && Enters(u, req, InitialCustody(u.identity(req).value, req), hs[3..])) &&
      (ReturnedClosed(pc) <==> |hs| >= 12 && Reserves(u, req, hs) && Closes(u, req, InitialCustody(u.identity(req).value, req), hs[3..]))
  {
    var pc := Start(u, RunBoth(req));
    if pc.Done? {
      DoneStays(u, pc, hs);
    } else {
      if |hs| >= 1 {
        BoundaryCheckMeaning(u, req, hs[0].reply);
        DoneLater(u, pc, hs);
      }
      if u.identity(req).Some? {
        var own := InitialCustody(u.identity(req).value, req);
        if |hs| >= 2 { DoneLater(u, ReserveCreate(req, own, true), hs[1..]); }
        if |hs| >= 3 {
          BoundaryCheckMeaning(u, req, hs[2].reply);
          DoneLater(u, ReserveRecheck(req, own, true), hs[1..][1..]);
          assert hs[1..][1..][1..] == hs[3..];
          ExecuteExactly(u, req, own, hs[3..]);
        }
      }
      hide BoundaryCheck, Admitted, Enters, Closes;
    }
  }

  /** `TakeoverReserved`: exactly which answers transfer custody, and to what record. */
  lemma TakeoverExactly(u: Rules, t: TakeoverRequest, c: FencedCustody, next: FencedCustody, hs: seq<Answer>)
    ensures Follow(u, Start(u, Takeover(t)), hs) == Done(Transfer(Some(c), Some(next), None)) <==>
      Transfers(u, t, c, hs) && next == c.(owner := t.newOwner, generation := c.generation + 1)
  {
    var pc := Start(u, Takeover(t));
    if pc.Done? {
      DoneStays(u, pc, hs);
    } else {
      if |hs| >= 1 { DoneLater(u, pc, hs); }
      if |hs| >= 2 && hs[0].reply.loaded.Some? {
        DoneLater(u, TakeoverVerify(t, hs[0].reply.loaded.value), hs[1..]);
        if |hs| >= 3 { DoneLater(u, TakeoverSwap(t, hs[0].reply.loaded.value), hs[1..][1..]); }
      }
    }
  }

  /******* Every entry in every schedule *******/

  /** The locals a process keeps from its operation. */
  predicate Keeps(u: Rules, op: Operation, pc: Pc) {
    match op
    case Execute(req, c) => ExecutesOn(pc, req, c)
    case RunBoth(req) =>
      if pc.ReserveCheck? then pc.req == req
      else if pc.ReserveCreate? || pc.ReserveRecheck? then pc.req == req && u.identity(req).Some? && pc.c == InitialCustody(u.identity(req).value, req)
      else pc.Done? || (u.identity(req).Some? && ExecutesOn(pc, req, InitialCustody(u.identity(req).value, req)))
    case _ => pc.Done? || pc.TakeoverLoad? || pc.TakeoverVerify? || pc.TakeoverSwap? ||
              ((pc.ReserveCheck? || pc.ReserveCreate? || pc.ReserveRecheck?) && !pc.run)
  }

  predicate ExecutesOn(pc: Pc, req: Request, c: FencedCustody) {
    match pc
    case ExecuteCheck(q, k) => q == req && k == c
    case ExecuteLoad(q, k) => q == req && k == c
    case ExecuteCross(q, k) => q == req && k == c
    case ExecuteRecheck(q, k) => q == req && k == c.(phase := Crossing)
    case ExecuteContext(q, k) => q == req && k == c.(phase := Crossing)
    case ExecuteEffect(q, k) => q == req && k == c.(phase := Crossing)
    case ReserveCheck(_, _) => false
    case ReserveCreate(_, _, _) => false
    case ReserveRecheck(_, _, _) => false
    case _ => true
  }

  lemma AfterKeeps(u: Rules, op: Operation, pc: Pc, r: Reply, granted: bool)
    requires Keeps(u, op, pc)
    ensures Keeps(u, op, After(u, pc, r, granted))
  {
  }

  lemma {:induction false} FollowKeeps(u: Rules, op: Operation, pc: Pc, hs: seq<Answer>)
    requires Keeps(u, op, pc)
    ensures Keeps(u, op, Follow(u, pc, hs))
    decreases |hs|
  {
    hide Keeps, After;
    if hs != [] {
      AfterKeeps(u, op, pc, hs[0].reply, hs[0].granted);
      FollowKeeps(u, op, After(u, pc, hs[0].reply, hs[0].granted), hs[1..]);
    }
  }

  lemma StartKeeps(u: Rules, op: Operation)
    ensures Keeps(u, op, Start(u, op))
  {
  }

  /** What the process of an entry was started for and had heard when it entered. */
  predicate Justified(u: Rules, op: Operation, hs: seq<Answer>, e: Entry) {
    match op
    case Execute(req, c) => |hs| >= 6 && Enters(u, req, c, hs) && e.req == req && e.custody == c.(phase := Crossing)
    case RunBoth(req) =>
      |hs| >= 9 && Reserves(u, req, hs) && Enters(u, req, InitialCustody(u.identity(req).value, req), hs[3..]) &&
      e.req == req && e.custody == InitialCustody(u.identity(req).value, req).(phase := Crossing)
    case _ => false
  }

  ghost predicate EntryJustified(u: Rules, steps: seq<Step>, e: Entry) {
    Started(steps, e.pid).Some? && Justified(u, Started(steps, e.pid).value, Heard(u, steps, e.pid), e)
  }

  lemma JustifiedLater(u: Rules, op: Operation, hs: seq<Answer>, more: seq<Answer>, e: Entry)
    requires Justified(u, op, hs, e)
    ensures Justified(u, op, hs + more, e)
  {
    if op.RunBoth? { assert (hs + more)[3..] == hs[3..] + more; }
  }

  /** A process at the effect call has heard what entering takes. */
  lemma EntersJustified(u: Rules, op: Operation, hs: seq<Answer>, h: Answer, pid: nat)
    requires Follow(u, Start(u, op), hs).ExecuteEffect?
    ensures var pc := Follow(u, Start(u, op), hs); Justified(u, op, hs + [h], Entry(pid, pc.req, pc.c))
  {
    StartKeeps(u, op);
    FollowKeeps(u, op, Start(u, op), hs);
    FollowNext(u, Start(u, op), hs, h);
    hide Follow, Enters, Reserves, Closes;
    if op.Execute? { ExecuteExactly(u, op.req, op.custody, hs + [h]); }
    if op.RunBoth? { RunExactly(u, op.req, hs + [h]); }
  }

  /** In every schedule each entry of the effect was preceded, in its own process, by two
      checks that admitted the request, one before and one after its swap into CROSSING. */
  lemma {:induction false} EveryEntryIsJustified(u: Rules, steps: seq<Step>)
    ensures forall i :: 0 <= i < |Run(u, INITIAL, steps).entries| ==> EntryJustified(u, steps, Run(u, INITIAL, steps).entries[i])
    decreases |steps|
  {
    hide Accounted, Heard, Started, Justified, After, Start, Follow;
    if steps != [] {
      var front, last := steps[..|steps| - 1], steps[|steps| - 1];
      assert steps == front + [last];
      var s, s' := Run(u, INITIAL, front), Run(u, INITIAL, steps);
      EveryEntryIsJustified(u, front);
      forall i | 0 <= i < |s'.entries| ensures EntryJustified(u, steps, s'.entries[i]) {
        EntryStaysJustified(u, front, last, i);
      }
    }
  }

  lemma EntryStaysJustified(u: Rules, steps: seq<Step>, step: Step, i: nat)
    requires i < |Run(u, INITIAL, steps + [step]).entries|
    requires forall j :: 0 <= j < |Run(u, INITIAL, steps).entries| ==> EntryJustified(u, steps, Run(u, INITIAL, steps).entries[j])
    ensures EntryJustified(u, steps + [step], Run(u, INITIAL, steps + [step]).entries[i])
  {
    hide Heard, Started, Justified, After, Start, Follow, Run;
    var s, e := Run(u, INITIAL, steps), Run(u, INITIAL, steps + [step]).entries[i];
    HeardNext(u, steps, step, e.pid);
    if i < |s.entries| {
      assert e == s.entries[i];
      JustifiedLater(u, Started(steps, e.pid).value, Heard(u, steps, e.pid), HeardIn(s, step, e.pid), e);
    } else {
      ProcessIsWhatItHeard(u, steps, e.pid);
      EntersJustified(u, Started(steps, e.pid).value, Heard(u, steps, e.pid), AnswerOf(s, e.pid, step.reply), e.pid);
    }
  }

  /******* The reference runtime's own observation check *******/

  /** An observation closes exactly if it is complete, shows the intended state, and its
      verified attestation is bound to this effect and that state. */
  lemma ObservationAccepted(h: string -> string, effectId: string, expected: State, o: Observation, attested: bool)
    ensures VerifyObservation(h, effectId, expected, o, attested) == None <==>
      expected.Complete() && o.attestation.Complete() && o.state == expected && attested &&
      o.attestation.bindingDigest == StatementDigest(h, ObservationStatement(effectId, expected))
  {
    hide StatementDigest;
  }
}
