/** The four entry points of governedaction/runtime/fenced.go as methods.  Between
    any two adapter calls of the running process an arbitrary number of steps of
    other processes happens, and every adapter reply is arbitrary; each method is
    proved to be one process of `FencedProtocol`, so every theorem of
    `FencedSafety` holds for any mix of concurrent callers. */
module FencedRuntime {
  import opened Text
  import opened Framing
  import opened Runtime
  import opened FencedProtocol
  import FencedSafety
  import Answers = FencedAnswers

  function About(step: Step): nat { step.pid }

  /** The steps of a schedule that belong to other processes. */
  function Others(steps: seq<Step>, pid: nat): (r: seq<Step>)
    ensures forall i :: 0 <= i < |r| ==> About(r[i]) != pid
  {
    if steps == [] then []
    else if About(steps[0]) == pid then Others(steps[1..], pid)
    else [steps[0]] + Others(steps[1..], pid)
  }

  lemma {:induction false} OthersLeaveAlone(u: Rules, s: System, steps: seq<Step>, pid: nat)
    requires pid in s.procs && forall i :: 0 <= i < |steps| ==> About(steps[i]) != pid
    ensures pid in Run(u, s, steps).procs && Run(u, s, steps).procs[pid] == s.procs[pid]
    decreases |steps|
  {
    if steps != [] {
      OthersLeaveAlone(u, Apply(u, s, steps[0]), steps[1..], pid);
    }
  }

  /** The shared store together with everything running against it. */
  class World {
    const rules: Rules
    var sys: System
    ghost var past: seq<Step>

    ghost predicate Valid() reads this {
      sys == Run(rules, INITIAL, past)
    }

    constructor (rules: Rules)
      ensures Valid() && sys == INITIAL && this.rules == rules
    {
      this.rules := rules;
      sys := INITIAL;
      past := [];
    }

    ghost predicate At(pid: nat, pc: Pc) reads this {
      pid in sys.procs && sys.procs[pid] == pc
    }

    method Begin(pid: nat, op: Operation)
      requires Valid() && pid !in sys.procs
      modifies this
      ensures past == old(past) + [Spawn(pid, op)]
      ensures Valid() && At(pid, Start(rules, op))
    {
      RunConcat(rules, INITIAL, past, [Spawn(pid, op)]);
      sys := Apply(rules, sys, Spawn(pid, op));
      past := past + [Spawn(pid, op)];
    }

    /** One adapter call: the others run, then the call takes effect and returns. */
    method Call(pid: nat, a: Action, ghost pc: Pc) returns (r: Reply, granted: bool)
      requires Valid() && At(pid, pc) && Asks(pc) == a
      modifies this
      ensures old(past) <= past
      ensures Valid() && At(pid, After(rules, pc, r, granted))
    {
      var others: seq<Step> := *;
      others := Others(others, pid);
      OthersLeaveAlone(rules, sys, others, pid);
      RunConcat(rules, INITIAL, past, others);
      sys := Run(rules, sys, others);
      past := past + others;

      r := *;
      granted := r.ok && Possible(sys.store, a) && !r.ackLost;
      RunConcat(rules, INITIAL, past, [Move(pid, r)]);
      sys := MoveOne(rules, sys, pid, r);
      past := past + [Move(pid, r)];
    }

    method CheckAtBoundary(pid: nat, req: Request, ghost pc: Pc) returns (err: Option<Error>, ghost r: Reply)
      requires Valid() && At(pid, pc) && Asks(pc) == Skip
      modifies this
      ensures old(past) <= past
      ensures Valid() && At(pid, After(rules, pc, r, false)) && err == BoundaryCheck(rules, req, r)
    {
      var reply, granted := Call(pid, Skip, pc);
      err := BoundaryCheck(rules, req, reply);
      r := reply;
    }

    /** `ReserveFenced`; `run` tells that `RunFenced` is the caller. */
    method ReserveSteps(pid: nat, req: Request, run: bool) returns (recorded: Option<FencedCustody>, cause: Option<Error>)
      requires Valid() && At(pid, StartReserve(rules, req, run))
      modifies this
      ensures old(past) <= past
      ensures Valid()
      ensures cause == None ==> recorded.Some?
      ensures At(pid, if cause == None && run then StartExecute(rules, req, recorded.value)
                      else ReserveEnd(recorded, cause, run))
    {
      recorded, cause := None, rules.validate(req);
      if cause.Some? { return; }
      ghost var r: Reply;
      cause, r := CheckAtBoundary(pid, req, ReserveCheck(req, run));
      if cause.Some? { return; }
      if rules.identity(req) == None {
        cause := Some(Error.TransitionBinding);
        return;
      }
      var custody := InitialCustody(rules.identity(req).value, req);
      var reply, granted := Call(pid, Create(custody), ReserveCreate(req, custody, run));
      if !granted {
        cause := Some(AdapterError);
        return;
      }
      recorded := Some(custody);
      cause, r := CheckAtBoundary(pid, req, ReserveRecheck(req, custody, run));
    }

    /** The answers this process has had. */
    ghost function HeardBy(pid: nat): seq<Answers.Answer> reads this { Answers.Heard(rules, past, pid) }

    /** No error exactly if both checks admitted the request and the create between them
        succeeded; custody is returned exactly if the first check did and the create succeeded. */
    method ReserveFenced(pid: nat, req: Request) returns (recorded: Option<FencedCustody>, cause: Option<Error>)
      requires Valid() && pid !in sys.procs
      modifies this
      ensures old(past) <= past
      ensures Valid() && At(pid, Done(Preparation(recorded, cause)))
      ensures cause == None <==> Answers.Reserves(rules, req, HeardBy(pid))
      ensures cause == None ==> recorded == Some(FencedCustody(rules.identity(req).value, req.attemptId, req.current.target, req.executor, 1, Reserved))
      ensures recorded.Some? ==> |HeardBy(pid)| >= 3 && Answers.Admitted(rules, req, HeardBy(pid)[0].reply) && HeardBy(pid)[1].granted
    {
      hide Answers.Admitted, Answers.Follow, Answers.Heard;
      Begin(pid, Reserve(req));
      recorded, cause := ReserveSteps(pid, req, false);
      Answers.ProcessOf(rules, old(past), past, pid, Reserve(req));
      Answers.ReserveExactly(rules, req, if recorded.Some? then recorded.value else InitialCustody("", req), HeardBy(pid));
      if rules.identity(req).Some? { Answers.ReserveExactly(rules, req, InitialCustody(rules.identity(req).value, req), HeardBy(pid)); }
    }

    /** From the first check of `ExecuteReservedFenced` to its swap into CROSSING. */
    method CrossSteps(pid: nat, req: Request, custody: FencedCustody) returns (crossing: Option<FencedCustody>, err: Option<Error>)
      requires Valid() && At(pid, StartExecute(rules, req, custody))
      modifies this
      ensures old(past) <= past
      ensures Valid()
      ensures err.Some? ==> At(pid, Reject(custody, err.value))
      ensures err == None ==> crossing == Some(custody.(phase := Crossing)) && At(pid, ExecuteRecheck(req, crossing.value))
    {
      crossing, err := None, rules.validate(req);
      if err.Some? { return; }
      if rules.identity(req) == None {
        err := Some(Error.TransitionBinding);
        return;
      }
      err := ValidateFencedCustody(rules, req, rules.identity(req).value, custody);
      if err.Some? { return; }
      if custody.phase != Reserved {
        err := Some(CustodyNotReserved);
        return;
      }
      ghost var r: Reply;
      err, r := CheckAtBoundary(pid, req, ExecuteCheck(req, custody));
      if err.Some? { return; }
      var reply, granted := Call(pid, Skip, ExecuteLoad(req, custody));
      if reply.loaded == None {
        err := Some(AdapterError);
        return;
      }
      if reply.loaded.value != custody {
        err := Some(FencedCustodyMismatch);
        return;
      }
      var next := custody.(phase := Crossing);
      reply, granted := Call(pid, Swap(custody, next), ExecuteCross(req, custody));
      if !granted {
        err := Some(AdapterError);
        return;
      }
      crossing := Some(next);
    }

    /** From the recheck after CROSSING to the returned result. */
    method EffectSteps(pid: nat, req: Request, crossing: FencedCustody) returns (result: Outcome)
      requires Valid() && At(pid, ExecuteRecheck(req, crossing))
      modifies this
      ensures old(past) <= past
      ensures Valid() && At(pid, Done(result)) && result.Execution?
    {
      var err, r := CheckAtBoundary(pid, req, ExecuteRecheck(req, crossing));
      if err.Some? { return Execution(RejectedResult, false, crossing, err); }
      var reply, granted := Call(pid, Skip, ExecuteContext(req, crossing));
      if reply.cancelled { return Execution(RejectedResult, false, crossing, Some(Cancelled)); }
      reply, granted := Call(pid, Enter(req, crossing), ExecuteEffect(req, crossing));
      result := ObserveSteps(pid, req, crossing);
    }

    /** After the effect returned: mark UNKNOWN, observe, close. */
    method ObserveSteps(pid: nat, req: Request, crossing: FencedCustody) returns (result: Outcome)
      requires Valid() && At(pid, ExecuteMarkUnknown(req, crossing))
      modifies this
      ensures old(past) <= past
      ensures Valid() && At(pid, Done(result)) && result.Execution?
    {
      var unknown := crossing.(phase := Unknown);
      var reply, granted := Call(pid, Swap(crossing, unknown), ExecuteMarkUnknown(req, crossing));
      if !granted { return Execution(UnknownResult, true, crossing, Some(AdapterError)); }
      reply, granted := Call(pid, Skip, ExecuteObserve(req, unknown));
      if reply.observation == None { return Execution(UnknownResult, true, unknown, Some(AdapterError)); }
      var bad := rules.observation(unknown.effectId, req.transition.to, reply.observation.value, reply.attested);
      if bad.Some? { return Execution(UnknownResult, true, unknown, bad); }
      var closed := unknown.(phase := Closed);
      reply, granted := Call(pid, Swap(unknown, closed), ExecuteClose(req, unknown));
      if !granted { return Execution(UnknownResult, true, unknown, Some(AdapterError)); }
      result := Execution(ClosedResult, true, closed, None);
    }

    method ExecuteSteps(pid: nat, req: Request, custody: FencedCustody) returns (result: Outcome)
      requires Valid() && At(pid, StartExecute(rules, req, custody))
      modifies this
      ensures old(past) <= past
      ensures Valid() && At(pid, Done(result)) && result.Execution?
    {
      var crossing, err := CrossSteps(pid, req, custody);
      if err.Some? { return Execution(RejectedResult, false, custody, err); }
      result := EffectSteps(pid, req, crossing.value);
    }

    /** The result is truthful about this process's effect and about the record.  The effect
        is entered exactly if the request's own reserved record was loaded and swapped between
        two checks that admitted it, and closed exactly if a bound observation followed. */
    method ExecuteReservedFenced(pid: nat, req: Request, custody: FencedCustody) returns (result: Outcome)
      requires Valid() && pid !in sys.procs
      modifies this
      ensures old(past) <= past
      ensures Valid() && At(pid, Done(result)) && result.Execution?
      ensures result.disposition == RejectedResult <==> !FencedSafety.Entered(sys, pid)
      ensures result.disposition == ClosedResult ==>
                KeyOf(result.custody) in sys.store && sys.store[KeyOf(result.custody)] == result.custody &&
                result.custody.phase == Closed
      ensures FencedSafety.Entered(sys, pid) <==> |HeardBy(pid)| >= 6 && Answers.Enters(rules, req, custody, HeardBy(pid))
      ensures result.disposition == ClosedResult <==> Answers.Closes(rules, req, custody, HeardBy(pid))
    {
      hide Answers.Enters, Answers.Closes, Answers.Follow, Answers.Heard;
      Begin(pid, Execute(req, custody));
      result := ExecuteSteps(pid, req, custody);
      FencedSafety.ResultIsTruthful(rules, past, pid);
      FencedSafety.ReachableInvariant(rules, past);
      Answers.ProcessOf(rules, old(past), past, pid, Execute(req, custody));
      Answers.ExecuteExactly(rules, req, custody, HeardBy(pid));
    }

    method RunFenced(pid: nat, req: Request) returns (result: Outcome)
      requires Valid() && pid !in sys.procs
      modifies this
      ensures old(past) <= past
      ensures Valid() && At(pid, Done(result)) && result.Execution?
      ensures result.disposition == RejectedResult <==> !FencedSafety.Entered(sys, pid)
      ensures FencedSafety.Entered(sys, pid) <==>
                |HeardBy(pid)| >= 9 && Answers.Reserves(rules, req, HeardBy(pid)) &&
                Answers.Enters(rules, req, InitialCustody(rules.identity(req).value, req), HeardBy(pid)[3..])
      ensures result.disposition == ClosedResult <==>
                |HeardBy(pid)| >= 12 && Answers.Reserves(rules, req, HeardBy(pid)) &&
                Answers.Closes(rules, req, InitialCustody(rules.identity(req).value, req), HeardBy(pid)[3..])
    {
      hide Answers.Enters, Answers.Closes, Answers.Follow, Answers.Heard;
      Begin(pid, RunBoth(req));
      var recorded, cause := ReserveSteps(pid, req, true);
      if cause.Some? {
        var kept := if recorded.Some? then recorded.value
                    else FencedCustody("", "", "", Identity("", ""), 0, Reserved);
        result := Execution(RejectedResult, false, kept, cause);
      } else {
        result := ExecuteSteps(pid, req, recorded.value);
      }
      FencedSafety.ResultIsTruthful(rules, past, pid);
      FencedSafety.ReachableInvariant(rules, past);
      Answers.ProcessOf(rules, old(past), past, pid, RunBoth(req));
      Answers.RunExactly(rules, req, HeardBy(pid));
    }

    /** A successful transfer advanced the generation by exactly one, without wrapping; it
        happens exactly on a verified authorization for the loaded record and the new owner. */
    method TakeoverReserved(pid: nat, t: TakeoverRequest) returns (previous: Option<FencedCustody>, current: Option<FencedCustody>, err: Option<Error>)
      requires Valid() && pid !in sys.procs
      modifies this
      ensures old(past) <= past
      ensures Valid() && At(pid, Done(Transfer(previous, current, err)))
      ensures err == None ==>
                previous.Some? && previous.value.phase == Reserved && previous.value.generation < MAX_UINT64 &&
                current == Some(previous.value.(owner := t.newOwner, generation := previous.value.generation + 1))
      ensures err == None <==> previous.Some? && Answers.Transfers(rules, t, previous.value, HeardBy(pid))
    {
      hide Answers.Transfers, Answers.Follow, Answers.Heard, Asks, After, Run;
      Begin(pid, Takeover(t));
      previous, current, err := TakeoverSteps(pid, t);
      Answers.ProcessOf(rules, old(past), past, pid, Takeover(t));
      if previous.Some? {
        var c := previous.value;
        var next := c.(owner := t.newOwner, generation := if c.generation < MAX_UINT64 then c.generation + 1 else 0);
        Answers.TakeoverExactly(rules, t, c, next, HeardBy(pid));
        Answers.TransfersBelowMax(rules, t, c, HeardBy(pid));
      }
    }

    method TakeoverSteps(pid: nat, t: TakeoverRequest) returns (previous: Option<FencedCustody>, current: Option<FencedCustody>, err: Option<Error>)
      requires Valid() && At(pid, StartTakeover(rules, t))
      modifies this
      ensures old(past) <= past
      ensures Valid() && At(pid, Done(Transfer(previous, current, err)))
      ensures err == None ==>
                previous.Some? && previous.value.phase == Reserved && previous.value.generation < MAX_UINT64 &&
                current == Some(previous.value.(owner := t.newOwner, generation := previous.value.generation + 1))
    {
      previous, current, err := None, None, rules.validate(t.original);
      if err.Some? { return; }
      if !rules.transferable(t) {
        err := Some(IncompleteTakeoverRequest);
        return;
      }
      var reply, granted := Call(pid, Skip, TakeoverLoad(t));
      if reply.loaded == None {
        err := Some(AdapterError);
        return;
      }
      previous := reply.loaded;
      err := ExamineTakeover(rules, t, previous.value);
      if err.Some? { return; }
      reply, granted := Call(pid, Skip, TakeoverVerify(t, previous.value));
      if !reply.attested {
        err := Some(AdapterError);
        return;
      }
      var next := previous.value.(owner := t.newOwner, generation := Successor(previous.value.generation));
      reply, granted := Call(pid, Swap(previous.value, next), TakeoverSwap(t, previous.value));
      if granted { current := Some(next); } else { err := Some(AdapterError); }
    }
  }
}
