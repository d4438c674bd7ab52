/** The fenced custody protocol (governedaction/runtime/fenced.go) as a transition
    system: any number of processes inside `ReserveFenced`, `ExecuteReservedFenced`,
    `RunFenced` or `TakeoverReserved`, one shared store changed only by create-once
    and compare-and-swap, and a crash possible between any two steps.

    Everything a process cannot control is in the `Reply` of its step: context
    cancellation, the observed state, attestation verdicts, what a load returns
    (it may be stale or wrong), whether a store call fails, and whether a call that
    took effect is nevertheless reported as failed. */
module FencedProtocol {
  import opened Text
  import opened Framing
  import opened Runtime

  type Key = (string, string)
  type Store = map<Key, FencedCustody>

  function KeyOf(c: FencedCustody): Key { (c.effectId, c.attemptId) }

  datatype TakeoverRequest = TakeoverRequest(original: Request, newOwner: Identity, authorization: Attestation)

  datatype Outcome =
    | Crashed
    | Preparation(recorded: Option<FencedCustody>, cause: Option<Error>)
    | Transfer(previous: Option<FencedCustody>, current: Option<FencedCustody>, cause: Option<Error>)
    | Execution(disposition: Disposition, entered: bool, custody: FencedCustody, cause: Option<Error>)

  /** The next adapter call of a process, with the locals that are still live. */
  datatype Pc =
    | ReserveCheck(req: Request, run: bool)
    | ReserveCreate(req: Request, c: FencedCustody, run: bool)
    | ReserveRecheck(req: Request, c: FencedCustody, run: bool)
    | ExecuteCheck(req: Request, c: FencedCustody)
    | ExecuteLoad(req: Request, c: FencedCustody)
    | ExecuteCross(req: Request, c: FencedCustody)
    | ExecuteRecheck(req: Request, c: FencedCustody)
    | ExecuteContext(req: Request, c: FencedCustody)
    | ExecuteEffect(req: Request, c: FencedCustody)
    | ExecuteMarkUnknown(req: Request, c: FencedCustody)
    | ExecuteObserve(req: Request, c: FencedCustody)
    | ExecuteClose(req: Request, c: FencedCustody)
    | TakeoverLoad(t: TakeoverRequest)
    | TakeoverVerify(t: TakeoverRequest, c: FencedCustody)
    | TakeoverSwap(t: TakeoverRequest, c: FencedCustody)
    | Done(out: Outcome)

  datatype Operation =
    | Reserve(req: Request)
    | Execute(req: Request, custody: FencedCustody)
    | RunBoth(req: Request)
    | Takeover(t: TakeoverRequest)

  datatype Reply = Reply(cancelled: bool, current: Option<State>, attested: bool,
                         loaded: Option<FencedCustody>, observation: Option<Observation>,
                         ok: bool, ackLost: bool)

  /******* The sequential code of one process *******/

  /** The runtime's pure validators.  The protocol is stated and proved for any
      validators at all; `RuntimeRules` are the ones of the reference runtime. */
  datatype Rules = Rules(
    validate: Request -> Option<Error>,
    identity: Request -> Option<string>,
    admission: Request -> Option<string>,
    complete: FencedCustody -> bool,
    transferable: TakeoverRequest -> bool,
    transferDigest: (FencedCustody, Identity) -> string,
    observation: (string, State, Observation, bool) -> Option<Error>)

  function RuntimeRules(h: string -> string): Rules {
    Rules(req => ValidateRequest(h, req),
          req => EffectIdentity(h, req),
          req => AdmissionBindingDigest(h, req),
          (c: FencedCustody) => c.Complete(),
          (t: TakeoverRequest) => t.newOwner.Complete() && t.authorization.Complete(),
          (c, o) => TakeoverBindingDigest(h, c, o),
          (effectId, expected, o, attested) => VerifyObservation(h, effectId, expected, o, attested))
  }

  function TakeoverBindingDigest(h: string -> string, c: FencedCustody, newOwner: Identity): string {
    StatementDigest(h, TakeoverStatement(c, newOwner))
  }

  /** `verifyObservation`, given the verdict on the observation attestation. */
  function VerifyObservation(h: string -> string, effectId: string, expected: State,
                             o: Observation, attested: bool): Option<Error> {
    if !o.state.Complete() || !o.attestation.Complete() then Some(IncompleteObservation)
    else if o.attestation.bindingDigest != ObservationBindingDigest(h, effectId, o.state) then Some(ObservationBinding)
    else if !attested then Some(AdapterError)
    else if o.state != expected then Some(ObservedStateMismatch)
    else None
  }

  /** `checkRequestAtBoundary` */
  function BoundaryCheck(u: Rules, req: Request, r: Reply): Option<Error> {
    if r.cancelled then Some(Cancelled)
    else if r.current == None then Some(AdapterError)
    else if r.current.value != req.current then Some(StateChanged)
    else match u.admission(req)
      case None => Some(TransitionBinding)
      case Some(expected) =>
        if req.admission.bindingDigest != expected then Some(AdmissionBinding)
        else if !r.attested then Some(AdapterError)
        else None
  }

  /** `validateFencedCustody` */
  function ValidateFencedCustody(u: Rules, req: Request, effectId: string, c: FencedCustody): Option<Error> {
    if !u.complete(c) then Some(IncompleteFencedCustody)
    else if c.effectId != effectId || c.attemptId != req.attemptId ||
            c.target != req.current.target || c.owner != req.executor then Some(FencedCustodyMismatch)
    else None
  }

  function InitialCustody(effectId: string, req: Request): FencedCustody {
    FencedCustody(effectId, req.attemptId, req.current.target, req.executor, 1, Reserved)
  }

  function StartReserve(u: Rules, req: Request, run: bool): Pc {
    match u.validate(req)
    case Some(e) => ReserveEnd(None, Some(e), run)
    case None => ReserveCheck(req, run)
  }

  /** `ReserveFenced` returns a preparation; inside `RunFenced` an error ends the run. */
  function ReserveEnd(recorded: Option<FencedCustody>, cause: Option<Error>, run: bool): Pc {
    if run then Done(Execution(RejectedResult, false,
                               if recorded.Some? then recorded.value
                               else FencedCustody("", "", "", Identity("", ""), 0, Reserved), cause))
    else Done(Preparation(recorded, cause))
  }

  function Reject(c: FencedCustody, e: Error): Pc {
    Done(Execution(RejectedResult, false, c, Some(e)))
  }

  function StartExecute(u: Rules, req: Request, c: FencedCustody): Pc {
    match u.validate(req)
    case Some(e) => Reject(c, e)
    case None =>
      match u.identity(req)
      case None => Reject(c, TransitionBinding)
      case Some(effectId) =>
        match ValidateFencedCustody(u, req, effectId, c)
        case Some(e) => Reject(c, e)
        case None => if c.phase != Reserved then Reject(c, CustodyNotReserved) else ExecuteCheck(req, c)
  }

  function TransferFailed(previous: Option<FencedCustody>, e: Error): Pc {
    Done(Transfer(previous, None, Some(e)))
  }

  function StartTakeover(u: Rules, t: TakeoverRequest): Pc {
    match u.validate(t.original)
    case Some(e) => TransferFailed(None, e)
    case None =>
      if !u.transferable(t)
      then TransferFailed(None, IncompleteTakeoverRequest) else TakeoverLoad(t)
  }

  function Start(u: Rules, op: Operation): Pc {
    match op
    case Reserve(req) => StartReserve(u, req, false)
    case RunBoth(req) => StartReserve(u, req, true)
    case Execute(req, c) => StartExecute(u, req, c)
    case Takeover(t) => StartTakeover(u, t)
  }

  /** The checks of `TakeoverReserved` between its load and its attestation check. */
  function ExamineTakeover(u: Rules, t: TakeoverRequest, c: FencedCustody): Option<Error> {
    match u.identity(t.original)
    case None => Some(TransitionBinding)
    case Some(effectId) =>
      match ValidateFencedCustody(u, t.original, effectId, c)
      case Some(e) => Some(e)
      case None =>
        if c.phase != Reserved then Some(CustodyNotReserved)
        else if c.generation == MAX_UINT64 then Some(FenceGenerationExhausted)
        else if t.authorization.bindingDigest != u.transferDigest(c, t.newOwner) then Some(Error.TakeoverBinding)
        else None
  }

  /** What a process asks of the shared world at its current call. */
  datatype Action = Skip | Create(c: FencedCustody) | Swap(expected: FencedCustody, next: FencedCustody) | Enter(req: Request, c: FencedCustody)

  function Asks(pc: Pc): Action {
    match pc
    case ReserveCreate(_, c, _) => Create(c)
    case ExecuteCross(_, c) => Swap(c, c.(phase := Crossing))
    case ExecuteEffect(req, c) => Enter(req, c)
    case ExecuteMarkUnknown(_, c) => Swap(c, c.(phase := Unknown))
    case ExecuteClose(_, c) => Swap(c, c.(phase := Closed))
    case TakeoverSwap(t, c) => Swap(c, c.(owner := t.newOwner, generation := Successor(c.generation)))
    case _ => Skip
  }

  /** The process after its call returned; `granted` tells whether a store call succeeded. */
  function After(u: Rules, pc: Pc, r: Reply, granted: bool): Pc {
    match pc
    case ReserveCheck(req, run) =>
      (match BoundaryCheck(u, req, r)
       case Some(e) => ReserveEnd(None, Some(e), run)
       case None =>
         match u.identity(req)
         case None => ReserveEnd(None, Some(TransitionBinding), run)
         case Some(effectId) => ReserveCreate(req, InitialCustody(effectId, req), run))
    case ReserveCreate(req, c, run) =>
      if granted then ReserveRecheck(req, c, run) else ReserveEnd(None, Some(AdapterError), run)
    case ReserveRecheck(req, c, run) =>
      (match BoundaryCheck(u, req, r)
       case Some(e) => ReserveEnd(Some(c), Some(e), run)
       case None => if run then StartExecute(u, req, c) else ReserveEnd(Some(c), None, run))
    case ExecuteCheck(req, c) =>
      (match BoundaryCheck(u, req, r)
       case Some(e) => Reject(c, e)
       case None => ExecuteLoad(req, c))
    case ExecuteLoad(req, c) =>
      if r.loaded == None then Reject(c, AdapterError)
      else if r.loaded.value != c then Reject(c, FencedCustodyMismatch)
      else ExecuteCross(req, c)
    case ExecuteCross(req, c) =>
      if granted then ExecuteRecheck(req, c.(phase := Crossing)) else Reject(c, AdapterError)
    case ExecuteRecheck(req, c) =>
      (match BoundaryCheck(u, req, r)
       case Some(e) => Reject(c, e)
       case None => ExecuteContext(req, c))
    case ExecuteContext(req, c) =>
      if r.cancelled then Reject(c, Cancelled) else ExecuteEffect(req, c)
    case ExecuteEffect(req, c) => ExecuteMarkUnknown(req, c)
    case ExecuteMarkUnknown(req, c) =>
      if granted then ExecuteObserve(req, c.(phase := Unknown))
      else Done(Execution(UnknownResult, true, c, Some(AdapterError)))
    case ExecuteObserve(req, c) =>
      if r.observation == None then Done(Execution(UnknownResult, true, c, Some(AdapterError)))
      else (match u.observation(c.effectId, req.transition.to, r.observation.value, r.attested)
            case Some(e) => Done(Execution(UnknownResult, true, c, Some(e)))
            case None => ExecuteClose(req, c))
    case ExecuteClose(req, c) =>
      if granted then Done(Execution(ClosedResult, true, c.(phase := Closed), None))
      else Done(Execution(UnknownResult, true, c, Some(AdapterError)))
    case TakeoverLoad(t) =>
      if r.loaded == None then TransferFailed(None, AdapterError)
      else (match ExamineTakeover(u, t, r.loaded.value)
            case Some(e) => TransferFailed(r.loaded, e)
            case None => TakeoverVerify(t, r.loaded.value))
    case TakeoverVerify(t, c) =>
      if r.attested then TakeoverSwap(t, c) else TransferFailed(Some(c), AdapterError)
    case TakeoverSwap(t, c) =>
      if granted then Done(Transfer(Some(c), Some(c.(owner := t.newOwner, generation := Successor(c.generation))), None))
      else TransferFailed(Some(c), AdapterError)
    case Done(_) => pc
  }

  /******* The whole system *******/

  /** A process entered the effect callback holding this record. */
  datatype Entry = Entry(pid: nat, req: Request, custody: FencedCustody)

  datatype System = System(store: Store, procs: map<nat, Pc>, entries: seq<Entry>, writes: seq<FencedCustody>)

  datatype Step = Spawn(pid: nat, op: Operation) | Move(pid: nat, reply: Reply) | Crash(pid: nat)

  predicate Possible(store: Store, a: Action) {
    match a
    case Create(c) => KeyOf(c) !in store
    case Swap(expected, _) => KeyOf(expected) in store && store[KeyOf(expected)] == expected
    case _ => false
  }

  function Written(a: Action): FencedCustody
    requires a.Create? || a.Swap?
  {
    if a.Create? then a.c else a.next
  }

  function MoveOne(u: Rules, s: System, pid: nat, r: Reply): System
    requires pid in s.procs
  {
    var pc := s.procs[pid];
    var a := Asks(pc);
    var changed := r.ok && Possible(s.store, a);
    System(if changed then s.store[KeyOf(Written(a)) := Written(a)] else s.store,
           s.procs[pid := After(u, pc, r, changed && !r.ackLost)],
           if a.Enter? then s.entries + [Entry(pid, a.req, a.c)] else s.entries,
           if changed then s.writes + [Written(a)] else s.writes)
  }

  function Apply(u: Rules, s: System, step: Step): System {
    match step
    case Spawn(pid, op) => if pid in s.procs then s else s.(procs := s.procs[pid := Start(u, op)])
    case Crash(pid) => if pid in s.procs then s.(procs := s.procs[pid := Done(Crashed)]) else s
    case Move(pid, r) => if pid in s.procs then MoveOne(u, s, pid, r) else s
  }

  function Run(u: Rules, s: System, steps: seq<Step>): System
    decreases |steps|
  {
    if steps == [] then s else Run(u, Apply(u, s, steps[0]), steps[1..])
  }

  const INITIAL := System(map[], map[], [], [])

  lemma {:induction false} RunConcat(u: Rules, s: System, a: seq<Step>, b: seq<Step>)
    ensures Run(u, s, a + b) == Run(u, Run(u, s, a), b)
    decreases |a|
  {
    if a == [] {
      assert a + b == b;
    } else {
      assert (a + b)[1..] == a[1..] + b;
      RunConcat(u, Apply(u, s, a[0]), a[1..], b);
    }
  }
}
