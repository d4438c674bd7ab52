/** `PrepareEffect`, `Dispatch` (governedaction/boundary.go), `Run` and `Recover`
    (governedaction/runtime) over callbacks that may do anything: every reply is
    chosen nondeterministically and the context may be cancelled at any moment. */
module BoundaryRuntime {
  import opened Text
  import opened Framing
  import opened Runtime

  type Key = (string, string)

  /** The calls that matter for the order of the effect boundary. */
  datatype Call = Checked(ok: bool) | Retained(ok: bool) | Executed(key: Key)

  datatype Result = Result(disposition: Disposition, effectId: Option<string>, attemptId: string,
                           custodyRecorded: bool, boundaryEntered: bool,
                           observation: Option<Observation>, cause: Option<Error>)

  datatype RecoveryRequest = RecoveryRequest(original: Request, recoverer: Identity, authorization: Attestation)

  function Ideal(k: Key): seq<Call> {
    [Checked(true), Retained(true), Checked(true), Executed(k)]
  }

  predicate SameCall(a: Call, b: Call) {
    (a.Checked? && b.Checked?) || (a.Retained? && b.Retained?) || a == b
  }

  /** A prefix of check, retain, check, effect: every call but the last succeeded. */
  predicate BoundaryTrace(t: seq<Call>, k: Key) {
    |t| <= 4 &&
    (t != [] ==> t[..|t| - 1] == Ideal(k)[..|t| - 1] && SameCall(t[|t| - 1], Ideal(k)[|t| - 1]))
  }

  predicate RetainedIn(t: seq<Call>) { |t| >= 2 && t[1] == Retained(true) }

  predicate ExecutedIn(t: seq<Call>) { |t| == 4 }

  function KeyOf(c: Custody): Key { (c.effectId, c.attemptId) }

  /** `validateRecoveredCustody` */
  function ValidateRecoveredCustody(original: Request, effectId: string, c: Custody): (e: Option<Error>)
    ensures e == None <==>
      c == Custody(effectId, original.attemptId, original.current.target, original.executor) && !Blank(effectId) &&
      !Blank(original.attemptId) && !Blank(original.current.target) && !Blank(original.executor.id) && !Blank(original.executor.kind)
  {
    if Blank(c.effectId) || Blank(c.attemptId) || Blank(c.target) || !c.owner.Complete()
    then Some(MissingRecoveryCustody)
    else if c.effectId != effectId || c.attemptId != original.attemptId ||
            c.target != original.current.target || c.owner != original.executor
    then Some(RecoveryCustodyMismatch)
    else None
  }

  /** The runtime's validators and digests.  `Run` and `Recover` are proved for any
      of them; `RuntimeBindings` are the ones of the reference runtime. */
  datatype Bindings = Bindings(
    validate: Request -> Option<Error>,
    identity: Request -> Option<string>,
    admission: Request -> Option<string>,
    observation: (string, State) -> string,
    recovery: (Custody, Identity) -> string,
    complete: Observation -> bool,
    recoverable: RecoveryRequest -> bool,
    recovered: (Request, string, Custody) -> Option<Error>)

  function RuntimeBindings(h: string -> string): Bindings {
    Bindings(req => ValidateRequest(h, req),
             req => EffectIdentity(h, req),
             req => AdmissionBindingDigest(h, req),
             (effectId, state) => ObservationBindingDigest(h, effectId, state),
             (c, recoverer) => StatementDigest(h, RecoveryStatement(c, recoverer)),
             (o: Observation) => o.state.Complete() && o.attestation.Complete(),
             (r: RecoveryRequest) => r.recoverer.Complete() && r.authorization.Complete(),
             (req, effectId, c) => ValidateRecoveredCustody(req, effectId, c))
  }

  class Adapter {
    const b: Bindings
    /** Durable custody; the adapter rejects a second reservation of a key. */
    var custody: map<Key, Custody>
    var cancelled: bool
    ghost var trace: seq<Call>
    /** What the adapter has answered so far, in order: attestations it accepted for a
        digest, states and custody it loaded, and observations it made. */
    ghost var verified: seq<(Attestation, string)>
    ghost var states: seq<State>
    ghost var loaded: seq<Custody>
    ghost var observed: seq<Observation>

    /** No key has been executed twice, and none without retained custody. */
    ghost predicate Valid() reads this {
      (forall i :: 0 <= i < |trace| && trace[i].Executed? ==> trace[i].key in custody) &&
      (forall i, j :: 0 <= i < j < |trace| && trace[i].Executed? && trace[j].Executed? ==> trace[i].key != trace[j].key)
    }

    constructor (b: Bindings)
      ensures Valid() && trace == [] && this.b == b
      ensures verified == [] && states == [] && loaded == [] && observed == []
    {
      this.b := b;
      custody, cancelled, trace, verified, states, loaded, observed := map[], false, [], [], [], [], [];
    }

    method ContextErr() returns (err: bool)
      modifies this`cancelled
      ensures err == cancelled && (old(cancelled) ==> cancelled)
    {
      var now: bool := *;
      if now { cancelled := true; }
      err := cancelled;
    }

    method VerifyAttestation(a: Attestation, digest: string) returns (ok: bool)
      modifies this`verified
      ensures verified == if ok then old(verified) + [(a, digest)] else old(verified)
    {
      ok := *;
      if ok { verified := verified + [(a, digest)]; }
    }

    method CurrentState() returns (current: Option<State>)
      modifies this`states
      ensures states == if current.Some? then old(states) + [current.value] else old(states)
    {
      current := *;
      if current.Some? { states := states + [current.value]; }
    }

    /** What one successful check has read and verified. */
    ghost predicate Admits(req: Request, before: seq<State>, accepted: seq<(Attestation, string)>) reads this {
      b.admission(req) == Some(req.admission.bindingDigest) && states == before + [req.current] &&
      verified == accepted + [(req.admission, req.admission.bindingDigest)]
    }

    /** What both checks before an effect have read and verified. */
    ghost predicate AdmitsTwice(req: Request, before: seq<State>, accepted: seq<(Attestation, string)>) reads this {
      var a := (req.admission, req.admission.bindingDigest);
      b.admission(req) == Some(req.admission.bindingDigest) && states == before + [req.current, req.current] &&
      accepted + [a, a] <= verified
    }

    /** The check `Run` passes to `Dispatch`. */
    method Check(req: Request) returns (err: Option<Error>)
      modifies this`trace, this`verified, this`states
      ensures trace == old(trace) + [Checked(err == None)]
      ensures old(verified) <= verified
      ensures err == None ==> Admits(req, old(states), old(verified))
    {
      var current := CurrentState();
      var expected := b.admission(req);
      if current == None {
        err := Some(AdapterError);
      } else if current.value != req.current {
        err := Some(StateChanged);
      } else if expected == None {
        err := Some(Error.TransitionBinding);
      } else if req.admission.bindingDigest != expected.value {
        err := Some(AdmissionBinding);
      } else {
        var ok := VerifyAttestation(req.admission, expected.value);
        err := if ok then None else Some(AdapterError);
      }
      trace := trace + [Checked(err == None)];
    }

    /** Create-once: a key that is already retained is refused.  A retained record
        may still be reported as an error. */
    method RetainCustody(c: Custody) returns (ok: bool)
      modifies this`custody, this`trace
      ensures trace == old(trace) + [Retained(ok)]
      ensures ok ==> KeyOf(c) !in old(custody)
      ensures custody == old(custody) || (KeyOf(c) !in old(custody) && custody == old(custody)[KeyOf(c) := c])
      ensures ok ==> KeyOf(c) in custody
    {
      ok := *;
      var written: bool := *;
      if KeyOf(c) in custody {
        ok := false;
      } else if ok || written {
        custody := custody[KeyOf(c) := c];
      }
      trace := trace + [Retained(ok)];
    }

    method Execute(c: Custody) returns (err: Option<Error>)
      modifies this`trace
      ensures trace == old(trace) + [Executed(KeyOf(c))]
    {
      trace := trace + [Executed(KeyOf(c))];
      err := *;
    }

    method Observe() returns (o: Option<Observation>)
      modifies this`observed
      ensures observed == if o.Some? then old(observed) + [o.value] else old(observed)
    {
      o := *;
      if o.Some? { observed := observed + [o.value]; }
    }

    method LoadCustody() returns (c: Option<Custody>)
      modifies this`loaded
      ensures loaded == if c.Some? then old(loaded) + [c.value] else old(loaded)
    {
      c := *;
      if c.Some? { loaded := loaded + [c.value]; }
    }

    /** `check` and `retain` tell whether the callbacks are non-nil. */
    method PrepareEffect(check: bool, retain: bool, req: Request, c: Custody)
      returns (recorded: bool, err: Option<Error>, ghost t: seq<Call>)
      modifies this
      ensures trace == old(trace) + t && |t| <= 3 && BoundaryTrace(t, KeyOf(c))
      ensures forall i :: 0 <= i < |t| ==> !t[i].Executed?
      ensures recorded <==> RetainedIn(t)
      ensures err == None ==> t == [Checked(true), Retained(true), Checked(true)]
      ensures err == None ==> check && retain && !cancelled
      ensures err == None ==> AdmitsTwice(req, old(states), old(verified))
      ensures loaded == old(loaded) && observed == old(observed)
      ensures recorded ==> KeyOf(c) !in old(custody) && KeyOf(c) in custody
      ensures custody == old(custody) || (KeyOf(c) !in old(custody) && custody == old(custody)[KeyOf(c) := c])
      ensures old(verified) <= verified && (old(cancelled) ==> cancelled)
    {
      recorded, err, t := false, None, [];
      if !check { err := Some(MissingCheck); return; }
      if !retain { err := Some(MissingCustody); return; }
      var stop := ContextErr();
      if stop { err := Some(Cancelled); return; }
      err := Check(req);
      t := [Checked(err == None)];
      if err.Some? { return; }
      stop := ContextErr();
      if stop { err := Some(Cancelled); return; }
      var ok := RetainCustody(c);
      t := [Checked(true), Retained(ok)];
      if !ok { err := Some(AdapterError); return; }
      recorded := true;
      stop := ContextErr();
      if stop { err := Some(Cancelled); return; }
      err := Check(req);
      t := [Checked(true), Retained(true), Checked(err == None)];
      if err.Some? { return; }
      stop := ContextErr();
      if stop { err := Some(Cancelled); }
    }

    method Dispatch(check: bool, retain: bool, effect: bool, req: Request, c: Custody)
      returns (recorded: bool, entered: bool, err: Option<Error>, ghost t: seq<Call>)
      requires Valid()
      modifies this
      ensures Valid()
      ensures trace == old(trace) + t && BoundaryTrace(t, KeyOf(c))
      ensures recorded <==> RetainedIn(t)
      ensures entered <==> ExecutedIn(t)
      ensures !entered ==> err.Some?
      ensures entered ==> check && retain && effect && !old(cancelled)
      ensures entered ==> AdmitsTwice(req, old(states), old(verified))
      ensures loaded == old(loaded) && observed == old(observed)
      ensures recorded ==> KeyOf(c) !in old(custody) && KeyOf(c) in custody
      ensures custody == old(custody) || (KeyOf(c) !in old(custody) && custody == old(custody)[KeyOf(c) := c])
      ensures old(verified) <= verified
    {
      recorded, entered, err, t := false, false, None, [];
      if !effect { err := Some(MissingEffect); return; }
      recorded, err, t := PrepareEffect(check, retain, req, c);
      assert forall i :: 0 <= i < |trace| && trace[i].Executed? ==> i < |old(trace)| && trace[i] == old(trace)[i];
      if err.Some? { return; }
      var stop := ContextErr();
      if stop { err := Some(Cancelled); return; }
      entered := true;
      err := Execute(c);
      t := t + [Executed(KeyOf(c))];
    }

    /** The observation proves the intended state of this very effect. */
    ghost predicate Proves(o: Observation, effectId: string, expected: State) reads this {
      o.state == expected &&
      o.attestation.bindingDigest == b.observation(effectId, expected) &&
      verified != [] && verified[|verified| - 1] == (o.attestation, o.attestation.bindingDigest)
    }

    method VerifyObservation(effectId: string, expected: State, o: Observation) returns (err: Option<Error>)
      modifies this`verified
      ensures old(verified) <= verified
      ensures err == None ==> Proves(o, effectId, expected)
    {
      if !b.complete(o) { return Some(IncompleteObservation); }
      var binding := b.observation(effectId, o.state);
      if o.attestation.bindingDigest != binding { return Some(ObservationBinding); }
      var ok := VerifyAttestation(o.attestation, binding);
      if !ok { return Some(AdapterError); }
      if o.state != expected { return Some(ObservedStateMismatch); }
      err := None;
    }

    /** REJECTED exactly when `Execute` was not entered, which takes two checks of the
        admitted state and of the admission for this very request; CLOSED only on a verified
        observation of the intended after-state, made by this call. */
    method Run(req: Request) returns (result: Result, ghost t: seq<Call>)
      requires Valid()
      modifies this
      ensures Valid()
      ensures trace == old(trace) + t
      ensures b.identity(req).Some? ==> BoundaryTrace(t, (b.identity(req).value, req.attemptId))
      ensures b.identity(req) == None ==> t == []
      ensures result.boundaryEntered <==> ExecutedIn(t)
      ensures result.custodyRecorded <==> RetainedIn(t)
      ensures result.disposition == RejectedResult <==> !ExecutedIn(t)
      ensures ExecutedIn(t) ==> AdmitsTwice(req, old(states), old(verified))
      ensures observed == if result.observation.Some? then old(observed) + [result.observation.value] else old(observed)
      ensures result.disposition == ClosedResult ==>
                result.observation.Some? && result.effectId == b.identity(req) && result.effectId.Some? &&
                Proves(result.observation.value, result.effectId.value, req.transition.to)
    {
      t := [];
      result := Result(RejectedResult, None, req.attemptId, false, false, None, None);
      var bad := b.validate(req);
      if bad.Some? { result := result.(cause := bad); return; }
      if b.identity(req) == None { result := result.(cause := Some(Error.TransitionBinding)); return; }
      var effectId := b.identity(req).value;
      result := result.(effectId := Some(effectId));
      var c := Custody(effectId, req.attemptId, req.current.target, req.executor);
      var recorded, entered, err;
      recorded, entered, err, t := Dispatch(true, true, true, req, c);
      result := result.(custodyRecorded := recorded, boundaryEntered := entered);
      if !entered { result := result.(cause := err); return; }
      result := result.(disposition := UnknownResult);
      var o := Observe();
      result := result.(observation := o);
      if o == None { result := result.(cause := Some(AdapterError)); return; }
      var wrong := VerifyObservation(effectId, req.transition.to, o.value);
      if wrong.Some? { result := result.(cause := wrong); return; }
      result := result.(disposition := ClosedResult);
    }

    /** Custody loaded by this call is that of the original effect, and the authorization is
        bound to exactly this custody and recoverer and was verified. */
    ghost predicate Authorizes(req: RecoveryRequest, c: Custody, before: seq<Custody>, accepted: seq<(Attestation, string)>) reads this {
      b.identity(req.original).Some? && b.recovered(req.original, b.identity(req.original).value, c) == None &&
      loaded == before + [c] && req.authorization.bindingDigest == b.recovery(c, req.recoverer) &&
      accepted + [(req.authorization, b.recovery(c, req.recoverer))] <= verified
    }

    /** Observation only: no call of the boundary is made and no custody changes. */
    method Recover(req: RecoveryRequest) returns (result: Result, ghost c: Option<Custody>)
      requires Valid()
      modifies this
      ensures Valid()
      ensures trace == old(trace) && custody == old(custody)
      ensures !result.boundaryEntered
      ensures result.disposition == ClosedResult ==>
                result.observation.Some? && result.effectId == b.identity(req.original) && result.effectId.Some? &&
                Proves(result.observation.value, result.effectId.value, req.original.transition.to)
      ensures result.disposition != RejectedResult ==>
                result.custodyRecorded && c.Some? && Authorizes(req, c.value, old(loaded), old(verified))
      ensures observed == if result.observation.Some? then old(observed) + [result.observation.value] else old(observed)
    {
      c := None;
      result := Result(RejectedResult, None, req.original.attemptId, false, false, None, None);
      var bad := b.validate(req.original);
      if bad.Some? { result := result.(cause := bad); return; }
      if !b.recoverable(req) {
        result := result.(cause := Some(IncompleteRecoveryRequest));
        return;
      }
      if b.identity(req.original) == None { result := result.(cause := Some(Error.TransitionBinding)); return; }
      var effectId := b.identity(req.original).value;
      result := result.(effectId := Some(effectId));
      var custody := LoadCustody();
      if custody == None { result := result.(cause := Some(AdapterError)); return; }
      c := custody;
      var wrong := b.recovered(req.original, effectId, custody.value);
      if wrong.Some? { result := result.(cause := wrong); return; }
      result := result.(custodyRecorded := true);
      var expected := b.recovery(custody.value, req.recoverer);
      if req.authorization.bindingDigest != expected { result := result.(cause := Some(RecoveryBinding)); return; }
      var ok := VerifyAttestation(req.authorization, expected);
      if !ok { result := result.(cause := Some(AdapterError)); return; }
      result := result.(disposition := UnknownResult);
      var o := Observe();
      result := result.(observation := o);
      if o == None { result := result.(cause := Some(AdapterError)); return; }
      wrong := VerifyObservation(effectId, req.original.transition.to, o.value);
      if wrong.Some? { result := result.(cause := wrong); return; }
      result := result.(disposition := ClosedResult);
    }

    /** Any mix of `Run` and `Recover`, in any order and number, executes no
        (effect, attempt) key twice. */
    method Serve(requests: seq<RecoveryRequest>)
      requires Valid()
      modifies this
      ensures Valid()
    {
      for i := 0 to |requests|
        invariant Valid()
      {
        var again: bool := *;
        if again {
          var r, c := Recover(requests[i]);
        } else {
          var r, t := Run(requests[i].original);
        }
      }
    }
  }
}
