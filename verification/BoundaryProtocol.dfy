/** Any number of concurrent `Run` calls over one shared custody store
    (governedaction/boundary.go, governedaction/runtime/runtime.go).  Each process makes the
    calls check, retain, check, effect for its own key; any call may fail, a process may
    stop between any two calls, and a custody write may be reported as an error although it
    happened.  The store refuses a key it already holds. */
module BoundaryProtocol {
  import opened Text
  import opened BoundaryRuntime

  datatype Proc = Proc(key: Key, calls: seq<Call>, running: bool)

  /** One call made by one process, in the global order. */
  datatype Event = Event(pid: nat, call: Call)

  datatype System = System(custody: set<Key>, procs: map<nat, Proc>, log: seq<Event>)

  datatype Step = Spawn(pid: nat, key: Key) | Move(pid: nat, ok: bool, written: bool) | Stop(pid: nat)

  /** The next call of a process and its answer. */
  function NextCall(custody: set<Key>, p: Proc, ok: bool): Call {
    if |p.calls| == 1 then Retained(ok && p.key !in custody)
    else if |p.calls| >= 3 then Executed(p.key)
    else Checked(ok)
  }

  predicate GoesOn(c: Call) { c == Checked(true) || c == Retained(true) }

  function MoveOne(s: System, pid: nat, ok: bool, written: bool): System
    requires pid in s.procs
  {
    var p := s.procs[pid];
    var call := NextCall(s.custody, p, ok);
    System(if |p.calls| == 1 && (call == Retained(true) || written) then s.custody + {p.key} else s.custody,
           s.procs[pid := Proc(p.key, p.calls + [call], GoesOn(call))],
           s.log + [Event(pid, call)])
  }

  function Apply(s: System, step: Step): System {
    match step
    case Spawn(pid, key) => if pid in s.procs then s else s.(procs := s.procs[pid := Proc(key, [], true)])
    case Stop(pid) => if pid in s.procs then s.(procs := s.procs[pid := s.procs[pid].(running := false)]) else s
    case Move(pid, ok, written) => if pid in s.procs && s.procs[pid].running then MoveOne(s, pid, ok, written) else s
  }

  function Run(s: System, steps: seq<Step>): System
    decreases |steps|
  {
    if steps == [] then s else Run(Apply(s, steps[0]), steps[1..])
  }

  const INITIAL := System({}, map[], [])

  /** The calls of one process, read off the global order. */
  function CallsOf(log: seq<Event>, pid: nat): seq<Call> {
    if log == [] then []
    else
      var e := log[|log| - 1];
      CallsOf(log[..|log| - 1], pid) + (if e.pid == pid then [e.call] else [])
  }

  /******* The invariant *******/

  predicate Holder(p: Proc) { |p.calls| >= 2 && p.calls[1] == Retained(true) }

  predicate WellBehaved(p: Proc) {
    BoundaryTrace(p.calls, p.key) && (p.running ==> |p.calls| <= 3 && p.calls == Ideal(p.key)[..|p.calls|])
  }

  predicate HoldersOk(s: System) {
    (forall p :: p in s.procs && Holder(s.procs[p]) ==> s.procs[p].key in s.custody) &&
    forall p, q :: p in s.procs && q in s.procs && Holder(s.procs[p]) && Holder(s.procs[q]) && s.procs[p].key == s.procs[q].key ==> p == q
  }

  /** An execution in the log is the fourth call of its process, which holds the key. */
  predicate LogOk(s: System) {
    (forall i :: 0 <= i < |s.log| && s.log[i].call.Executed? ==>
       s.log[i].pid in s.procs && s.procs[s.log[i].pid].key == s.log[i].call.key &&
       |s.procs[s.log[i].pid].calls| == 4 && Holder(s.procs[s.log[i].pid])) &&
    forall i, j :: 0 <= i < j < |s.log| && s.log[i].call.Executed? && s.log[j].call.Executed? ==> s.log[i].pid != s.log[j].pid
  }

  predicate Inv(s: System) {
    (forall p :: p in s.procs ==> WellBehaved(s.procs[p])) && HoldersOk(s) && LogOk(s)
  }

  lemma MoverBehaves(s: System, pid: nat, ok: bool, written: bool)
    requires pid in s.procs && WellBehaved(s.procs[pid]) && s.procs[pid].running
    ensures var q := MoveOne(s, pid, ok, written).procs[pid];
      WellBehaved(q) && (Holder(q) ==> Holder(s.procs[pid]) || (|s.procs[pid].calls| == 1 && q.key !in s.custody))
  {
    var p := s.procs[pid];
    NextBehaves(p.key, p.calls, NextCall(s.custody, p, ok));
    if |p.calls| >= 2 { assert p.calls[1] == Ideal(p.key)[1]; }
  }

  /** A successful prefix of the ideal calls, extended by the next call. */
  lemma NextBehaves(k: Key, calls: seq<Call>, c: Call)
    requires |calls| <= 3 && calls == Ideal(k)[..|calls|] && SameCall(c, Ideal(k)[|calls|])
    ensures BoundaryTrace(calls + [c], k)
    ensures GoesOn(c) ==> |calls| <= 2 && calls + [c] == Ideal(k)[..|calls| + 1]
  {
    var n := |calls|;
    assert (calls + [c])[..n] == calls && (calls + [c])[n] == c;
    assert Ideal(k)[..n + 1] == Ideal(k)[..n] + [Ideal(k)[n]];
  }

  lemma MoveKeepsHolders(s: System, pid: nat, ok: bool, written: bool)
    requires Inv(s) && pid in s.procs && s.procs[pid].running
    ensures HoldersOk(MoveOne(s, pid, ok, written))
  {
    assert WellBehaved(s.procs[pid]);
    MoverBehaves(s, pid, ok, written);
    hide WellBehaved, LogOk, Holder, NextCall;
    HolderKept(s, pid, ok, written);
  }

  lemma HolderKept(s: System, pid: nat, ok: bool, written: bool)
    requires pid in s.procs
    ensures Holder(s.procs[pid]) ==> Holder(MoveOne(s, pid, ok, written).procs[pid])
    ensures |s.procs[pid].calls| == 1 && Holder(MoveOne(s, pid, ok, written).procs[pid]) ==>
              s.procs[pid].key in MoveOne(s, pid, ok, written).custody
  {
  }

  lemma MoveKeepsLog(s: System, pid: nat, ok: bool, written: bool)
    requires Inv(s) && pid in s.procs && s.procs[pid].running
    ensures LogOk(MoveOne(s, pid, ok, written))
  {
    assert WellBehaved(s.procs[pid]);
    HolderKept(s, pid, ok, written);
    var t, n := MoveOne(s, pid, ok, written), |s.log|;
    var p := s.procs[pid];
    assert forall i :: 0 <= i < n ==> t.log[i] == s.log[i];
    if |p.calls| == 3 { assert p.calls[1] == Ideal(p.key)[1]; }
    assert forall i :: 0 <= i < n && s.log[i].call.Executed? ==> s.log[i].pid != pid;
  }

  lemma ApplyKeepsInv(s: System, step: Step)
    requires Inv(s)
    ensures Inv(Apply(s, step))
  {
    if step.Move? && step.pid in s.procs && s.procs[step.pid].running {
      assert WellBehaved(s.procs[step.pid]);
      MoverBehaves(s, step.pid, step.ok, step.written);
      MoveKeepsHolders(s, step.pid, step.ok, step.written);
      MoveKeepsLog(s, step.pid, step.ok, step.written);
      hide WellBehaved, HoldersOk, LogOk;
    } else {
      Unmoved(s, step);
    }
  }

  lemma Unmoved(s: System, step: Step)
    requires Inv(s) && !(step.Move? && step.pid in s.procs && s.procs[step.pid].running)
    ensures Inv(Apply(s, step))
  {
    var t := Apply(s, step);
    assert t.log == s.log && t.custody == s.custody;
    forall p | p in t.procs ensures WellBehaved(t.procs[p]) {
      if p in s.procs { assert WellBehaved(s.procs[p]); }
    }
    assert forall p :: p in t.procs && Holder(t.procs[p]) ==>
      p in s.procs && Holder(s.procs[p]) && s.procs[p].key == t.procs[p].key;
  }

  lemma {:induction false} RunKeepsInv(s: System, steps: seq<Step>)
    requires Inv(s)
    ensures Inv(Run(s, steps))
    decreases |steps|
  {
    hide Inv;
    if steps != [] {
      ApplyKeepsInv(s, steps[0]);
      RunKeepsInv(Apply(s, steps[0]), steps[1..]);
    }
  }

  ghost predicate CallsAgree(s: System) {
    forall p :: CallsOf(s.log, p) == if p in s.procs then s.procs[p].calls else []
  }

  lemma {:induction false} RunKeepsCalls(s: System, steps: seq<Step>)
    requires CallsAgree(s)
    ensures CallsAgree(Run(s, steps))
    decreases |steps|
  {
    hide CallsAgree;
    if steps != [] {
      ApplyKeepsCalls(s, steps[0]);
      RunKeepsCalls(Apply(s, steps[0]), steps[1..]);
    }
  }

  lemma ApplyKeepsCalls(s: System, step: Step)
    requires CallsAgree(s)
    ensures CallsAgree(Apply(s, step))
  {
    var t := Apply(s, step);
    forall p ensures CallsOf(t.log, p) == if p in t.procs then t.procs[p].calls else [] {
      if |t.log| == |s.log| + 1 { assert t.log[..|t.log| - 1] == s.log; }
    }
  }

  /******* Main results *******/

  /** Over every interleaving, with any number of processes, keys, failures and stops, no key
      is executed twice: create-once custody is all that is needed. */
  lemma ConcurrentRunsExecuteOnce(steps: seq<Step>)
    ensures var log := Run(INITIAL, steps).log;
      forall i, j :: 0 <= i < |log| && 0 <= j < |log| && log[i].call.Executed? && log[j].call == log[i].call ==> i == j
  {
    RunKeepsInv(INITIAL, steps);
    hide WellBehaved;
  }

  /** The calls of every process are those of one `Dispatch`: a prefix of check, retain,
      check, effect in which every call but the last succeeded. */
  lemma EachRunIsADispatch(steps: seq<Step>, pid: nat)
    ensures var t := Run(INITIAL, steps);
      pid in t.procs ==> BoundaryTrace(CallsOf(t.log, pid), t.procs[pid].key)
  {
    RunKeepsInv(INITIAL, steps);
    RunKeepsCalls(INITIAL, steps);
    hide HoldersOk, LogOk, BoundaryTrace;
  }

  /** An executed key is in the custody store. */
  lemma ExecutedIsRetained(steps: seq<Step>)
    ensures var t := Run(INITIAL, steps);
      forall i :: 0 <= i < |t.log| && t.log[i].call.Executed? ==> t.log[i].call.key in t.custody
  {
    RunKeepsInv(INITIAL, steps);
    hide WellBehaved;
  }

  function EventsOf(pid: nat, t: seq<Call>): (es: seq<Event>)
    ensures |es| == |t| && forall i :: 0 <= i < |t| ==> es[i] == Event(pid, t[i])
  {
    seq(|t|, i requires 0 <= i < |t| => Event(pid, t[i]))
  }

  /** From `s` to `u` the process has made exactly the calls `t`. */
  predicate Made(s: System, u: System, pid: nat, k: Key, t: seq<Call>) {
    u.log == s.log + EventsOf(pid, t) && u.custody == (if RetainedIn(t) then s.custody + {k} else s.custody) &&
    pid in u.procs && u.procs[pid] == Proc(k, t, t == [] || GoesOn(t[|t| - 1]))
  }

  /** Conversely every trace that one `Dispatch` can make on the store as it is, as
      `BoundaryRuntime.Adapter.Dispatch` promises it, is a process of the protocol. */
  lemma {:induction false} EachDispatchIsARun(s: System, pid: nat, k: Key, t: seq<Call>) returns (steps: seq<Step>)
    requires pid !in s.procs && BoundaryTrace(t, k) && (RetainedIn(t) ==> k !in s.custody)
    ensures Made(s, Run(s, steps), pid, k, t)
    decreases |t|
  {
    if t == [] {
      steps := [Spawn(pid, k)];
      assert Run(s, steps) == Run(Apply(s, steps[0]), steps[1..]) == Apply(s, steps[0]);
      assert s.log + EventsOf(pid, t) == s.log;
    } else {
      hide Made, BoundaryTrace, RetainedIn, Apply;
      var n := |t| - 1;
      TracePrefix(t, k);
      steps := EachDispatchIsARun(s, pid, k, t[..n]);
      var move := Move(pid, t[n] != Checked(false) && t[n] != Retained(false), false);
      RunSnoc(s, steps, move);
      NextMade(s, Run(s, steps), pid, k, t);
      steps := steps + [move];
    }
  }

  lemma TracePrefix(t: seq<Call>, k: Key)
    requires t != [] && BoundaryTrace(t, k)
    ensures var before := t[..|t| - 1]; BoundaryTrace(before, k) && (RetainedIn(before) ==> RetainedIn(t))
  {
    var n := |t| - 1;
    assert forall i :: 0 <= i < n ==> t[i] == t[..n][i] == Ideal(k)[..n][i] == Ideal(k)[i];
    assert n > 0 ==> t[..n][..n - 1] == Ideal(k)[..n - 1];
  }

  lemma NextMade(s: System, u: System, pid: nat, k: Key, t: seq<Call>)
    requires t != [] && BoundaryTrace(t, k) && (RetainedIn(t) ==> k !in s.custody)
    requires Made(s, u, pid, k, t[..|t| - 1])
    ensures Made(s, Apply(u, Move(pid, t[|t| - 1] != Checked(false) && t[|t| - 1] != Retained(false), false)), pid, k, t)
  {
    var n := |t| - 1;
    var before, last := t[..n], t[n];
    assert n > 0 ==> before[n - 1] == Ideal(k)[..n][n - 1] == Ideal(k)[n - 1];
    assert n > 1 ==> before[1] == Ideal(k)[..n][1] == Ideal(k)[1];
    assert before + [last] == t;
    assert EventsOf(pid, before) + [Event(pid, last)] == EventsOf(pid, t);
    assert SameCall(last, Ideal(k)[n]);
    var p := u.procs[pid];
    assert NextCall(u.custody, p, last != Checked(false) && last != Retained(false)) == last;
  }

  lemma {:induction false} RunSnoc(s: System, steps: seq<Step>, step: Step)
    ensures Run(s, steps + [step]) == Apply(Run(s, steps), step)
    decreases |steps|
  {
    if steps == [] {
      assert steps + [step] == [step] && [step][1..] == [];
    } else {
      assert (steps + [step])[1..] == steps[1..] + [step];
      RunSnoc(Apply(s, steps[0]), steps[1..], step);
    }
  }
}
