/** One performance stream (`assessPerformanceStream`,
    internal/computesettlement/performance.go). */
module Performance {
  import opened Text
  import opened Framing
  import opened Streams

  datatype Sample = Sample(span: Interval, metric: string, unit: string, value: uint64)

  datatype Envelope = Envelope(metric: string, unit: string, minimum: uint64, maxGap: duration, maxBelow: duration)

  datatype Assessment = Assessment(minimum: uint64, below: duration, start: int, end: int, count: nat, compliant: bool)

  /** Wrap-around of Go's signed 64-bit integers. */
  function WrapInt64(x: int): duration { (x - MIN_INT64) % (MAX_UINT64 + 1) + MIN_INT64 }

  function AddDuration(a: duration, b: duration): duration { WrapInt64(a + b) }

  lemma WrapAdd(x: int, b: int)
    ensures WrapInt64(WrapInt64(x) + b) == WrapInt64(x + b)
  {
    var k := (x - MIN_INT64) / (MAX_UINT64 + 1);
    assert WrapInt64(x) == x - k * (MAX_UINT64 + 1);
  }

  function Spans(ss: seq<Sample>): (xs: seq<Interval>)
    ensures |xs| == |ss| && forall i :: 0 <= i < |ss| ==> xs[i] == ss[i].span
  {
    seq(|ss|, i requires 0 <= i < |ss| => ss[i].span)
  }

  predicate SampleLinked(w: Window, env: Envelope, ss: seq<Sample>, i: nat)
    requires i < |ss|
  {
    Linked(w, Spans(ss), i) && Trim(ss[i].metric) == env.metric && Trim(ss[i].unit) == env.unit
  }

  predicate Accepts(w: Window, env: Envelope, ss: seq<Sample>) {
    ss != [] && (forall i :: 0 <= i < |ss| ==> SampleLinked(w, env, ss, i)) &&
    GapOk(w, ss[|ss| - 1].span.end, w.finished)
  }

  predicate SampleBefore(a: Sample, b: Sample) { Before(a.span, b.span) }

  lemma AcceptsCovers(w: Window, env: Envelope, ss: seq<Sample>)
    requires Accepts(w, env, ss)
    ensures Covers(w, Spans(ss)) && Increasing(SampleBefore, ss)
  {
    hide Trim;
    forall i | 0 <= i < |ss| ensures Linked(w, Spans(ss), i) { assert SampleLinked(w, env, ss, i); }
    CoversIncreases(w, Spans(ss));
    forall i, j | 0 <= i < j < |ss| ensures SampleBefore(ss[i], ss[j]) {
      assert Before(Spans(ss)[i], Spans(ss)[j]);
    }
  }

  lemma AcceptableOrderUnique(w: Window, env: Envelope, a: seq<Sample>, b: seq<Sample>)
    requires Accepts(w, env, a) && Sorted(SampleBefore, b) && multiset(a) == multiset(b)
    ensures a == b
  {
    AcceptsCovers(w, env, a);
    SortedUnique(SampleBefore, a, b);
  }

  ghost predicate Acceptable(w: Window, env: Envelope, samples: seq<Sample>) {
    exists order :: Ordering(w, env, samples, order)
  }

  ghost predicate Ordering(w: Window, env: Envelope, samples: seq<Sample>, order: seq<Sample>) {
    multiset(order) == multiset(samples) && Accepts(w, env, order)
  }

  /******* Totals *******/

  /** The true time spent below the contracted floor. */
  function BelowTime(env: Envelope, ss: seq<Sample>): int {
    if ss == [] then 0
    else
      var s := ss[|ss| - 1];
      BelowTime(env, ss[..|ss| - 1]) + (if s.value < env.minimum then s.span.end - s.span.start else 0)
  }

  /** The sum of the durations as the code adds them, each one saturated. */
  function BelowSum(env: Envelope, ss: seq<Sample>): int {
    if ss == [] then 0
    else
      var s := ss[|ss| - 1];
      BelowSum(env, ss[..|ss| - 1]) + (if s.value < env.minimum then Sub(s.span.end, s.span.start) else 0)
  }

  function MinimumOf(ss: seq<Sample>): (m: uint64)
    ensures forall i :: 0 <= i < |ss| ==> m <= ss[i].value
    ensures ss != [] ==> exists i :: 0 <= i < |ss| && m == ss[i].value
  {
    if ss == [] then MAX_UINT64
    else
      var n := |ss| - 1;
      var m := MinimumOf(ss[..n]);
      assert forall i :: 0 <= i < n ==> ss[..n][i] == ss[i];
      if ss[n].value < m then ss[n].value else if n == 0 then ss[n].value else m
  }

  function AssessmentOf(env: Envelope, ss: seq<Sample>): Assessment
    requires ss != []
  {
    var below := WrapInt64(BelowSum(env, ss));
    Assessment(MinimumOf(ss), below, ss[0].span.start, ss[|ss| - 1].span.end, |ss|, below <= env.maxBelow)
  }

  /** `assessPerformanceStream`; its verdict and totals do not depend on the order in
      which the samples arrive. */
  method AssessPerformanceStream(w: Window, env: Envelope, samples: seq<Sample>) returns (a: Option<Assessment>)
    ensures a.Some? <==> Acceptable(w, env, samples)
    ensures forall order: seq<Sample> :: Ordering(w, env, samples, order) ==> order != [] && a == Some(AssessmentOf(env, order))
  {
    if samples == [] {
      EmptyUnacceptable(w, env);
      return None;
    }
    SampleOrder();
    var ss := SortBy(SampleBefore, samples);
    assert |ss| == |multiset(ss)| == |samples|;
    a := AssessSorted(w, env, ss);
    forall order: seq<Sample> | Ordering(w, env, samples, order) ensures order == ss {
      AcceptableOrderUnique(w, env, order, ss);
    }
    if a.Some? { assert Ordering(w, env, samples, ss); }
  }

  lemma EmptyUnacceptable(w: Window, env: Envelope)
    ensures !Acceptable(w, env, [])
  {
    forall order: seq<Sample> ensures !Ordering(w, env, [], order) {
      assert |multiset(order)| == |order|;
    }
  }

  lemma SampleOrder()
    ensures Irreflexive(SampleBefore) && Transitive(SampleBefore)
  {
  }

  method AssessSorted(w: Window, env: Envelope, ss: seq<Sample>) returns (a: Option<Assessment>)
    requires ss != []
    ensures a.Some? <==> Accepts(w, env, ss)
    ensures a.Some? ==> a == Some(AssessmentOf(env, ss))
  {
    hide BelowSum, MinimumOf, WrapInt64, Trim;
    TotalsEmpty(env);
    assert ss[..0] == [];
    var previousSequence: uint64, previousEnd, below: duration, minimum: uint64 := 0, 0, 0, MAX_UINT64;
    for i := 0 to |ss|
      invariant forall j :: 0 <= j < i ==> SampleLinked(w, env, ss, j)
      invariant i > 0 ==> previousSequence == ss[i - 1].span.sequence && previousEnd == ss[i - 1].span.end
      invariant below == WrapInt64(BelowSum(env, ss[..i])) && minimum == MinimumOf(ss[..i])
    {
      var s := ss[i];
      var ok := CheckSample(w, env, s, i == 0, previousSequence, previousEnd);
      assert ok <==> SampleLinked(w, env, ss, i);
      if !ok { return None; }
      TotalsNext(env, ss, i);
      if s.value < minimum { minimum := s.value; }
      if s.value < env.minimum { below := AddDuration(below, Sub(s.span.end, s.span.start)); }
      previousSequence, previousEnd := s.span.sequence, s.span.end;
    }
    assert ss[..|ss|] == ss;
    if previousEnd < w.finished && Sub(w.finished, previousEnd) > w.maxGap { return None; }
    a := Some(Assessment(minimum, below, ss[0].span.start, previousEnd, |ss|, below <= env.maxBelow));
  }

  lemma TotalsEmpty(env: Envelope)
    ensures WrapInt64(BelowSum(env, [])) == 0 && MinimumOf([]) == MAX_UINT64
  {
  }

  lemma TotalsNext(env: Envelope, ss: seq<Sample>, i: nat)
    requires i < |ss|
    ensures MinimumOf(ss[..i + 1]) == if ss[i].value < MinimumOf(ss[..i]) then ss[i].value else MinimumOf(ss[..i])
    ensures WrapInt64(BelowSum(env, ss[..i + 1]))
         == if ss[i].value < env.minimum then AddDuration(WrapInt64(BelowSum(env, ss[..i])), Sub(ss[i].span.end, ss[i].span.start))
            else WrapInt64(BelowSum(env, ss[..i]))
  {
    assert ss[..i + 1][..i] == ss[..i];
    WrapAdd(BelowSum(env, ss[..i]), Sub(ss[i].span.end, ss[i].span.start));
    hide WrapInt64;
  }

  method CheckSample(w: Window, env: Envelope, s: Sample, first: bool, previousSequence: uint64, previousEnd: int) returns (ok: bool)
    ensures ok <==>
      Whole(w, s.span) && Trim(s.metric) == env.metric && Trim(s.unit) == env.unit &&
      if first then GapOk(w, w.started, s.span.start)
      else previousSequence < s.span.sequence && s.span.sequence == Successor(previousSequence) &&
           previousEnd <= s.span.start && GapOk(w, previousEnd, s.span.start)
  {
    var x := s.span;
    if x.sequence == 0 || x.start == ZERO_TIME || x.end == ZERO_TIME || x.start >= x.end { return false; }
    if Trim(s.metric) != env.metric || Trim(s.unit) != env.unit { return false; }
    if x.start < w.leaseStart || x.end > w.leaseEnd { return false; }
    if x.start < w.started || x.end > w.finished { return false; }
    if first {
      if x.start > w.started && Sub(x.start, w.started) > w.maxGap { return false; }
    } else {
      if x.sequence <= previousSequence { return false; }
      if x.sequence != Successor(previousSequence) { return false; }
      if x.start < previousEnd { return false; }
      if x.start > previousEnd && Sub(x.start, previousEnd) > w.maxGap { return false; }
    }
    ok := true;
  }

  /******* What the below-floor time means *******/

  predicate Proper(ss: seq<Sample>) {
    forall i :: 0 <= i < |ss| ==> ss[i].span.start < ss[i].span.end
  }

  lemma {:induction false} SumAndTime(env: Envelope, ss: seq<Sample>)
    requires Proper(ss)
    ensures 0 <= BelowSum(env, ss) <= BelowTime(env, ss)
    ensures BelowTime(env, ss) <= MAX_INT64 ==> BelowSum(env, ss) == BelowTime(env, ss)
  {
    if ss != [] { SumAndTime(env, ss[..|ss| - 1]); }
  }

  /** The reported below-floor time is the true one exactly when the true one is
      representable as a duration. */
  lemma BelowIsTrueTime(w: Window, env: Envelope, ss: seq<Sample>)
    requires Accepts(w, env, ss)
    ensures AssessmentOf(env, ss).below == BelowTime(env, ss) <==> BelowTime(env, ss) <= MAX_INT64
  {
    hide Trim;
    forall i | 0 <= i < |ss| ensures ss[i].span.start < ss[i].span.end { assert SampleLinked(w, env, ss, i); }
    SumAndTime(env, ss);
  }

  lemma {:induction false} BelowWithinCovered(w: Window, env: Envelope, ss: seq<Sample>, n: nat)
    requires n <= |ss| && Proper(ss)
    ensures BelowTime(env, ss[..n]) <= Covered(Spans(ss)[..n])
    decreases n
  {
    if n > 0 {
      BelowWithinCovered(w, env, ss, n - 1);
      assert ss[..n][..n - 1] == ss[..n - 1] && Spans(ss)[..n][..n - 1] == Spans(ss)[..n - 1];
    }
  }

  /** For every execution shorter than the largest duration (some 292 years) the
      compliance verdict is about the true time below the floor. */
  lemma ComplianceMeaning(w: Window, env: Envelope, ss: seq<Sample>)
    requires Accepts(w, env, ss) && w.finished - w.started <= MAX_INT64
    ensures AssessmentOf(env, ss).below == BelowTime(env, ss) <= w.finished - w.started
    ensures AssessmentOf(env, ss).compliant <==> BelowTime(env, ss) <= env.maxBelow
  {
    hide Trim;
    BelowIsTrueTime(w, env, ss);
    AcceptsCovers(w, env, ss);
    CoveredWithin(w, Spans(ss));
    forall i | 0 <= i < |ss| ensures ss[i].span.start < ss[i].span.end { assert SampleLinked(w, env, ss, i); }
    BelowWithinCovered(w, env, ss, |ss|);
    assert ss[..|ss|] == ss && Spans(ss)[..|ss|] == Spans(ss);
  }

  /** The largest duration and one nanosecond more below the floor, and the rest at it. */
  function Overflowing(w: Window, env: Envelope): seq<Sample> {
    var one, two := w.started + MAX_INT64, w.started + MAX_INT64 + 1;
    var low := [Sample(Interval(1, w.started, one), env.metric, env.unit, 0), Sample(Interval(2, one, two), env.metric, env.unit, 0)];
    if two < w.finished then low + [Sample(Interval(3, two, w.finished), env.metric, env.unit, env.minimum)] else low
  }

  lemma OverflowingTime(w: Window, env: Envelope)
    requires env.minimum > 0
    ensures BelowTime(env, Overflowing(w, env)) == BelowSum(env, Overflowing(w, env)) == MAX_INT64 + 1
  {
    var ss := Overflowing(w, env);
    var low := ss[..2];
    assert low[..1] == [ss[0]] && low[..1][..0] == [];
    assert BelowSum(env, low[..1]) == MAX_INT64 && BelowTime(env, low[..1]) == MAX_INT64;
    assert BelowSum(env, low) == MAX_INT64 + 1 && BelowTime(env, low) == MAX_INT64 + 1;
    if |ss| == 2 { assert ss == low; }
  }

  lemma OverflowingAccepted(w: Window, env: Envelope)
    requires w.leaseStart <= w.started && w.finished <= w.leaseEnd && ZERO_TIME < w.started
    requires w.finished - w.started > MAX_INT64 && Trim(env.metric) == env.metric && Trim(env.unit) == env.unit
    ensures Accepts(w, env, Overflowing(w, env))
  {
    hide Trim;
    var ss := Overflowing(w, env);
    forall i | 0 <= i < |ss| ensures SampleLinked(w, env, ss, i) { }
  }

  /** Beyond that the sum wraps around: a stream that is below the floor throughout
      can count as compliant. */
  lemma OverflowLooksCompliant() returns (w: Window, env: Envelope, ss: seq<Sample>)
    ensures Accepts(w, env, ss) && env.maxBelow == 0
    ensures BelowTime(env, ss) == w.finished - w.started > 0
    ensures AssessmentOf(env, ss).compliant
  {
    w := Window(1, 2 + MAX_INT64, 1, 2 + MAX_INT64, 0);
    env := Envelope("m", "u", 1, 0, 0);
    ss := Overflowing(w, env);
    assert Trim("m") == "m" && Trim("u") == "u";
    hide Trim, Accepts, BelowTime, BelowSum, Overflowing;
    OverflowingTime(w, env);
    OverflowingAccepted(w, env);
  }

  /** For an execution inside its lease and a meaningful envelope, the compliance verdict is
      about the true time below the floor, whatever the samples, exactly when the execution is
      no longer than the largest duration. */
  lemma ComplianceExact(w: Window, env: Envelope)
    requires w.leaseStart <= w.started && w.finished <= w.leaseEnd && ZERO_TIME < w.started
    requires env.minimum > 0 && env.maxBelow >= 0 && Trim(env.metric) == env.metric && Trim(env.unit) == env.unit
    ensures (forall ss :: Accepts(w, env, ss) ==> (AssessmentOf(env, ss).compliant <==> BelowTime(env, ss) <= env.maxBelow))
       <==> w.finished - w.started <= MAX_INT64
  {
    hide Trim;
    if w.finished - w.started <= MAX_INT64 {
      forall ss | Accepts(w, env, ss) ensures AssessmentOf(env, ss).compliant <==> BelowTime(env, ss) <= env.maxBelow {
        ComplianceMeaning(w, env, ss);
      }
    } else {
      OverflowingTime(w, env);
      OverflowingAccepted(w, env);
      hide Accepts;
      assert AssessmentOf(env, Overflowing(w, env)).compliant;
    }
  }
}
