/** One metering stream (`assessMeterStream`, internal/computesettlement/metering.go). */
module Metering {
  import opened Text
  import opened Framing
  import opened Streams

  const MAX_UINT32: nat := 0xFFFF_FFFF

  type uint32 = n: nat | n <= MAX_UINT32

  datatype Slice = Slice(span: Interval, gpus: uint32, counterStart: uint64, counterEnd: uint64)

  datatype Requirement = Requirement(expected: uint64, requiredGpus: uint32)

  datatype Assessment = Assessment(delivered: uint64, start: int, end: int, count: nat)

  /** Addition of Go's unsigned 64-bit integers. */
  function AddUint64(a: uint64, b: uint64): uint64 { (a + b) % (MAX_UINT64 + 1) }

  function Seconds(x: Interval): nat
    requires x.start < x.end
  {
    Sub(x.end, x.start) / SECOND
  }

  /** GPU-seconds of a slice, without the wrap-around of line 253. */
  function Work(s: Slice): nat
    requires s.span.start < s.span.end
  {
    Seconds(s.span) * s.gpus
  }

  /** What a single slice must satisfy, besides its interval. */
  predicate Measured(q: Requirement, s: Slice)
    requires s.span.start < s.span.end
  {
    0 < s.gpus <= q.requiredGpus && Sub(s.span.end, s.span.start) % SECOND == 0 &&
    s.counterStart <= s.counterEnd && s.counterEnd - s.counterStart == Work(s) % (MAX_UINT64 + 1)
  }

  function Spans(ss: seq<Slice>): (xs: seq<Interval>)
    ensures |xs| == |ss| && forall i :: 0 <= i < |ss| ==> xs[i] == ss[i].span
  {
    seq(|ss|, i requires 0 <= i < |ss| => ss[i].span)
  }

  predicate SliceLinked(w: Window, q: Requirement, ss: seq<Slice>, i: nat)
    requires i < |ss|
  {
    Linked(w, Spans(ss), i) && Measured(q, ss[i]) && (i > 0 ==> ss[i].counterStart == ss[i - 1].counterEnd)
  }

  /** A stream whose slices, in this order, pass every check. */
  predicate Accepts(w: Window, q: Requirement, ss: seq<Slice>) {
    ss != [] && (forall i :: 0 <= i < |ss| ==> SliceLinked(w, q, ss, i)) &&
    GapOk(w, ss[|ss| - 1].span.end, w.finished)
  }

  predicate SliceBefore(a: Slice, b: Slice) { Before(a.span, b.span) }

  lemma AcceptsCovers(w: Window, q: Requirement, ss: seq<Slice>)
    requires Accepts(w, q, ss)
    ensures Covers(w, Spans(ss)) && Increasing(SliceBefore, ss)
  {
    forall i | 0 <= i < |ss| ensures Linked(w, Spans(ss), i) { assert SliceLinked(w, q, ss, i); }
    CoversIncreases(w, Spans(ss));
    forall i, j | 0 <= i < j < |ss| ensures SliceBefore(ss[i], ss[j]) {
      assert Before(Spans(ss)[i], Spans(ss)[j]);
    }
  }

  /** A stream has at most one acceptable order, and every sort finds it. */
  lemma AcceptableOrderUnique(w: Window, q: Requirement, a: seq<Slice>, b: seq<Slice>)
    requires Accepts(w, q, a) && Sorted(SliceBefore, b) && multiset(a) == multiset(b)
    ensures a == b
  {
    AcceptsCovers(w, q, a);
    SortedUnique(SliceBefore, a, b);
  }

  ghost predicate Acceptable(w: Window, q: Requirement, slices: seq<Slice>) {
    exists order :: Ordering(w, q, slices, order)
  }

  ghost predicate Ordering(w: Window, q: Requirement, slices: seq<Slice>, order: seq<Slice>) {
    multiset(order) == multiset(slices) && Accepts(w, q, order)
  }

  /** What an accepted stream is assessed at: its counters telescope. */
  function AssessmentOf(ss: seq<Slice>): Assessment
    requires ss != [] && ss[0].counterStart <= ss[|ss| - 1].counterEnd
  {
    Assessment(ss[|ss| - 1].counterEnd - ss[0].counterStart, ss[0].span.start, ss[|ss| - 1].span.end, |ss|)
  }

  lemma {:induction false} CountersRise(w: Window, q: Requirement, ss: seq<Slice>, n: nat)
    requires n < |ss| && forall i :: 0 <= i <= n ==> SliceLinked(w, q, ss, i)
    ensures ss[0].counterStart <= ss[n].counterStart <= ss[n].counterEnd
    decreases n
  {
    assert SliceLinked(w, q, ss, n);
    if n > 0 { CountersRise(w, q, ss, n - 1); }
  }

  /** `assessMeterStream`: it depends only on which slices the stream holds, not on
      their order, although the sort it uses is not stable. */
  method AssessMeterStream(w: Window, q: Requirement, slices: seq<Slice>) returns (a: Option<Assessment>)
    ensures a.Some? <==> Acceptable(w, q, slices)
    ensures forall order: seq<Slice> :: Ordering(w, q, slices, order) ==>
              order[0].counterStart <= order[|order| - 1].counterEnd && a == Some(AssessmentOf(order))
  {
    if slices == [] {
      EmptyUnacceptable(w, q);
      return None;
    }
    SliceOrder();
    var ss := SortBy(SliceBefore, slices);
    assert |ss| == |multiset(ss)| == |slices|;
    a := AssessSorted(w, q, ss);
    forall order: seq<Slice> | Ordering(w, q, slices, order) ensures order == ss {
      AcceptableOrderUnique(w, q, order, ss);
    }
    if a.Some? { assert Ordering(w, q, slices, ss); }
  }

  lemma EmptyUnacceptable(w: Window, q: Requirement)
    ensures !Acceptable(w, q, [])
  {
    forall order: seq<Slice> ensures !Ordering(w, q, [], order) {
      assert |multiset(order)| == |order|;
    }
  }

  lemma SliceOrder()
    ensures Irreflexive(SliceBefore) && Transitive(SliceBefore)
  {
  }

  /** The loop over the sorted copy. */
  method AssessSorted(w: Window, q: Requirement, ss: seq<Slice>) returns (a: Option<Assessment>)
    requires ss != []
    ensures a.Some? <==> Accepts(w, q, ss)
    ensures a.Some? ==> ss[0].counterStart <= ss[|ss| - 1].counterEnd && a == Some(AssessmentOf(ss))
  {
    var delivered: uint64, previousSequence: uint64, previousEnd, previousCounter: uint64 := 0, 0, 0, 0;
    for i := 0 to |ss|
      invariant forall j :: 0 <= j < i ==> SliceLinked(w, q, ss, j)
      invariant i > 0 ==> previousSequence == ss[i - 1].span.sequence && previousEnd == ss[i - 1].span.end &&
                          previousCounter == ss[i - 1].counterEnd
      invariant i == 0 ==> delivered == 0
      invariant i > 0 ==> ss[0].counterStart <= ss[i - 1].counterEnd && delivered == ss[i - 1].counterEnd - ss[0].counterStart
    {
      var s := ss[i];
      var ok := CheckSlice(w, q, s, i == 0, previousSequence, previousEnd, previousCounter);
      assert ok <==> SliceLinked(w, q, ss, i);
      if !ok { return None; }
      delivered := AddUint64(delivered, s.counterEnd - s.counterStart);
      previousSequence, previousEnd, previousCounter := s.span.sequence, s.span.end, s.counterEnd;
    }
    if previousEnd < w.finished && Sub(w.finished, previousEnd) > w.maxGap { return None; }
    a := Some(Assessment(delivered, ss[0].span.start, previousEnd, |ss|));
  }

  /** The checks of one slice against the variables the loop carries. */
  method CheckSlice(w: Window, q: Requirement, s: Slice, first: bool, previousSequence: uint64, previousEnd: int, previousCounter: uint64)
    returns (ok: bool)
    ensures ok <==>
      Whole(w, s.span) && Measured(q, s) &&
      if first then GapOk(w, w.started, s.span.start)
      else previousSequence < s.span.sequence && s.span.sequence == Successor(previousSequence) &&
           previousEnd <= s.span.start && GapOk(w, previousEnd, s.span.start) && s.counterStart == previousCounter
  {
    var x := s.span;
    if x.sequence == 0 || x.start == ZERO_TIME || x.end == ZERO_TIME || x.start >= x.end || s.gpus == 0 { return false; }
    if s.gpus > q.requiredGpus { return false; }
    if x.start < w.leaseStart || x.end > w.leaseEnd { return false; }
    if x.start < w.started || x.end > w.finished { return false; }
    if first {
      if x.start > w.started && Sub(x.start, w.started) > w.maxGap { return false; }
    } else {
      if x.sequence <= previousSequence { return false; }
      if x.sequence != Successor(previousSequence) { return false; }
      if x.start < previousEnd { return false; }
      if x.start > previousEnd && Sub(x.start, previousEnd) > w.maxGap { return false; }
      if s.counterStart < previousCounter { return false; }
      if s.counterStart != previousCounter { return false; }
    }
    var elapsed := Sub(x.end, x.start);
    if elapsed % SECOND != 0 { return false; }
    var expected := (elapsed / SECOND * s.gpus) % (MAX_UINT64 + 1);
    if s.counterEnd < s.counterStart { return false; }
    ok := s.counterEnd - s.counterStart == expected;
  }

  /******* What the accepted total means *******/

  predicate Proper(ss: seq<Slice>) {
    forall i :: 0 <= i < |ss| ==> ss[i].span.start < ss[i].span.end
  }

  /** The total work of a stream as the plain sum over its slices. */
  function TotalWork(ss: seq<Slice>): nat
    requires Proper(ss)
  {
    if ss == [] then 0 else TotalWork(ss[..|ss| - 1]) + Work(ss[|ss| - 1])
  }

  /** No product of seconds and GPUs wraps around. */
  predicate NoWrap(ss: seq<Slice>) {
    forall i :: 0 <= i < |ss| ==> ss[i].span.start < ss[i].span.end && Work(ss[i]) <= MAX_UINT64
  }

  lemma {:induction false} PrefixTotal(w: Window, q: Requirement, ss: seq<Slice>, n: nat)
    requires n < |ss| && forall i :: 0 <= i < |ss| ==> SliceLinked(w, q, ss, i)
    ensures Proper(ss[..n + 1])
    ensures var delivered := ss[n].counterEnd - ss[0].counterStart;
      delivered <= TotalWork(ss[..n + 1]) && (delivered == TotalWork(ss[..n + 1]) <==> NoWrap(ss[..n + 1]))
    decreases n
  {
    var shorter, longer := ss[..n], ss[..n + 1];
    assert longer[..n] == shorter && longer[n] == ss[n];
    forall i | 0 <= i < |longer| ensures longer[i].span.start < longer[i].span.end { assert SliceLinked(w, q, ss, i); }
    assert SliceLinked(w, q, ss, n);
    ModBelow(Work(ss[n]));
    if n > 0 {
      PrefixTotal(w, q, ss, n - 1);
      NoWrapNext(shorter, ss[n]);
      assert longer == shorter + [ss[n]];
    } else {
      assert shorter == [];
    }
  }

  lemma ModBelow(x: nat)
    ensures x % (MAX_UINT64 + 1) <= x && (x % (MAX_UINT64 + 1) == x <==> x <= MAX_UINT64)
  {
  }

  lemma NoWrapNext(ss: seq<Slice>, s: Slice)
    requires s.span.start < s.span.end
    ensures NoWrap(ss + [s]) <==> NoWrap(ss) && Work(s) <= MAX_UINT64
  {
    var longer := ss + [s];
    assert longer[|ss|] == s && forall i :: 0 <= i < |ss| ==> longer[i] == ss[i];
  }

  /** The accepted total never exceeds the sum of seconds times GPUs, and equals it
      exactly when no product wraps around 2^64. */
  lemma DeliveredIsWork(w: Window, q: Requirement, ss: seq<Slice>)
    requires Accepts(w, q, ss)
    ensures ss[0].counterStart <= ss[|ss| - 1].counterEnd
    ensures Proper(ss)
    ensures AssessmentOf(ss).delivered <= TotalWork(ss)
    ensures AssessmentOf(ss).delivered == TotalWork(ss) <==> NoWrap(ss)
  {
    var n := |ss| - 1;
    CountersRise(w, q, ss, n);
    PrefixTotal(w, q, ss, n);
    assert ss[..n + 1] == ss;
  }

  lemma WorkBounded(w: Window, q: Requirement, s: Slice)
    requires Whole(w, s.span) && Measured(q, s)
    ensures Work(s) * SECOND <= q.requiredGpus * (s.span.end - s.span.start)
  {
    var d := Sub(s.span.end, s.span.start);
    var sec := Seconds(s.span);
    assert sec * SECOND == d && d <= s.span.end - s.span.start;
    MulMono(s.gpus, q.requiredGpus, d);
    MulMono(d, s.span.end - s.span.start, q.requiredGpus);
    calc {
      Work(s) * SECOND;
      sec * s.gpus * SECOND;
      s.gpus * (sec * SECOND);
    }
  }

  lemma MulMono(a: nat, b: nat, c: nat)
    requires a <= b
    ensures a * c <= b * c
  {
  }

  lemma {:induction false} TotalWorkBounded(w: Window, q: Requirement, ss: seq<Slice>, n: nat)
    requires n <= |ss| && forall i :: 0 <= i < |ss| ==> SliceLinked(w, q, ss, i)
    ensures Proper(ss[..n])
    ensures TotalWork(ss[..n]) * SECOND <= q.requiredGpus * Covered(Spans(ss)[..n])
    decreases n
  {
    forall i | 0 <= i < |ss| ensures ss[i].span.start < ss[i].span.end { assert SliceLinked(w, q, ss, i); }
    if n > 0 {
      hide Work, Measured, Covered, TotalWork;
      var xs := Spans(ss);
      TotalWorkBounded(w, q, ss, n - 1);
      assert SliceLinked(w, q, ss, n - 1);
      WorkBounded(w, q, ss[n - 1]);
      WorkNext(ss, n - 1);
      CoveredNext(xs, n - 1);
      Distribute(q.requiredGpus, Covered(xs[..n - 1]), xs[n - 1].end - xs[n - 1].start);
      Distribute(SECOND, TotalWork(ss[..n - 1]), Work(ss[n - 1]));
    }
  }

  lemma WorkNext(ss: seq<Slice>, n: nat)
    requires n < |ss| && Proper(ss)
    ensures TotalWork(ss[..n + 1]) == TotalWork(ss[..n]) + Work(ss[n])
  {
    assert ss[..n + 1][..n] == ss[..n];
  }

  lemma CoveredNext(xs: seq<Interval>, n: nat)
    requires n < |xs|
    ensures Covered(xs[..n + 1]) == Covered(xs[..n]) + (xs[n].end - xs[n].start)
  {
    assert xs[..n + 1][..n] == xs[..n];
  }

  lemma Distribute(a: int, b: int, c: int)
    ensures a * (b + c) == a * b + a * c
  {
  }

  /** The accepted total is at most the contracted GPUs times the execution time. */
  lemma DeliveredBounded(w: Window, q: Requirement, ss: seq<Slice>)
    requires Accepts(w, q, ss)
    ensures ss[0].counterStart <= ss[|ss| - 1].counterEnd
    ensures AssessmentOf(ss).delivered * SECOND <= q.requiredGpus * (w.finished - w.started)
  {
    DeliveredIsWork(w, q, ss);
    AcceptsCovers(w, q, ss);
    CoveredWithin(w, Spans(ss));
    TotalWorkBounded(w, q, ss, |ss|);
    assert ss[..|ss|] == ss && Spans(ss)[..|ss|] == Spans(ss);
    ScaleLe(q.requiredGpus, Covered(Spans(ss)), w.finished - w.started);
  }

  lemma ScaleLe(a: nat, b: int, c: int)
    requires b <= c
    ensures a * b <= a * c
  {
  }

  /** The slices leave at most one tolerated gap per boundary uncovered. */
  lemma AcceptedCoverage(w: Window, q: Requirement, ss: seq<Slice>)
    requires Accepts(w, q, ss) && GapsMeasured(w, |ss|)
    ensures 0 <= w.finished - w.started - Covered(Spans(ss)) <= (|ss| + 1) * Allowance(w)
  {
    AcceptsCovers(w, q, ss);
    UncoveredBounded(w, Spans(ss));
  }

  /** A wrapped product passes every check: the counters need only agree modulo 2^64. */
  lemma WrappedProductPasses() returns (w: Window, q: Requirement, ss: seq<Slice>)
    ensures Accepts(w, q, ss) && !NoWrap(ss)
    ensures ss[0].counterStart <= ss[|ss| - 1].counterEnd && AssessmentOf(ss).delivered == 0
  {
    var seconds := 0x1_0000_0000;
    var gpus: uint32 := 0x8000_0000;
    w := Window(1, 1 + 2 * seconds * SECOND, 1, 1 + 2 * seconds * SECOND, 0);
    q := Requirement(1, gpus);
    ss := [Slice(Interval(1, 1, 1 + 2 * seconds * SECOND), gpus, 0, 0)];
    assert Seconds(ss[0].span) == 2 * seconds;
    assert Work(ss[0]) == MAX_UINT64 + 1;
    assert SliceLinked(w, q, ss, 0);
  }
}
