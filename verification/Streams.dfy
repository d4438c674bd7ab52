/** Evidence streams over one execution: intervals that must be numbered, ordered,
    disjoint and gap-bounded (shared by internal/computesettlement/metering.go and
    performance.go).  Times and durations are nanoseconds. */
module Streams {
  import opened Text
  import opened Framing

  const MAX_INT64: int := 0x7FFF_FFFF_FFFF_FFFF
  const MIN_INT64: int := -0x8000_0000_0000_0000
  const SECOND: int := 1_000_000_000

  /** `time.Duration` */
  type duration = d: int | MIN_INT64 <= d <= MAX_INT64

  /** `Time.Sub` saturates. */
  function Sub(a: int, b: int): duration {
    if a - b > MAX_INT64 then MAX_INT64 else if a - b < MIN_INT64 then MIN_INT64 else a - b
  }

  datatype Interval = Interval(sequence: uint64, start: int, end: int)

  /** The admitted lease, the execution receipt and the tolerated gap. */
  datatype Window = Window(leaseStart: int, leaseEnd: int, started: int, finished: int, maxGap: duration)

  predicate Whole(w: Window, x: Interval) {
    x.sequence != 0 && x.start != ZERO_TIME && x.end != ZERO_TIME && x.start < x.end &&
    w.leaseStart <= x.start && x.end <= w.leaseEnd && w.started <= x.start && x.end <= w.finished
  }

  predicate GapOk(w: Window, from: int, to: int) {
    from < to ==> Sub(to, from) <= w.maxGap
  }

  predicate Follows(w: Window, prev: Interval, x: Interval) {
    prev.sequence < x.sequence && x.sequence == Successor(prev.sequence) && prev.end <= x.start && GapOk(w, prev.end, x.start)
  }

  /** What a stream must be, in order, to be accepted. */
  predicate Linked(w: Window, xs: seq<Interval>, i: nat)
    requires i < |xs|
  {
    Whole(w, xs[i]) && if i == 0 then GapOk(w, w.started, xs[0].start) else Follows(w, xs[i - 1], xs[i])
  }

  predicate Covers(w: Window, xs: seq<Interval>) {
    xs != [] && (forall i :: 0 <= i < |xs| ==> Linked(w, xs, i)) && GapOk(w, xs[|xs| - 1].end, w.finished)
  }

  /** The sort key: start, then sequence. */
  predicate Before(a: Interval, b: Interval) {
    a.start < b.start || (a.start == b.start && a.sequence < b.sequence)
  }

  lemma {:induction false} LinkedOrdered(w: Window, xs: seq<Interval>, i: nat, j: nat)
    requires i < j < |xs| && forall k :: 0 <= k < |xs| ==> Linked(w, xs, k)
    ensures xs[i].end <= xs[j].start
    decreases j
  {
    assert Linked(w, xs, j);
    if i < j - 1 {
      LinkedOrdered(w, xs, i, j - 1);
      assert Linked(w, xs, j - 1);
    }
  }

  /** An accepted stream is strictly increasing: equal starts never pass. */
  lemma CoversIncreases(w: Window, xs: seq<Interval>)
    requires Covers(w, xs)
    ensures Increasing(Before, xs)
  {
    forall i, j | 0 <= i < j < |xs| ensures Before(xs[i], xs[j]) {
      LinkedOrdered(w, xs, i, j);
      assert Linked(w, xs, i);
    }
  }

  /******* How much of the execution is covered *******/

  /** The covered time. */
  function Covered(xs: seq<Interval>): int {
    if xs == [] then 0 else Covered(xs[..|xs| - 1]) + (xs[|xs| - 1].end - xs[|xs| - 1].start)
  }

  function Allowance(w: Window): nat { if w.maxGap > 0 then w.maxGap else 0 }

  /** The gap check means what it says unless the subtraction saturates at the
      largest duration and that duration is tolerated. */
  lemma GapMeaning(w: Window, from: int, to: int)
    ensures GapOk(w, from, to) <==> to <= from || to - from <= w.maxGap || w.maxGap == MAX_INT64
  {
  }

  /** With `n` intervals, no gap can outrun the saturating subtraction far enough to matter. */
  predicate GapsMeasured(w: Window, n: nat) {
    w.maxGap < MAX_INT64 || w.finished - w.started - n <= (n + 1) * MAX_INT64
  }

  lemma {:induction false} CoveredPrefix(w: Window, xs: seq<Interval>, n: nat)
    requires n < |xs| && forall k :: 0 <= k < |xs| ==> Linked(w, xs, k)
    ensures Covered(xs[..n + 1]) >= n + 1
    ensures var uncovered := xs[n].end - w.started - Covered(xs[..n + 1]);
      0 <= uncovered && (w.maxGap < MAX_INT64 ==> uncovered <= (n + 1) * Allowance(w))
    decreases n
  {
    assert Linked(w, xs, n);
    var shorter, longer := xs[..n], xs[..n + 1];
    assert longer[..n] == shorter && longer[n] == xs[n];
    if n > 0 {
      CoveredPrefix(w, xs, n - 1);
      assert Linked(w, xs, n - 1);
      GapBounded(w, xs[n - 1].end, xs[n].start);
      assert (n + 1) * Allowance(w) == n * Allowance(w) + Allowance(w);
    } else {
      GapBounded(w, w.started, xs[0].start);
    }
  }

  lemma GapBounded(w: Window, from: int, to: int)
    requires GapOk(w, from, to) && from <= to
    ensures w.maxGap < MAX_INT64 ==> to - from <= Allowance(w)
  {
    GapMeaning(w, from, to);
  }

  /** At most one tolerated gap before, between and after the intervals is uncovered. */
  lemma UncoveredBounded(w: Window, xs: seq<Interval>)
    requires Covers(w, xs) && GapsMeasured(w, |xs|)
    ensures 0 <= w.finished - w.started - Covered(xs) <= (|xs| + 1) * Allowance(w)
  {
    var n := |xs| - 1;
    CoveredPrefix(w, xs, n);
    assert xs[..n + 1] == xs;
    assert Linked(w, xs, n);
    if w.maxGap < MAX_INT64 {
      GapBounded(w, xs[n].end, w.finished);
      assert (|xs| + 1) * Allowance(w) == |xs| * Allowance(w) + Allowance(w);
    }
  }

  lemma CoveredWithin(w: Window, xs: seq<Interval>)
    requires Covers(w, xs)
    ensures Covered(xs) <= w.finished - w.started
  {
    var n := |xs| - 1;
    CoveredPrefix(w, xs, n);
    assert xs[..n + 1] == xs;
    assert Linked(w, xs, n);
  }

  /** `n` intervals of one nanosecond from the start. */
  function Ticks(w: Window, n: nat): (xs: seq<Interval>)
    requires n <= MAX_UINT64
    ensures |xs| == n && forall i :: 0 <= i < n ==> xs[i] == Interval(i + 1, w.started + i, w.started + i + 1)
  {
    seq(n, i requires 0 <= i < n => Interval(i + 1, w.started + i, w.started + i + 1))
  }

  lemma {:induction false} TicksCovered(w: Window, n: nat, m: nat)
    requires m <= n <= MAX_UINT64
    ensures Covered(Ticks(w, n)[..m]) == m
    decreases m
  {
    if m > 0 {
      TicksCovered(w, n, m - 1);
      assert Ticks(w, n)[..m][..m - 1] == Ticks(w, n)[..m - 1];
    }
  }

  lemma TicksCover(w: Window, n: nat)
    requires 0 < n <= MAX_UINT64 && w.started + n <= w.finished && w.maxGap == MAX_INT64
    requires w.leaseStart <= w.started && w.finished <= w.leaseEnd && ZERO_TIME < w.started
    ensures Covers(w, Ticks(w, n))
  {
    forall i | 0 <= i < n ensures Linked(w, Ticks(w, n), i) {
    }
  }

  /** For an execution inside its lease, the coverage bound holds of every stream of `n`
      intervals exactly when the gaps are measured. */
  lemma CoverageBoundExact(w: Window, n: nat)
    requires 0 < n <= MAX_UINT64
    requires w.leaseStart <= w.started && w.finished <= w.leaseEnd && ZERO_TIME < w.started
    ensures (forall xs :: Covers(w, xs) && |xs| == n ==> w.finished - w.started - Covered(xs) <= (n + 1) * Allowance(w))
       <==> GapsMeasured(w, n)
  {
    if GapsMeasured(w, n) {
      forall xs | Covers(w, xs) && |xs| == n ensures w.finished - w.started - Covered(xs) <= (n + 1) * Allowance(w) {
        UncoveredBounded(w, xs);
      }
    } else {
      TicksCover(w, n);
      TicksCovered(w, n, n);
      assert Ticks(w, n)[..n] == Ticks(w, n);
      assert w.finished - w.started - Covered(Ticks(w, n)) > (n + 1) * Allowance(w);
    }
  }

  /** With the largest duration tolerated, a gap of any length passes. */
  lemma SaturatedGapPasses() returns (w: Window, xs: seq<Interval>)
    ensures w.maxGap == MAX_INT64 && Covers(w, xs)
    ensures w.finished - w.started - Covered(xs) > (|xs| + 1) * Allowance(w)
  {
    w := Window(1, 3 * MAX_INT64, 1, 3 * MAX_INT64, MAX_INT64);
    xs := [Interval(1, 1, 2)];
    assert xs[..0] == [];
    assert Covered(xs) == 1;
    assert Linked(w, xs, 0);
  }
}
