/** What the layers of the settlement ladder (internal/computesettlement) establish and decide,
    read off the slices, samples and signed documents themselves. */
module SettlementMeaning {
  import opened Text
  import opened Framing
  import opened Streams
  import opened SettlementFacts
  import opened SettlementLadder
  import Metering
  import Performance

  /******* Intervals *******/

  /** The interval at `i` lies in lease and execution, is numbered one on from its predecessor,
      and starts after it without an untolerated gap. */
  predicate Placed(w: Window, prev: Option<Interval>, x: Interval) {
    0 < x.sequence && x.start != ZERO_TIME && x.end != ZERO_TIME && x.start < x.end &&
    w.leaseStart <= x.start && x.end <= w.leaseEnd && w.started <= x.start && x.end <= w.finished &&
    Tolerated(w, if prev == None then w.started else prev.value.end, x.start) &&
    (prev.Some? ==> x.sequence == prev.value.sequence + 1 && prev.value.end <= x.start)
  }

  predicate Tolerated(w: Window, from: int, to: int) {
    to <= from || to - from <= w.maxGap || w.maxGap == 0x7FFF_FFFF_FFFF_FFFF
  }

  lemma PlacedMeaning(w: Window, xs: seq<Interval>, i: nat)
    requires i < |xs|
    ensures Linked(w, xs, i) <==> Placed(w, if i == 0 then None else Some(xs[i - 1]), xs[i])
  {
  }

  /******* Metering *******/

  /** The slice uses contracted GPUs for whole seconds, and its counter rises by just that work. */
  predicate Counts(q: Metering.Requirement, s: Metering.Slice) {
    var d := if s.span.end - s.span.start > 0x7FFF_FFFF_FFFF_FFFF then 0x7FFF_FFFF_FFFF_FFFF else s.span.end - s.span.start;
    1 <= s.gpus <= q.requiredGpus && d % 1_000_000_000 == 0 &&
    s.counterEnd == s.counterStart + (d / 1_000_000_000 * s.gpus) % 0x1_0000_0000_0000_0000
  }

  /** The slice at `i` is placed, counts its work, and goes on from its predecessor's counter. */
  predicate MeterStep(w: Window, q: Metering.Requirement, ss: seq<Metering.Slice>, i: nat)
    requires i < |ss|
  {
    Placed(w, if i == 0 then None else Some(ss[i - 1].span), ss[i].span) && Counts(q, ss[i]) &&
    (i > 0 ==> ss[i].counterStart == ss[i - 1].counterEnd)
  }

  predicate MetersInOrder(w: Window, q: Metering.Requirement, ss: seq<Metering.Slice>) {
    ss != [] && Tolerated(w, ss[|ss| - 1].span.end, w.finished) && forall i :: 0 <= i < |ss| ==> MeterStep(w, q, ss, i)
  }

  lemma MeterStepMeaning(w: Window, q: Metering.Requirement, ss: seq<Metering.Slice>, i: nat)
    requires i < |ss|
    ensures Metering.SliceLinked(w, q, ss, i) <==> MeterStep(w, q, ss, i)
  {
    PlacedMeaning(w, Metering.Spans(ss), i);
    if ss[i].span.start < ss[i].span.end { CountsMeaning(q, ss[i]); }
    hide Metering.Measured, Counts;
  }

  lemma MeterOrderMeaning(w: Window, q: Metering.Requirement, ss: seq<Metering.Slice>)
    ensures Metering.Accepts(w, q, ss) <==> MetersInOrder(w, q, ss)
  {
    forall i | 0 <= i < |ss| ensures Metering.SliceLinked(w, q, ss, i) <==> MeterStep(w, q, ss, i) { MeterStepMeaning(w, q, ss, i); }
    hide Metering.SliceLinked, MeterStep;
  }

  lemma CountsMeaning(q: Metering.Requirement, s: Metering.Slice)
    requires s.span.start < s.span.end
    ensures Metering.Measured(q, s) <==> Counts(q, s)
  {
  }

  /** Some order of these slices passes, and its counters show this total. */
  ghost predicate Delivers(w: Window, q: Metering.Requirement, items: seq<Metering.Slice>, total: int) {
    exists order: seq<Metering.Slice> :: multiset(order) == multiset(items) && MetersInOrder(w, q, order) && order != [] &&
                    total == order[|order| - 1].counterEnd - order[0].counterStart
  }

  lemma OneMeterOrder(w: Window, q: Metering.Requirement, items: seq<Metering.Slice>, order: seq<Metering.Slice>)
    requires multiset(order) == multiset(items) && MetersInOrder(w, q, order)
    ensures Metering.Ordering(w, q, items, order)
    ensures forall other :: Metering.Ordering(w, q, items, other) ==> other == order
  {
    hide MetersInOrder;
    MeterOrderMeaning(w, q, order);
    hide Metering.Accepts;
    Metering.AcceptsCovers(w, q, order);
    assert Sorted(Metering.SliceBefore, order);
    forall other | Metering.Ordering(w, q, items, other) ensures other == order {
      Metering.AcceptableOrderUnique(w, q, other, order);
    }
  }

  lemma OrderDelivers(w: Window, q: Metering.Requirement, items: seq<Metering.Slice>, order: seq<Metering.Slice>)
    requires multiset(order) == multiset(items) && MetersInOrder(w, q, order)
    ensures Metering.Acceptable(w, q, items) && order != []
    ensures MeterAssessment(w, q, items).delivered == order[|order| - 1].counterEnd - order[0].counterStart
  {
    OneMeterOrder(w, q, items, order);
    hide Metering.Ordering, MetersInOrder;
    assert Metering.Ordering(w, q, items, order);
    OrderNotEmpty(w, q, order);
  }

  lemma OrderNotEmpty(w: Window, q: Metering.Requirement, order: seq<Metering.Slice>)
    ensures MetersInOrder(w, q, order) ==> order != []
  {
  }

  /** A stream is accepted exactly if it delivers a total, and it delivers only the one assessed. */
  lemma DeliversMeaning(w: Window, q: Metering.Requirement, items: seq<Metering.Slice>)
    ensures Metering.Acceptable(w, q, items) <==> exists t :: Delivers(w, q, items, t)
    ensures Metering.Acceptable(w, q, items) ==>
              forall t :: Delivers(w, q, items, t) <==> t == MeterAssessment(w, q, items).delivered
  {
    hide MetersInOrder, Metering.Accepts, MeterAssessment;
    if Metering.Acceptable(w, q, items) {
      var order: seq<Metering.Slice> :| Metering.Ordering(w, q, items, order);
      MeterOrderMeaning(w, q, order);
      OrderDelivers(w, q, items, order);
      assert Delivers(w, q, items, order[|order| - 1].counterEnd - order[0].counterStart);
    }
    forall t | Delivers(w, q, items, t) ensures Metering.Acceptable(w, q, items) && t == MeterAssessment(w, q, items).delivered {
      var order: seq<Metering.Slice> :| multiset(order) == multiset(items) && MetersInOrder(w, q, order) && order != [] &&
                                        t == order[|order| - 1].counterEnd - order[0].counterStart;
      OrderDelivers(w, q, items, order);
    }
  }

  /** Every stream delivers this total. */
  ghost predicate AllDeliver(w: Window, q: Metering.Requirement, streams: seq<Stream<Metering.Slice>>, total: int) {
    forall i :: 0 <= i < |streams| ==> Delivers(w, q, streams[i].items, total)
  }

  /** Two streams deliver different totals. */
  ghost predicate MetersDisagree(w: Window, q: Metering.Requirement, streams: seq<Stream<Metering.Slice>>) {
    exists i, j, t, u :: 0 <= i < |streams| && 0 <= j < |streams| && t != u &&
                         Delivers(w, q, streams[i].items, t) && Delivers(w, q, streams[j].items, u)
  }

  /** What metering decides: agreed delivery settles, agreed under-delivery earns credit, and
      disagreement or over-delivery is disputed. */
  lemma MeterMeaning(w: Window, q: Metering.Requirement, streams: seq<Stream<Metering.Slice>>)
    requires |streams| >= 2 && MetersAccepted(w, q, streams)
    ensures MeterDisposition(w, q, streams) == Settled <==> AllDeliver(w, q, streams, q.expected)
    ensures MeterDisposition(w, q, streams) == CreditDue <==> exists t :: t < q.expected && AllDeliver(w, q, streams, t)
    ensures MeterDisposition(w, q, streams) == Disputed <==>
              MetersDisagree(w, q, streams) || exists t :: t > q.expected && AllDeliver(w, q, streams, t)
    ensures forall t :: t >= 0 ==> (EveryTotal(w, q, streams, t) <==> AllDeliver(w, q, streams, t))
  {
    hide Delivers, MeterAssessment, Metering.Acceptable;
    forall i | 0 <= i < |streams| ensures
      forall t :: Delivers(w, q, streams[i].items, t) <==> t == MeterAssessment(w, q, streams[i].items).delivered
    {
      DeliversMeaning(w, q, streams[i].items);
    }
    var first := MeterAssessment(w, q, streams[0].items).delivered;
    assert Delivers(w, q, streams[0].items, first);
    if EveryTotal(w, q, streams, first) {
      assert AllDeliver(w, q, streams, first);
    } else {
      var i :| 0 <= i < |streams| && MeterAssessment(w, q, streams[i].items).delivered != first;
      assert Delivers(w, q, streams[i].items, MeterAssessment(w, q, streams[i].items).delivered);
      assert MetersDisagree(w, q, streams);
    }
    assert forall t :: AllDeliver(w, q, streams, t) ==> Delivers(w, q, streams[0].items, t);
  }

  /******* Performance *******/

  predicate SampleStep(w: Window, env: Performance.Envelope, ss: seq<Performance.Sample>, i: nat)
    requires i < |ss|
  {
    Placed(w, if i == 0 then None else Some(ss[i - 1].span), ss[i].span) &&
    Trim(ss[i].metric) == env.metric && Trim(ss[i].unit) == env.unit
  }

  predicate SamplesInOrder(w: Window, env: Performance.Envelope, ss: seq<Performance.Sample>) {
    ss != [] && Tolerated(w, ss[|ss| - 1].span.end, w.finished) && forall i :: 0 <= i < |ss| ==> SampleStep(w, env, ss, i)
  }

  lemma SampleOrderMeaning(w: Window, env: Performance.Envelope, ss: seq<Performance.Sample>)
    ensures Performance.Accepts(w, env, ss) <==> SamplesInOrder(w, env, ss)
  {
    hide Trim;
    forall i | 0 <= i < |ss| ensures Performance.SampleLinked(w, env, ss, i) <==> SampleStep(w, env, ss, i) {
      PlacedMeaning(w, Performance.Spans(ss), i);
    }
    hide Performance.SampleLinked, SampleStep;
  }

  /** The nanoseconds below the contracted floor, each sample's capped at the largest duration. */
  function BelowFloor(env: Performance.Envelope, ss: seq<Performance.Sample>): int {
    if ss == [] then 0
    else
      var s := ss[|ss| - 1];
      var d := s.span.end - s.span.start;
      BelowFloor(env, ss[..|ss| - 1]) + (if s.value >= env.minimum then 0 else if d > 0x7FFF_FFFF_FFFF_FFFF then 0x7FFF_FFFF_FFFF_FFFF else d)
  }

  /** A number as a signed 64-bit one. */
  function Signed64(x: int): int { (x + 0x8000_0000_0000_0000) % 0x1_0000_0000_0000_0000 - 0x8000_0000_0000_0000 }

  lemma Signed64Meaning(x: int)
    ensures Signed64(x) == Performance.WrapInt64(x)
  {
  }

  lemma {:induction false} BelowFloorMeaning(env: Performance.Envelope, ss: seq<Performance.Sample>)
    requires forall i :: 0 <= i < |ss| ==> ss[i].span.start < ss[i].span.end
    ensures BelowFloor(env, ss) == Performance.BelowSum(env, ss)
  {
    if ss != [] { BelowFloorMeaning(env, ss[..|ss| - 1]); }
  }

  /** Some order of these samples passes, and reports this time below the floor: their sum as a
      signed 64-bit number. */
  ghost predicate Degrades(w: Window, env: Performance.Envelope, items: seq<Performance.Sample>, below: int) {
    exists order: seq<Performance.Sample> :: multiset(order) == multiset(items) && SamplesInOrder(w, env, order) &&
      below == Signed64(BelowFloor(env, order))
  }

  lemma SampleOrderDegrades(w: Window, env: Performance.Envelope, items: seq<Performance.Sample>, order: seq<Performance.Sample>)
    requires multiset(order) == multiset(items) && SamplesInOrder(w, env, order)
    ensures Performance.Acceptable(w, env, items)
    ensures PerfAssessment(w, env, items).below == Signed64(BelowFloor(env, order))
    ensures PerfAssessment(w, env, items).compliant <==> PerfAssessment(w, env, items).below <= env.maxBelow
  {
    OneSampleOrder(w, env, items, order);
    hide SamplesInOrder, Performance.Ordering, Signed64, Performance.WrapInt64;
    Signed64Meaning(BelowFloor(env, order));
    SampleOrderProper(w, env, order);
    BelowFloorMeaning(env, order);
    assert Performance.Ordering(w, env, items, order);
  }

  lemma SampleOrderProper(w: Window, env: Performance.Envelope, order: seq<Performance.Sample>)
    requires SamplesInOrder(w, env, order)
    ensures order != [] && forall i :: 0 <= i < |order| ==> order[i].span.start < order[i].span.end
  {
    hide Trim;
    forall i | 0 <= i < |order| ensures order[i].span.start < order[i].span.end { assert SampleStep(w, env, order, i); }
  }

  lemma OneSampleOrder(w: Window, env: Performance.Envelope, items: seq<Performance.Sample>, order: seq<Performance.Sample>)
    requires multiset(order) == multiset(items) && SamplesInOrder(w, env, order)
    ensures Performance.Ordering(w, env, items, order)
    ensures forall other :: Performance.Ordering(w, env, items, other) ==> other == order
  {
    hide SamplesInOrder;
    SampleOrderMeaning(w, env, order);
    hide Performance.Accepts;
    Performance.AcceptsCovers(w, env, order);
    assert Sorted(Performance.SampleBefore, order);
    forall other | Performance.Ordering(w, env, items, other) ensures other == order {
      Performance.AcceptableOrderUnique(w, env, other, order);
    }
  }

  /** A stream is accepted exactly if it reports a time, and it reports only the one assessed. */
  lemma DegradesMeaning(w: Window, env: Performance.Envelope, items: seq<Performance.Sample>)
    ensures Performance.Acceptable(w, env, items) <==> exists t :: Degrades(w, env, items, t)
    ensures Performance.Acceptable(w, env, items) ==>
              (forall t :: Degrades(w, env, items, t) <==> t == PerfAssessment(w, env, items).below) &&
              (PerfAssessment(w, env, items).compliant <==> PerfAssessment(w, env, items).below <= env.maxBelow)
  {
    hide SamplesInOrder, Performance.Accepts, PerfAssessment, BelowFloor;
    if Performance.Acceptable(w, env, items) {
      var order: seq<Performance.Sample> :| Performance.Ordering(w, env, items, order);
      SampleOrderMeaning(w, env, order);
      SampleOrderDegrades(w, env, items, order);
      assert Degrades(w, env, items, PerfAssessment(w, env, items).below);
    }
    forall t | Degrades(w, env, items, t) ensures Performance.Acceptable(w, env, items) && t == PerfAssessment(w, env, items).below {
      var order: seq<Performance.Sample> :| multiset(order) == multiset(items) && SamplesInOrder(w, env, order) &&
        t == Signed64(BelowFloor(env, order));
      SampleOrderDegrades(w, env, items, order);
    }
  }

  /** In an execution no longer than the largest duration the reported time is the true one. */
  lemma DegradesTruly(w: Window, env: Performance.Envelope, items: seq<Performance.Sample>, order: seq<Performance.Sample>)
    requires multiset(order) == multiset(items) && SamplesInOrder(w, env, order) && w.finished - w.started <= MAX_INT64
    ensures Degrades(w, env, items, Performance.BelowTime(env, order))
  {
    hide SamplesInOrder, Signed64;
    SampleOrderMeaning(w, env, order);
    Performance.ComplianceMeaning(w, env, order);
    Signed64Meaning(BelowFloor(env, order));
    SampleOrderProper(w, env, order);
    BelowFloorMeaning(env, order);
  }

  /** The stream reports a time within the contract. */
  ghost predicate Within(w: Window, env: Performance.Envelope, items: seq<Performance.Sample>) {
    exists t :: Degrades(w, env, items, t) && t <= env.maxBelow
  }

  ghost predicate AllWithin(w: Window, env: Performance.Envelope, streams: seq<Stream<Performance.Sample>>) {
    forall i :: 0 <= i < |streams| ==> Within(w, env, streams[i].items)
  }

  ghost predicate AllDegrade(w: Window, env: Performance.Envelope, streams: seq<Stream<Performance.Sample>>, below: int) {
    forall i :: 0 <= i < |streams| ==> Degrades(w, env, streams[i].items, below)
  }

  /** Two streams report different times, not both within the contract. */
  ghost predicate SamplesDisagree(w: Window, env: Performance.Envelope, streams: seq<Stream<Performance.Sample>>) {
    exists i, j, t, u :: 0 <= i < |streams| && 0 <= j < |streams| && t != u && (t > env.maxBelow || u > env.maxBelow) &&
                         Degrades(w, env, streams[i].items, t) && Degrades(w, env, streams[j].items, u)
  }

  /** What performance decides: compliance of all streams settles, one common time beyond the
      contract earns credit, and anything else is disputed. */
  lemma PerfMeaning(w: Window, env: Performance.Envelope, streams: seq<Stream<Performance.Sample>>)
    requires |streams| >= 2 && SamplesAccepted(w, env, streams)
    ensures PerfDisposition(w, env, streams) == Settled <==> AllWithin(w, env, streams)
    ensures PerfDisposition(w, env, streams) == CreditDue <==> exists t :: t > env.maxBelow && AllDegrade(w, env, streams, t)
    ensures PerfDisposition(w, env, streams) == Disputed <==> SamplesDisagree(w, env, streams)
  {
    hide Degrades, PerfAssessment, Performance.Acceptable, Reports, AllWithin, AllDegrade, SamplesDisagree, AllCompliant, NoneCompliant,
      SameDegradation;
    forall i | 0 <= i < |streams| ensures Reports(w, env, streams, i) { StreamReports(w, env, streams, i); }
    WithinMeaning(w, env, streams);
    CreditMeaning(w, env, streams);
    DisagreeMeaning(w, env, streams);
  }

  lemma StreamReports(w: Window, env: Performance.Envelope, streams: seq<Stream<Performance.Sample>>, i: nat)
    requires i < |streams| && SamplesAccepted(w, env, streams)
    ensures Reports(w, env, streams, i)
  {
    hide Degrades, PerfAssessment;
    DegradesMeaning(w, env, streams[i].items);
  }

  lemma WithinMeaning(w: Window, env: Performance.Envelope, streams: seq<Stream<Performance.Sample>>)
    requires SamplesAccepted(w, env, streams) && forall i :: 0 <= i < |streams| ==> Reports(w, env, streams, i)
    ensures AllCompliant(w, env, streams) <==> AllWithin(w, env, streams)
  {
    hide Degrades, PerfAssessment, Performance.Acceptable, Compliant;
    forall i | 0 <= i < |streams| ensures
      Compliant(w, env, streams[i]) <==> Within(w, env, streams[i].items)
    {
      assert Reports(w, env, streams, i);
      assert Degrades(w, env, streams[i].items, PerfAssessment(w, env, streams[i].items).below);
    }
  }

  lemma CreditMeaning(w: Window, env: Performance.Envelope, streams: seq<Stream<Performance.Sample>>)
    requires |streams| >= 2 && SamplesAccepted(w, env, streams) && forall i :: 0 <= i < |streams| ==> Reports(w, env, streams, i)
    ensures NoneCompliant(w, env, streams) ==> !AllCompliant(w, env, streams)
    ensures NoneCompliant(w, env, streams) && SameDegradation(w, env, streams) <==> exists t :: t > env.maxBelow && AllDegrade(w, env, streams, t)
  {
    hide Degrades, PerfAssessment, Performance.Acceptable;
    var first := PerfAssessment(w, env, streams[0].items).below;
    assert NoneCompliant(w, env, streams) ==> !Compliant(w, env, streams[0]);
    if NoneCompliant(w, env, streams) && SameDegradation(w, env, streams) {
      assert Reports(w, env, streams, 0) && !Compliant(w, env, streams[0]);
      forall i | 0 <= i < |streams| ensures Degrades(w, env, streams[i].items, first) { assert Reports(w, env, streams, i); }
      assert first > env.maxBelow && AllDegrade(w, env, streams, first);
    }
    forall t | t > env.maxBelow && AllDegrade(w, env, streams, t) ensures NoneCompliant(w, env, streams) && SameDegradation(w, env, streams) {
      forall i | 0 <= i < |streams| ensures !Compliant(w, env, streams[i]) && PerfAssessment(w, env, streams[i].items).below == t {
        assert Reports(w, env, streams, i);
      }
    }
  }

  lemma DisagreeMeaning(w: Window, env: Performance.Envelope, streams: seq<Stream<Performance.Sample>>)
    requires |streams| >= 2 && SamplesAccepted(w, env, streams) && forall i :: 0 <= i < |streams| ==> Reports(w, env, streams, i)
    ensures !AllCompliant(w, env, streams) && !(NoneCompliant(w, env, streams) && SameDegradation(w, env, streams)) <==>
            SamplesDisagree(w, env, streams)
  {
    hide Degrades, PerfAssessment, Performance.Acceptable;
    if !AllCompliant(w, env, streams) && !(NoneCompliant(w, env, streams) && SameDegradation(w, env, streams)) {
      var i, j := DifferingStreams(w, env, streams);
      assert Reports(w, env, streams, i) && Reports(w, env, streams, j);
      assert Degrades(w, env, streams[i].items, PerfAssessment(w, env, streams[i].items).below);
      assert Degrades(w, env, streams[j].items, PerfAssessment(w, env, streams[j].items).below);
    }
    if SamplesDisagree(w, env, streams) {
      var i, j, t, u :| 0 <= i < |streams| && 0 <= j < |streams| && t != u && (t > env.maxBelow || u > env.maxBelow) &&
                        Degrades(w, env, streams[i].items, t) && Degrades(w, env, streams[j].items, u);
      assert Reports(w, env, streams, i) && Reports(w, env, streams, j);
    }
  }

  ghost predicate Reports(w: Window, env: Performance.Envelope, streams: seq<Stream<Performance.Sample>>, i: nat)
    requires i < |streams| && SamplesAccepted(w, env, streams)
  {
    (forall t :: Degrades(w, env, streams[i].items, t) <==> t == PerfAssessment(w, env, streams[i].items).below) &&
    (Compliant(w, env, streams[i]) <==> PerfAssessment(w, env, streams[i].items).below <= env.maxBelow)
  }

  lemma DifferingStreams(w: Window, env: Performance.Envelope, streams: seq<Stream<Performance.Sample>>) returns (i: nat, j: nat)
    requires |streams| >= 2 && SamplesAccepted(w, env, streams)
    requires forall k :: 0 <= k < |streams| ==> Reports(w, env, streams, k)
    requires !AllCompliant(w, env, streams) && !(NoneCompliant(w, env, streams) && SameDegradation(w, env, streams))
    ensures i < |streams| && j < |streams| && !Compliant(w, env, streams[i])
    ensures PerfAssessment(w, env, streams[i].items).below != PerfAssessment(w, env, streams[j].items).below
  {
    hide PerfAssessment, Degrades, Performance.Acceptable;
    i :| 0 <= i < |streams| && !Compliant(w, env, streams[i]);
    assert Reports(w, env, streams, i);
    if !NoneCompliant(w, env, streams) {
      j :| 0 <= j < |streams| && Compliant(w, env, streams[j]);
      assert Reports(w, env, streams, j);
    } else {
      j :| 0 <= j < |streams| && PerfAssessment(w, env, streams[j].items).below != PerfAssessment(w, env, streams[0].items).below;
      if PerfAssessment(w, env, streams[i].items).below == PerfAssessment(w, env, streams[j].items).below { j := 0; }
    }
  }

  /******* The whole case *******/

  /** A genuine attestation of the leased hardware, valid in its own interval. */
  predicate Attests(o: Oracle, l: Lease, s: Signed<Hardware>) {
    var a := s.body;
    a == Hardware("aegis.compute/hardware-identity-attestation/v0", a.attestationId, a.sequence, l.subject, l.hardwareSet, l.topology,
                  a.evidenceDigest, a.verifierId, a.observedAt, a.validUntil) &&
    !Blank(s.keyId) && !Blank(s.signature) && !Blank(a.attestationId) && !Blank(a.evidenceDigest) && !Blank(a.verifierId) && !Blank(l.subject) && !Blank(l.hardwareSet) &&
    !Blank(l.topology) && a.sequence > 0 &&
    a.observedAt != ZERO_TIME && a.validUntil != ZERO_TIME && a.observedAt < a.validUntil && o.hardwareGenuine(s)
  }

  /** The receipt of this very lease, for an execution inside it, between two attestations of
      the leased hardware, the later one with a higher number, both fresh. */
  predicate SameMachine(o: Oracle, l: Lease, r: Receipt, admission: Signed<Hardware>, completion: Signed<Hardware>, policy: HardwarePolicy) {
    var start, end := admission.body, completion.body;
    r == Receipt(r.receiptId, l.leaseId, l.contractDigest, l.hardwareSet, l.topology, o.hardwareDigest(admission),
                 o.hardwareDigest(completion), r.startedAt, r.finishedAt) &&
    l.admissionDigest == o.hardwareDigest(admission) &&
    !Blank(l.leaseId) && !Blank(l.subject) && !Blank(l.contractDigest) && !Blank(l.hardwareSet) &&
    !Blank(l.topology) && !Blank(l.admissionDigest) && !Blank(r.receiptId) && !Blank(r.completionDigest) &&
    l.startsAt != ZERO_TIME && l.endsAt != ZERO_TIME && r.startedAt != ZERO_TIME && r.finishedAt != ZERO_TIME &&
    l.startsAt <= r.startedAt <= r.finishedAt <= l.endsAt && l.startsAt < l.endsAt &&
    Attests(o, l, admission) && Attests(o, l, completion) && start.sequence < end.sequence &&
    start.observedAt <= l.startsAt < start.validUntil && r.finishedAt <= end.observedAt < end.validUntil &&
    Fresh(policy.maxAdmissionAge, start.observedAt, l.startsAt) && Fresh(policy.maxCompletionLag, r.finishedAt, end.observedAt)
  }

  /** A positive limit, other than the largest duration, bounds the distance. */
  predicate Fresh(limit: duration, from: int, to: int) {
    limit > 0 ==> to - from <= limit || limit == 0x7FFF_FFFF_FFFF_FFFF
  }

  lemma AttestsMeaning(o: Oracle, l: Lease, s: Signed<Hardware>)
    ensures Attests(o, l, s) <==>
      HardwareVerified(o, s) && s.body.subject == l.subject && s.body.hardwareSet == l.hardwareSet && s.body.topology == l.topology &&
      !Blank(l.subject) && !Blank(l.hardwareSet) && !Blank(l.topology)
  {
    hide Blank;
  }

  lemma HardwareMeaning(o: Oracle, l: Lease, r: Receipt, admission: Signed<Hardware>, completion: Signed<Hardware>, policy: HardwarePolicy)
    ensures Continuous(o, l, r, admission, completion, policy) <==> SameMachine(o, l, r, admission, completion, policy)
  {
    hide Blank, Attests, HardwareVerified;
    AttestsMeaning(o, l, admission);
    AttestsMeaning(o, l, completion);
  }

  /** The one measurement that this execution's workload, metric and evidence call for, up to
      its own id, source and time. */
  function Measuring(o: Oracle, l: Lease, r: Receipt, env: Performance.Envelope, profile: Profile, digest: string, a: Measurement): Measurement {
    Measurement("aegis.compute/workload-measurement-attestation/v0", a.attestationId, a.source, digest, l.subject, l.leaseId,
                r.receiptId, l.contractDigest, o.profileDigest(profile), env.metric, env.unit, r.startedAt, r.finishedAt, a.measuredAt)
  }

  predicate Measures(o: Oracle, l: Lease, r: Receipt, env: Performance.Envelope, profile: Profile, s: Signed<Measurement>, digest: string) {
    var a := s.body;
    a == Measuring(o, l, r, env, profile, digest, a) && o.measurementGenuine(Trim(a.source), s) &&
    !Blank(s.keyId) && !Blank(s.signature) && !Blank(a.attestationId) && !Blank(a.source) && !Blank(digest) && !Blank(l.subject) &&
    !Blank(l.leaseId) && !Blank(r.receiptId) && !Blank(l.contractDigest) && !Blank(o.profileDigest(profile)) && !Blank(env.metric) &&
    !Blank(env.unit) && r.startedAt != ZERO_TIME && r.finishedAt != ZERO_TIME && a.measuredAt != ZERO_TIME &&
    r.startedAt < r.finishedAt <= a.measuredAt
  }

  lemma MeasuresMeaning(o: Oracle, l: Lease, r: Receipt, env: Performance.Envelope, profile: Profile, s: Signed<Measurement>, digest: string)
    ensures MeasurementBinds(o, l, r, env, profile, s, digest) <==> Measures(o, l, r, env, profile, s, digest)
  {
    hide Blank, Trim;
  }

  /** One measurement for each stream, and one stream for each measurement, under its name. */
  ghost predicate EachMeasured(o: Oracle, l: Lease, r: Receipt, env: Performance.Envelope, profile: Profile,
                               streams: seq<Stream<Performance.Sample>>, ms: seq<Signed<Measurement>>) {
    |ms| == |streams| &&
    (forall i, j :: 0 <= i < j < |streams| ==> streams[i].source != streams[j].source) &&
    (forall i, j :: 0 <= i < j < |ms| ==> Trim(ms[i].body.source) != Trim(ms[j].body.source)) &&
    forall i :: 0 <= i < |ms| ==> MeasuresStream(o, l, r, env, profile, streams, ms[i])
  }

  ghost predicate MeasuresStream(o: Oracle, l: Lease, r: Receipt, env: Performance.Envelope, profile: Profile,
                                 streams: seq<Stream<Performance.Sample>>, s: Signed<Measurement>) {
    exists j :: 0 <= j < |streams| && streams[j].source == Trim(s.body.source) && Measures(o, l, r, env, profile, s, streams[j].digest)
  }

  predicate Complete(p: Profile) {
    !Blank(p.workloadId) && !Blank(p.workloadDigest) && !Blank(p.artifactDigest) && !Blank(p.benchmarkDigest) &&
    !Blank(p.runtimeDigest) && !Blank(p.inputDigest)
  }

  lemma WorkloadMeaning(o: Oracle, l: Lease, r: Receipt, env: Performance.Envelope, profile: Profile,
                        streams: seq<Stream<Performance.Sample>>, ms: seq<Signed<Measurement>>)
    ensures WorkloadBound(o, l, r, env, profile, streams, ms) <==> Complete(profile) && EachMeasured(o, l, r, env, profile, streams, ms)
  {
    hide Trim, Blank, Distinct, MeasurementBinds, Measures;
    forall i | 0 <= i < |ms| ensures
      StreamMeasured(o, l, r, env, profile, streams, ms[i]) <==> MeasuresStream(o, l, r, env, profile, streams, ms[i])
    {
      StreamMeaning(o, l, r, env, profile, streams, ms[i]);
    }
    DistinctStreams(streams);
    DistinctMeasured(ms);
    hide StreamMeasured, MeasuresStream;
  }

  lemma StreamMeaning(o: Oracle, l: Lease, r: Receipt, env: Performance.Envelope, profile: Profile,
                      streams: seq<Stream<Performance.Sample>>, s: Signed<Measurement>)
    ensures StreamMeasured(o, l, r, env, profile, streams, s) <==> MeasuresStream(o, l, r, env, profile, streams, s)
  {
    hide MeasurementBinds, Measures;
    forall j | 0 <= j < |streams| ensures
      MeasurementBinds(o, l, r, env, profile, s, streams[j].digest) <==> Measures(o, l, r, env, profile, s, streams[j].digest)
    {
      MeasuresMeaning(o, l, r, env, profile, s, streams[j].digest);
    }
    if exists j :: 0 <= j < |streams| && MeasurementBinds(o, l, r, env, profile, s, streams[j].digest) { NamedSource(o, l, r, env, profile, streams, s); }
  }

  lemma NamedSource(o: Oracle, l: Lease, r: Receipt, env: Performance.Envelope, profile: Profile,
                    streams: seq<Stream<Performance.Sample>>, s: Signed<Measurement>)
    requires exists j :: 0 <= j < |streams| && MeasurementBinds(o, l, r, env, profile, s, streams[j].digest)
    ensures Trim(s.body.source) != ""
  {
    hide Trim;
  }

  lemma DistinctStreams<T>(streams: seq<Stream<T>>)
    ensures Distinct(RawSources(streams)) <==> forall i, j :: 0 <= i < j < |streams| ==> streams[i].source != streams[j].source
  {
    hide Trim;
    var names := RawSources(streams);
    assert forall i :: 0 <= i < |streams| ==> names[i] == streams[i].source;
    if Distinct(names) {
      forall i, j | 0 <= i < j < |streams| ensures streams[i].source != streams[j].source { assert names[i] != names[j]; }
    }
  }

  lemma DistinctMeasured(ms: seq<Signed<Measurement>>)
    ensures Distinct(MeasuredSources(ms)) <==> forall i, j :: 0 <= i < j < |ms| ==> Trim(ms[i].body.source) != Trim(ms[j].body.source)
  {
    hide Trim;
    var names := MeasuredSources(ms);
    assert forall i :: 0 <= i < |ms| ==> names[i] == Trim(ms[i].body.source);
    if Distinct(names) {
      forall i, j | 0 <= i < j < |ms| ensures Trim(ms[i].body.source) != Trim(ms[j].body.source) { assert names[i] != names[j]; }
    }
  }

  lemma DistinctBound(bs: seq<Signed<Binding>>)
    ensures Distinct(BoundSources(bs)) <==> forall i, j :: 0 <= i < j < |bs| ==> Trim(bs[i].body.source) != Trim(bs[j].body.source)
  {
    hide Trim;
    var names := BoundSources(bs);
    assert forall i :: 0 <= i < |bs| ==> names[i] == Trim(bs[i].body.source);
    if Distinct(names) {
      forall i, j | 0 <= i < j < |bs| ensures Trim(bs[i].body.source) != Trim(bs[j].body.source) { assert names[i] != names[j]; }
    }
  }

  /******* Provenance *******/

  /** A genuine provenance statement of exactly this execution, workload, root and hardware. */
  predicate Proves(o: Oracle, l: Lease, r: Receipt, completion: Signed<Hardware>, profile: Profile, root: Root, s: Signed<Provenance>) {
    var p := s.body;
    p == Provenance("aegis.compute/workload-execution-provenance/v0", p.provenanceId, l.subject, l.leaseId, r.receiptId, l.contractDigest,
                    o.profileDigest(profile), profile.artifactDigest, root, o.hardwareDigest(completion), p.observedAt) &&
    o.provenanceGenuine(s) && !Blank(s.keyId) && !Blank(s.signature) && !Blank(p.provenanceId) && !Blank(l.subject) && !Blank(l.leaseId) &&
    !Blank(r.receiptId) && !Blank(l.contractDigest) && !Blank(o.profileDigest(profile)) && !Blank(profile.artifactDigest) &&
    !Blank(o.hardwareDigest(completion)) && !Blank(root.activationDigest) && !Blank(root.processDigest) && !Blank(root.cgroupDigest) &&
    !Blank(root.bootDigest) && p.observedAt != ZERO_TIME && r.startedAt <= p.observedAt <= r.finishedAt
  }

  /** A genuine binding of this measurement to that provenance. */
  predicate Ties(o: Oracle, l: Lease, r: Receipt, prov: Signed<Provenance>, m: Signed<Measurement>, s: Signed<Binding>) {
    var b := s.body;
    b == Binding("aegis.compute/measurement-execution-binding/v0", b.bindingId, b.source, o.measurementDigest(m), o.provenanceDigest(prov),
                 m.body.evidenceDigest, l.leaseId, r.receiptId, b.boundAt) &&
    o.bindingGenuine(s) && Trim(b.source) == Trim(m.body.source) && !Blank(b.source) && !Blank(s.keyId) && !Blank(s.signature) &&
    !Blank(b.bindingId) && !Blank(b.measurementDigest) && !Blank(b.provenanceDigest) && !Blank(b.evidenceDigest) && !Blank(l.leaseId) &&
    !Blank(r.receiptId) && b.boundAt != ZERO_TIME && b.boundAt >= prov.body.observedAt
  }

  ghost predicate TiesSome(o: Oracle, l: Lease, r: Receipt, prov: Signed<Provenance>, ms: seq<Signed<Measurement>>, s: Signed<Binding>) {
    exists j :: 0 <= j < |ms| && Ties(o, l, r, prov, ms[j], s)
  }

  /** The provenance proves the execution, and each of the named measurements has its binding. */
  ghost predicate EachRooted(o: Oracle, l: Lease, r: Receipt, completion: Signed<Hardware>, profile: Profile, root: Root,
                             prov: Signed<Provenance>, ms: seq<Signed<Measurement>>, bs: seq<Signed<Binding>>) {
    Proves(o, l, r, completion, profile, root, prov) && |bs| == |ms| &&
    (forall i :: 0 <= i < |ms| ==> Trim(ms[i].body.source) != "") &&
    (forall i, j :: 0 <= i < j < |ms| ==> Trim(ms[i].body.source) != Trim(ms[j].body.source)) &&
    (forall i, j :: 0 <= i < j < |bs| ==> Trim(bs[i].body.source) != Trim(bs[j].body.source)) &&
    forall i :: 0 <= i < |bs| ==> TiesSome(o, l, r, prov, ms, bs[i])
  }

  lemma ProvesMeaning(o: Oracle, l: Lease, r: Receipt, completion: Signed<Hardware>, profile: Profile, root: Root, s: Signed<Provenance>)
    ensures Proves(o, l, r, completion, profile, root, s) <==>
      RootComplete(root) && ProvenanceVerified(o, s) && ProvenanceBinds(o, l, r, completion, profile, root, s.body)
  {
    hide Blank;
  }

  lemma TiesMeaning(o: Oracle, l: Lease, r: Receipt, prov: Signed<Provenance>, m: Signed<Measurement>, s: Signed<Binding>)
    ensures Ties(o, l, r, prov, m, s) <==>
      BindingVerified(o, s) && Trim(m.body.source) == Trim(s.body.source) && BindingTies(o, l, r, prov, s.body, m)
  {
    hide Blank, Trim;
  }

  lemma RootMeaning(o: Oracle, l: Lease, r: Receipt, completion: Signed<Hardware>, profile: Profile, root: Root,
                    prov: Signed<Provenance>, ms: seq<Signed<Measurement>>, bs: seq<Signed<Binding>>)
    ensures Rooted(o, l, r, completion, profile, root, prov, ms, bs) <==> EachRooted(o, l, r, completion, profile, root, prov, ms, bs)
  {
    hide Trim, Distinct, Proves, Ties, RootComplete, ProvenanceVerified, ProvenanceBinds, BindingVerified, BindingTies;
    ProvesMeaning(o, l, r, completion, profile, root, prov);
    forall i | 0 <= i < |bs| ensures MeasurementRooted(o, l, r, prov, ms, bs[i]) <==> TiesSome(o, l, r, prov, ms, bs[i]) {
      forall j | 0 <= j < |ms| ensures Ties(o, l, r, prov, ms[j], bs[i]) <==>
        BindingVerified(o, bs[i]) && Trim(ms[j].body.source) == Trim(bs[i].body.source) && BindingTies(o, l, r, prov, bs[i].body, ms[j])
      {
        TiesMeaning(o, l, r, prov, ms[j], bs[i]);
      }
    }
    DistinctMeasured(ms);
    DistinctBound(bs);
    hide MeasurementRooted, TiesSome;
  }

  /******* The ladder *******/

  /** Every attributed observation shows every contracted fact. */
  predicate FactsShown(contract: Facts, obs: seq<Observation>) {
    obs != [] && forall i :: 0 <= i < |obs| ==>
      obs[i].source != "" && obs[i].evidenceDigest != "" && obs[i].observedAt != ZERO_TIME &&
      forall k :: k in contract ==> k in obs[i].facts && obs[i].facts[k] == contract[k]
  }

  lemma FactsMeaning(contract: Facts, obs: seq<Observation>)
    ensures AllMatch(contract, obs) <==> FactsShown(contract, obs)
  {
    if AllMatch(contract, obs) {
      forall i | 0 <= i < |obs| ensures Attributed(obs[i]) && forall k :: k in contract ==> k in obs[i].facts && obs[i].facts[k] == contract[k] {
        assert forall k :: k in contract ==> Agrees(contract, obs[i].facts, k);
      }
    }
  }

  /** The source is named like the observation's, carries its evidence and time, and is about the subject. */
  predicate Vouches(s: Source, x: Observation, subject: string) {
    s == Source(s.name, x.evidenceDigest, x.observedAt, s.subject) && Trim(s.name) == x.source && x.source != "" &&
    !Blank(x.evidenceDigest) && x.observedAt != ZERO_TIME && s.subject.Some? && Trim(s.subject.value) == Trim(subject)
  }

  predicate HasVoucher(sources: seq<Source>, x: Observation, subject: string) {
    exists j :: 0 <= j < |sources| && Vouches(sources[j], x, subject)
  }

  /** As many sources as observations, no name twice on either side, and each observation vouched for. */
  predicate AllVouched(obs: seq<Observation>, sources: seq<Source>, subject: string) {
    Trim(subject) != "" && obs != [] && |sources| == |obs| &&
    (forall i, j :: 0 <= i < j < |sources| ==> Trim(sources[i].name) != Trim(sources[j].name)) &&
    (forall i, j :: 0 <= i < j < |obs| ==> obs[i].source != obs[j].source) &&
    (forall i :: 0 <= i < |obs| ==> HasVoucher(sources, obs[i], subject)) &&
    forall j :: 0 <= j < |sources| ==> SourceComplete(sources[j], Trim(subject))
  }

  lemma EvidenceMeaning(obs: seq<Observation>, sources: seq<Source>, subject: string)
    ensures EvidenceBound(obs, sources, subject) <==> AllVouched(obs, sources, subject)
  {
    hide Trim, Blank;
    var names, reporters := Names(sources), Reporters(obs);
    assert forall i :: 0 <= i < |sources| ==> names[i] == Trim(sources[i].name);
    assert forall i :: 0 <= i < |obs| ==> reporters[i] == obs[i].source;
    if Distinct(names) {
      forall i, j | 0 <= i < j < |sources| ensures Trim(sources[i].name) != Trim(sources[j].name) { assert names[i] != names[j]; }
    }
    if Distinct(reporters) {
      forall i, j | 0 <= i < j < |obs| ensures obs[i].source != obs[j].source { assert reporters[i] != reporters[j]; }
    }
    if forall j :: 0 <= j < |sources| ==> SourceComplete(sources[j], Trim(subject)) {
      forall i | 0 <= i < |obs| ensures Backed(sources, obs[i]) <==> HasVoucher(sources, obs[i], subject) {
        assert forall j :: 0 <= j < |sources| ==> (Backs(sources[j], obs[i]) <==> Vouches(sources[j], obs[i], subject));
      }
    }
  }

  /** The stream carries the evidence that the last observation of its source names. */
  predicate Carries<T>(obs: seq<Observation>, s: Stream<T>) {
    !Blank(s.digest) && Trim(s.source) != "" &&
    exists j :: 0 <= j < |obs| && obs[j].source == Trim(s.source) && obs[j].evidenceDigest == s.digest &&
                forall k :: j < k < |obs| ==> obs[k].source != obs[j].source
  }

  lemma {:induction false} BySourceMeaning(obs: seq<Observation>, name: string, digest: string)
    ensures name in BySource(obs) && BySource(obs)[name].evidenceDigest == digest <==>
      exists j :: 0 <= j < |obs| && obs[j].source == name && obs[j].evidenceDigest == digest &&
                  forall k :: j < k < |obs| ==> obs[k].source != obs[j].source
    decreases |obs|
  {
    if obs != [] {
      var n := |obs| - 1;
      var front := obs[..n];
      BySourceMeaning(front, name, digest);
      if obs[n].source == name {
        assert forall j :: 0 <= j < n && obs[j].source == name ==> j < n < |obs| && obs[n].source == obs[j].source;
      } else {
        if j :| 0 <= j < n && front[j].source == name && front[j].evidenceDigest == digest && forall k :: j < k < n ==> front[k].source != front[j].source {
          assert obs[j] == front[j];
          assert forall k :: j < k < n ==> obs[k] == front[k];
        }
        if j :| 0 <= j < |obs| && obs[j].source == name && obs[j].evidenceDigest == digest && forall k :: j < k < |obs| ==> obs[k].source != obs[j].source {
          assert j < n && obs[j] == front[j];
          assert forall k :: j < k < n ==> obs[k] == front[k];
        }
      }
    }
  }

  /** At least two streams, under different names, each carrying assessed evidence. */
  predicate TwoSources<T>(obs: seq<Observation>, streams: seq<Stream<T>>) {
    |streams| >= 2 && (forall i, j :: 0 <= i < j < |streams| ==> Trim(streams[i].source) != Trim(streams[j].source)) &&
    forall i :: 0 <= i < |streams| ==> Carries(obs, streams[i])
  }

  lemma StreamsMeaning<T>(obs: seq<Observation>, streams: seq<Stream<T>>)
    ensures StreamsBound(obs, streams) <==> TwoSources(obs, streams)
  {
    hide Trim, Blank, BySource;
    forall i | 0 <= i < |streams| ensures HeaderOk(BySource(obs), streams[i]) <==> Carries(obs, streams[i]) {
      BySourceMeaning(obs, Trim(streams[i].source), streams[i].digest);
    }
    var names := StreamNames(streams);
    assert forall i :: 0 <= i < |streams| ==> names[i] == Trim(streams[i].source);
    if Distinct(names) {
      forall i, j | 0 <= i < j < |streams| ensures Trim(streams[i].source) != Trim(streams[j].source) { assert names[i] != names[j]; }
    }
    hide HeaderOk, Carries;
  }

  ghost predicate DeliversSome(w: Window, q: Metering.Requirement, items: seq<Metering.Slice>) { exists t :: Delivers(w, q, items, t) }

  ghost predicate DegradesSome(w: Window, env: Performance.Envelope, items: seq<Performance.Sample>) { exists t :: Degrades(w, env, items, t) }

  /** Facts, hardware and meters are in order, so meters and samples count. */
  ghost predicate Accountable(o: Oracle, c: Case) {
    FactsShown(c.contract, c.obs) && AllVouched(c.obs, c.sources, c.subject) && c.independent &&
    SameMachine(o, c.lease, c.receipt, c.admission, c.completion, c.policy) &&
    c.requirement.expected > 0 && c.requirement.requiredGpus > 0 && TwoSources(c.obs, c.meters) &&
    forall i :: 0 <= i < |c.meters| ==> DeliversSome(c.MeterWindow(), c.requirement, c.meters[i].items)
  }

  /** The performance evidence is in order, measured for this workload, and rooted in this execution. */
  ghost predicate Performing(o: Oracle, c: Case) {
    var env := c.envelope;
    !Blank(env.metric) && !Blank(env.unit) && env.minimum > 0 && env.maxGap >= 0 && env.maxBelow >= 0 && TwoSources(c.obs, c.performance) &&
    (forall i :: 0 <= i < |c.performance| ==> DegradesSome(c.PerfWindow(), env, c.performance[i].items)) &&
    Complete(c.profile) && EachMeasured(o, c.lease, c.receipt, env, c.profile, c.performance, c.measurements) &&
    EachRooted(o, c.lease, c.receipt, c.completion, c.profile, c.root, c.provenance, c.measurements, c.bindings)
  }

  lemma AccountableMeaning(o: Oracle, c: Case)
    ensures c.Delivered(o) <==> Accountable(o, c)
  {
    hide SameMachine, Continuous, StreamsBound, TwoSources, EvidenceBound, AllVouched, AllMatch, FactsShown, Delivers, Metering.Acceptable;
    FactsMeaning(c.contract, c.obs);
    EvidenceMeaning(c.obs, c.sources, c.subject);
    HardwareMeaning(o, c.lease, c.receipt, c.admission, c.completion, c.policy);
    StreamsMeaning(c.obs, c.meters);
    forall i | 0 <= i < |c.meters| ensures
      Metering.Acceptable(c.MeterWindow(), c.requirement, c.meters[i].items) <==> DeliversSome(c.MeterWindow(), c.requirement, c.meters[i].items)
    {
      DeliversMeaning(c.MeterWindow(), c.requirement, c.meters[i].items);
    }
  }

  lemma PerformingMeaning(o: Oracle, c: Case)
    ensures c.PerformanceHolds() && c.WorkloadHolds(o) && c.RootHolds(o) <==> Performing(o, c)
  {
    hide StreamsBound, TwoSources, Degrades, Performance.Acceptable, WorkloadBound, Rooted, EachMeasured, EachRooted, Complete, Blank;
    StreamsMeaning(c.obs, c.performance);
    forall i | 0 <= i < |c.performance| ensures
      Performance.Acceptable(c.PerfWindow(), c.envelope, c.performance[i].items) <==> DegradesSome(c.PerfWindow(), c.envelope, c.performance[i].items)
    {
      DegradesMeaning(c.PerfWindow(), c.envelope, c.performance[i].items);
    }
    WorkloadMeaning(o, c.lease, c.receipt, c.envelope, c.profile, c.performance, c.measurements);
    RootMeaning(o, c.lease, c.receipt, c.completion, c.profile, c.root, c.provenance, c.measurements, c.bindings);
  }

  /** Every meter shows this total. */
  ghost predicate Total(c: Case, t: int) { AllDeliver(c.MeterWindow(), c.requirement, c.meters, t) }

  ghost predicate CreditByMeters(c: Case) { exists t :: t < c.requirement.expected && Total(c, t) }

  ghost predicate CreditBySamples(c: Case) {
    exists t :: t > c.envelope.maxBelow && AllDegrade(c.PerfWindow(), c.envelope, c.performance, t)
  }

  ghost predicate DisputedMeters(c: Case) {
    MetersDisagree(c.MeterWindow(), c.requirement, c.meters) || exists t :: t > c.requirement.expected && Total(c, t)
  }

  lemma MetersOf(c: Case)
    requires c.MeteringHolds()
    ensures |c.meters| >= 2 && MetersAccepted(c.MeterWindow(), c.requirement, c.meters)
    ensures var d := MeterDisposition(c.MeterWindow(), c.requirement, c.meters);
      Downgrades(Settled, d) && (d == CreditDue <==> CreditByMeters(c)) && (d == Disputed <==> DisputedMeters(c)) &&
      (d == Settled <==> Total(c, c.requirement.expected)) &&
      (EveryTotal(c.MeterWindow(), c.requirement, c.meters, c.requirement.expected) <==> Total(c, c.requirement.expected))
  {
    hide MeterDisposition, AllDeliver, MetersDisagree, EveryTotal;
    MeterSettled(c.MeterWindow(), c.requirement, c.obs, c.meters);
    MeterMeaning(c.MeterWindow(), c.requirement, c.meters);
    assert forall t :: Total(c, t) <==> AllDeliver(c.MeterWindow(), c.requirement, c.meters, t);
  }

  lemma SamplesOf(c: Case)
    requires c.PerformanceHolds()
    ensures |c.performance| >= 2 && SamplesAccepted(c.PerfWindow(), c.envelope, c.performance)
    ensures var d := PerfDisposition(c.PerfWindow(), c.envelope, c.performance);
      Downgrades(Settled, d) && (d == CreditDue <==> CreditBySamples(c)) &&
      (d == Disputed <==> SamplesDisagree(c.PerfWindow(), c.envelope, c.performance)) &&
      (d == Settled <==> AllWithin(c.PerfWindow(), c.envelope, c.performance)) &&
      (d == Settled <==> AllCompliant(c.PerfWindow(), c.envelope, c.performance))
  {
    hide PerfDisposition, AllWithin, AllDegrade, SamplesDisagree, AllCompliant;
    PerfSettled(c.PerfWindow(), c.envelope, c.obs, c.performance);
    PerfMeaning(c.PerfWindow(), c.envelope, c.performance);
  }

  /** The contracted total is shown, and complete performance evidence follows. */
  ghost predicate MeteredAndPerforming(o: Oracle, c: Case) { Total(c, c.requirement.expected) && Performing(o, c) }

  ghost predicate EarnsCredit(o: Oracle, c: Case) {
    Accountable(o, c) && (CreditByMeters(c) || (MeteredAndPerforming(o, c) && CreditBySamples(c)))
  }

  ghost predicate InDispute(o: Oracle, c: Case) {
    Accountable(o, c) &&
    (DisputedMeters(c) || (MeteredAndPerforming(o, c) && SamplesDisagree(c.PerfWindow(), c.envelope, c.performance)))
  }

  /** The disposition of a case, in terms of its slices, samples and documents.  Metering decides
      a shortfall or a disagreement by itself; once it shows the contracted total, complete
      performance evidence decides. */
  lemma CaseMeaning(o: Oracle, c: Case)
    ensures c.Final(o) == Settled <==>
            Accountable(o, c) && MeteredAndPerforming(o, c) && AllWithin(c.PerfWindow(), c.envelope, c.performance)
    ensures c.Final(o) == CreditDue <==> EarnsCredit(o, c)
    ensures c.Final(o) == Disputed <==> InDispute(o, c)
  {
    hide MeterDisposition, PerfDisposition, EveryTotal, AllCompliant, Accountable, Performing, AllWithin, SamplesDisagree, Total,
      CreditByMeters, CreditBySamples, DisputedMeters, Metered, Performed, WorkloadBound, Rooted;
    AccountableMeaning(o, c);
    PerformingMeaning(o, c);
    if c.Delivered(o) {
      MetersOf(c);
      if c.PerformanceHolds() { SamplesOf(c); }
    }
  }
}
