/** The evidence digest of an authorization (`DigestEvidence`,
    internal/decision/authorization.go): one line per observation, its fields joined by a
    unit separator, the sorted lines joined by a record separator. */
module EvidenceText {
  import opened Text
  import opened Framing

  datatype Observation = Observation(claim: string, source: string, value: string, observedAt: int)

  const UNIT_SEPARATOR: char := 0x1F as char
  const RECORD_SEPARATOR: char := 0x1E as char

  /** `stamp` is the UTC time format; `h` the prefixed hash. */
  datatype Hashing = Hashing(stamp: int -> string, h: string -> string)

  /** Times format apart, and without separators. */
  ghost predicate StampsApart(d: Hashing) {
    (forall s, t :: d.stamp(s) == d.stamp(t) ==> s == t) &&
    forall t :: UNIT_SEPARATOR !in d.stamp(t) && RECORD_SEPARATOR !in d.stamp(t)
  }

  function Line(d: Hashing, o: Observation): string {
    Join([o.claim, o.source, o.value, d.stamp(o.observedAt)], UNIT_SEPARATOR)
  }

  function Lines(d: Hashing, evidence: seq<Observation>): (r: seq<string>)
    ensures |r| == |evidence| && forall i :: 0 <= i < |r| ==> r[i] == Line(d, evidence[i])
  {
    seq(|evidence|, i requires 0 <= i < |evidence| => Line(d, evidence[i]))
  }

  /** The text that is hashed. */
  function EvidenceLines(d: Hashing, evidence: seq<Observation>): seq<string> {
    Arranged(Less, Lines(d, evidence))
  }

  function EvidenceBytes(d: Hashing, evidence: seq<Observation>): string {
    Join(EvidenceLines(d, evidence), RECORD_SEPARATOR)
  }

  function EvidenceDigest(d: Hashing, evidence: seq<Observation>): string {
    d.h(EvidenceBytes(d, evidence))
  }

  lemma LinesConcat(d: Hashing, a: seq<Observation>, b: seq<Observation>)
    ensures Lines(d, a + b) == Lines(d, a) + Lines(d, b)
  {
    hide Line;
  }

  lemma TakeOut<T>(b: seq<T>, x: T) returns (before: seq<T>, after: seq<T>)
    requires x in b
    ensures b == before + [x] + after
    ensures multiset(before + after) == multiset(b) - multiset{x}
  {
    var k :| 0 <= k < |b| && b[k] == x;
    before, after := b[..k], b[k + 1..];
    assert b == before + [x] + after;
  }

  lemma {:induction false} LinesMultiset(d: Hashing, a: seq<Observation>, b: seq<Observation>)
    requires multiset(a) == multiset(b)
    ensures multiset(Lines(d, a)) == multiset(Lines(d, b))
    decreases |a|
  {
    hide Lines;
    assert |a| == |multiset(a)| == |multiset(b)| == |b|;
    if a == [] {
      assert a == b;
    } else {
      assert a[0] in multiset(b);
      var before, after := TakeOut(b, a[0]);
      MultisetTail(a);
      LinesMultiset(d, a[1..], before + after);
      LinesConcat(d, [a[0]], a[1..]);
      LinesConcat(d, before + [a[0]], after);
      LinesConcat(d, before, [a[0]]);
      LinesConcat(d, before, after);
    }
  }

  /** The sorted lines are the lines of the observations. */
  lemma EvidenceLinesOf(d: Hashing, evidence: seq<Observation>)
    ensures multiset(EvidenceLines(d, evidence)) == multiset(Lines(d, evidence))
    ensures |EvidenceLines(d, evidence)| == |evidence|
  {
    hide Less, Lines;
    LessIsAnOrder();
    ArrangedSorted(Less, Lines(d, evidence));
    assert |EvidenceLines(d, evidence)| == |multiset(EvidenceLines(d, evidence))|;
    assert |Lines(d, evidence)| == |multiset(Lines(d, evidence))|;
  }

  lemma LineOf(d: Hashing, evidence: seq<Observation>, i: nat) returns (k: nat)
    requires i < |EvidenceLines(d, evidence)|
    ensures k < |evidence| && EvidenceLines(d, evidence)[i] == Line(d, evidence[k])
  {
    hide Line;
    EvidenceLinesOf(d, evidence);
    var x := EvidenceLines(d, evidence);
    assert x[i] in multiset(x);
    k :| 0 <= k < |Lines(d, evidence)| && Lines(d, evidence)[k] == x[i];
  }

  lemma BytesPermutation(d: Hashing, a: seq<Observation>, b: seq<Observation>)
    requires multiset(Lines(d, a)) == multiset(Lines(d, b))
    ensures EvidenceBytes(d, a) == EvidenceBytes(d, b)
  {
    hide Less, Lines;
    LessIsAnOrder();
    ArrangedSame(Less, Lines(d, a), Lines(d, b));
  }

  /** The digest does not depend on the order of the observations. */
  lemma DigestPermutation(d: Hashing, a: seq<Observation>, b: seq<Observation>)
    requires multiset(a) == multiset(b)
    ensures EvidenceDigest(d, a) == EvidenceDigest(d, b)
  {
    LinesMultiset(d, a, b);
    BytesPermutation(d, a, b);
  }

  /** `DigestEvidence` */
  method DigestEvidence(d: Hashing, evidence: seq<Observation>) returns (digest: string)
    ensures digest == EvidenceDigest(d, evidence)
  {
    hide Line, Less, Join;
    var lines: seq<string> := [];
    for i := 0 to |evidence|
      invariant lines == Lines(d, evidence)[..i]
    {
      lines := lines + [Line(d, evidence[i])];
    }
    assert Lines(d, evidence)[..|evidence|] == Lines(d, evidence);
    LessIsAnOrder();
    var sorted := SortBy(Less, lines);
    ArrangedUnique(Less, Lines(d, evidence), sorted);
    digest := d.h(Join(sorted, RECORD_SEPARATOR));
  }

  /******* Reading a line off the text *******/

  /** No field of the observation holds the unit separator; a record separator may occur. */
  predicate Plain(o: Observation) {
    UNIT_SEPARATOR !in o.claim && UNIT_SEPARATOR !in o.source && UNIT_SEPARATOR !in o.value
  }

  predicate AllPlain(evidence: seq<Observation>) {
    forall i :: 0 <= i < |evidence| ==> Plain(evidence[i])
  }

  lemma LineForm(d: Hashing, o: Observation)
    ensures Line(d, o) == o.claim + [UNIT_SEPARATOR] + (o.source + [UNIT_SEPARATOR] + (o.value + [UNIT_SEPARATOR] + d.stamp(o.observedAt)))
  {
    var f := [o.claim, o.source, o.value, d.stamp(o.observedAt)];
    assert f[1..] == [o.source, o.value, d.stamp(o.observedAt)];
    assert f[1..][1..] == [o.value, d.stamp(o.observedAt)];
    assert f[1..][1..][1..] == [d.stamp(o.observedAt)];
    assert Join(f[1..][1..][1..], UNIT_SEPARATOR) == d.stamp(o.observedAt);
    assert Join(f[1..][1..], UNIT_SEPARATOR) == o.value + [UNIT_SEPARATOR] + d.stamp(o.observedAt);
    assert Join(f[1..], UNIT_SEPARATOR) == o.source + [UNIT_SEPARATOR] + Join(f[1..][1..], UNIT_SEPARATOR);
  }

  /** Where the first line ends: at the first record separator after `k` more unit separators. */
  function Cut(s: string, k: nat): (n: nat)
    ensures n <= |s|
  {
    if s == "" then 0
    else if k == 0 then (if s[0] == RECORD_SEPARATOR then 0 else 1 + Cut(s[1..], 0))
    else if s[0] == UNIT_SEPARATOR then 1 + Cut(s[1..], k - 1)
    else 1 + Cut(s[1..], k)
  }

  lemma {:induction false} CutField(p: string, s: string, k: nat)
    requires UNIT_SEPARATOR !in p && k > 0
    ensures Cut(p + [UNIT_SEPARATOR] + s, k) == |p| + 1 + Cut(s, k - 1)
  {
    var t := p + [UNIT_SEPARATOR] + s;
    if p == "" {
      assert t[1..] == s;
    } else {
      assert t[1..] == p[1..] + [UNIT_SEPARATOR] + s && t[0] == p[0];
      CutField(p[1..], s, k);
    }
  }

  lemma {:induction false} CutStamp(t: string, tail: string)
    requires RECORD_SEPARATOR !in t && (tail == "" || tail[0] == RECORD_SEPARATOR)
    ensures Cut(t + tail, 0) == |t|
  {
    if t == "" {
      assert t + tail == tail;
    } else {
      assert (t + tail)[1..] == t[1..] + tail;
      CutStamp(t[1..], tail);
    }
  }

  lemma CutLine(d: Hashing, o: Observation, tail: string)
    requires Plain(o) && StampsApart(d) && (tail == "" || tail[0] == RECORD_SEPARATOR)
    ensures Cut(Line(d, o) + tail, 3) == |Line(d, o)|
  {
    hide Cut, Line;
    LineForm(d, o);
    var t := d.stamp(o.observedAt);
    var v := o.value + [UNIT_SEPARATOR] + (t + tail);
    var s := o.source + [UNIT_SEPARATOR] + v;
    assert Line(d, o) + tail == o.claim + [UNIT_SEPARATOR] + s;
    CutField(o.claim, s, 3);
    CutField(o.source, v, 2);
    CutField(o.value, t + tail, 1);
    CutStamp(t, tail);
  }

  ghost predicate PlainLine(d: Hashing, l: string) {
    exists o :: Plain(o) && Line(d, o) == l
  }

  lemma LineNotEmpty(d: Hashing, o: Observation)
    ensures Line(d, o) != ""
  {
    LineForm(d, o);
  }

  /** What follows the first line of a joined text. */
  function TailOf(x: seq<string>): string {
    if |x| <= 1 then "" else [RECORD_SEPARATOR] + Join(x[1..], RECORD_SEPARATOR)
  }

  lemma JoinHead(x: seq<string>)
    requires x != []
    ensures Join(x, RECORD_SEPARATOR) == x[0] + TailOf(x)
  {
  }

  lemma FirstLine(d: Hashing, x: seq<string>)
    requires x != [] && PlainLine(d, x[0]) && StampsApart(d)
    ensures Cut(Join(x, RECORD_SEPARATOR), 3) == |x[0]| && x[0] != ""
  {
    hide Cut, Line, Plain, StampsApart, Join;
    var o :| Plain(o) && Line(d, o) == x[0];
    JoinHead(x);
    LineNotEmpty(d, o);
    CutLine(d, o, TailOf(x));
  }

  /** A joined text of plain lines can be read in one way only, record separators inside
      fields notwithstanding. */
  lemma {:induction false} JoinedLinesUnique(d: Hashing, x: seq<string>, y: seq<string>)
    requires StampsApart(d)
    requires (forall i :: 0 <= i < |x| ==> PlainLine(d, x[i])) && (forall i :: 0 <= i < |y| ==> PlainLine(d, y[i]))
    requires Join(x, RECORD_SEPARATOR) == Join(y, RECORD_SEPARATOR)
    ensures x == y
    decreases |x|
  {
    hide Cut, PlainLine, StampsApart, Join;
    EmptyJoin();
    if x != [] { FirstLine(d, x); JoinHead(x); }
    if y != [] { FirstLine(d, y); JoinHead(y); }
    if x != [] && y != [] {
      SameHead(x, y);
      if |x| > 1 {
        JoinedLinesUnique(d, x[1..], y[1..]);
        assert x == [x[0]] + x[1..] && y == [y[0]] + y[1..];
      }
    }
  }

  lemma EmptyJoin()
    ensures Join([], RECORD_SEPARATOR) == ""
  {
  }

  lemma SameHead(x: seq<string>, y: seq<string>)
    requires x != [] && y != [] && |x[0]| == |y[0]| && x[0] + TailOf(x) == y[0] + TailOf(y)
    ensures x[0] == y[0] && (|x| > 1 <==> |y| > 1)
    ensures |x| > 1 ==> Join(x[1..], RECORD_SEPARATOR) == Join(y[1..], RECORD_SEPARATOR)
  {
    hide Join;
    var s, n := x[0] + TailOf(x), |x[0]|;
    assert x[0] == s[..n] && y[0] == s[..n];
    assert TailOf(x) == s[n..] && TailOf(y) == s[n..];
    if |x| > 1 && |y| > 1 {
      assert Join(x[1..], RECORD_SEPARATOR) == TailOf(x)[1..] && Join(y[1..], RECORD_SEPARATOR) == TailOf(y)[1..];
    }
  }

  /******* Lines and observations *******/

  /** Two plain observations with the same line are the same. */
  lemma LineInjective(d: Hashing, o: Observation, p: Observation)
    requires StampsApart(d) && Plain(o) && Plain(p) && Line(d, o) == Line(d, p)
    ensures o == p
  {
    var f, g := [o.claim, o.source, o.value, d.stamp(o.observedAt)], [p.claim, p.source, p.value, d.stamp(p.observedAt)];
    assert Without(f, UNIT_SEPARATOR) && Without(g, UNIT_SEPARATOR);
    JoinInjective(f, g, UNIT_SEPARATOR);
    assert f[0] == g[0] && f[1] == g[1] && f[2] == g[2] && f[3] == g[3];
  }

  lemma {:induction false} LinesDetermineEvidence(d: Hashing, a: seq<Observation>, b: seq<Observation>)
    requires StampsApart(d) && AllPlain(a) && AllPlain(b)
    requires multiset(Lines(d, a)) == multiset(Lines(d, b))
    ensures multiset(a) == multiset(b)
    decreases |a|
  {
    hide Line, StampsApart, Plain;
    assert |Lines(d, a)| == |multiset(Lines(d, a))| == |multiset(Lines(d, b))| == |Lines(d, b)|;
    if a != [] {
      assert Lines(d, a)[0] in multiset(Lines(d, b));
      var k :| 0 <= k < |Lines(d, b)| && Lines(d, b)[k] == Lines(d, a)[0];
      LineInjective(d, a[0], b[k]);
      RemoveLine(d, a, b, k);
      var rest := b[..k] + b[k + 1..];
      assert AllPlain(a[1..]) && AllPlain(rest);
      LinesDetermineEvidence(d, a[1..], rest);
      assert a == [a[0]] + a[1..] && b == b[..k] + [b[k]] + b[k + 1..];
    }
  }

  lemma RemoveLine(d: Hashing, a: seq<Observation>, b: seq<Observation>, k: nat)
    requires a != [] && k < |b| && b[k] == a[0] && multiset(Lines(d, a)) == multiset(Lines(d, b))
    ensures multiset(Lines(d, a[1..])) == multiset(Lines(d, b[..k] + b[k + 1..]))
  {
    hide Lines;
    assert a == [a[0]] + a[1..] && b == b[..k] + [b[k]] + b[k + 1..];
    LinesConcat(d, [a[0]], a[1..]);
    LinesConcat(d, b[..k] + [b[k]], b[k + 1..]);
    LinesConcat(d, b[..k], [b[k]]);
    LinesConcat(d, b[..k], b[k + 1..]);
    var one, rest := Lines(d, [a[0]]), Lines(d, a[1..]);
    var before, after := Lines(d, b[..k]), Lines(d, b[k + 1..]);
    Cancel(one, rest, before, after);
  }

  lemma Cancel<T>(one: seq<T>, rest: seq<T>, before: seq<T>, after: seq<T>)
    requires multiset(one + rest) == multiset(before + one + after)
    ensures multiset(rest) == multiset(before + after)
  {
    var a, b, c, e := multiset(one), multiset(rest), multiset(before), multiset(after);
    assert multiset(one + rest) == a + b && multiset(before + one + after) == c + a + e;
    assert b == (a + b) - a && c + e == (c + a + e) - a;
    assert multiset(before + after) == c + e;
  }

  lemma AllLinesPlain(d: Hashing, a: seq<Observation>)
    requires AllPlain(a)
    ensures forall i :: 0 <= i < |EvidenceLines(d, a)| ==> PlainLine(d, EvidenceLines(d, a)[i])
  {
    hide Line, Plain, EvidenceLines;
    forall i | 0 <= i < |EvidenceLines(d, a)| ensures PlainLine(d, EvidenceLines(d, a)[i]) {
      var k := LineOf(d, a, i);
      assert Plain(a[k]) && Line(d, a[k]) == EvidenceLines(d, a)[i];
    }
  }

  /** On plain evidence the text determines the observations with their multiplicities. */
  lemma BytesDetermineEvidence(d: Hashing, a: seq<Observation>, b: seq<Observation>)
    requires StampsApart(d) && AllPlain(a) && AllPlain(b)
    ensures EvidenceBytes(d, a) == EvidenceBytes(d, b) <==> multiset(a) == multiset(b)
  {
    hide Line, StampsApart, Plain, EvidenceLines, PlainLine, Join;
    if multiset(a) == multiset(b) {
      LinesMultiset(d, a, b);
      BytesPermutation(d, a, b);
    }
    if EvidenceBytes(d, a) == EvidenceBytes(d, b) {
      AllLinesPlain(d, a);
      AllLinesPlain(d, b);
      JoinedLinesUnique(d, EvidenceLines(d, a), EvidenceLines(d, b));
      EvidenceLinesOf(d, a);
      EvidenceLinesOf(d, b);
      LinesDetermineEvidence(d, a, b);
    }
  }

  /** The digest binds plain evidence up to order, unless the hash collides. */
  lemma DigestBindsEvidence(d: Hashing, a: seq<Observation>, b: seq<Observation>)
    requires StampsApart(d) && AllPlain(a) && AllPlain(b)
    ensures multiset(a) == multiset(b) ==> EvidenceDigest(d, a) == EvidenceDigest(d, b)
    ensures EvidenceDigest(d, a) == EvidenceDigest(d, b) ==> multiset(a) == multiset(b) || Collide(d.h, EvidenceBytes(d, a), EvidenceBytes(d, b))
  {
    hide EvidenceBytes, StampsApart, AllPlain;
    BytesDetermineEvidence(d, a, b);
  }

  /******* Exactly when a text is ambiguous *******/

  /** Another observation with the same line: a unit separator moves into the next field. */
  lemma ShiftSeparator(d: Hashing, o: Observation) returns (p: Observation)
    requires !Plain(o)
    ensures p != o && Line(d, p) == Line(d, o)
  {
    hide Line;
    var sep := [UNIT_SEPARATOR];
    LineForm(d, o);
    if UNIT_SEPARATOR in o.claim {
      var x, y := Halves(o.claim);
      p := o.(claim := x, source := y + sep + o.source);
      LineForm(d, p);
      Move1(x, y, o.source, o.value + sep + d.stamp(o.observedAt));
    } else if UNIT_SEPARATOR in o.source {
      var x, y := Halves(o.source);
      p := o.(claim := o.claim + sep + x, source := y);
      LineForm(d, p);
      Move1(o.claim, x, y, o.value + sep + d.stamp(o.observedAt));
    } else {
      var x, y := Halves(o.value);
      p := o.(source := o.source + sep + x, value := y);
      LineForm(d, p);
      Move2(o.claim, o.source, x, y, d.stamp(o.observedAt));
    }
  }

  lemma Halves(s: string) returns (x: string, y: string)
    requires UNIT_SEPARATOR in s
    ensures s == x + [UNIT_SEPARATOR] + y && |x| < |s| && |y| < |s|
  {
    var i :| 0 <= i < |s| && s[i] == UNIT_SEPARATOR;
    x, y := s[..i], s[i + 1..];
  }

  lemma Move1(x: string, y: string, z: string, rest: string)
    ensures var sep := [UNIT_SEPARATOR];
      x + sep + (y + sep + z + sep + rest) == x + sep + y + sep + (z + sep + rest)
  {
  }

  lemma Move2(c: string, s: string, x: string, y: string, t: string)
    ensures var sep := [UNIT_SEPARATOR];
      c + sep + (s + sep + x + sep + (y + sep + t)) == c + sep + (s + sep + (x + sep + y + sep + t))
  {
  }

  /** Two different observations with one digest. */
  lemma SeparatorForgesEvidence(d: Hashing, t: int)
    ensures var sep := [UNIT_SEPARATOR];
      var o, p := Observation("a" + sep + "b", "c", "d", t), Observation("a", "b" + sep + "c", "d", t);
      o != p && EvidenceDigest(d, [o]) == EvidenceDigest(d, [p])
  {
    hide Line, EvidenceBytes;
    var sep := [UNIT_SEPARATOR];
    var o, p := Observation("a" + sep + "b", "c", "d", t), Observation("a", "b" + sep + "c", "d", t);
    LineForm(d, o);
    LineForm(d, p);
    Move1("a", "b", "c", "d" + sep + d.stamp(t));
    SingleText(d, o);
    SingleText(d, p);
    assert |o.claim| != |p.claim|;
  }

  /** An observation shares its line with another one exactly when a field of it holds the
      unit separator. */
  lemma LineAmbiguousIff(d: Hashing, o: Observation)
    requires StampsApart(d)
    ensures (exists p :: p != o && Line(d, p) == Line(d, o)) <==> !Plain(o)
  {
    if !Plain(o) { var p := ShiftSeparator(d, o); }
    if Plain(o) {
      forall p | Line(d, p) == Line(d, o) ensures p == o {
        SameLinePlain(d, o, p);
        LineInjective(d, o, p);
      }
    }
  }

  function Units(s: string): nat { Count(s, UNIT_SEPARATOR) }

  lemma LineUnits(d: Hashing, o: Observation)
    requires StampsApart(d)
    ensures Units(Line(d, o)) >= 3 && (Units(Line(d, o)) == 3 <==> Plain(o))
  {
    hide Line, Count;
    LineForm(d, o);
    var sep, t := [UNIT_SEPARATOR], d.stamp(o.observedAt);
    OneUnit();
    CountConcat(o.claim + sep, o.source + sep + (o.value + sep + t), UNIT_SEPARATOR);
    CountConcat(o.claim, sep, UNIT_SEPARATOR);
    CountConcat(o.source + sep, o.value + sep + t, UNIT_SEPARATOR);
    CountConcat(o.source, sep, UNIT_SEPARATOR);
    CountConcat(o.value + sep, t, UNIT_SEPARATOR);
    CountConcat(o.value, sep, UNIT_SEPARATOR);
    CountNone(o.claim, UNIT_SEPARATOR);
    CountNone(o.source, UNIT_SEPARATOR);
    CountNone(o.value, UNIT_SEPARATOR);
    CountNone(t, UNIT_SEPARATOR);
  }

  lemma OneUnit()
    ensures Units([UNIT_SEPARATOR]) == 1 && Units([RECORD_SEPARATOR]) == 0
  {
    assert [UNIT_SEPARATOR][1..] == "" && [RECORD_SEPARATOR][1..] == "";
    assert Count("", UNIT_SEPARATOR) == 0;
  }

  lemma SameLinePlain(d: Hashing, o: Observation, p: Observation)
    requires StampsApart(d) && Plain(o) && Line(d, p) == Line(d, o)
    ensures Plain(p)
  {
    hide Line, Count;
    LineUnits(d, o);
    LineUnits(d, p);
  }

  /** The unit separators of a joined text, counted line by line. */
  lemma {:induction false} JoinUnits(d: Hashing, x: seq<string>)
    requires forall i :: 0 <= i < |x| ==> Units(x[i]) >= 3
    ensures Units(Join(x, RECORD_SEPARATOR)) >= 3 * |x|
    ensures Units(Join(x, RECORD_SEPARATOR)) == 3 * |x| <==> forall i :: 0 <= i < |x| ==> Units(x[i]) == 3
    decreases |x|
  {
    hide Join;
    EmptyJoin();
    if x == [] {
      assert Units("") == 0;
    } else {
      hide Count;
      JoinHead(x);
      CountConcat(x[0], TailOf(x), UNIT_SEPARATOR);
      if |x| == 1 {
        NoUnits();
      } else {
        JoinUnits(d, x[1..]);
        CountConcat([RECORD_SEPARATOR], Join(x[1..], RECORD_SEPARATOR), UNIT_SEPARATOR);
        OneUnit();
        var rest := x[1..];
        assert forall i :: 0 <= i < |rest| ==> rest[i] == x[i + 1];
        if Units(x[0]) == 3 && forall i :: 0 <= i < |rest| ==> Units(rest[i]) == 3 {
          forall i | 0 <= i < |x| ensures Units(x[i]) == 3 { if i > 0 { assert x[i] == rest[i - 1]; } }
        }
      }
    }
  }

  lemma NoUnits()
    ensures Units("") == 0
  {
  }

  /** Each observation costs three unit separators, and exactly three when it is plain. */
  lemma EvidenceUnits(d: Hashing, a: seq<Observation>)
    requires StampsApart(d)
    ensures Units(EvidenceBytes(d, a)) >= 3 * |a|
    ensures Units(EvidenceBytes(d, a)) == 3 * |a| <==> AllPlain(a)
  {
    hide Line, Count, Join, StampsApart, Plain, EvidenceLines;
    var x := EvidenceLines(d, a);
    EvidenceLinesOf(d, a);
    forall i | 0 <= i < |x| ensures Units(x[i]) >= 3 && (AllPlain(a) ==> Units(x[i]) == 3) {
      var k := LineOf(d, a, i);
      LineUnits(d, a[k]);
    }
    JoinUnits(d, x);
    if forall i :: 0 <= i < |x| ==> Units(x[i]) == 3 {
      forall k | 0 <= k < |a| ensures Plain(a[k]) {
        assert Lines(d, a)[k] in multiset(x);
        LineUnits(d, a[k]);
      }
    }
  }

  /** Evidence of the same length, with another multiset of observations and the same text,
      exists exactly when some field holds the unit separator. */
  lemma AmbiguousAtSameLengthIff(d: Hashing, a: seq<Observation>)
    requires StampsApart(d)
    ensures (exists b :: |b| == |a| && multiset(b) != multiset(a) && EvidenceBytes(d, b) == EvidenceBytes(d, a)) <==> !AllPlain(a)
  {
    hide EvidenceBytes, StampsApart, Plain;
    if AllPlain(a) {
      forall b | |b| == |a| && EvidenceBytes(d, b) == EvidenceBytes(d, a) ensures multiset(b) == multiset(a) {
        EvidenceUnits(d, a);
        EvidenceUnits(d, b);
        BytesDetermineEvidence(d, b, a);
      }
    } else {
      var b := Forge(d, a);
    }
  }

  lemma Forge(d: Hashing, a: seq<Observation>) returns (b: seq<Observation>)
    requires !AllPlain(a)
    ensures |b| == |a| && multiset(b) != multiset(a) && EvidenceBytes(d, b) == EvidenceBytes(d, a)
  {
    hide Line, EvidenceBytes;
    var i :| 0 <= i < |a| && !Plain(a[i]);
    var p := ShiftSeparator(d, a[i]);
    b := a[i := p];
    assert Lines(d, b) == Lines(d, a);
    BytesPermutation(d, b, a);
    assert multiset(b) == multiset(a) - multiset{a[i]} + multiset{p};
    assert multiset(b)[p] == multiset(a)[p] + 1;
  }

  /** Evidence of any length with another multiset and the same text exists exactly when a
      field holds the unit separator or there are two observations or more: a whole text
      can always pass for one observation with a long claim. */
  lemma AmbiguousIff(d: Hashing, a: seq<Observation>)
    requires StampsApart(d)
    ensures (exists b :: multiset(b) != multiset(a) && EvidenceBytes(d, b) == EvidenceBytes(d, a)) <==> !AllPlain(a) || |a| >= 2
  {
    hide EvidenceBytes, StampsApart, AllPlain;
    if !AllPlain(a) {
      var b := Forge(d, a);
    } else if |a| >= 2 {
      var b := Merge(d, a);
      assert |multiset(b)| == 1 && |multiset(a)| == |a|;
    } else {
      forall b | EvidenceBytes(d, b) == EvidenceBytes(d, a) ensures multiset(b) == multiset(a) {
        ShortTextUnique(d, a, b);
      }
    }
  }

  lemma ShortTextUnique(d: Hashing, a: seq<Observation>, b: seq<Observation>)
    requires StampsApart(d) && AllPlain(a) && |a| <= 1 && EvidenceBytes(d, b) == EvidenceBytes(d, a)
    ensures multiset(b) == multiset(a)
  {
    hide EvidenceBytes, StampsApart, AllPlain;
    EvidenceUnits(d, a);
    EvidenceUnits(d, b);
    if |b| == |a| {
      BytesDetermineEvidence(d, b, a);
    } else {
      EmptyText(d, b);
    }
  }

  lemma EmptyText(d: Hashing, b: seq<Observation>)
    ensures b == [] ==> Units(EvidenceBytes(d, b)) == 0
  {
  }

  /** All observations read as one. */
  lemma Merge(d: Hashing, a: seq<Observation>) returns (b: seq<Observation>)
    requires |a| >= 2
    ensures |b| == 1 && EvidenceBytes(d, b) == EvidenceBytes(d, a)
  {
    hide Line, EvidenceLines, Join;
    EvidenceLinesOf(d, a);
    var x := EvidenceLines(d, a);
    var n := |x| - 1;
    var k := LineOf(d, a, n);
    var p := a[k];
    var front := Join(x[..n], RECORD_SEPARATOR) + [RECORD_SEPARATOR];
    var q := p.(claim := front + p.claim);
    LineForm(d, p);
    LineForm(d, q);
    JoinLast(x);
    PrependClaim(front, p.claim, p.source + [UNIT_SEPARATOR] + (p.value + [UNIT_SEPARATOR] + d.stamp(p.observedAt)));
    b := [q];
    SingleText(d, q);
  }

  lemma PrependClaim(front: string, c: string, rest: string)
    ensures front + (c + [UNIT_SEPARATOR] + rest) == front + c + [UNIT_SEPARATOR] + rest
  {
  }

  lemma SingleText(d: Hashing, q: Observation)
    ensures EvidenceBytes(d, [q]) == Line(d, q)
  {
    hide Line, Less;
    var x := Lines(d, [q]);
    assert x == [Line(d, q)] && x[1..] == [];
    assert Arranged(Less, x[1..]) == [];
    assert Inserted(Less, [], x[0]) == [x[0]] + [];
    assert Arranged(Less, x) == [x[0]];
  }

  lemma {:induction false} JoinLast(x: seq<string>)
    requires |x| >= 2
    ensures Join(x, RECORD_SEPARATOR) == Join(x[..|x| - 1], RECORD_SEPARATOR) + [RECORD_SEPARATOR] + x[|x| - 1]
    decreases |x|
  {
    var n := |x| - 1;
    var front := x[..n];
    if n == 1 {
      assert x[1..] == [x[1]] && front == [x[0]];
    } else {
      JoinLast(x[1..]);
      assert x[1..][..n - 1] == front[1..];
      Associate(x[0] + [RECORD_SEPARATOR], Join(front[1..], RECORD_SEPARATOR), [RECORD_SEPARATOR], x[n]);
    }
  }

  lemma Associate(a: string, b: string, c: string, d: string)
    ensures a + (b + c + d) == a + b + c + d
  {
  }
}
