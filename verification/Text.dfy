/** Strings, their byte order, and sorting.

    A Go string is a byte sequence.  It is represented here by a Dafny `string`
    holding one character per byte, so that `Less` is the order of Go's `<` on
    strings and of `sort.Strings`. */
module Text {

  datatype Option<+T> = None | Some(value: T)

  /** Times are nanoseconds since 1970; this is Go's zero time, 1 January of year 1. */
  const ZERO_TIME: int := -62135596800_000_000_000

  lemma SubsetSize<T>(a: set<T>, b: set<T>)
    requires a <= b
    ensures |a| <= |b| && (|a| == |b| ==> a == b)
  {
    var rest := b - a;
    assert b == a + rest && |b| == |a| + |rest|;
  }

  /** The six ASCII characters that `strings.TrimSpace` removes. */
  predicate IsSpace(c: char) {
    c == ' ' || c == '\t' || c == '\n' || c == '\r' || c == 11 as char || c == 12 as char
  }

  function TrimLeft(s: string): (r: string)
    ensures |r| <= |s|
    ensures r == "" || !IsSpace(r[0])
  {
    if s != "" && IsSpace(s[0]) then TrimLeft(s[1..]) else s
  }

  function TrimRight(s: string): (r: string)
    ensures |r| <= |s|
    ensures r == "" || !IsSpace(r[|r| - 1])
  {
    if s != "" && IsSpace(s[|s| - 1]) then TrimRight(s[..|s| - 1]) else s
  }

  /** `strings.TrimSpace` */
  function Trim(s: string): string {
    TrimRight(TrimLeft(s))
  }

  predicate Blank(s: string) {
    Trim(s) == ""
  }

  /******* Byte order *******/

  predicate Less(a: string, b: string) {
    b != "" && (a == "" || a[0] < b[0] || (a[0] == b[0] && Less(a[1..], b[1..])))
  }

  lemma LessIrreflexive(a: string)
    ensures !Less(a, a)
  {
  }

  lemma LessTransitive(a: string, b: string, c: string)
    requires Less(a, b) && Less(b, c)
    ensures Less(a, c)
  {
  }

  lemma {:induction false} LessTotal(a: string, b: string)
    ensures Less(a, b) || a == b || Less(b, a)
  {
    if a != "" && b != "" && a[0] == b[0] {
      LessTotal(a[1..], b[1..]);
      assert a == [a[0]] + a[1..] && b == [b[0]] + b[1..];
    }
  }

  lemma LessCons(c: char, a: string, b: string)
    ensures Less([c] + a, [c] + b) <==> Less(a, b)
  {
    assert ([c] + a)[1..] == a && ([c] + b)[1..] == b;
  }

  lemma {:induction false} LessPrefix(p: string, a: string, b: string)
    ensures Less(p + a, p + b) <==> Less(a, b)
  {
    hide Less;
    if p == "" {
      assert p + a == a && p + b == b;
    } else {
      LessPrefix(p[1..], a, b);
      assert p + a == [p[0]] + (p[1..] + a) && p + b == [p[0]] + (p[1..] + b);
      LessCons(p[0], p[1..] + a, p[1..] + b);
    }
  }

  /******* Sorted sequences *******/

  /** Strictly increasing in the order `lt`. */
  ghost predicate Increasing<T(!new)>(lt: (T, T) -> bool, s: seq<T>) {
    forall i, j :: 0 <= i < j < |s| ==> lt(s[i], s[j])
  }

  /** What any sort by `lt` leaves behind, stable or not. */
  ghost predicate Sorted<T(!new)>(lt: (T, T) -> bool, s: seq<T>) {
    forall i, j :: 0 <= i < j < |s| ==> !lt(s[j], s[i])
  }

  ghost predicate Irreflexive<T(!new)>(lt: (T, T) -> bool) {
    forall x :: !lt(x, x)
  }

  lemma SortedHead<T(!new)>(lt: (T, T) -> bool, a: seq<T>, b: seq<T>)
    requires Irreflexive(lt)
    requires a != [] && b != [] && a[0] in b && b[0] in a
    requires Increasing(lt, a) && Sorted(lt, b)
    ensures a[0] == b[0]
  {
    var k :| 0 <= k < |a| && a[k] == b[0];
    var j :| 0 <= j < |b| && b[j] == a[0];
  }

  lemma MultisetTail<T>(s: seq<T>)
    requires s != []
    ensures s == [s[0]] + s[1..]
    ensures multiset(s[1..]) == multiset(s) - multiset{s[0]}
  {
    assert s == [s[0]] + s[1..];
  }

  /** A strictly increasing sequence is the only sorted arrangement of its elements. */
  lemma {:induction false} SortedUnique<T(!new)>(lt: (T, T) -> bool, a: seq<T>, b: seq<T>)
    requires Irreflexive(lt)
    requires multiset(a) == multiset(b)
    requires Increasing(lt, a) && Sorted(lt, b)
    ensures a == b
  {
    assert |a| == |multiset(a)| && |b| == |multiset(b)|;
    if a != [] {
      assert a[0] in multiset(b) && b[0] in multiset(a);
      SortedHead(lt, a, b);
      MultisetTail(a);
      MultisetTail(b);
      SortedUnique(lt, a[1..], b[1..]);
    }
  }

  ghost predicate Transitive<T(!new)>(lt: (T, T) -> bool) {
    forall x, y, z :: lt(x, y) && lt(y, z) ==> lt(x, z)
  }

  /** `sort.Slice`: some sorted arrangement.  `SortedUnique` says when the choice of
      algorithm cannot matter. */
  method SortBy<T(!new)>(lt: (T, T) -> bool, s: seq<T>) returns (r: seq<T>)
    requires Irreflexive(lt) && Transitive(lt)
    ensures Sorted(lt, r)
    ensures multiset(r) == multiset(s)
  {
    r := [];
    for i := 0 to |s|
      invariant Sorted(lt, r)
      invariant multiset(r) == multiset(s[..i])
    {
      r := InsertBy(lt, r, s[i]);
      assert s[..i + 1] == s[..i] + [s[i]];
    }
    assert s[..|s|] == s;
  }

  method InsertBy<T(!new)>(lt: (T, T) -> bool, s: seq<T>, x: T) returns (r: seq<T>)
    requires Irreflexive(lt) && Transitive(lt) && Sorted(lt, s)
    ensures Sorted(lt, r)
    ensures multiset(r) == multiset(s) + multiset{x}
  {
    var i := 0;
    while i < |s| && !lt(x, s[i])
      invariant 0 <= i <= |s|
      invariant forall j :: 0 <= j < i ==> !lt(x, s[j])
    {
      i := i + 1;
    }
    r := s[..i] + [x] + s[i..];
    assert s == s[..i] + s[i..];
    forall j | i <= j < |s| ensures !lt(s[j], x) {
      var a, b := s[i], s[j];
      assert lt(x, a) && !lt(b, a);
      assert lt(b, x) ==> lt(b, a);
    }
  }

  ghost predicate Distinct<T>(s: seq<T>) {
    forall i, j :: 0 <= i < j < |s| ==> s[i] != s[j]
  }

  lemma {:induction false} DistinctMultiset<T>(s: seq<T>)
    ensures Distinct(s) <==> forall x :: multiset(s)[x] <= 1
  {
    if s != [] {
      MultisetTail(s);
      DistinctMultiset(s[1..]);
      if Distinct(s) {
        assert s[0] !in s[1..];
      }
      if forall x :: multiset(s)[x] <= 1 {
        assert multiset(s)[s[0]] <= 1;
        assert s[0] !in multiset(s[1..]);
        forall i, j | 0 <= i < j < |s| ensures s[i] != s[j] {
          assert s[j] == s[1..][j - 1];
          if i > 0 { assert s[i] == s[1..][i - 1]; }
        }
      }
    }
  }

  /** Sorting and comparing neighbours finds every repetition. */
  method AllDistinct(s: seq<string>) returns (ok: bool)
    ensures ok <==> Distinct(s)
  {
    LessIsAnOrder();
    var r := SortBy(Less, s);
    ok := NeighboursDiffer(Less, r);
    DistinctMultiset(r);
    DistinctMultiset(s);
  }

  method NeighboursDiffer<T(!new, ==)>(lt: (T, T) -> bool, r: seq<T>) returns (ok: bool)
    requires Irreflexive(lt) && Transitive(lt) && Total(lt) && Sorted(lt, r)
    ensures ok <==> Distinct(r)
    ensures ok ==> Increasing(lt, r)
  {
    var i := 1;
    while i < |r| && r[i - 1] != r[i]
      invariant 1 <= i && (i <= |r| || |r| == 0)
      invariant |r| > 0 ==> Increasing(lt, r[..i])
    {
      IncreasingNext(lt, r, i);
      i := i + 1;
    }
    ok := i >= |r|;
    if ok && |r| > 0 {
      assert r[..i] == r;
    }
  }

  ghost predicate Total<T(!new)>(lt: (T, T) -> bool) {
    forall x, y :: lt(x, y) || x == y || lt(y, x)
  }

  lemma LessIsAnOrder()
    ensures Irreflexive(Less) && Transitive(Less) && Total(Less)
  {
    LessIsTransitive();
    LessIsTotal();
    forall x: string ensures !Less(x, x) { LessIrreflexive(x); }
  }

  lemma LessIsTransitive()
    ensures Transitive(Less)
  {
    forall x, y, z ensures Less(x, y) && Less(y, z) ==> Less(x, z) {
      if Less(x, y) && Less(y, z) { LessTransitive(x, y, z); }
    }
  }

  lemma LessIsTotal()
    ensures Total(Less)
  {
    forall x, y ensures Less(x, y) || x == y || Less(y, x) { LessTotal(x, y); }
  }

  lemma IncreasingNext<T(!new)>(lt: (T, T) -> bool, r: seq<T>, i: nat)
    requires Transitive(lt) && 1 <= i < |r| && Increasing(lt, r[..i]) && lt(r[i - 1], r[i])
    ensures Increasing(lt, r[..i + 1])
  {
    var shorter, longer := r[..i], r[..i + 1];
    forall j, k | 0 <= j < k < |longer| ensures lt(longer[j], longer[k]) {
      if k < i {
        assert shorter[j] == longer[j] && shorter[k] == longer[k];
      } else if j < i - 1 {
        assert lt(shorter[j], shorter[i - 1]);
      }
    }
  }

  function Elements(s: seq<string>): (r: set<string>)
    ensures forall x :: x in r <==> x in s
  {
    set x | x in s
  }

  /** The duplicate check of a loop that remembers the names it has seen. */
  lemma DistinctNext(s: seq<string>, i: nat)
    requires i < |s|
    ensures Distinct(s[..i + 1]) <==> Distinct(s[..i]) && s[i] !in Elements(s[..i])
    ensures Elements(s[..i + 1]) == Elements(s[..i]) + {s[i]}
    ensures !Distinct(s[..i + 1]) ==> !Distinct(s)
  {
    var shorter, longer := s[..i], s[..i + 1];
    assert longer == shorter + [s[i]];
    assert forall j :: 0 <= j < |longer| ==> longer[j] == s[j];
    if Distinct(longer) {
      forall j | 0 <= j < i ensures shorter[j] != s[i] { assert longer[j] != longer[i]; }
      forall j, k | 0 <= j < k < i ensures shorter[j] != shorter[k] { assert longer[j] != longer[k]; }
    }
    if Distinct(shorter) && s[i] !in Elements(shorter) {
      forall j, k | 0 <= j < k < |longer| ensures longer[j] != longer[k] {
        assert longer[j] == shorter[j];
        if k < i { assert longer[k] == shorter[k]; } else { assert shorter[j] in Elements(shorter); }
      }
    }
  }

  ghost predicate Ascending(s: seq<string>) {
    forall i, j :: 0 <= i < j < |s| ==> Less(s[i], s[j])
  }

  lemma AscendingDistinct(s: seq<string>)
    requires Ascending(s)
    ensures forall i, j :: 0 <= i < j < |s| ==> s[i] != s[j]
  {
    forall i, j | 0 <= i < j < |s| ensures s[i] != s[j] {
      LessIrreflexive(s[i]);
    }
  }

  lemma AscendingTail(s: seq<string>)
    requires Ascending(s) && s != []
    ensures Ascending(s[1..]) && Elements(s[1..]) == Elements(s) - {s[0]}
  {
    AscendingDistinct(s);
    assert s == [s[0]] + s[1..];
  }

  /** Under a total order every sort gives the same sequence, repetitions included. */
  lemma {:induction false} SortedTotalUnique<T(!new)>(lt: (T, T) -> bool, a: seq<T>, b: seq<T>)
    requires Irreflexive(lt) && Total(lt)
    requires multiset(a) == multiset(b)
    requires Sorted(lt, a) && Sorted(lt, b)
    ensures a == b
  {
    assert |a| == |multiset(a)| && |b| == |multiset(b)|;
    if a != [] {
      assert a[0] in multiset(b) && b[0] in multiset(a);
      var k :| 0 <= k < |a| && a[k] == b[0];
      var j :| 0 <= j < |b| && b[j] == a[0];
      assert !lt(a[0], b[0]) && !lt(b[0], a[0]);
      MultisetTail(a);
      MultisetTail(b);
      SortedTotalUnique(lt, a[1..], b[1..]);
    }
  }

  /** Two increasing sequences with the same elements are the same sequence. */
  lemma {:induction false} AscendingUnique(a: seq<string>, b: seq<string>)
    requires Ascending(a) && Ascending(b)
    requires Elements(a) == Elements(b)
    ensures a == b
  {
    assert a == [] || a[0] in Elements(b);
    assert b == [] || b[0] in Elements(a);
    if a != [] {
      var i :| 0 <= i < |a| && a[i] == b[0];
      var j :| 0 <= j < |b| && b[j] == a[0];
      if i != 0 && j != 0 {
        LessTransitive(a[0], b[0], a[0]);
        LessIrreflexive(a[0]);
      }
      AscendingTail(a);
      AscendingTail(b);
      AscendingUnique(a[1..], b[1..]);
      assert a == [a[0]] + a[1..] && b == [b[0]] + b[1..];
    }
  }

  /** `sort.Strings` of distinct keys collected from a Go map. */
  method SortKeys(keys: set<string>) returns (r: seq<string>)
    ensures Ascending(r)
    ensures Elements(r) == keys
  {
    r := [];
    var rest := keys;
    while rest != {}
      invariant rest <= keys
      invariant Ascending(r)
      invariant Elements(r) == keys - rest
      decreases rest
    {
      var k :| k in rest;
      rest := rest - {k};
      r := InsertKey(r, k);
    }
  }

  method InsertKey(s: seq<string>, k: string) returns (r: seq<string>)
    requires Ascending(s) && k !in s
    ensures Ascending(r)
    ensures Elements(r) == Elements(s) + {k}
  {
    var i := 0;
    while i < |s| && Less(s[i], k)
      invariant 0 <= i <= |s|
      invariant forall j :: 0 <= j < i ==> Less(s[j], k)
    {
      i := i + 1;
    }
    r := s[..i] + [k] + s[i..];
    forall j | i <= j < |s| ensures Less(k, s[j]) {
      LessTotal(s[i], k);
      if i < j { LessTransitive(k, s[i], s[j]); }
    }
    assert forall x :: x in r <==> x in s || x == k by {
      assert s == s[..i] + s[i..];
    }
  }

  /** The sorted key list as a value; `SortKeys` computes it. */
  ghost function SortedKeys(keys: set<string>): (r: seq<string>)
    ensures Ascending(r) && Elements(r) == keys
  {
    SortedKeysExist(keys);
    var r :| Ascending(r) && Elements(r) == keys;
    r
  }

  lemma {:induction false} SortedKeysExist(keys: set<string>)
    ensures exists r :: Ascending(r) && Elements(r) == keys
  {
    if keys == {} {
      var none: seq<string> := [];
      assert Ascending(none) && Elements(none) == keys;
    } else {
      var k := Least(keys);
      SortedKeysExist(keys - {k});
      var r :| Ascending(r) && Elements(r) == keys - {k};
      var s := [k] + r;
      assert forall x :: x in s <==> x == k || x in r;
      assert forall x :: x in r ==> x in Elements(r);
      assert Ascending(s) && Elements(s) == keys;
    }
  }

  lemma {:induction false} Least(keys: set<string>) returns (k: string)
    requires keys != {}
    ensures k in keys && forall x :: x in keys && x != k ==> Less(k, x)
  {
    var a :| a in keys;
    if keys == {a} {
      k := a;
    } else {
      var b := Least(keys - {a});
      LessTotal(a, b);
      if Less(a, b) {
        k := a;
        forall x | x in keys && x != k ensures Less(k, x) {
          if x != b { LessTransitive(a, b, x); }
        }
      } else {
        k := b;
      }
    }
  }

  /******* Decimal numerals *******/

  predicate IsDigit(c: char) {
    '0' <= c <= '9'
  }

  function DigitChar(d: nat): (c: char)
    requires d < 10
    ensures IsDigit(c) && DigitValue(c) == d
  {
    (d + '0' as int) as char
  }

  function DigitValue(c: char): (d: nat)
    requires IsDigit(c)
    ensures d < 10
  {
    c as int - '0' as int
  }

  /** `strconv.FormatUint(n, 10)` */
  function Decimal(n: nat): (s: string)
    ensures s != "" && AllDigits(s)
  {
    if n < 10 then [DigitChar(n)] else Decimal(n / 10) + [DigitChar(n % 10)]
  }

  predicate AllDigits(s: string) {
    forall i :: 0 <= i < |s| ==> IsDigit(s[i])
  }

  /** The value of a digit string, most significant digit first. */
  function Value(s: string): (n: nat)
    requires AllDigits(s)
  {
    if s == "" then 0 else 10 * Value(s[..|s| - 1]) + DigitValue(s[|s| - 1])
  }

  lemma {:induction false} DecimalValue(n: nat)
    ensures Value(Decimal(n)) == n
  {
    if n >= 10 {
      DecimalValue(n / 10);
      var s := Decimal(n);
      assert s[..|s| - 1] == Decimal(n / 10);
    } else {
      assert Decimal(n)[..0] == "";
    }
  }

  /** Only the canonical numeral of a number formats back to itself. */
  lemma {:induction false} ValueDecimal(s: string)
    requires AllDigits(s) && s != ""
    requires |s| == 1 || s[0] != '0'
    ensures Decimal(Value(s)) == s
    ensures |s| > 1 ==> Value(s) >= 10
  {
    var t, c := s[..|s| - 1], s[|s| - 1];
    if |s| == 1 {
      assert t == "";
    } else {
      if |t| == 1 { assert t[..0] == ""; }
      ValueDecimal(t);
      assert s == t + [c];
    }
  }

  lemma DecimalInjective(m: nat, n: nat)
    requires Decimal(m) == Decimal(n)
    ensures m == n
  {
    DecimalValue(m);
    DecimalValue(n);
  }

  /******* Insertion sort as a function *******/

  function Inserted<T>(lt: (T, T) -> bool, s: seq<T>, x: T): seq<T> {
    if s == [] || lt(x, s[0]) then [x] + s else [s[0]] + Inserted(lt, s[1..], x)
  }

  /** The sorted arrangement of a sequence. */
  function Arranged<T>(lt: (T, T) -> bool, s: seq<T>): seq<T> {
    if s == [] then [] else Inserted(lt, Arranged(lt, s[1..]), s[0])
  }

  lemma {:induction false} InsertedSorted<T(!new)>(lt: (T, T) -> bool, s: seq<T>, x: T)
    requires Irreflexive(lt) && Transitive(lt) && Sorted(lt, s)
    ensures Sorted(lt, Inserted(lt, s, x)) && multiset(Inserted(lt, s, x)) == multiset(s) + multiset{x}
    decreases |s|
  {
    if s != [] && !lt(x, s[0]) {
      var head, tail := s[0], s[1..];
      MultisetTail(s);
      TailSorted(lt, s);
      InsertedSorted(lt, tail, x);
      ConsSorted(lt, head, tail, Inserted(lt, tail, x), x);
    } else {
      FrontSorted(lt, s, x);
    }
  }

  lemma FrontSorted<T(!new)>(lt: (T, T) -> bool, s: seq<T>, x: T)
    requires Irreflexive(lt) && Transitive(lt) && Sorted(lt, s) && (s != [] ==> lt(x, s[0]))
    ensures Sorted(lt, [x] + s) && multiset([x] + s) == multiset(s) + multiset{x}
  {
    forall j | 0 <= j < |s| ensures !lt(s[j], x) {
      var a, b := s[0], s[j];
      assert !lt(b, a) && (lt(b, x) ==> lt(b, a));
    }
  }

  lemma TailSorted<T(!new)>(lt: (T, T) -> bool, s: seq<T>)
    requires s != [] && Sorted(lt, s)
    ensures Sorted(lt, s[1..])
  {
    var t := s[1..];
    forall i, j | 0 <= i < j < |t| ensures !lt(t[j], t[i]) { assert !lt(s[j + 1], s[i + 1]); }
  }

  lemma ConsSorted<T(!new)>(lt: (T, T) -> bool, head: T, tail: seq<T>, t: seq<T>, x: T)
    requires Sorted(lt, [head] + tail) && !lt(x, head)
    requires Sorted(lt, t) && multiset(t) == multiset(tail) + multiset{x}
    ensures Sorted(lt, [head] + t)
  {
    var s := [head] + tail;
    forall j | 0 <= j < |t| ensures !lt(t[j], head) {
      assert t[j] in multiset(t);
      if t[j] != x {
        assert t[j] in multiset(tail);
        var k :| 0 <= k < |tail| && tail[k] == t[j];
        assert !lt(s[k + 1], s[0]);
      }
    }
  }

  lemma {:induction false} ArrangedSorted<T(!new)>(lt: (T, T) -> bool, s: seq<T>)
    requires Irreflexive(lt) && Transitive(lt)
    ensures Sorted(lt, Arranged(lt, s)) && multiset(Arranged(lt, s)) == multiset(s)
    decreases |s|
  {
    if s != [] {
      var t := s[1..];
      ArrangedSorted(lt, t);
      InsertedSorted(lt, Arranged(lt, t), s[0]);
      MultisetTail(s);
    }
  }

  /** Any sort of the same elements by a total order is that arrangement. */
  lemma ArrangedUnique<T(!new)>(lt: (T, T) -> bool, s: seq<T>, r: seq<T>)
    requires Irreflexive(lt) && Transitive(lt) && Total(lt)
    requires Sorted(lt, r) && multiset(r) == multiset(s)
    ensures r == Arranged(lt, s)
  {
    ArrangedSorted(lt, s);
    SortedTotalUnique(lt, r, Arranged(lt, s));
  }

  lemma ArrangedSame<T(!new)>(lt: (T, T) -> bool, a: seq<T>, b: seq<T>)
    requires Irreflexive(lt) && Transitive(lt) && Total(lt)
    requires multiset(a) == multiset(b)
    ensures Arranged(lt, a) == Arranged(lt, b)
  {
    ArrangedSorted(lt, a);
    ArrangedUnique(lt, b, Arranged(lt, a));
  }

  /******* Joining with a separator *******/

  function Join(parts: seq<string>, sep: char): string {
    if parts == [] then "" else if |parts| == 1 then parts[0] else parts[0] + [sep] + Join(parts[1..], sep)
  }

  /** Cuts a string at every separator. */
  function Split(s: string, sep: char): (r: seq<string>)
    ensures r != []
  {
    if s == "" then [""]
    else
      var rest := Split(s[1..], sep);
      if s[0] == sep then [""] + rest else [[s[0]] + rest[0]] + rest[1..]
  }

  predicate Without(parts: seq<string>, sep: char) {
    forall i :: 0 <= i < |parts| ==> sep !in parts[i]
  }

  lemma {:induction false} SplitPlain(s: string, sep: char)
    requires sep !in s
    ensures Split(s, sep) == [s]
  {
    if s != "" {
      SplitPlain(s[1..], sep);
      assert s == [s[0]] + s[1..];
    }
  }

  lemma {:induction false} SplitPrefix(p: string, sep: char, s: string)
    requires sep !in p
    ensures Split(p + [sep] + s, sep) == [p] + Split(s, sep)
  {
    var t := p + [sep] + s;
    if p == "" {
      assert t[1..] == s;
    } else {
      assert t[1..] == p[1..] + [sep] + s && t[0] == p[0];
      SplitPrefix(p[1..], sep, s);
      assert p == [p[0]] + p[1..];
    }
  }

  /** Splitting undoes joining when no part holds the separator. */
  lemma {:induction false} SplitJoin(parts: seq<string>, sep: char)
    requires parts != [] && Without(parts, sep)
    ensures Split(Join(parts, sep), sep) == parts
  {
    hide Split;
    if |parts| == 1 {
      SplitPlain(parts[0], sep);
    } else {
      SplitJoin(parts[1..], sep);
      SplitPrefix(parts[0], sep, Join(parts[1..], sep));
      assert parts == [parts[0]] + parts[1..];
    }
  }

  lemma JoinInjective(a: seq<string>, b: seq<string>, sep: char)
    requires a != [] && b != [] && Without(a, sep) && Without(b, sep) && Join(a, sep) == Join(b, sep)
    ensures a == b
  {
    SplitJoin(a, sep);
    SplitJoin(b, sep);
  }

  /** How often a character occurs. */
  function Count(s: string, c: char): nat {
    if s == "" then 0 else (if s[0] == c then 1 else 0) + Count(s[1..], c)
  }

  lemma {:induction false} CountConcat(a: string, b: string, c: char)
    ensures Count(a + b, c) == Count(a, c) + Count(b, c)
  {
    if a == "" {
      assert a + b == b;
    } else {
      CountConcat(a[1..], b, c);
      assert (a + b)[1..] == a[1..] + b;
    }
  }

  lemma {:induction false} CountNone(s: string, c: char)
    ensures Count(s, c) == 0 <==> c !in s
  {
    if s != "" {
      CountNone(s[1..], c);
      assert s == [s[0]] + s[1..];
    }
  }

  lemma {:induction false} JoinCount(parts: seq<string>, sep: char)
    requires parts != []
    ensures Count(Join(parts, sep), sep) >= |parts| - 1
    ensures Count(Join(parts, sep), sep) == |parts| - 1 <==> Without(parts, sep)
    decreases |parts|
  {
    CountNone(parts[0], sep);
    if |parts| > 1 {
      var rest := parts[1..];
      JoinCount(rest, sep);
      assert Count([sep], sep) == 1;
      hide Count, Join;
      JoinStep(parts, sep);
      CountConcat(parts[0] + [sep], Join(rest, sep), sep);
      CountConcat(parts[0], [sep], sep);
      assert Without(parts, sep) <==> sep !in parts[0] && Without(rest, sep) by {
        assert forall i :: 0 <= i < |rest| ==> rest[i] == parts[i + 1];
        if sep !in parts[0] && Without(rest, sep) {
          forall i | 0 <= i < |parts| ensures sep !in parts[i] { if i > 0 { assert parts[i] == rest[i - 1]; } }
        }
      }
    }
  }

  lemma JoinStep(parts: seq<string>, sep: char)
    requires |parts| > 1
    ensures Join(parts, sep) == parts[0] + [sep] + Join(parts[1..], sep)
  {
  }

  /** A list of two parts or more shares its joined text with another list of its length
      exactly when some part holds the separator. */
  lemma JoinAmbiguousIff(a: seq<string>, sep: char)
    requires |a| >= 2
    ensures (exists b :: |b| == |a| && b != a && Join(b, sep) == Join(a, sep)) <==> !Without(a, sep)
  {
    hide Count, Join;
    if Without(a, sep) {
      forall b | |b| == |a| && Join(b, sep) == Join(a, sep) ensures b == a {
        JoinCount(a, sep);
        JoinCount(b, sep);
        JoinInjective(a, b, sep);
      }
    } else {
      var b := ShiftPart(a, sep);
    }
  }

  /** The separator inside a part moves to the boundary with its neighbour. */
  lemma {:induction false} ShiftPart(a: seq<string>, sep: char) returns (b: seq<string>)
    requires |a| >= 2 && !Without(a, sep)
    ensures |b| == |a| && b != a && Join(b, sep) == Join(a, sep)
    decreases |a|
  {
    hide Join;
    JoinStep(a, sep);
    if sep in a[0] {
      var i :| 0 <= i < |a[0]| && a[0][i] == sep;
      var x, y := a[0][..i], a[0][i + 1..];
      assert a[0] == x + [sep] + y;
      b := [x, y + [sep] + a[1]] + a[2..];
      JoinStep(b, sep);
      JoinFront(y + [sep], a[1..], sep);
      assert b[1..] == [y + [sep] + a[1..][0]] + a[1..][1..];
      assert x + [sep] + (y + [sep] + Join(a[1..], sep)) == a[0] + [sep] + Join(a[1..], sep);
      assert |b[0]| != |a[0]|;
    } else if |a| == 2 {
      var i :| 0 <= i < |a[1]| && a[1][i] == sep;
      var x, y := a[1][..i], a[1][i + 1..];
      b := [a[0] + [sep] + x, y];
      JoinStep(b, sep);
      JoinOne(a[1..], sep);
      JoinOne(b[1..], sep);
      assert a[0] + [sep] + (x + [sep] + y) == a[0] + [sep] + x + [sep] + y;
      assert a[1] == x + [sep] + y && |b[1]| != |a[1]|;
    } else {
      assert !Without(a[1..], sep) by {
        var i :| 0 <= i < |a| && sep in a[i];
        assert a[i] == a[1..][i - 1];
      }
      var rest := ShiftPart(a[1..], sep);
      b := [a[0]] + rest;
      JoinStep(b, sep);
      assert b[1..] == rest && b[1..] != a[1..];
    }
  }

  lemma JoinOne(a: seq<string>, sep: char)
    requires |a| == 1
    ensures Join(a, sep) == a[0]
  {
  }

  /** Text put before the first part is put before the whole. */
  lemma JoinFront(front: string, a: seq<string>, sep: char)
    requires a != []
    ensures Join([front + a[0]] + a[1..], sep) == front + Join(a, sep)
  {
    var b := [front + a[0]] + a[1..];
    assert b[1..] == a[1..];
    if |a| > 1 {
      JoinStep(a, sep);
      JoinStep(b, sep);
      assert front + (a[0] + [sep] + Join(a[1..], sep)) == front + a[0] + [sep] + Join(a[1..], sep);
    }
  }
}
