/** Length-prefixed framing of string lists, the input of every relation digest
    (governedaction/runtime and evidenceverify compute the same framing). */
module Framing {
  import opened Text

  const MAX_UINT64: nat := 0xFFFF_FFFF_FFFF_FFFF

  type uint64 = n: nat | n <= MAX_UINT64

  /** Addition of one with Go's wrap-around. */
  function Successor(n: uint64): uint64 {
    if n == MAX_UINT64 then 0 else n + 1
  }

  /** Every Go string is shorter than 2^64 bytes. */
  predicate Fits(parts: seq<string>) {
    forall i :: 0 <= i < |parts| ==> |parts[i]| <= MAX_UINT64
  }

  function Pow256(k: nat): (p: nat)
    ensures p > 0
  {
    if k == 0 then 1 else 256 * Pow256(k - 1)
  }

  predicate IsBytes(s: string) {
    forall i :: 0 <= i < |s| ==> s[i] as int < 256
  }

  /** `binary.BigEndian.PutUint64` is `BigEndian(n, 8)`. */
  function BigEndian(n: nat, k: nat): (s: string)
    ensures |s| == k && IsBytes(s)
  {
    if k == 0 then "" else BigEndian(n / 256, k - 1) + [(n % 256) as char]
  }

  function FromBigEndian(s: string): nat
    requires IsBytes(s)
  {
    if s == "" then 0 else 256 * FromBigEndian(s[..|s| - 1]) + s[|s| - 1] as int
  }

  lemma {:induction false} BigEndianRoundTrip(n: nat, k: nat)
    requires n < Pow256(k)
    ensures FromBigEndian(BigEndian(n, k)) == n
  {
    if k > 0 {
      BigEndianRoundTrip(n / 256, k - 1);
      var s := BigEndian(n, k);
      assert s[..|s| - 1] == BigEndian(n / 256, k - 1);
    }
  }

  /** The bytes hashed for a list of strings. */
  function Frame(parts: seq<string>): string {
    if parts == [] then "" else BigEndian(|parts[0]|, 8) + parts[0] + Frame(parts[1..])
  }

  /** Reads back the list; `None` when the bytes are not a framing. */
  function Unframe(s: string): Option<seq<string>> {
    if s == "" then Some([])
    else if |s| < 8 || !IsBytes(s[..8]) then None
    else
      var n := FromBigEndian(s[..8]);
      if |s| - 8 < n then None
      else match Unframe(s[8 + n..])
        case None => None
        case Some(rest) => Some([s[8..8 + n]] + rest)
  }

  lemma {:induction false} FrameRoundTrip(parts: seq<string>)
    requires Fits(parts)
    ensures Unframe(Frame(parts)) == Some(parts)
  {
    if parts != [] {
      var size, p, tail := BigEndian(|parts[0]|, 8), parts[0], Frame(parts[1..]);
      var s := size + p + tail;
      assert Frame(parts) == s;
      assert s[..8] == size;
      assert Pow256(8) == MAX_UINT64 + 1 by { Pow256Eight(); }
      BigEndianRoundTrip(|p|, 8);
      assert s[8..8 + |p|] == p && s[8 + |p|..] == tail;
      FrameRoundTrip(parts[1..]);
      assert parts == [p] + parts[1..];
    }
  }

  lemma Pow256Eight()
    ensures Pow256(8) == MAX_UINT64 + 1
  {
    assert Pow256(2) == 65536;
    assert Pow256(4) == 256 * (256 * Pow256(2));
    assert Pow256(6) == 256 * (256 * Pow256(4));
    assert Pow256(8) == 256 * (256 * Pow256(6));
  }

  lemma FrameInjective(a: seq<string>, b: seq<string>)
    requires Fits(a) && Fits(b) && Frame(a) == Frame(b)
    ensures a == b
  {
    FrameRoundTrip(a);
    FrameRoundTrip(b);
  }

  /** Framing a concatenation is concatenating the framings. */
  lemma {:induction false} FrameConcat(a: seq<string>, b: seq<string>)
    ensures Frame(a + b) == Frame(a) + Frame(b)
  {
    hide BigEndian;
    if a == [] {
      assert a + b == b;
    } else {
      FrameConcat(a[1..], b);
      var size, p := BigEndian(|a[0]|, 8), a[0];
      assert (a + b)[1..] == a[1..] + b && (a + b)[0] == p;
      FrameParts(size, p, Frame(a[1..]), Frame(b));
    }
  }

  lemma FrameParts(size: string, p: string, a: string, b: string)
    ensures size + p + (a + b) == size + p + a + b
  {
  }

  /******* Digests *******/

  /** The hash is a parameter.  Uniqueness results name the two strings that would have to
      collide instead of assuming that none do. */
  predicate Collide(h: string -> string, x: string, y: string) { x != y && h(x) == h(y) }

  function Digest(h: string -> string, parts: seq<string>): string {
    h(Frame(parts))
  }

  /** The hashing loop: every part is written after its own 8-byte length. */
  method ComputeDigest(h: string -> string, parts: seq<string>) returns (d: string)
    ensures d == Digest(h, parts)
  {
    var written := "";
    var i := 0;
    while i < |parts|
      invariant 0 <= i <= |parts|
      invariant written == Frame(parts[..i])
    {
      written := written + BigEndian(|parts[i]|, 8);
      written := written + parts[i];
      FrameConcat(parts[..i], [parts[i]]);
      assert parts[..i] + [parts[i]] == parts[..i + 1];
      assert Frame([parts[i]]) == BigEndian(|parts[i]|, 8) + parts[i] + Frame([]);
      i := i + 1;
    }
    assert parts[..i] == parts;
    d := h(written);
  }

  lemma DigestInjective(h: string -> string, a: seq<string>, b: seq<string>)
    requires Fits(a) && Fits(b) && Digest(h, a) == Digest(h, b)
    ensures a == b || Collide(h, Frame(a), Frame(b))
  {
    if Frame(a) == Frame(b) {
      FrameInjective(a, b);
    }
  }
}
