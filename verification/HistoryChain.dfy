/** The hash-chained journal history of evidenceverify/history.go. */
module HistoryChain {
  import opened Text
  import opened Framing

  datatype Event = Event(kind: string, actionId: string, target: string, decision: string,
                         reasonCodes: seq<string>, evidenceDigest: string, evidencePacketDigest: string,
                         planDigest: string, attemptId: string, destinationId: string, accountId: string,
                         observationHandle: string, attemptState: string, outcomeVerdict: string,
                         payloadDigest: string, occurredAt: int)

  datatype Entry = Entry(version: int, journalId: string, sequence: nat, prevHash: string,
                         event: Event, entryHash: string)

  /** `encode` is `json.Marshal`, `h` is `ContentDigest`. */
  datatype Codec = Codec(encode: Entry -> string, h: string -> string)

  ghost predicate Injective(encode: Entry -> string) {
    forall a, b :: encode(a) == encode(b) ==> a == b
  }

  /** What is hashed of an entry: its content with the hash field cleared. */
  function Content(c: Codec, e: Entry): string { c.encode(e.(entryHash := "")) }

  /** The hash an entry must carry. */
  function ContentHash(c: Codec, e: Entry): string { c.h(Content(c, e)) }

  /** The hash collides on the contents of an entry of each history. */
  predicate EntriesCollide(c: Codec, a: seq<Entry>, b: seq<Entry>) {
    exists i, j :: 0 <= i < |a| && 0 <= j < |b| && Collide(c.h, Content(c, a[i]), Content(c, b[j]))
  }

  predicate Links(c: Codec, journal: string, i: nat, prev: string, e: Entry) {
    e.version == 2 && e.journalId == journal && e.sequence == i + 1 && e.prevHash == prev &&
    e.event.occurredAt != ZERO_TIME && ContentHash(c, e) == e.entryHash
  }

  /** The hash the chain has reached. */
  function HeadHash(entries: seq<Entry>): string {
    if entries == [] then "" else entries[|entries| - 1].entryHash
  }

  predicate Chain(c: Codec, journal: string, entries: seq<Entry>) {
    forall i :: 0 <= i < |entries| ==> Links(c, journal, i, HeadHash(entries[..i]), entries[i])
  }

  lemma ChainPrefix(c: Codec, journal: string, entries: seq<Entry>, n: nat)
    requires Chain(c, journal, entries) && n <= |entries|
    ensures Chain(c, journal, entries[..n])
  {
    forall i | 0 <= i < n ensures Links(c, journal, i, HeadHash(entries[..n][..i]), entries[..n][i]) {
      assert entries[..n][..i] == entries[..i];
    }
  }

  lemma ChainSnoc(c: Codec, journal: string, entries: seq<Entry>, e: Entry)
    requires Chain(c, journal, entries) && Links(c, journal, |entries|, HeadHash(entries), e)
    ensures Chain(c, journal, entries + [e])
  {
    var longer := entries + [e];
    forall i | 0 <= i < |longer| ensures Links(c, journal, i, HeadHash(longer[..i]), longer[i]) {
      assert longer[..i] == entries[..i];
      if i == |entries| { assert entries[..i] == entries; }
    }
  }

  lemma SameHashSameEntry(c: Codec, a: Entry, b: Entry)
    requires Injective(c.encode)
    requires ContentHash(c, a) == a.entryHash && ContentHash(c, b) == b.entryHash
    requires a.entryHash == b.entryHash
    ensures a == b || Collide(c.h, Content(c, a), Content(c, b))
  {
    var x, y := a.(entryHash := ""), b.(entryHash := "");
    if c.encode(x) == c.encode(y) {
      assert x == y;
      assert a == x.(entryHash := a.entryHash) && b == y.(entryHash := b.entryHash);
    }
  }

  /** A head hash determines the whole history behind it: its length and every
      entry, in every field. */
  lemma {:induction false} HeadDeterminesHistory(c: Codec, journal: string, a: seq<Entry>, b: seq<Entry>)
    requires Injective(c.encode)
    requires Chain(c, journal, a) && Chain(c, journal, b)
    requires a != [] && b != [] && HeadHash(a) == HeadHash(b)
    ensures a == b || EntriesCollide(c, a, b)
    decreases |a|
  {
    SameLength(c, journal, a, b);
    var m := |a| - 1;
    if |a| == |b| && a[m] == b[m] && HeadHash(a[..m]) == HeadHash(b[..m]) {
      if m > 0 {
        ChainPrefix(c, journal, a, m);
        ChainPrefix(c, journal, b, m);
        HeadDeterminesHistory(c, journal, a[..m], b[..m]);
      }
      PrefixesCollide(c, a, b, m);
      SameEnds(a, b, m);
    }
  }

  lemma PrefixesCollide(c: Codec, a: seq<Entry>, b: seq<Entry>, m: nat)
    requires m <= |a| && m <= |b|
    ensures EntriesCollide(c, a[..m], b[..m]) ==> EntriesCollide(c, a, b)
  {
    if i, j :| 0 <= i < m && 0 <= j < m && Collide(c.h, Content(c, a[..m][i]), Content(c, b[..m][j])) {
      assert a[..m][i] == a[i] && b[..m][j] == b[j];
    }
  }

  lemma SameEnds(a: seq<Entry>, b: seq<Entry>, m: nat)
    requires |a| == |b| == m + 1 && a[m] == b[m]
    ensures a[..m] == b[..m] ==> a == b
  {
    assert a == a[..m] + [a[m]] && b == b[..m] + [b[m]];
  }

  lemma SameLength(c: Codec, journal: string, a: seq<Entry>, b: seq<Entry>)
    requires Injective(c.encode)
    requires Chain(c, journal, a) && Chain(c, journal, b)
    requires a != [] && b != [] && HeadHash(a) == HeadHash(b)
    ensures EntriesCollide(c, a, b) || (|a| == |b| && a[|a| - 1] == b[|a| - 1])
    ensures EntriesCollide(c, a, b) || HeadHash(a[..|a| - 1]) == HeadHash(b[..|a| - 1])
  {
    var m, n := |a| - 1, |b| - 1;
    assert Links(c, journal, m, HeadHash(a[..m]), a[m]);
    assert Links(c, journal, n, HeadHash(b[..n]), b[n]);
    SameHashSameEntry(c, a[m], b[n]);
  }

  /** Two chains that carry the retained predecessor head at its position share the
      whole prefix behind it, however they continue. */
  lemma PredecessorDeterminesPrefix(c: Codec, journal: string, a: seq<Entry>, b: seq<Entry>, n: nat)
    requires Injective(c.encode)
    requires Chain(c, journal, a) && Chain(c, journal, b)
    requires 1 <= n <= |a| && n <= |b| && a[n - 1].entryHash == b[n - 1].entryHash
    ensures a[..n] == b[..n] || EntriesCollide(c, a[..n], b[..n])
  {
    ChainPrefix(c, journal, a, n);
    ChainPrefix(c, journal, b, n);
    HeadDeterminesHistory(c, journal, a[..n], b[..n]);
  }
}
