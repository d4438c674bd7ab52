/** The durable attempt store (internal/eepcrm/attempt_store.go).  One file per
    attempt id becomes one entry of a map; a write that is reported as failed may
    or may not have happened. */
module CrmStore {
  import opened Text
  import opened CrmAttempts

  const RECORD_VERSION := "aegis.eep/crm-attempt/v1"

  datatype Record = Record(version: string, attemptId: string, state: AttemptState, intentId: string,
                           permitDigest: string, planDigest: string, destinationId: string, accountId: string,
                           endpoint: string, adapterProfile: string, customerId: string, operation: string,
                           expectedVersion: string, observationHandle: string,
                           claimedAt: Option<int>, updatedAt: Option<int>, httpStatus: int, detail: string)

  /** `validateAttemptRecord`; a missing time is Go's zero time. */
  predicate ValidRecord(r: Record) {
    r.version == RECORD_VERSION && !Blank(r.attemptId) && !Blank(r.intentId) && !Blank(r.permitDigest) &&
    !Blank(r.planDigest) && !Blank(r.destinationId) && !Blank(r.accountId) && !Blank(r.endpoint) &&
    !Blank(r.adapterProfile) && !Blank(r.customerId) && !Blank(r.operation) && !Blank(r.expectedVersion) &&
    !Blank(r.observationHandle) && r.claimedAt.Some? && r.updatedAt.Some?
  }

  /** The record after a transition: only state, status, detail and time change. */
  function Moved(r: Record, to: AttemptState, status: int, detail: string, at: int): Record {
    r.(state := to, httpStatus := status, detail := Trim(detail), updatedAt := Some(at))
  }

  lemma MovedValid(r: Record, to: AttemptState, status: int, detail: string, at: int)
    requires ValidRecord(r)
    ensures var m := Moved(r, to, status, detail, at);
      ValidRecord(m) && m.attemptId == r.attemptId && m.state == to
  {
    hide Blank, Trim;
  }

  /** The stored transitions, all of them. */
  lemma AllowedExactly(from: AttemptState, to: AttemptState)
    ensures Allowed(from, to) <==>
      (from, to) in {(Claimed, Blocked), (Claimed, PossibleEffect), (Claimed, Completed),
                     (PossibleEffect, Blocked), (PossibleEffect, Accepted), (PossibleEffect, Completed), (PossibleEffect, RetiredUnknown),
                     (Accepted, Completed), (Accepted, RetiredUnknown)}
  {
  }

  predicate IsHex(c: char) { '0' <= c <= '9' || 'a' <= c <= 'f' || 'A' <= c <= 'F' }

  /** The guard of `path`: only such ids name a file. */
  predicate NamesFile(id: string) {
    "sha256:" <= id && |id| == 7 + 64 && forall i :: 7 <= i < |id| ==> IsHex(id[i])
  }

  /** Exactly the ids that a SHA-256 digest is written as name a file. */
  lemma NamesFileExactly(id: string)
    ensures NamesFile(id) <==>
      |id| == 71 && id[..7] == "sha256:" && forall i :: 7 <= i < 71 ==> id[i] in "0123456789abcdefABCDEF"
  {
    forall c ensures IsHex(c) <==> c in "0123456789abcdefABCDEF" { HexExactly(c); }
  }

  lemma HexExactly(c: char)
    ensures IsHex(c) <==> c in "0123456789abcdefABCDEF"
  {
    var digits := "0123456789abcdefABCDEF";
    if '0' <= c <= '9' { assert digits[c as int - '0' as int] == c; }
    if 'a' <= c <= 'f' { assert digits[10 + (c as int - 'a' as int)] == c; }
    if 'A' <= c <= 'F' { assert digits[16 + (c as int - 'A' as int)] == c; }
  }

  /** A record is valid exactly if it has this version, both times, and no blank binding. */
  lemma RecordExactly(r: Record)
    ensures var texts := [r.attemptId, r.intentId, r.permitDigest, r.planDigest, r.destinationId, r.accountId, r.endpoint,
                          r.adapterProfile, r.customerId, r.operation, r.expectedVersion, r.observationHandle];
      ValidRecord(r) <==>
        r.version == "aegis.eep/crm-attempt/v1" && r.claimedAt.Some? && r.updatedAt.Some? && forall text :: text in texts ==> !Blank(text)
  {
    hide Blank;
  }

  datatype Error = Cancelled | InvalidRecord | InvalidTransition | InvalidId | AlreadyClaimed | NotFound | ReadFailed | WriteFailed

  class FileAttemptStore {
    var records: map<string, Record>

    /** Every stored record is valid and filed under its own id. */
    ghost predicate Valid() reads this {
      forall id :: id in records ==> ValidRecord(records[id]) && records[id].attemptId == id && NamesFile(id)
    }

    /** The abstract state of one attempt, as the protocol sees it. */
    function View(id: string): Option<AttemptState> reads this {
      if id in records then Some(records[id].state) else None
    }

    constructor ()
      ensures Valid() && records == map[]
    {
      records := map[];
    }

    /** Create once: a success or a reported write failure is the protocol's `Create`. */
    method Claim(record: Record) returns (err: Option<Error>)
      requires Valid()
      modifies this
      ensures Valid()
      ensures err == None ==> Possible(old(View(record.attemptId)), Create) && records == old(records)[record.attemptId := record]
      ensures err == Some(WriteFailed) ==>
                records == old(records) ||
                (Possible(old(View(record.attemptId)), Create) && records == old(records)[record.attemptId := record])
      ensures err.Some? && err != Some(WriteFailed) ==> records == old(records)
      ensures err == None || err == Some(WriteFailed) ==> record.state == Claimed
      ensures old(View(record.attemptId)).Some? ==> err.Some? && records == old(records)
    {
      var cancelled: bool := *;
      if cancelled { return Some(Cancelled); }
      if !ValidRecord(record) { return Some(InvalidRecord); }
      if record.state != Claimed { return Some(InvalidTransition); }
      if !NamesFile(record.attemptId) { return Some(InvalidId); }
      if record.attemptId in records { return Some(AlreadyClaimed); }
      var created: bool, stored: bool := *, *;
      if !created { return Some(WriteFailed); }
      records := records[record.attemptId := record];
      err := if stored then None else Some(WriteFailed);
    }

    /** Compare and swap of the state: exactly the protocol's `Swap`. */
    method Transition(id: string, from: AttemptState, to: AttemptState, basis: Basis, status: int, detail: string, at: int)
      returns (err: Option<Error>)
      requires Valid()
      modifies this
      ensures Valid()
      ensures err == None ==> Possible(old(View(id)), Swap(from, to, basis)) && View(id) == Some(to)
      ensures !Possible(old(View(id)), Swap(from, to, basis)) ==> err.Some? && records == old(records)
      ensures err.Some? && err != Some(WriteFailed) ==> records == old(records)
      ensures records == old(records) ||
              (id in old(records) &&
               records == old(records)[id := Moved(old(records)[id], to, status, detail, at)])
      ensures err == None ==>
              id in old(records) && old(records)[id].state == from &&
              records == old(records)[id := old(records)[id].(state := to, httpStatus := status, detail := Trim(detail), updatedAt := Some(at))]
    {
      hide ValidRecord, NamesFile;
      var cancelled: bool := *;
      if cancelled { return Some(Cancelled); }
      if !Allowed(from, to) { return Some(InvalidTransition); }
      var record;
      err, record := Load(id);
      if err.Some? { return; }
      if record.value.state != from { return Some(InvalidTransition); }
      var renamed: bool, synced: bool := *, *;
      if !renamed { return Some(WriteFailed); }
      MovedValid(record.value, to, status, detail, at);
      records := records[id := Moved(record.value, to, status, detail, at)];
      err := if synced then None else Some(WriteFailed);
    }

    method Load(id: string) returns (err: Option<Error>, record: Option<Record>)
      requires Valid()
      ensures err == None <==> record.Some?
      ensures record.Some? ==> id in records && record.value == records[id] && ValidRecord(record.value)
      ensures id in records ==> err != Some(NotFound)
    {
      var readable: bool := *;
      if !NamesFile(id) { return Some(InvalidId), None; }
      if id !in records { return Some(NotFound), None; }
      if !readable { return Some(ReadFailed), None; }
      return None, Some(records[id]);
    }
  }
}
