/** Typed postconditions of a customer update (internal/eepcrm/postcondition.go):
    evaluation of an observed state against a patch, its validator, and the JSON
    pointer escape of section 3 of RFC 6901 that orders the fields.

    A JSON value is represented by its `json.Marshal` bytes, which is how the code
    compares values. */
module Postcondition {
  import opened Text
  import opened Framing

  /******* Escaped field paths *******/

  /** `strings.ReplaceAll` of one character. */
  function ReplaceAll(s: string, c: char, image: string): string {
    if s == "" then "" else (if s[0] == c then image else [s[0]]) + ReplaceAll(s[1..], c, image)
  }

  /** `escapeJSONPointerToken` */
  function EscapeToken(s: string): string {
    ReplaceAll(ReplaceAll(s, '~', "~0"), '/', "~1")
  }

  function EscapeChar(c: char): string {
    if c == '~' then "~0" else if c == '/' then "~1" else [c]
  }

  lemma JoinRight(a: string, b: string, c: string)
    ensures a + (b + c) == (a + b) + c
  {
  }

  lemma {:induction false} ReplaceConcat(a: string, b: string, c: char, image: string)
    ensures ReplaceAll(a + b, c, image) == ReplaceAll(a, c, image) + ReplaceAll(b, c, image)
  {
    if a == "" {
      assert a + b == b;
    } else {
      ReplaceConcat(a[1..], b, c, image);
      assert (a + b)[0] == a[0] && (a + b)[1..] == a[1..] + b;
      var first := if a[0] == c then image else [a[0]];
      JoinRight(first, ReplaceAll(a[1..], c, image), ReplaceAll(b, c, image));
    }
  }

  /** The two passes act character by character. */
  lemma EscapeCons(c: char, s: string)
    ensures EscapeToken([c] + s) == EscapeChar(c) + EscapeToken(s)
  {
    var once := if c == '~' then "~0" else [c];
    assert ([c] + s)[1..] == s;
    assert ReplaceAll([c] + s, '~', "~0") == once + ReplaceAll(s, '~', "~0");
    ReplaceConcat(once, ReplaceAll(s, '~', "~0"), '/', "~1");
    if c == '~' {
      assert once[1..] == "0" && "0"[1..] == "";
      assert ReplaceAll("0", '/', "~1") == "0";
    } else {
      assert once[1..] == "";
    }
  }

  /** Reads an escaped token back. */
  function Unescape(t: string): string
    decreases |t|
  {
    if t == "" then ""
    else if t[0] == '~' && |t| >= 2 then [if t[1] == '0' then '~' else '/'] + Unescape(t[2..])
    else [t[0]] + Unescape(t[1..])
  }

  lemma {:induction false} EscapeRoundTrip(s: string)
    ensures Unescape(EscapeToken(s)) == s
  {
    if s != "" {
      EscapeRoundTrip(s[1..]);
      assert s == [s[0]] + s[1..];
      EscapeCons(s[0], s[1..]);
      var t, rest := EscapeToken(s), EscapeToken(s[1..]);
      hide EscapeToken;
      if |EscapeChar(s[0])| == 2 {
        assert t[2..] == rest;
      } else {
        assert t[1..] == rest;
      }
    }
  }

  /** The one way in which escaping reverses two keys: where they first differ, the
      smaller one has '/' and the larger one a character up to '~'. */
  predicate SlashClash(a: string, b: string) {
    a != "" && b != "" &&
    if a[0] == b[0] then SlashClash(a[1..], b[1..]) else a[0] == '/' && '/' < b[0] <= '~'
  }

  lemma {:induction false} SlashClashNeedsSlash(a: string, b: string)
    requires SlashClash(a, b)
    ensures '/' in a && Less(a, b)
  {
    if a[0] == b[0] {
      SlashClashNeedsSlash(a[1..], b[1..]);
      assert '/' in a[1..];
    }
  }

  lemma EscapeCharOrder(c: char, d: char, x: string, y: string)
    requires c < d
    ensures Less(EscapeChar(c) + x, EscapeChar(d) + y) <==> !(c == '/' && '/' < d <= '~')
  {
    var s, t := EscapeChar(c) + x, EscapeChar(d) + y;
    if c == '/' && d == '~' {
      assert s[1] == '1' && t[1] == '0' && s[1..][0] == '1' && t[1..][0] == '0';
    }
  }

  /** Escaping keeps the order of two keys exactly when they do not clash. */
  lemma {:induction false} EscapeOrder(a: string, b: string)
    requires Less(a, b)
    ensures Less(EscapeToken(a), EscapeToken(b)) <==> !SlashClash(a, b)
  {
    hide EscapeToken;
    assert b == [b[0]] + b[1..];
    EscapeCons(b[0], b[1..]);
    if a == "" {
      EscapeEmpty();
    } else {
      assert a == [a[0]] + a[1..];
      EscapeCons(a[0], a[1..]);
      if a[0] == b[0] {
        EscapeOrder(a[1..], b[1..]);
        LessPrefix(EscapeChar(a[0]), EscapeToken(a[1..]), EscapeToken(b[1..]));
      } else {
        EscapeCharOrder(a[0], b[0], EscapeToken(a[1..]), EscapeToken(b[1..]));
      }
    }
  }

  lemma EscapeEmpty()
    ensures EscapeToken("") == ""
  {
  }

  function PathOf(key: string): string { ['/'] + EscapeToken(key) }

  lemma PathOrder(a: string, b: string)
    requires Less(a, b)
    ensures Less(PathOf(a), PathOf(b)) <==> !SlashClash(a, b)
  {
    EscapeOrder(a, b);
    LessPrefix(['/'], EscapeToken(a), EscapeToken(b));
  }

  /** The keys "a/" and "a0" are ordered one way and their paths the other. */
  lemma SlashReversesOrder()
    ensures Less("a/", "a0") && Less(PathOf("a0"), PathOf("a/")) && SlashClash("a/", "a0")
  {
    assert "a/"[1..] == "/" && "a0"[1..] == "0";
    assert Less("/", "0") && SlashClash("/", "0");
    PathOrder("a/", "a0");
    LessTotal(PathOf("a/"), PathOf("a0"));
    EscapeRoundTrip("a/");
    EscapeRoundTrip("a0");
    assert PathOf("a/")[1..] == EscapeToken("a/") && PathOf("a0")[1..] == EscapeToken("a0");
  }

  /** No two keys of a patch reverse their order when escaped. */
  ghost predicate OrderKept(keys: set<string>) {
    forall a, b :: a in keys && b in keys ==> !SlashClash(a, b)
  }

  lemma WithoutSlashOrderKept(keys: set<string>)
    requires forall k :: k in keys ==> '/' !in k
    ensures OrderKept(keys)
  {
    forall a, b | a in keys && b in keys ensures !SlashClash(a, b) {
      if SlashClash(a, b) { SlashClashNeedsSlash(a, b); }
    }
  }

  /******* Evaluation *******/

  const PROFILE := "aegis.eep/crm-postcondition/v1"

  type Json = string

  datatype Plan = Plan(customerId: string, patch: map<string, Json>)

  datatype Result = Verified | Partial | Unsatisfied | Unknown | AlreadySatisfied

  datatype Field = Field(path: string, expectedDigest: string, observedDigest: string, present: bool, satisfied: bool)

  datatype Evaluation = Evaluation(profile: string, result: Result, matched: int, total: int, fields: seq<Field>)

  /** `journal.DigestPayload` of an object holding the value; `h` is hexadecimal SHA-256. */
  function ValueDigest(h: string -> string, v: Json): string {
    "sha256:" + h(Wrapped(v))
  }

  /** The object that holds the value under the key `value`. */
  function Wrapped(v: Json): string {
    ['{', '"'] + "value" + ['"', ':'] + v + ['}']
  }

  function FieldOf(h: string -> string, patch: map<string, Json>, state: map<string, Json>, key: string): Field
    requires key in patch
  {
    Field(PathOf(key), ValueDigest(h, patch[key]),
          if key in state then ValueDigest(h, state[key]) else "",
          key in state, key in state && state[key] == patch[key])
  }

  function FieldsOf(h: string -> string, patch: map<string, Json>, state: map<string, Json>, keys: seq<string>): (r: seq<Field>)
    requires forall k :: k in keys ==> k in patch
    ensures |r| == |keys| && forall i :: 0 <= i < |keys| ==> r[i] == FieldOf(h, patch, state, keys[i])
  {
    seq(|keys|, i requires 0 <= i < |keys| => FieldOf(h, patch, state, keys[i]))
  }

  /** The patch keys whose intended value the state already holds. */
  function Holding(patch: map<string, Json>, state: map<string, Json>): set<string> {
    set k | k in patch && k in state && state[k] == patch[k]
  }

  function ResultOf(matched: int, total: int): Result {
    if matched == total then Verified else if matched == 0 then Unsatisfied else Partial
  }

  /** `EvaluateCustomerUpdatePostcondition` on a usable plan. */
  ghost function Evaluated(h: string -> string, plan: Plan, state: map<string, Json>): Evaluation {
    var n := |Holding(plan.patch, state)|;
    Evaluation(PROFILE, ResultOf(n, |plan.patch|), n, |plan.patch|,
               FieldsOf(h, plan.patch, state, SortedKeys(plan.patch.Keys)))
  }

  predicate Usable(plan: Plan) { !Blank(plan.customerId) && plan.patch != map[] }

  /** The result says which intended values the state holds: all, none or some. */
  lemma ResultMeaning(h: string -> string, plan: Plan, state: map<string, Json>)
    requires Usable(plan)
    ensures Evaluated(h, plan, state).result == Verified <==> HoldsAll(plan.patch, state)
    ensures Evaluated(h, plan, state).result == Unsatisfied <==>
              forall k :: k in plan.patch ==> !(k in state && state[k] == plan.patch[k])
  {
    hide SortedKeys, FieldsOf, Blank, Holding;
    AllOrNone(plan.patch, state);
    assert |plan.patch| > 0;
  }

  lemma AllOrNone(patch: map<string, Json>, state: map<string, Json>)
    ensures |Holding(patch, state)| == |patch| <==> forall k :: k in patch ==> k in state && state[k] == patch[k]
    ensures |Holding(patch, state)| == 0 <==> forall k :: k in patch ==> !(k in state && state[k] == patch[k])
  {
    var holding := Holding(patch, state);
    SubsetSize(holding, patch.Keys);
    assert |patch.Keys| == |patch|;
    assert holding == patch.Keys <==> forall k :: k in patch ==> k in holding;
    assert |holding| == 0 <==> holding == {};
    if forall k :: k in patch ==> !(k in state && state[k] == patch[k]) {
      assert forall k :: k !in holding;
    }
    if holding == {} {
      forall k | k in patch ensures !(k in state && state[k] == patch[k]) { assert k !in holding; }
    }
  }

  method Evaluate(h: string -> string, plan: Plan, state: Option<map<string, Json>>) returns (r: Option<Evaluation>)
    ensures r == if Usable(plan) && state.Some? then Some(Evaluated(h, plan, state.value)) else None
  {
    hide SortedKeys, FieldsOf, Blank;
    if Blank(plan.customerId) || |plan.patch| == 0 || state == None { return None; }
    var keys := SortKeys(plan.patch.Keys);
    AscendingUnique(keys, SortedKeys(plan.patch.Keys));
    AscendingLength(keys);
    var fields, matched := EvaluateFields(h, plan.patch, state.value, keys);
    assert HoldingIn(plan.patch, state.value, keys) == Holding(plan.patch, state.value) by {
      assert forall k :: k in keys <==> k in Elements(keys);
    }
    r := Some(Evaluation(PROFILE, ResultOf(matched, |keys|), matched, |keys|, fields));
  }

  method EvaluateFields(h: string -> string, patch: map<string, Json>, state: map<string, Json>, keys: seq<string>)
    returns (fields: seq<Field>, matched: nat)
    requires Ascending(keys) && forall k :: k in keys ==> k in patch
    ensures fields == FieldsOf(h, patch, state, keys) && matched == |HoldingIn(patch, state, keys)|
  {
    hide ValueDigest, PathOf, Ascending;
    fields, matched := [], 0;
    for i := 0 to |keys|
      invariant |fields| == i && forall j :: 0 <= j < i ==> fields[j] == FieldOf(h, patch, state, keys[j])
      invariant matched == |HoldingIn(patch, state, keys[..i])|
    {
      var key := keys[i];
      var present := key in state;
      var satisfied := present && state[key] == patch[key];
      var field := Field(PathOf(key), ValueDigest(h, patch[key]),
                         if present then ValueDigest(h, state[key]) else "", present, satisfied);
      if satisfied { matched := matched + 1; }
      fields := fields + [field];
      HoldingNext(patch, state, keys, i);
    }
    assert keys[..|keys|] == keys;
  }

  function HoldingIn(patch: map<string, Json>, state: map<string, Json>, keys: seq<string>): set<string> {
    set k | k in keys && k in patch && k in state && state[k] == patch[k]
  }

  lemma HoldingNext(patch: map<string, Json>, state: map<string, Json>, keys: seq<string>, i: nat)
    requires i < |keys| && Ascending(keys) && keys[i] in patch
    ensures |HoldingIn(patch, state, keys[..i + 1])|
         == |HoldingIn(patch, state, keys[..i])| + (if keys[i] in state && state[keys[i]] == patch[keys[i]] then 1 else 0)
  {
    AscendingDistinct(keys);
    var a, b := HoldingIn(patch, state, keys[..i]), HoldingIn(patch, state, keys[..i + 1]);
    assert keys[..i + 1] == keys[..i] + [keys[i]];
    assert keys[i] !in keys[..i];
    if keys[i] in state && state[keys[i]] == patch[keys[i]] {
      assert b == a + {keys[i]};
    } else {
      assert b == a;
    }
  }

  lemma {:induction false} AscendingLength(s: seq<string>)
    requires Ascending(s)
    ensures |s| == |Elements(s)|
  {
    if s != [] {
      AscendingTail(s);
      AscendingLength(s[1..]);
      assert s[0] in Elements(s);
    }
  }

  /******* Validation *******/

  predicate FieldSound(f: Field) {
    f.path != "" && f.expectedDigest != "" &&
    (f.satisfied ==> f.present && f.observedDigest != "" && f.observedDigest == f.expectedDigest)
  }

  predicate Follows(fields: seq<Field>, i: nat)
    requires i < |fields|
  {
    i > 0 ==> Less(fields[i - 1].path, fields[i].path)
  }

  predicate PathsAscend(fields: seq<Field>) {
    forall i :: 0 <= i < |fields| ==> Follows(fields, i)
  }

  function Satisfied(fields: seq<Field>): nat {
    if fields == [] then 0
    else Satisfied(fields[..|fields| - 1]) + (if fields[|fields| - 1].satisfied then 1 else 0)
  }

  predicate CountFits(result: Result, matched: int, total: int) {
    match result
    case Verified => matched == total
    case Partial => 0 < matched < total
    case Unsatisfied => matched == 0
    case _ => false
  }

  /** What `ValidatePostconditionEvaluation` accepts. */
  predicate ValidEvaluation(e: Evaluation) {
    e.profile == PROFILE && e.total > 0 && |e.fields| == e.total &&
    (forall i :: 0 <= i < |e.fields| ==> FieldSound(e.fields[i])) &&
    PathsAscend(e.fields) && e.matched == Satisfied(e.fields) && CountFits(e.result, e.matched, e.total)
  }

  method Validate(e: Evaluation) returns (ok: bool)
    ensures ok <==> ValidEvaluation(e)
  {
    hide PathsAscend, FieldSound, Satisfied;
    if e.profile != PROFILE || e.total <= 0 || |e.fields| != e.total { return false; }
    var matched;
    ok, matched := CheckFields(e.fields);
    ok := ok && matched == e.matched && CountFits(e.result, matched, e.total);
  }

  method CheckFields(fields: seq<Field>) returns (ok: bool, matched: nat)
    ensures ok <==> PathsAscend(fields) && forall i :: 0 <= i < |fields| ==> FieldSound(fields[i])
    ensures ok ==> matched == Satisfied(fields)
  {
    hide Less, Satisfied;
    var previous := "";
    matched := 0;
    assert fields[..0] == [];
    EmptySatisfied();
    for i := 0 to |fields|
      invariant forall j :: 0 <= j < i ==> FieldSound(fields[j])
      invariant forall j :: 0 <= j < i ==> Follows(fields, j)
      invariant matched == Satisfied(fields[..i])
      invariant previous == if i == 0 then "" else fields[i - 1].path
    {
      var f := fields[i];
      if f.path == "" || f.expectedDigest == "" { return false, matched; }
      if previous != "" && !Less(previous, f.path) {
        assert !Follows(fields, i);
        return false, matched;
      }
      previous := f.path;
      if f.satisfied {
        if !f.present || f.observedDigest == "" || f.observedDigest != f.expectedDigest { return false, matched; }
        matched := matched + 1;
      }
      SatisfiedNext(fields, i);
    }
    assert fields[..|fields|] == fields;
    ok := true;
  }

  lemma EmptySatisfied()
    ensures Satisfied([]) == 0
  {
  }

  lemma SatisfiedNext(fields: seq<Field>, i: nat)
    requires i < |fields|
    ensures Satisfied(fields[..i + 1]) == Satisfied(fields[..i]) + (if fields[i].satisfied then 1 else 0)
  {
    assert fields[..i + 1][..i] == fields[..i];
  }

  lemma {:induction false} SatisfiedCount(h: string -> string, patch: map<string, Json>, state: map<string, Json>, keys: seq<string>, n: nat)
    requires Ascending(keys) && n <= |keys| && forall k :: k in keys ==> k in patch
    ensures Satisfied(FieldsOf(h, patch, state, keys)[..n]) == |HoldingIn(patch, state, keys[..n])|
    decreases n
  {
    hide Ascending;
    var fields := FieldsOf(h, patch, state, keys);
    if n > 0 {
      SatisfiedCount(h, patch, state, keys, n - 1);
      HoldingNext(patch, state, keys, n - 1);
      SatisfiedNext(fields, n - 1);
    } else {
      assert HoldingIn(patch, state, keys[..0]) == {};
    }
  }

  lemma {:induction false} PathsTransitive(fields: seq<Field>, i: nat, j: nat)
    requires PathsAscend(fields) && i < j < |fields|
    ensures Less(fields[i].path, fields[j].path)
    decreases j
  {
    hide Less;
    assert Follows(fields, j);
    if i < j - 1 {
      PathsTransitive(fields, i, j - 1);
      LessTransitive(fields[i].path, fields[j - 1].path, fields[j].path);
    }
  }

  /** The paths of sorted keys ascend exactly when no two keys clash. */
  lemma PathsAscendIff(h: string -> string, patch: map<string, Json>, state: map<string, Json>, keys: seq<string>)
    requires Ascending(keys) && forall k :: k in keys ==> k in patch
    ensures PathsAscend(FieldsOf(h, patch, state, keys)) <==> OrderKept(Elements(keys))
  {
    hide Less, SlashClash, PathOf, ValueDigest;
    var fields := FieldsOf(h, patch, state, keys);
    if PathsAscend(fields) {
      forall a, b | a in Elements(keys) && b in Elements(keys) ensures !SlashClash(a, b) {
        var i :| 0 <= i < |keys| && keys[i] == a;
        var j :| 0 <= j < |keys| && keys[j] == b;
        NoClashBetween(h, patch, state, keys, i, j);
      }
    }
    if OrderKept(Elements(keys)) {
      forall i | 0 <= i < |fields| ensures Follows(fields, i) {
        if i > 0 {
          assert keys[i - 1] in Elements(keys) && keys[i] in Elements(keys);
          PathOrder(keys[i - 1], keys[i]);
        }
      }
    }
  }

  lemma NoClashBetween(h: string -> string, patch: map<string, Json>, state: map<string, Json>, keys: seq<string>, i: nat, j: nat)
    requires Ascending(keys) && i < |keys| && j < |keys| && forall k :: k in keys ==> k in patch
    requires PathsAscend(FieldsOf(h, patch, state, keys))
    ensures !SlashClash(keys[i], keys[j])
  {
    hide PathOf, ValueDigest;
    if i < j {
      PathsTransitive(FieldsOf(h, patch, state, keys), i, j);
      PathOrder(keys[i], keys[j]);
    } else if SlashClash(keys[i], keys[j]) {
      SlashClashNeedsSlash(keys[i], keys[j]);
      LessIrreflexive(keys[i]);
      if j < i { LessTransitive(keys[i], keys[j], keys[i]); }
    }
  }

  /** An evaluation built from an observed state passes the validator exactly when no
      two patch keys reverse their order under escaping. */
  lemma EvaluationValidates(h: string -> string, plan: Plan, state: map<string, Json>)
    requires Usable(plan)
    ensures ValidEvaluation(Evaluated(h, plan, state)) <==> OrderKept(plan.patch.Keys)
  {
    hide PathsAscend, OrderKept, Ascending, Satisfied, Blank, FieldOf, FieldSound, HoldingIn, Holding;
    var keys, e := SortedKeys(plan.patch.Keys), Evaluated(h, plan, state);
    PathsAscendIff(h, plan.patch, state, keys);
    SatisfiedCount(h, plan.patch, state, keys, |keys|);
    assert keys[..|keys|] == keys && e.fields[..|keys|] == e.fields;
    HoldingInAll(plan.patch, state, keys);
    AscendingLength(keys);
    HoldingBounded(plan.patch, state);
    forall i | 0 <= i < |e.fields| ensures FieldSound(e.fields[i]) {
      FieldIsSound(h, plan.patch, state, keys[i]);
    }
  }

  lemma HoldingInAll(patch: map<string, Json>, state: map<string, Json>, keys: seq<string>)
    requires Elements(keys) == patch.Keys
    ensures HoldingIn(patch, state, keys) == Holding(patch, state)
  {
    assert forall k :: k in keys <==> k in Elements(keys);
  }

  lemma HoldingBounded(patch: map<string, Json>, state: map<string, Json>)
    ensures |Holding(patch, state)| <= |patch|
  {
    SubsetSize(Holding(patch, state), patch.Keys);
    assert |patch.Keys| == |patch|;
  }

  lemma FieldIsSound(h: string -> string, patch: map<string, Json>, state: map<string, Json>, key: string)
    requires key in patch
    ensures FieldSound(FieldOf(h, patch, state, key))
  {
    assert ValueDigest(h, patch[key])[0] == 's';
  }

  /** Every patch whose keys contain no '/' evaluates to valid evidence. */
  lemma WithoutSlashValidates(h: string -> string, plan: Plan, state: map<string, Json>)
    requires Usable(plan) && forall k :: k in plan.patch ==> '/' !in k
    ensures ValidEvaluation(Evaluated(h, plan, state))
  {
    WithoutSlashOrderKept(plan.patch.Keys);
    EvaluationValidates(h, plan, state);
  }

  /******* Equivalent observations *******/

  predicate Equivalent(a: Evaluation, b: Evaluation) {
    a.profile == b.profile && a.matched == b.matched && a.total == b.total && a.fields == b.fields
  }

  /** `EquivalentPostconditionObservation` */
  method CheckEquivalent(a: Evaluation, b: Evaluation) returns (same: bool)
    ensures same <==> Equivalent(a, b)
  {
    if a.profile != b.profile || a.matched != b.matched || a.total != b.total || |a.fields| != |b.fields| { return false; }
    for i := 0 to |a.fields|
      invariant a.fields[..i] == b.fields[..i]
    {
      if a.fields[i] != b.fields[i] { return false; }
      assert a.fields[..i + 1] == a.fields[..i] + [a.fields[i]];
      assert b.fields[..i + 1] == b.fields[..i] + [b.fields[i]];
    }
    assert a.fields[..|a.fields|] == a.fields && b.fields[..|a.fields|] == b.fields;
    same := true;
  }

  /** The state holds every intended value. */
  predicate HoldsAll(patch: map<string, Json>, state: map<string, Json>) {
    forall k :: k in patch ==> k in state && state[k] == patch[k]
  }

  /** Two states agree at every patched key. */
  predicate AgreeOn(patch: map<string, Json>, s: map<string, Json>, t: map<string, Json>) {
    forall k :: k in patch ==> (k in s <==> k in t) && (k in s ==> s[k] == t[k])
  }

  /** The hash collides on the two values of a patched key. */
  predicate ValuesCollide(h: string -> string, patch: map<string, Json>, s: map<string, Json>, t: map<string, Json>) {
    exists k :: k in patch && k in s && k in t && Collide(h, Wrapped(s[k]), Wrapped(t[k]))
  }

  lemma AgreeingStatesEvaluateAlike(h: string -> string, plan: Plan, s: map<string, Json>, t: map<string, Json>)
    requires AgreeOn(plan.patch, s, t)
    ensures Evaluated(h, plan, s) == Evaluated(h, plan, t)
  {
    hide ValueDigest, PathOf, Ascending;
    assert Holding(plan.patch, s) == Holding(plan.patch, t);
    var keys := SortedKeys(plan.patch.Keys);
    assert forall i :: 0 <= i < |keys| ==> keys[i] in Elements(keys);
    assert FieldsOf(h, plan.patch, s, keys) == FieldsOf(h, plan.patch, t, keys);
  }

  /** Observations of one plan are equivalent exactly when they saw the same value, or the
      same absence, at every patched key, unless the hash collides on two such values.  Equivalent
      observations have one result. */
  lemma EquivalentStatesAgree(h: string -> string, plan: Plan, s: map<string, Json>, t: map<string, Json>)
    ensures AgreeOn(plan.patch, s, t) ==> Equivalent(Evaluated(h, plan, s), Evaluated(h, plan, t))
    ensures Equivalent(Evaluated(h, plan, s), Evaluated(h, plan, t)) ==>
              Evaluated(h, plan, s).result == Evaluated(h, plan, t).result && (ValuesCollide(h, plan.patch, s, t) || AgreeOn(plan.patch, s, t))
  {
    if AgreeOn(plan.patch, s, t) { AgreeingStatesEvaluateAlike(h, plan, s, t); }
    if Equivalent(Evaluated(h, plan, s), Evaluated(h, plan, t)) { EquivalentSawTheSame(h, plan, s, t); }
  }

  lemma EquivalentSawTheSame(h: string -> string, plan: Plan, s: map<string, Json>, t: map<string, Json>)
    requires Equivalent(Evaluated(h, plan, s), Evaluated(h, plan, t))
    ensures ValuesCollide(h, plan.patch, s, t) || AgreeOn(plan.patch, s, t)
  {
    var keys := SortedKeys(plan.patch.Keys);
    if !ValuesCollide(h, plan.patch, s, t) {
      forall k | k in plan.patch ensures (k in s <==> k in t) && (k in s ==> s[k] == t[k]) {
        assert k in Elements(keys);
        var i :| 0 <= i < |keys| && keys[i] == k;
        assert Evaluated(h, plan, s).fields[i] == Evaluated(h, plan, t).fields[i];
        if k in s && k in t { DigestedValue(h, s[k], t[k]); }
      }
    }
  }

  lemma DigestedValue(h: string -> string, v: Json, w: Json)
    requires ValueDigest(h, v) == ValueDigest(h, w)
    ensures v == w || Collide(h, Wrapped(v), Wrapped(w))
  {
    var x, y := Wrapped(v), Wrapped(w);
    assert ValueDigest(h, v)[7..] == h(x) && ValueDigest(h, w)[7..] == h(y);
    if x == y {
      assert v == x[9..|x| - 1] && w == y[9..|y| - 1];
    }
  }
}
