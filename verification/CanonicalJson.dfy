/** The canonical JSON text of evidenceverify/canonical.go: sorted ASCII keys,
    ASCII strings, integers up to 2^53-1.  A strict parser undoes it exactly. */
module CanonicalJson {
  import opened Text

  /** A decoded JSON value; numbers keep their source text (`json.Number`). */
  datatype Json =
    | JNull
    | JBool(b: bool)
    | JNumber(text: string)
    | JString(s: string)
    | JArray(items: seq<Json>)
    | JObject(members: map<string, Json>)

  const MAX_EXACT: nat := 0x1F_FFFF_FFFF_FFFF

  predicate Ascii(s: string) {
    forall i :: 0 <= i < |s| ==> s[i] as int < 128
  }

  /******* Strings *******/

  function HexDigit(d: nat): char
    requires d < 16
  {
    "0123456789abcdef"[d]
  }

  /** Go's encoder with HTML escaping off, on one ASCII character; section 3.2.2.2
      of RFC 8785 asks for the same escapes. */
  function Escape(c: char): string
    requires c as int < 128
  {
    if c == '"' then ['\\', '"']
    else if c == '\\' then ['\\', '\\']
    else if c as int == 8 then ['\\', 'b']
    else if c as int == 12 then ['\\', 'f']
    else if c as int == 10 then ['\\', 'n']
    else if c as int == 13 then ['\\', 'r']
    else if c as int == 9 then ['\\', 't']
    else if c as int < 32 then ['\\', 'u', '0', '0', HexDigit(c as int / 16), HexDigit(c as int % 16)]
    else [c]
  }

  /** The characters of a string and its closing quote. */
  function Body(s: string): string
    requires Ascii(s)
  {
    if s == "" then ['"'] else Escape(s[0]) + Body(s[1..])
  }

  function Quoted(s: string): Option<string> {
    if Ascii(s) then Some(['"'] + Body(s)) else None
  }

  function HexValue(c: char): Option<nat> {
    if '0' <= c <= '9' then Some(c as int - '0' as int)
    else if 'a' <= c <= 'f' then Some(c as int - 'a' as int + 10)
    else None
  }

  /** One character in canonical form, and what follows it. */
  function ParseChar(t: string): Option<(char, string)> {
    if t == "" then None
    else if t[0] != '\\' then
      if t[0] == '"' || t[0] as int < 32 || t[0] as int >= 128 then None else Some((t[0], t[1..]))
    else if |t| < 2 then None
    else if t[1] == '"' then Some(('"', t[2..]))
    else if t[1] == '\\' then Some(('\\', t[2..]))
    else if t[1] == 'b' then Some((8 as char, t[2..]))
    else if t[1] == 'f' then Some((12 as char, t[2..]))
    else if t[1] == 'n' then Some((10 as char, t[2..]))
    else if t[1] == 'r' then Some((13 as char, t[2..]))
    else if t[1] == 't' then Some((9 as char, t[2..]))
    else if |t| < 6 || t[..4] != ['\\', 'u', '0', '0'] then None
    else match (HexValue(t[4]), HexValue(t[5]))
      case (Some(a), Some(b)) =>
        var n := 16 * a + b;
        if n >= 32 || n == 8 || n == 9 || n == 10 || n == 12 || n == 13 then None
        else Some((n as char, t[6..]))
      case _ => None
  }

  lemma HexRoundTrip(d: nat)
    requires d < 16
    ensures HexValue(HexDigit(d)) == Some(d)
  {
  }

  lemma HexInverse(c: char)
    requires HexValue(c).Some?
    ensures HexValue(c).value < 16 && HexDigit(HexValue(c).value) == c
  {
  }

  lemma ParseCharRoundTrip(c: char, rest: string)
    requires c as int < 128
    ensures ParseChar(Escape(c) + rest) == Some((c, rest))
  {
    var t := Escape(c) + rest;
    if |Escape(c)| == 1 {
      assert t[1..] == rest;
    } else if |Escape(c)| == 2 {
      assert t[2..] == rest;
    } else {
      HexRoundTrip(c as int / 16);
      HexRoundTrip(c as int % 16);
      assert t[..4] == ['\\', 'u', '0', '0'] && t[6..] == rest;
    }
  }

  lemma ParseCharCanonical(t: string)
    requires ParseChar(t).Some?
    ensures var (c, rest) := ParseChar(t).value;
      c as int < 128 && t == Escape(c) + rest && |rest| < |t|
  {
    if t[0] == '\\' {
      assert t == [t[0], t[1]] + t[2..];
      if t[1] == 'u' { UnicodeCanonical(t); }
    }
  }

  lemma UnicodeCanonical(t: string)
    requires ParseChar(t).Some? && t[0] == '\\' && t[1] == 'u'
    ensures var (c, rest) := ParseChar(t).value;
      c as int < 128 && t == Escape(c) + rest && |rest| < |t|
  {
    UnicodeShape(t);
    HexInverse(t[4]);
    HexInverse(t[5]);
    var (c, rest) := ParseChar(t).value;
    hide ParseChar, HexValue;
    assert Escape(c) == ['\\', 'u', '0', '0', t[4], t[5]];
    assert t == t[..4] + [t[4], t[5]] + t[6..];
  }

  lemma UnicodeShape(t: string)
    requires ParseChar(t).Some? && t[0] == '\\' && t[1] == 'u'
    ensures |t| >= 6 && t[..4] == ['\\', 'u', '0', '0'] && HexValue(t[4]).Some? && HexValue(t[5]).Some?
    ensures var n := 16 * HexValue(t[4]).value + HexValue(t[5]).value;
      n < 32 && n != 8 && n != 9 && n != 10 && n != 12 && n != 13 && ParseChar(t) == Some((n as char, t[6..]))
  {
  }

  /** The rest of a string literal after its opening quote. */
  function ParseBody(t: string): Option<(string, string)>
    decreases |t|
  {
    if t == "" then None
    else if t[0] == '"' then Some(("", t[1..]))
    else match ParseChar(t)
      case None => None
      case Some((c, more)) =>
        if |more| >= |t| then None
        else match ParseBody(more)
          case None => None
          case Some((s, rest)) => Some(([c] + s, rest))
  }

  lemma EscapeHead(c: char)
    requires c as int < 128
    ensures Escape(c) != "" && Escape(c)[0] != '"'
  {
  }

  lemma {:induction false} ParseBodyRoundTrip(s: string, rest: string)
    requires Ascii(s)
    ensures ParseBody(Body(s) + rest) == Some((s, rest))
  {
    hide Escape, ParseChar;
    var t := Body(s) + rest;
    if s == "" {
      assert t[1..] == rest;
    } else {
      var more := Body(s[1..]) + rest;
      ParseBodyRoundTrip(s[1..], rest);
      assert t == Escape(s[0]) + more;
      EscapeHead(s[0]);
      ParseCharRoundTrip(s[0], more);
      assert |more| < |t|;
      assert [s[0]] + s[1..] == s;
    }
  }

  lemma {:induction false} ParseBodyCanonical(t: string)
    requires ParseBody(t).Some?
    ensures var (s, rest) := ParseBody(t).value; Ascii(s) && t == Body(s) + rest && |rest| < |t|
    decreases |t|
  {
    hide Escape, ParseChar;
    if t[0] == '"' {
      assert t == ['"'] + t[1..];
    } else {
      ParseCharCanonical(t);
      var (c, more) := ParseChar(t).value;
      ParseBodyCanonical(more);
      var (s, rest) := ParseBody(more).value;
      BodyCons(c, s, rest);
    }
  }

  lemma BodyCons(c: char, s: string, rest: string)
    requires c as int < 128 && Ascii(s)
    ensures Ascii([c] + s) && Body([c] + s) + rest == Escape(c) + (Body(s) + rest)
  {
    hide Escape;
    assert ([c] + s)[1..] == s;
  }

  /******* Numbers *******/

  /** `strconv.ParseUint(text, 10, 64)` followed by the bound of the profile. */
  predicate ExactNumber(text: string) {
    text != "" && AllDigits(text) && Value(text) <= MAX_EXACT
  }

  /** JSON number tokens have no leading zeros. */
  predicate NumberToken(text: string) {
    text != "" && AllDigits(text) ==> |text| == 1 || text[0] != '0'
  }

  function DigitsOf(t: string): (n: nat)
    ensures n <= |t| && AllDigits(t[..n]) && (n < |t| ==> !IsDigit(t[n]))
  {
    if t == "" || !IsDigit(t[0]) then 0
    else
      var n := DigitsOf(t[1..]);
      assert t[..n + 1] == [t[0]] + t[1..][..n];
      n + 1
  }

  predicate NoDigitFirst(rest: string) {
    rest == "" || !IsDigit(rest[0])
  }

  lemma {:induction false} DigitsOfNumeral(text: string, rest: string)
    requires AllDigits(text) && NoDigitFirst(rest)
    ensures DigitsOf(text + rest) == |text|
  {
    if text == "" {
      assert text + rest == rest;
    } else {
      assert (text + rest)[1..] == text[1..] + rest;
      DigitsOfNumeral(text[1..], rest);
    }
  }

  /******* Emission *******/

  /** `emit`; `None` is the profile error. */
  ghost function Emit(v: Json): Option<string>
    decreases v, 2
  {
    match v
    case JNull => Some("null")
    case JBool(b) => Some(if b then "true" else "false")
    case JNumber(text) => if ExactNumber(text) then Some(Decimal(Value(text))) else None
    case JString(s) => Quoted(s)
    case JArray(items) => Wrap('[', Items(v, 0))
    case JObject(members) => Wrap('{', Members(v, SortedKeys(members.Keys)))
  }

  function Wrap(c: char, body: Option<string>): Option<string> {
    if body.Some? then Some([c] + body.value) else None
  }

  /** The elements of an array from index `i`, their commas and the closing bracket. */
  ghost function Items(v: Json, i: nat): Option<string>
    requires v.JArray? && i <= |v.items|
    decreases v, 1, |v.items| - i
  {
    if i == |v.items| then Some("]")
    else match (Emit(v.items[i]), Items(v, i + 1))
      case (Some(a), Some(more)) => Some(a + Separated(i + 1 == |v.items|, more))
      case _ => None
  }

  function Separated(last: bool, more: string): string {
    if last then more else [','] + more
  }

  function Key(k: string): Option<string> {
    if Ascii(k) then Some(['"'] + Body(k) + [':']) else None
  }

  /** The members of an object in key order, and the closing brace. */
  ghost function Members(v: Json, keys: seq<string>): Option<string>
    requires v.JObject? && forall k :: k in keys ==> k in v.members
    decreases v, 1, |keys|
  {
    if keys == [] then Some("}")
    else match (Key(keys[0]), Emit(v.members[keys[0]]), Members(v, keys[1..]))
      case (Some(k), Some(a), Some(more)) => Some(k + (a + Separated(|keys| == 1, more)))
      case _ => None
  }

  /** Every number in the value is a JSON token. */
  ghost predicate Decoded(v: Json) {
    match v
    case JNumber(text) => NumberToken(text)
    case JArray(items) => forall x :: x in items ==> Decoded(x)
    case JObject(members) => forall k :: k in members ==> Decoded(members[k])
    case _ => true
  }

  /******* The parser *******/

  function Expect(t: string, word: string): Option<string> {
    if word <= t then Some(t[|word|..]) else None
  }

  function ParseValue(t: string): (r: Option<(Json, string)>)
    ensures r.Some? ==> |r.value.1| < |t|
    decreases |t|, 0
  {
    if t == "" then None
    else if t[0] == 'n' then
      (match Expect(t, "null") case None => None case Some(rest) => Some((JNull, rest)))
    else if t[0] == 't' then
      (match Expect(t, "true") case None => None case Some(rest) => Some((JBool(true), rest)))
    else if t[0] == 'f' then
      (match Expect(t, "false") case None => None case Some(rest) => Some((JBool(false), rest)))
    else if t[0] == '"' then
      (match ParseBody(t[1..])
       case None => None
       case Some((s, rest)) => if |rest| < |t| then Some((JString(s), rest)) else None)
    else if IsDigit(t[0]) then
      var n := DigitsOf(t);
      if NumberToken(t[..n]) && ExactNumber(t[..n]) && n > 0 then Some((JNumber(t[..n]), t[n..])) else None
    else if t[0] == '[' then
      if |t| > 1 && t[1] == ']' then Some((JArray([]), t[2..]))
      else (match ParseItems(t[1..])
            case None => None
            case Some((items, rest)) => Some((JArray(items), rest)))
    else if t[0] == '{' then
      if |t| > 1 && t[1] == '}' then Some((JObject(map[]), t[2..]))
      else (match ParseMembers(t[1..])
            case None => None
            case Some((ms, rest)) => Some((JObject(ToMap(ms)), rest)))
    else None
  }

  function ParseItems(t: string): (r: Option<(seq<Json>, string)>)
    ensures r.Some? ==> |r.value.1| < |t| && r.value.0 != []
    decreases |t|, 1
  {
    match ParseValue(t)
    case None => None
    case Some((v, rest)) =>
      if rest == "" then None
      else if rest[0] == ']' then Some(([v], rest[1..]))
      else if rest[0] != ',' then None
      else match ParseItems(rest[1..])
        case None => None
        case Some((more, rest')) => Some(([v] + more, rest'))
  }

  /** A quoted key and its colon. */
  function ParseKey(t: string): (r: Option<(string, string)>)
    ensures r.Some? ==> |r.value.1| < |t|
  {
    if t == "" || t[0] != '"' then None
    else match ParseBody(t[1..])
      case None => None
      case Some((k, colon)) =>
        if colon == "" || colon[0] != ':' || |colon| >= |t| then None else Some((k, colon[1..]))
  }

  /** Members whose keys strictly increase. */
  function ParseMembers(t: string): (r: Option<(seq<(string, Json)>, string)>)
    ensures r.Some? ==> |r.value.1| < |t| && r.value.0 != []
    decreases |t|, 1
  {
    match ParseKey(t)
    case None => None
    case Some((k, u)) =>
      match ParseValue(u)
      case None => None
      case Some((v, rest)) =>
        if rest == "" then None
        else if rest[0] == '}' then Some(([(k, v)], rest[1..]))
        else if rest[0] != ',' then None
        else match ParseMembers(rest[1..])
          case None => None
          case Some((more, rest')) =>
            if Less(k, more[0].0) then Some(([(k, v)] + more, rest')) else None
  }

  function ToMap(ms: seq<(string, Json)>): map<string, Json> {
    if ms == [] then map[] else ToMap(ms[1..])[ms[0].0 := ms[0].1]
  }

  /******* Parsing undoes emission *******/

  /** The first character of a canonical text, which selects the parser's branch. */
  lemma EmitStarts(v: Json)
    requires Emit(v).Some?
    ensures Emit(v).value != "" && Emit(v).value[0] != ']' && Emit(v).value[0] != '}'
    ensures v.JNumber? <==> IsDigit(Emit(v).value[0])
  {
    if v.JNumber? { assert IsDigit(Decimal(Value(v.text))[0]); }
  }

  lemma NumberRoundTrip(text: string, rest: string)
    requires ExactNumber(text) && NumberToken(text) && NoDigitFirst(rest)
    ensures Decimal(Value(text)) == text
    ensures ParseValue(text + rest) == Some((JNumber(text), rest))
  {
    ValueDecimal(text);
    DigitsOfNumeral(text, rest);
    assert (text + rest)[..|text|] == text && (text + rest)[|text|..] == rest;
    assert (text + rest)[0] == text[0] && IsDigit(text[0]);
  }

  lemma LiteralRoundTrip(v: Json, rest: string)
    requires v.JNull? || v.JBool?
    ensures Emit(v).Some? && ParseValue(Emit(v).value + rest) == Some((v, rest))
  {
    hide ParseItems, ParseMembers, ParseBody;
    var t := Emit(v).value + rest;
    match v
    case JNull => assert t[4..] == rest && t[..4] == "null";
    case JBool(true) => assert t[4..] == rest && t[..4] == "true";
    case JBool(false) => assert t[5..] == rest && t[..5] == "false";
  }

  lemma StringRoundTrip(s: string, rest: string)
    requires Ascii(s)
    ensures ParseValue(['"'] + Body(s) + rest) == Some((JString(s), rest))
  {
    hide ParseItems, ParseMembers, ParseBody, Body;
    var t := ['"'] + Body(s) + rest;
    ParseBodyRoundTrip(s, rest);
    assert t[1..] == Body(s) + rest;
  }

  /******* One step of the parser at a time *******/

  lemma ParseItemsLast(t: string, x: Json, rest: string)
    requires ParseValue(t) == Some((x, [']'] + rest))
    ensures ParseItems(t) == Some(([x], rest))
  {
    assert ([']'] + rest)[1..] == rest;
  }

  lemma ParseItemsMore(t: string, x: Json, u: string, xs: seq<Json>, rest: string)
    requires ParseValue(t) == Some((x, [','] + u)) && ParseItems(u) == Some((xs, rest))
    ensures ParseItems(t) == Some(([x] + xs, rest))
  {
    assert ([','] + u)[1..] == u;
  }

  lemma ParseArray(u: string, items: seq<Json>, rest: string)
    requires u != "" && u[0] != ']' && ParseItems(u) == Some((items, rest))
    ensures ParseValue(['['] + u) == Some((JArray(items), rest))
  {
    assert (['['] + u)[1..] == u;
  }

  lemma ParseKeyRoundTrip(k: string, u: string)
    requires Key(k).Some?
    ensures ParseKey(Key(k).value + u) == Some((k, u))
  {
    var t := Key(k).value + u;
    assert t[1..] == Body(k) + ([':'] + u);
    ParseBodyRoundTrip(k, [':'] + u);
    assert ([':'] + u)[1..] == u;
  }

  lemma ParseMembersLast(t: string, k: string, u: string, x: Json, rest: string)
    requires Key(k).Some? && t == Key(k).value + u && ParseValue(u) == Some((x, ['}'] + rest))
    ensures ParseMembers(t) == Some(([(k, x)], rest))
  {
    ParseKeyRoundTrip(k, u);
    assert (['}'] + rest)[1..] == rest;
  }

  lemma ParseMembersMore(t: string, k: string, u: string, x: Json, w: string, more: seq<(string, Json)>, rest: string)
    requires Key(k).Some? && t == Key(k).value + u && ParseValue(u) == Some((x, [','] + w))
    requires ParseMembers(w) == Some((more, rest)) && Less(k, more[0].0)
    ensures ParseMembers(t) == Some(([(k, x)] + more, rest))
  {
    ParseKeyRoundTrip(k, u);
    assert ([','] + w)[1..] == w;
  }

  lemma ParseObject(u: string, ms: seq<(string, Json)>, rest: string)
    requires ParseMembers(u) == Some((ms, rest))
    ensures ParseValue(['{'] + u) == Some((JObject(ToMap(ms)), rest))
  {
    assert (['{'] + u)[1..] == u;
  }

  lemma ParseEmpty(rest: string)
    ensures ParseValue(['[', ']'] + rest) == Some((JArray([]), rest))
    ensures ParseValue(['{', '}'] + rest) == Some((JObject(map[]), rest))
  {
    assert (['[', ']'] + rest)[2..] == rest && (['{', '}'] + rest)[2..] == rest;
  }

  /******* Round trip *******/

  lemma {:induction false} ValueRoundTrip(v: Json, rest: string)
    requires Decoded(v) && Emit(v).Some? && (v.JNumber? ==> NoDigitFirst(rest))
    ensures ParseValue(Emit(v).value + rest) == Some((v, rest))
    decreases v, 2
  {
    hide ParseValue;
    match v
    case JNumber(text) => NumberRoundTrip(text, rest);
    case JString(s) => StringRoundTrip(s, rest);
    case JArray(items) => ArrayRoundTrip(v, rest);
    case JObject(members) => ObjectRoundTrip(v, rest);
    case _ => LiteralRoundTrip(v, rest);
  }

  lemma {:induction false} ArrayRoundTrip(v: Json, rest: string)
    requires Decoded(v) && v.JArray? && Emit(v).Some?
    ensures ParseValue(Emit(v).value + rest) == Some((v, rest))
    decreases v, 1
  {
    hide ParseValue, ParseItems, ParseMembers;
    if v.items == [] {
      ParseEmpty(rest);
      assert Emit(v).value == ['[', ']'];
    } else {
      var u := Items(v, 0).value + rest;
      ItemsRoundTrip(v, 0, rest);
      EmitStarts(v.items[0]);
      ParseArray(u, v.items[0..], rest);
      assert Emit(v).value + rest == ['['] + u;
      assert v.items[0..] == v.items;
    }
  }

  /** An array tail is its first element, a separator and the shorter tail. */
  lemma ItemsUnfold(v: Json, i: nat, rest: string)
    requires v.JArray? && i < |v.items| && Items(v, i).Some?
    ensures Emit(v.items[i]).Some? && Items(v, i + 1).Some?
    ensures i + 1 == |v.items| ==> Items(v, i).value + rest == Emit(v.items[i]).value + ([']'] + rest)
    ensures i + 1 < |v.items| ==>
      Items(v, i).value + rest == Emit(v.items[i]).value + ([','] + (Items(v, i + 1).value + rest))
  {
  }

  lemma {:induction false} ItemsRoundTrip(v: Json, i: nat, rest: string)
    requires Decoded(v) && v.JArray? && i < |v.items| && Items(v, i).Some?
    ensures ParseItems(Items(v, i).value + rest) == Some((v.items[i..], rest))
    decreases v, 0, |v.items| - i
  {
    hide ParseValue, ParseItems, ParseMembers, Emit, Items;
    ItemsUnfold(v, i, rest);
    var x, t := v.items[i], Items(v, i).value + rest;
    if i + 1 == |v.items| {
      ValueRoundTrip(x, [']'] + rest);
      ParseItemsLast(t, x, rest);
      assert v.items[i..] == [x];
    } else {
      var u := Items(v, i + 1).value + rest;
      ValueRoundTrip(x, [','] + u);
      ItemsRoundTrip(v, i + 1, rest);
      ParseItemsMore(t, x, u, v.items[i + 1..], rest);
      assert v.items[i..] == [x] + v.items[i + 1..];
    }
  }

  lemma {:induction false} ObjectRoundTrip(v: Json, rest: string)
    requires Decoded(v) && v.JObject? && Emit(v).Some?
    ensures ParseValue(Emit(v).value + rest) == Some((v, rest))
    decreases v, 1
  {
    hide ParseValue, ParseItems, ParseMembers;
    var keys := SortedKeys(v.members.Keys);
    if keys != [] { MembersRoundTrip(v, keys, rest); }
    ParseWholeObject(v, keys, rest);
  }

  lemma ParseWholeObject(v: Json, keys: seq<string>, rest: string)
    requires v.JObject? && Emit(v).Some? && keys == SortedKeys(v.members.Keys)
    requires keys != [] ==> ParseMembers(Members(v, keys).value + rest) == Some((Pairs(v.members, keys), rest))
    ensures ParseValue(Emit(v).value + rest) == Some((v, rest))
  {
    hide ParseValue, ParseItems, ParseMembers, ToMap, Pairs;
    var u := Members(v, keys).value + rest;
    assert Emit(v).value + rest == ['{'] + u;
    ToMapPairs(v.members, keys);
    if keys == [] {
      ParseEmpty(rest);
      assert ['{'] + u == ['{', '}'] + rest;
    } else {
      ParseObject(u, Pairs(v.members, keys), rest);
    }
  }

  function Pairs(members: map<string, Json>, keys: seq<string>): (r: seq<(string, Json)>)
    requires forall k :: k in keys ==> k in members
    ensures |r| == |keys| && (keys != [] ==> r[0].0 == keys[0])
  {
    if keys == [] then [] else [(keys[0], members[keys[0]])] + Pairs(members, keys[1..])
  }

  lemma Regroup(a: string, b: string, c: string, d: string)
    ensures (a + (b + c)) + d == a + (b + (c + d))
  {
  }

  /** An object tail is its first member, a separator and the shorter tail. */
  lemma MembersUnfold(v: Json, keys: seq<string>, rest: string)
    requires v.JObject? && keys != [] && (forall k :: k in keys ==> k in v.members)
    requires Members(v, keys).Some?
    ensures Key(keys[0]).Some? && Emit(v.members[keys[0]]).Some? && Members(v, keys[1..]).Some?
    ensures Members(v, keys).value + rest
      == Key(keys[0]).value + (Emit(v.members[keys[0]]).value + (Separated(|keys| == 1, Members(v, keys[1..]).value) + rest))
  {
    Regroup(Key(keys[0]).value, Emit(v.members[keys[0]]).value, Separated(|keys| == 1, Members(v, keys[1..]).value), rest);
  }

  lemma SeparatedText(more: string, rest: string)
    ensures Separated(true, more) + rest == more + rest
    ensures Separated(false, more) + rest == [','] + (more + rest)
  {
  }

  lemma {:induction false} MembersRoundTrip(v: Json, keys: seq<string>, rest: string)
    requires Decoded(v) && v.JObject? && keys != [] && (forall k :: k in keys ==> k in v.members)
    requires Ascending(keys) && Members(v, keys).Some?
    ensures ParseMembers(Members(v, keys).value + rest) == Some((Pairs(v.members, keys), rest))
    decreases v, 0, |keys|
  {
    hide ParseValue, ParseItems, ParseMembers, Emit, Members, Pairs;
    MembersUnfold(v, keys, rest);
    var x := v.members[keys[0]];
    if |keys| == 1 {
      ValueRoundTrip(x, ['}'] + rest);
      MembersLast(v, keys, rest);
    } else {
      ValueRoundTrip(x, [','] + (Members(v, keys[1..]).value + rest));
      MembersRoundTrip(v, keys[1..], rest);
      MembersMore(v, keys, rest);
    }
  }

  lemma MembersLast(v: Json, keys: seq<string>, rest: string)
    requires v.JObject? && |keys| == 1 && (forall k :: k in keys ==> k in v.members)
    requires Members(v, keys).Some? && Emit(v.members[keys[0]]).Some?
    requires var x := v.members[keys[0]]; ParseValue(Emit(x).value + (['}'] + rest)) == Some((x, ['}'] + rest))
    ensures ParseMembers(Members(v, keys).value + rest) == Some((Pairs(v.members, keys), rest))
  {
    hide ParseValue, ParseItems, ParseMembers, Emit;
    MembersUnfold(v, keys, rest);
    SeparatedText(Members(v, keys[1..]).value, rest);
    var x := v.members[keys[0]];
    assert Members(v, keys[1..]).value == ['}'];
    ParseMembersLast(Members(v, keys).value + rest, keys[0], Emit(x).value + (['}'] + rest), x, rest);
    assert Pairs(v.members, keys) == [(keys[0], x)];
  }

  lemma MembersMore(v: Json, keys: seq<string>, rest: string)
    requires v.JObject? && |keys| > 1 && (forall k :: k in keys ==> k in v.members)
    requires Members(v, keys).Some? && Members(v, keys[1..]).Some? && Emit(v.members[keys[0]]).Some?
    requires Less(keys[0], keys[1])
    requires var x, w := v.members[keys[0]], Members(v, keys[1..]).value + rest;
      ParseValue(Emit(x).value + ([','] + w)) == Some((x, [','] + w))
      && ParseMembers(w) == Some((Pairs(v.members, keys[1..]), rest))
    ensures ParseMembers(Members(v, keys).value + rest) == Some((Pairs(v.members, keys), rest))
  {
    hide ParseValue, ParseItems, ParseMembers, Emit, Members;
    MembersUnfold(v, keys, rest);
    SeparatedText(Members(v, keys[1..]).value, rest);
    var x, w := v.members[keys[0]], Members(v, keys[1..]).value + rest;
    ParseMembersMore(Members(v, keys).value + rest, keys[0], Emit(x).value + ([','] + w), x, w, Pairs(v.members, keys[1..]), rest);
  }

  lemma {:induction false} ToMapPairs(members: map<string, Json>, keys: seq<string>)
    requires Ascending(keys) && Elements(keys) == members.Keys
    ensures ToMap(Pairs(members, keys)) == members
  {
    if keys == [] {
      assert members.Keys == {};
    } else {
      AscendingTail(keys);
      var smaller := members - {keys[0]};
      PairsRestrict(members, smaller, keys[1..]);
      ToMapPairs(smaller, keys[1..]);
      assert smaller[keys[0] := members[keys[0]]] == members;
    }
  }

  lemma {:induction false} PairsRestrict(a: map<string, Json>, b: map<string, Json>, keys: seq<string>)
    requires forall k :: k in keys ==> k in a && k in b && a[k] == b[k]
    ensures Pairs(a, keys) == Pairs(b, keys)
  {
    if keys != [] { PairsRestrict(a, b, keys[1..]); }
  }

  /******* Emission undoes parsing *******/

  /** `t` is the canonical text of `v` followed by `rest`. */
  ghost predicate Reads(t: string, v: Json, rest: string) {
    Decoded(v) && Emit(v).Some? && t == Emit(v).value + rest
  }

  ghost predicate ReadsItems(t: string, items: seq<Json>, rest: string) {
    var v := JArray(items);
    items != [] && Decoded(v) && Items(v, 0).Some? && t == Items(v, 0).value + rest
  }

  ghost predicate ReadsMembers(t: string, ms: seq<(string, Json)>, rest: string) {
    var v := JObject(ToMap(ms));
    ms != [] && Ascending(KeysOf(ms)) && Decoded(v)
    && Elements(KeysOf(ms)) == v.members.Keys
    && Members(v, KeysOf(ms)).Some? && t == Members(v, KeysOf(ms)).value + rest
  }

  function KeysOf(ms: seq<(string, Json)>): (r: seq<string>)
    ensures |r| == |ms|
    ensures ms != [] ==> r[0] == ms[0].0
  {
    if ms == [] then [] else [ms[0].0] + KeysOf(ms[1..])
  }

  lemma ExpectWord(t: string, word: string)
    requires word <= t
    ensures t == word + t[|word|..]
  {
  }

  lemma ScalarCanonical(t: string)
    requires ParseValue(t).Some? && t[0] != '[' && t[0] != '{'
    ensures var (v, rest) := ParseValue(t).value; Reads(t, v, rest)
  {
    if t[0] == 'n' { ExpectWord(t, "null"); }
    else if t[0] == 't' { ExpectWord(t, "true"); }
    else if t[0] == 'f' { ExpectWord(t, "false"); }
    else if t[0] == '"' { StringCanonical(t); }
    else { NumberCanonical(t); }
  }

  lemma StringCanonical(t: string)
    requires t != "" && t[0] == '"' && ParseBody(t[1..]).Some?
    ensures var (s, rest) := ParseBody(t[1..]).value; Reads(t, JString(s), rest)
  {
    ParseBodyCanonical(t[1..]);
    assert t == ['"'] + t[1..];
  }

  lemma NumberCanonical(t: string)
    requires t != "" && IsDigit(t[0])
    requires DigitsOf(t) > 0 && NumberToken(t[..DigitsOf(t)]) && ExactNumber(t[..DigitsOf(t)])
    ensures Reads(t, JNumber(t[..DigitsOf(t)]), t[DigitsOf(t)..])
  {
    hide DigitsOf, Value, Decimal;
    var n := DigitsOf(t);
    ValueDecimal(t[..n]);
    assert t == t[..n] + t[n..];
  }

  lemma {:induction false} ValueCanonical(t: string)
    requires ParseValue(t).Some?
    ensures var (v, rest) := ParseValue(t).value; Reads(t, v, rest)
    decreases |t|, 0
  {
    if t[0] == '[' {
      if 1 < |t| && t[1] == ']' {
        EmptyCanonical(t);
      } else {
        ItemsCanonical(t[1..]);
        ArrayCanonical(t);
      }
    } else if t[0] == '{' {
      if 1 < |t| && t[1] == '}' {
        EmptyCanonical(t);
      } else {
        MembersCanonical(t[1..]);
        ObjectCanonical(t);
      }
    } else {
      ScalarCanonical(t);
    }
  }

  lemma EmptyCanonical(t: string)
    requires |t| > 1 && ((t[0] == '[' && t[1] == ']') || (t[0] == '{' && t[1] == '}'))
    ensures Reads(t, if t[0] == '[' then JArray([]) else JObject(map[]), t[2..])
  {
    assert t == [t[0], t[1]] + t[2..];
    if t[0] == '{' {
      var v := JObject(map[]);
      var keys := SortedKeys(v.members.Keys);
      assert forall k :: k in keys ==> k in v.members;
    }
  }

  lemma ArrayCanonical(t: string)
    requires |t| > 0 && t[0] == '[' && ParseItems(t[1..]).Some?
    requires var (items, rest) := ParseItems(t[1..]).value; ReadsItems(t[1..], items, rest)
    ensures var (items, rest) := ParseItems(t[1..]).value; Reads(t, JArray(items), rest)
  {
    assert t == ['['] + t[1..];
  }

  lemma ObjectCanonical(t: string)
    requires |t| > 0 && t[0] == '{' && ParseMembers(t[1..]).Some?
    requires var (ms, rest) := ParseMembers(t[1..]).value; ReadsMembers(t[1..], ms, rest)
    ensures var (ms, rest) := ParseMembers(t[1..]).value; Reads(t, JObject(ToMap(ms)), rest)
  {
    var (ms, rest) := ParseMembers(t[1..]).value;
    AscendingUnique(KeysOf(ms), SortedKeys(ToMap(ms).Keys));
    assert t == ['{'] + t[1..];
  }

  /** What the parser's step over one element consumed. */
  lemma {:induction false} ItemsCanonical(t: string)
    requires ParseItems(t).Some?
    ensures var (items, rest) := ParseItems(t).value; ReadsItems(t, items, rest)
    decreases |t|, 1
  {
    hide ParseValue, ParseMembers, Reads, ReadsItems;
    ValueCanonical(t);
    var (v, after) := ParseValue(t).value;
    if after[0] == ']' {
      OneItem(t, v, after[1..]);
      assert after == [']'] + after[1..];
    } else {
      ItemsCanonical(after[1..]);
      var (more, rest) := ParseItems(after[1..]).value;
      assert after == [','] + after[1..];
      MoreItems(t, v, after[1..], more, rest);
    }
  }

  lemma OneItem(t: string, v: Json, rest: string)
    requires Reads(t, v, [']'] + rest)
    ensures ReadsItems(t, [v], rest)
  {
    var a := JArray([v]);
    assert Items(a, 1) == Some([']']);
    assert Items(a, 0) == Some(Emit(v).value + [']']);
  }

  lemma MoreItems(t: string, v: Json, u: string, more: seq<Json>, rest: string)
    requires Reads(t, v, [','] + u) && ReadsItems(u, more, rest)
    ensures ReadsItems(t, [v] + more, rest)
  {
    var a, b := JArray([v] + more), JArray(more);
    ItemsShift(a, b, 0);
    ItemsCons(a, b, v);
    DecodedCons(v, more);
    Regroup(Emit(v).value, [','], Items(b, 0).value, rest);
  }

  lemma ItemsCons(a: Json, b: Json, v: Json)
    requires b.JArray? && b.items != [] && a == JArray([v] + b.items)
    requires Emit(v).Some? && Items(b, 0).Some? && Items(a, 1) == Items(b, 0)
    ensures Items(a, 0) == Some(Emit(v).value + ([','] + Items(b, 0).value))
  {
  }

  lemma DecodedCons(v: Json, more: seq<Json>)
    requires Decoded(v) && Decoded(JArray(more))
    ensures Decoded(JArray([v] + more))
  {
    assert forall x :: x in [v] + more ==> x == v || x in more;
  }

  lemma {:induction false} ItemsShift(a: Json, b: Json, i: nat)
    requires a.JArray? && b.JArray? && |a.items| == |b.items| + 1 && a.items[1..] == b.items
    requires i <= |b.items|
    ensures Items(a, i + 1) == Items(b, i)
    decreases |b.items| - i
  {
    if i < |b.items| {
      assert b.items[i] == a.items[1..][i] == a.items[i + 1];
      ItemsShift(a, b, i + 1);
    }
  }

  lemma KeyText(t: string, k: string, colon: string)
    requires Ascii(k) && t != "" && t[0] == '"' && t[1..] == Body(k) + colon
    requires colon != "" && colon[0] == ':'
    ensures t == Key(k).value + colon[1..]
  {
    assert colon == [':'] + colon[1..];
    assert t == ['"'] + (Body(k) + ([':'] + colon[1..]));
  }

  lemma ParseKeyCanonical(t: string)
    requires ParseKey(t).Some?
    ensures var (k, u) := ParseKey(t).value; Key(k).Some? && t == Key(k).value + u
  {
    ParseBodyCanonical(t[1..]);
    KeyText(t, ParseBody(t[1..]).value.0, ParseBody(t[1..]).value.1);
  }

  lemma {:induction false} MembersCanonical(t: string)
    requires ParseMembers(t).Some?
    ensures var (ms, rest) := ParseMembers(t).value; ReadsMembers(t, ms, rest)
    decreases |t|, 1
  {
    hide ParseValue, ParseItems, ParseKey, Key, Reads, ReadsMembers;
    ParseKeyCanonical(t);
    var (k, u) := ParseKey(t).value;
    ValueCanonical(u);
    var (v, after) := ParseValue(u).value;
    if after[0] == '}' {
      assert after == ['}'] + after[1..];
      OneMember(t, k, u, v, after[1..]);
    } else {
      MembersCanonical(after[1..]);
      var (more, rest) := ParseMembers(after[1..]).value;
      assert after == [','] + after[1..];
      MoreMembers(t, k, u, v, after[1..], more, rest);
    }
  }

  lemma OneMember(t: string, k: string, u: string, v: Json, rest: string)
    requires Key(k).Some? && t == Key(k).value + u && Reads(u, v, ['}'] + rest)
    ensures ReadsMembers(t, [(k, v)], rest)
  {
    var ms := [(k, v)];
    var o := JObject(ToMap(ms));
    assert KeysOf(ms[1..]) == [];
    assert KeysOf(ms) == [k];
    assert ToMap(ms[1..]) == map[];
    assert o.members == map[k := v];
    assert Members(o, []) == Some(['}']);
    assert [k][1..] == [];
    assert Members(o, [k]) == Some(Key(k).value + (Emit(v).value + ['}']));
  }

  lemma MoreMembers(t: string, k: string, u: string, v: Json, w: string, more: seq<(string, Json)>, rest: string)
    requires Key(k).Some? && t == Key(k).value + u && Reads(u, v, [','] + w)
    requires ReadsMembers(w, more, rest) && Less(k, more[0].0)
    ensures ReadsMembers(t, [(k, v)] + more, rest)
  {
    hide Emit, Members, Key, KeysOf, Ascending, Less;
    var ms, keys := [(k, v)] + more, KeysOf(more);
    var a, b := JObject(ToMap(ms)), JObject(ToMap(more));
    ToMapCons(k, v, more);
    KeyBefore(k, keys);
    MembersCongruent(a, b, keys);
    MembersCons(a, k, keys);
    Regroup(Key(k).value, Emit(v).value, [','] + Members(b, keys).value, rest);
    Regroup([','], [], Members(b, keys).value, rest);
  }

  lemma ToMapCons(k: string, v: Json, more: seq<(string, Json)>)
    ensures ToMap([(k, v)] + more) == ToMap(more)[k := v]
    ensures KeysOf([(k, v)] + more) == [k] + KeysOf(more)
  {
    assert ([(k, v)] + more)[1..] == more;
  }

  lemma MembersCons(v: Json, k: string, keys: seq<string>)
    requires v.JObject? && keys != [] && forall x :: x in [k] + keys ==> x in v.members
    requires Key(k).Some? && Emit(v.members[k]).Some? && Members(v, keys).Some?
    ensures Members(v, [k] + keys)
      == Some(Key(k).value + (Emit(v.members[k]).value + ([','] + Members(v, keys).value)))
  {
    assert ([k] + keys)[1..] == keys;
  }

  lemma KeyBefore(k: string, keys: seq<string>)
    requires keys != [] && Ascending(keys) && Less(k, keys[0])
    ensures Ascending([k] + keys) && k !in keys
    ensures Elements([k] + keys) == Elements(keys) + {k}
  {
    forall i | 0 <= i < |keys| ensures Less(k, keys[i]) && k != keys[i] {
      if i > 0 { LessTransitive(k, keys[0], keys[i]); }
      LessIrreflexive(k);
    }
  }

  lemma {:induction false} MembersCongruent(a: Json, b: Json, keys: seq<string>)
    requires a.JObject? && b.JObject?
    requires forall k :: k in keys ==> k in a.members && k in b.members && a.members[k] == b.members[k]
    ensures Members(a, keys) == Members(b, keys)
    decreases |keys|
  {
    if keys != [] {
      MembersCongruent(a, b, keys[1..]);
    }
  }

  /******* Main results *******/

  /** The whole text is one canonical value. */
  function Parse(t: string): Option<Json> {
    match ParseValue(t)
    case Some((v, rest)) => if rest == "" then Some(v) else None
    case None => None
  }

  /** The canonical texts are exactly the texts the parser accepts, and the
      parser and the emitter are inverse to each other. */
  lemma CanonicalBijection(v: Json, t: string)
    ensures Decoded(v) && Emit(v) == Some(t) <==> Parse(t) == Some(v)
  {
    if Decoded(v) && Emit(v) == Some(t) {
      ValueRoundTrip(v, "");
      assert t + "" == t;
    }
    if Parse(t) == Some(v) {
      ValueCanonical(t);
      assert Emit(v).value + "" == Emit(v).value;
    }
  }

  lemma EmitInjective(v: Json, w: Json)
    requires Decoded(v) && Decoded(w)
    requires Emit(v).Some? && Emit(v) == Emit(w)
    ensures v == w
  {
    CanonicalBijection(v, Emit(v).value);
    CanonicalBijection(w, Emit(w).value);
  }

  /** The canonical text of anything but a number can be cut off the front of a longer text
      in one way only, whatever follows it; a number's, if no digit follows. */
  lemma PrefixDecodable(v: Json, w: Json, r: string, s: string)
    requires Decoded(v) && Decoded(w) && Emit(v).Some? && Emit(w).Some?
    requires v.JNumber? ==> NoDigitFirst(r) && NoDigitFirst(s)
    requires Emit(v).value + r == Emit(w).value + s
    ensures v == w && r == s
  {
    hide ParseValue, Emit;
    EmitStarts(v);
    EmitStarts(w);
    assert (Emit(v).value + r)[0] == Emit(v).value[0] && (Emit(w).value + s)[0] == Emit(w).value[0];
    ValueRoundTrip(v, r);
    ValueRoundTrip(w, s);
  }

  /** No other canonical text starts the text of `v` followed by `r`. */
  ghost predicate CutOnce(v: Json, r: string)
    requires Emit(v).Some?
  {
    forall w, s :: Decoded(w) && Emit(w).Some? && Emit(w).value + s == Emit(v).value + r ==> w == v && s == r
  }

  /** Exactly which texts have one reading as a value and a rest: numbers of several digits
      never do, a single digit does if no digit follows, and nothing joins a leading zero. */
  lemma CutOnceIff(v: Json, r: string)
    requires Decoded(v) && Emit(v).Some?
    ensures CutOnce(v, r) <==> v.JNumber? ==> |v.text| == 1 && (v.text == "0" || NoDigitFirst(r))
  {
    if !v.JNumber? {
      NonNumberCutOnce(v, r);
    } else {
      hide Emit;
      NumberText(v.text);
      if |v.text| > 1 { ShorterNumber(v.text, r); }
      else if v.text != "0" && !NoDigitFirst(r) { LongerNumber(v.text, r); }
      else { DigitCutOnce(v.text, r); }
    }
  }

  lemma NonNumberCutOnce(v: Json, r: string)
    requires Decoded(v) && Emit(v).Some? && !v.JNumber?
    ensures CutOnce(v, r)
  {
    hide Emit, Decoded;
    forall w, s | Decoded(w) && Emit(w).Some? && Emit(w).value + s == Emit(v).value + r ensures w == v && s == r {
      PrefixDecodable(v, w, r, s);
    }
  }

  lemma NumberText(text: string)
    ensures Decoded(JNumber(text)) && Emit(JNumber(text)).Some? ==> Emit(JNumber(text)) == Some(text) && text != "" && AllDigits(text)
    ensures text != "" && AllDigits(text) && Value(text) <= MAX_EXACT && (|text| == 1 || text[0] != '0') ==>
              Decoded(JNumber(text)) && Emit(JNumber(text)) == Some(text)
  {
    if text != "" && AllDigits(text) && (|text| == 1 || text[0] != '0') { ValueDecimal(text); }
  }

  lemma ShorterNumber(text: string, r: string)
    requires AllDigits(text) && |text| > 1 && Emit(JNumber(text)) == Some(text)
    ensures !CutOnce(JNumber(text), r)
  {
    hide Emit;
    var t := text[..1];
    NumberText(t);
    assert t[..0] == "" && Value(t) < 10;
    assert t + (text[1..] + r) == text + r;
  }

  lemma LongerNumber(text: string, r: string)
    requires |text| == 1 && AllDigits(text) && text != "0" && Emit(JNumber(text)) == Some(text) && !NoDigitFirst(r)
    ensures !CutOnce(JNumber(text), r)
  {
    hide Emit;
    var t := text + r[..1];
    assert t[..1] == text && text[..0] == "" && Value(text) < 10;
    assert Value(t) < 100;
    NumberText(t);
    assert t + r[1..] == text + r;
  }

  lemma DigitCutOnce(text: string, r: string)
    requires |text| == 1 && AllDigits(text) && Emit(JNumber(text)) == Some(text) && (text == "0" || NoDigitFirst(r))
    ensures CutOnce(JNumber(text), r)
  {
    hide Emit;
    var v := JNumber(text);
    forall w, s | Decoded(w) && Emit(w).Some? && Emit(w).value + s == text + r ensures w == v && s == r {
      var t := text + r;
      EmitStarts(w);
      assert (Emit(w).value + s)[0] == Emit(w).value[0] == t[0] == text[0];
      NumberText(w.text);
      var second := if |w.text| > 1 then 1 else 0;
      assert (w.text + s)[second] == w.text[second] && NumberToken(w.text);
      assert (w.text + s)[1..] == s && t[1..] == r;
    }
  }

  /** A number runs into the digits that follow it. */
  lemma NumbersNeedADelimiter()
    ensures Emit(JNumber("1")).Some? && Emit(JNumber("12")).Some?
    ensures Emit(JNumber("1")).value + "23" == Emit(JNumber("12")).value + "3"
  {
    ValueDecimal("1");
    ValueDecimal("12");
    assert "12"[..1] == "1" && "1"[..0] == "";
    assert Value("1") == 1 && Value("12") == 12;
  }

  /** Parsing a canonical text and emitting the value gives the text back, so
      canonicalizing twice is canonicalizing once. */
  lemma RecanonicalizeIdentity(v: Json)
    requires Decoded(v) && Emit(v).Some?
    ensures Parse(Emit(v).value).Some? && Emit(Parse(Emit(v).value).value) == Emit(v)
  {
    CanonicalBijection(v, Emit(v).value);
  }

  /** Any listing of a map's keys in increasing order emits the same text. */
  lemma EmitDependsOnContents(v: Json, keys: seq<string>)
    requires v.JObject? && Ascending(keys) && Elements(keys) == v.members.Keys
    ensures Emit(v) == Wrap('{', Members(v, keys))
  {
    AscendingUnique(keys, SortedKeys(v.members.Keys));
  }

  /******* The buffer the emitter appends to *******/

  /** The commas that precede the element at `i` of `n`. */
  function Before(i: nat, n: nat, more: string): string {
    if 0 < i < n then [','] + more else more
  }

  class Buffer {
    var text: string

    constructor ()
      ensures text == ""
    {
      text := "";
    }

    /** `emit`: false is the profile error, after which the caller discards the buffer. */
    method Write(v: Json) returns (ok: bool)
      modifies this
      ensures ok == Emit(v).Some?
      ensures ok ==> text == old(text) + Emit(v).value
      decreases v, 1
    {
      match v
      case JNull =>
        text, ok := text + "null", true;
      case JBool(b) =>
        text, ok := text + (if b then "true" else "false"), true;
      case JNumber(number) =>
        ok := ExactNumber(number);
        if ok { text := text + Decimal(Value(number)); }
      case JString(s) =>
        ok := WriteString(s);
      case JArray(items) =>
        ok := WriteItems(v);
      case JObject(members) =>
        ok := WriteMembers(v);
    }

    method WriteString(s: string) returns (ok: bool)
      modifies this
      ensures ok == Quoted(s).Some?
      ensures ok ==> text == old(text) + Quoted(s).value
    {
      for i := 0 to |s|
        invariant Ascii(s[..i])
        invariant text == old(text)
      {
        if s[i] as int > 127 { return false; }
      }
      assert s[..|s|] == s;
      text := text + Quoted(s).value;
      return true;
    }

    method WriteItems(v: Json) returns (ok: bool)
      requires v.JArray?
      modifies this
      ensures ok == Emit(v).Some?
      ensures ok ==> text == old(text) + Emit(v).value
      decreases v, 0
    {
      text := text + ['['];
      ghost var start, whole := text, Items(v, 0);
      for i := 0 to |v.items|
        invariant Progress(whole, start, text, i, |v.items|, Items(v, i))
      {
        ghost var before := text;
        if i > 0 { text := text + [',']; }
        ok := Write(v.items[i]);
        if !ok { return; }
        Advance(whole, start, before, i, |v.items|, Items(v, i), Emit(v.items[i]).value, Items(v, i + 1));
      }
      text := text + [']'];
      assert text == old(text) + (['['] + whole.value);
      return true;
    }

    method WriteMembers(v: Json) returns (ok: bool)
      requires v.JObject?
      modifies this
      ensures ok == Emit(v).Some?
      ensures ok ==> text == old(text) + Emit(v).value
      decreases v, 0, 2
    {
      hide Emit, Members, Ascending;
      var keys := SortKeys(v.members.Keys);
      EmitDependsOnContents(v, keys);
      text := text + ['{'];
      ok := WriteSorted(v, keys);
      assert ok ==> text == old(text) + (['{'] + Members(v, keys).value);
    }

    method WriteSorted(v: Json, keys: seq<string>) returns (ok: bool)
      requires v.JObject? && forall k :: k in keys ==> k in v.members
      modifies this
      ensures ok == Members(v, keys).Some?
      ensures ok ==> text == old(text) + Members(v, keys).value
      decreases v, 0, 1
    {
      ghost var whole := Members(v, keys);
      assert keys[0..] == keys;
      for i := 0 to |keys|
        invariant Progress(whole, old(text), text, i, |keys|, Members(v, keys[i..]))
      {
        ghost var before := text;
        MembersTail(v, keys, i);
        if i > 0 { text := text + [',']; }
        ok := WriteMember(v, keys[i]);
        if !ok { return; }
        Advance(whole, old(text), before, i, |keys|, Members(v, keys[i..]), Member(v, keys[i]).value, Members(v, keys[i + 1..]));
      }
      text := text + ['}'];
      return true;
    }

    method WriteMember(v: Json, k: string) returns (ok: bool)
      requires v.JObject? && k in v.members
      modifies this
      ensures ok == Member(v, k).Some?
      ensures ok ==> text == old(text) + Member(v, k).value
      decreases v, 0, 0
    {
      hide Emit, Quoted;
      KeyIsQuoted(k);
      ok := WriteString(k);
      if !ok { return; }
      text := text + [':'];
      ok := Write(v.members[k]);
    }
  }

  lemma KeyIsQuoted(k: string)
    ensures Key(k).Some? == Quoted(k).Some?
    ensures Key(k).Some? ==> Key(k).value == Quoted(k).value + [':']
  {
  }

  /** The loops' invariant: what is written and what is left make up the whole. */
  ghost predicate Progress(whole: Option<string>, start: string, text: string, i: nat, n: nat, left: Option<string>) {
    whole.Some? == left.Some?
    && (left.Some? ==> start + whole.value == text + Before(i, n, left.value))
  }

  lemma Advance(whole: Option<string>, start: string, text: string, i: nat, n: nat,
                left: Option<string>, item: string, left': Option<string>)
    requires i < n && Progress(whole, start, text, i, n, left)
    requires left.Some? == left'.Some?
    requires left.Some? ==> left.value == item + Before(i + 1, n, left'.value)
    ensures Progress(whole, start, (if i > 0 then text + [','] else text) + item, i + 1, n, left')
  {
  }

  /** One member: key, colon and value. */
  ghost function Member(v: Json, k: string): Option<string>
    requires v.JObject? && k in v.members
  {
    match (Key(k), Emit(v.members[k]))
    case (Some(a), Some(b)) => Some(a + b)
    case _ => None
  }

  lemma MembersTail(v: Json, keys: seq<string>, i: nat)
    requires v.JObject? && i < |keys| && (forall k :: k in keys ==> k in v.members)
    ensures Members(v, keys[i..]).Some? <==> Member(v, keys[i]).Some? && Members(v, keys[i + 1..]).Some?
    ensures Members(v, keys[i..]).Some? ==>
      Members(v, keys[i..]).value == Member(v, keys[i]).value + Before(i + 1, |keys|, Members(v, keys[i + 1..]).value)
  {
    assert keys[i..][1..] == keys[i + 1..];
  }

  method SuccessionCanonical(v: Json) returns (r: Option<string>)
    ensures r == Emit(v)
  {
    var b := new Buffer();
    var ok := b.Write(v);
    assert ok ==> b.text == Emit(v).value;
    r := if ok then Some(b.text) else None;
  }

  /******* Byte order and the UTF-16 order of section 3.2.3 of RFC 8785 *******/

  /** Lexicographic order of code units or bytes. */
  predicate LessUnits(a: seq<nat>, b: seq<nat>) {
    b != [] && (a == [] || a[0] < b[0] || (a[0] == b[0] && LessUnits(a[1..], b[1..])))
  }

  function Utf8(s: string): seq<nat> {
    if s == "" then []
    else
      var c := s[0] as int;
      (if c < 0x80 then [c]
       else if c < 0x800 then [0xC0 + c / 0x40, 0x80 + c % 0x40]
       else if c < 0x10000 then [0xE0 + c / 0x1000, 0x80 + c / 0x40 % 0x40, 0x80 + c % 0x40]
       else [0xF0 + c / 0x40000, 0x80 + c / 0x1000 % 0x40, 0x80 + c / 0x40 % 0x40, 0x80 + c % 0x40])
      + Utf8(s[1..])
  }

  function Utf16(s: string): seq<nat> {
    if s == "" then []
    else
      var c := s[0] as int;
      (if c < 0x10000 then [c] else [0xD800 + (c - 0x10000) / 0x400, 0xDC00 + (c - 0x10000) % 0x400])
      + Utf16(s[1..])
  }

  /** On the profile's ASCII keys Go's byte order, which is the order of the
      characters, is the order the standard asks for. */
  lemma {:induction false} AsciiOrderIsUtf16Order(a: string, b: string)
    requires Ascii(a) && Ascii(b)
    ensures Less(a, b) <==> LessUnits(Utf8(a), Utf8(b))
    ensures Less(a, b) <==> LessUnits(Utf16(a), Utf16(b))
  {
    if a != "" && b != "" {
      AsciiOrderIsUtf16Order(a[1..], b[1..]);
      assert Utf8(a)[1..] == Utf8(a[1..]) && Utf8(b)[1..] == Utf8(b[1..]);
      assert Utf16(a)[1..] == Utf16(a[1..]) && Utf16(b)[1..] == Utf16(b[1..]);
    }
  }

  /** Outside ASCII the two orders part, which is why the profile rejects such keys. */
  lemma OrdersDifferOutsideAscii()
    ensures LessUnits(Utf8("\U{FFFF}"), Utf8("\U{10000}"))
    ensures LessUnits(Utf16("\U{10000}"), Utf16("\U{FFFF}"))
  {
    assert Utf8("\U{FFFF}")[0] == 0xEF && Utf8("\U{10000}")[0] == 0xF0;
    assert Utf16("\U{FFFF}")[0] == 0xFFFF && Utf16("\U{10000}")[0] == 0xD800;
  }
}
