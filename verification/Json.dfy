/** JSON values, the text `JSON.stringify` prints for them, and a parser for that text
    (string escaping per section 7 of RFC 8259). */
module Json {
  import opened Wrappers

  datatype Json =
    | Null
    | Bool(b: bool)
    | Num(text: string)
    | Str(s: string)
    | Arr(elems: Elems)
    | Obj(members: Members)
  datatype Elems = ENil | ECons(head: Json, tail: Elems)
  datatype Members = MNil | MCons(key: string, value: Json, rest: Members)

  // ---------------------------------------------------------------- numbers

  predicate IsNumChar(c: char) {
    '0' <= c <= '9' || c == '-' || c == '+' || c == '.' || c == 'e' || c == 'E'
  }

  predicate IsNumStart(c: char) {
    '0' <= c <= '9' || c == '-'
  }

  predicate IsNumText(t: string) {
    t != "" && IsNumStart(t[0]) && forall c <- t :: IsNumChar(c)
  }

  /** Every number in the value is kept as the text the printer writes for it. */
  predicate WellFormed(j: Json) {
    match j
    case Num(t) => IsNumText(t)
    case Arr(es) => WellFormedElems(es)
    case Obj(ms) => WellFormedMembers(ms)
    case _ => true
  }

  predicate WellFormedElems(es: Elems) {
    es.ECons? ==> WellFormed(es.head) && WellFormedElems(es.tail)
  }

  predicate WellFormedMembers(ms: Members) {
    ms.MCons? ==> WellFormed(ms.value) && WellFormedMembers(ms.rest)
  }

  // ---------------------------------------------------------------- printing

  const BACKSPACE := 8 as char
  const FORM_FEED := 12 as char

  function HexDigit(n: nat): (c: char)
    requires n < 16
  {
    if n < 10 then '0' + n as char else 'a' + (n - 10) as char
  }

  function EscapeChar(c: char): string {
    if c == '"' then "\\\""
    else if c == '\\' then "\\\\"
    else if c == BACKSPACE then "\\b"
    else if c == FORM_FEED then "\\f"
    else if c == '\n' then "\\n"
    else if c == '\r' then "\\r"
    else if c == '\t' then "\\t"
    else if c < ' ' then "\\u00" + [HexDigit(c as int / 16), HexDigit(c as int % 16)]
    else [c]
  }

  function Escape(s: string): string {
    if s == "" then "" else EscapeChar(s[0]) + Escape(s[1..])
  }

  function Quote(s: string): string {
    "\"" + Escape(s) + "\""
  }

  function Stringify(j: Json): string {
    match j
    case Null => "null"
    case Bool(b) => if b then "true" else "false"
    case Num(t) => t
    case Str(s) => Quote(s)
    case Arr(es) => "[" + StringifyElems(es) + "]"
    case Obj(ms) => "{" + StringifyMembers(ms) + "}"
  }

  function StringifyElems(es: Elems): string {
    match es
    case ENil => ""
    case ECons(j, tail) => Stringify(j) + (if tail.ENil? then "" else "," + StringifyElems(tail))
  }

  function StringifyMembers(ms: Members): string {
    match ms
    case MNil => ""
    case MCons(k, j, rest) =>
      Quote(k) + ":" + Stringify(j) + (if rest.MNil? then "" else "," + StringifyMembers(rest))
  }

  // ---------------------------------------------------------------- parsing

  function HexValue(c: char): Option<nat> {
    if '0' <= c <= '9' then Some((c - '0') as nat)
    else if 'a' <= c <= 'f' then Some((c - 'a') as nat + 10)
    else if 'A' <= c <= 'F' then Some((c - 'A') as nat + 10)
    else None
  }

  /** The character a `\uXXXX` escape stands for; the four digits are at the start of `s`. */
  function ParseHex4(s: string): Option<char> {
    if |s| < 4 then None else
    match (HexValue(s[0]), HexValue(s[1]), HexValue(s[2]), HexValue(s[3]))
    case (Some(a), Some(b), Some(c), Some(d)) =>
      var code := 4096 * a + 256 * b + 16 * c + d;
      if code < 0xD800 || 0xE000 <= code < 0x10000 then Some(code as char) else None
    case _ => None
  }

  /** The character after a backslash, and how many characters of `s` spell it. */
  function ParseEscape(s: string): (r: Option<(char, nat)>)
    ensures r.Some? ==> 1 <= r.value.1 <= |s|
  {
    if s == "" then None
    else if s[0] == '"' || s[0] == '\\' || s[0] == '/' then Some((s[0], 1))
    else if s[0] == 'b' then Some((BACKSPACE, 1))
    else if s[0] == 'f' then Some((FORM_FEED, 1))
    else if s[0] == 'n' then Some(('\n', 1))
    else if s[0] == 'r' then Some(('\r', 1))
    else if s[0] == 't' then Some(('\t', 1))
    else if s[0] == 'u' then
      match ParseHex4(s[1..])
      case Some(c) => Some((c, 5))
      case None => None
    else None
  }

  /** The rest of a string literal whose opening quote has been read, and the text after
      its closing quote. */
  function ParseChars(s: string): (r: Option<(string, string)>)
    ensures r.Some? ==> |r.value.1| < |s|
    decreases |s|
  {
    if s == "" then None
    else if s[0] == '"' then Some(("", s[1..]))
    else if s[0] < ' ' then None
    else if s[0] == '\\' then
      match ParseEscape(s[1..])
      case None => None
      case Some((c, n)) =>
        match ParseChars(s[1 + n..])
        case Some((v, rest)) => Some(([c] + v, rest))
        case None => None
    else
      match ParseChars(s[1..])
      case Some((v, rest)) => Some(([s[0]] + v, rest))
      case None => None
  }

  function NumLength(s: string): (n: nat)
    ensures n <= |s|
    ensures forall i :: 0 <= i < n ==> IsNumChar(s[i])
    ensures n < |s| ==> !IsNumChar(s[n])
  {
    if s == "" || !IsNumChar(s[0]) then 0 else 1 + NumLength(s[1..])
  }

  function ParseValue(s: string): (r: Option<(Json, string)>)
    ensures r.Some? ==> |r.value.1| < |s|
    decreases |s|, 0
  {
    if "null" <= s then Some((Null, s[4..]))
    else if "true" <= s then Some((Bool(true), s[4..]))
    else if "false" <= s then Some((Bool(false), s[5..]))
    else if s == "" then None
    else if s[0] == '"' then
      match ParseChars(s[1..])
      case Some((v, rest)) => Some((Str(v), rest))
      case None => None
    else if "[]" <= s then Some((Arr(ENil), s[2..]))
    else if s[0] == '[' then
      match ParseElems(s[1..])
      case Some((es, rest)) => Some((Arr(es), rest))
      case None => None
    else if "{}" <= s then Some((Obj(MNil), s[2..]))
    else if s[0] == '{' then
      match ParseMembers(s[1..])
      case Some((ms, rest)) => Some((Obj(ms), rest))
      case None => None
    else if IsNumStart(s[0]) then Some((Num(s[..NumLength(s)]), s[NumLength(s)..]))
    else None
  }

  /** At least one element, up to and including the closing bracket. */
  function ParseElems(s: string): (r: Option<(Elems, string)>)
    ensures r.Some? ==> |r.value.1| < |s|
    decreases |s|, 2
  {
    match ParseValue(s)
    case None => None
    case Some((j, rest)) =>
      if rest == "" then None
      else if rest[0] == ']' then Some((ECons(j, ENil), rest[1..]))
      else if rest[0] == ',' then
        match ParseElems(rest[1..])
        case Some((es, rest')) => Some((ECons(j, es), rest'))
        case None => None
      else None
  }

  /** One member, `"key":value`. */
  function ParseMember(s: string): (r: Option<(string, Json, string)>)
    ensures r.Some? ==> |r.value.2| < |s|
    decreases |s|, 1
  {
    if s == "" || s[0] != '"' then None else
    match ParseChars(s[1..])
    case None => None
    case Some((k, afterKey)) =>
      if afterKey == "" || afterKey[0] != ':' then None else
      match ParseValue(afterKey[1..])
      case None => None
      case Some((j, rest)) => Some((k, j, rest))
  }

  /** At least one member, up to and including the closing brace. */
  function ParseMembers(s: string): (r: Option<(Members, string)>)
    ensures r.Some? ==> |r.value.1| < |s|
    decreases |s|, 2
  {
    match ParseMember(s)
    case None => None
    case Some((k, j, rest)) =>
      if rest == "" then None
      else if rest[0] == '}' then Some((MCons(k, j, MNil), rest[1..]))
      else if rest[0] == ',' then
        match ParseMembers(rest[1..])
        case Some((ms, rest')) => Some((MCons(k, j, ms), rest'))
        case None => None
      else None
  }

  // ---------------------------------------------------------------- object properties

  /** Setting a property: a key that is there already keeps its place and gets the new value. */
  function Put(ms: Members, key: string, value: Json): Members {
    match ms
    case MNil => MCons(key, value, MNil)
    case MCons(k, j, rest) => if k == key then MCons(k, value, rest) else MCons(k, j, Put(rest, key, value))
  }

  /** The value that a text denotes: the members of each object are set one after another. */
  function Canonical(j: Json): Json {
    match j
    case Arr(es) => Arr(CanonicalElems(es))
    case Obj(ms) => Obj(CanonicalMembers(MNil, ms))
    case _ => j
  }

  function CanonicalElems(es: Elems): Elems {
    match es
    case ENil => ENil
    case ECons(j, tail) => ECons(Canonical(j), CanonicalElems(tail))
  }

  function CanonicalMembers(before: Members, ms: Members): Members
    decreases ms
  {
    match ms
    case MNil => before
    case MCons(k, j, rest) => CanonicalMembers(Put(before, k, Canonical(j)), rest)
  }

  predicate HasKey(ms: Members, key: string) {
    ms.MCons? && (ms.key == key || HasKey(ms.rest, key))
  }

  /** No object has a key twice, as in every JavaScript value. */
  predicate DistinctKeys(j: Json) {
    match j
    case Arr(es) => DistinctElems(es)
    case Obj(ms) => DistinctMembers(ms)
    case _ => true
  }

  predicate DistinctElems(es: Elems) {
    es.ECons? ==> DistinctKeys(es.head) && DistinctElems(es.tail)
  }

  predicate DistinctMembers(ms: Members) {
    ms.MCons? ==> !HasKey(ms.rest, ms.key) && DistinctKeys(ms.value) && DistinctMembers(ms.rest)
  }

  function Concat(a: Members, b: Members): Members {
    match a
    case MNil => b
    case MCons(k, j, rest) => MCons(k, j, Concat(rest, b))
  }

  /** How many elements and members a value has, at all depths. */
  function Size(j: Json): nat {
    match j
    case Arr(es) => SizeElems(es)
    case Obj(ms) => SizeMembers(ms)
    case _ => 0
  }

  function SizeElems(es: Elems): nat {
    match es
    case ENil => 0
    case ECons(j, tail) => 1 + Size(j) + SizeElems(tail)
  }

  function SizeMembers(ms: Members): nat {
    match ms
    case MNil => 0
    case MCons(_, j, rest) => 1 + Size(j) + SizeMembers(rest)
  }

  lemma {:induction false} PutSize(ms: Members, key: string, value: Json)
    ensures HasKey(ms, key) ==> SizeMembers(Put(ms, key, value)) < SizeMembers(ms) + 1 + Size(value)
    ensures !HasKey(ms, key) ==> Put(ms, key, value) == Concat(ms, MCons(key, value, MNil))
    ensures !HasKey(ms, key) ==> SizeMembers(Put(ms, key, value)) == SizeMembers(ms) + 1 + Size(value)
  {
    if ms.MCons? && ms.key != key {
      PutSize(ms.rest, key, value);
    }
  }

  lemma {:induction false} ConcatAssociates(a: Members, key: string, value: Json, b: Members)
    ensures Concat(Concat(a, MCons(key, value, MNil)), b) == Concat(a, MCons(key, value, b))
  {
    if a.MCons? {
      ConcatAssociates(a.rest, key, value, b);
    }
  }

  lemma {:induction false} ConcatKeys(a: Members, b: Members, key: string)
    ensures HasKey(Concat(a, b), key) <==> HasKey(a, key) || HasKey(b, key)
  {
    if a.MCons? {
      ConcatKeys(a.rest, b, key);
    }
  }

  /** Setting members one after another loses one for every repeated key, and otherwise lists
      them as written. */
  lemma {:induction false} CanonicalShrinks(j: Json)
    ensures Size(Canonical(j)) <= Size(j)
    ensures Size(Canonical(j)) == Size(j) ==> Canonical(j) == j
  {
    match j
    case Arr(es) => CanonicalElemsShrink(es);
    case Obj(ms) => CanonicalMembersShrink(MNil, ms);
    case _ =>
  }

  lemma {:induction false} CanonicalElemsShrink(es: Elems)
    ensures SizeElems(CanonicalElems(es)) <= SizeElems(es)
    ensures SizeElems(CanonicalElems(es)) == SizeElems(es) ==> CanonicalElems(es) == es
  {
    if es.ECons? {
      CanonicalShrinks(es.head);
      CanonicalElemsShrink(es.tail);
    }
  }

  lemma {:induction false} CanonicalMembersShrink(before: Members, ms: Members)
    ensures var all := CanonicalMembers(before, ms);
      SizeMembers(all) <= SizeMembers(before) + SizeMembers(ms)
      && (SizeMembers(all) == SizeMembers(before) + SizeMembers(ms) ==> all == Concat(before, ms))
    decreases ms
  {
    if ms.MCons? {
      CanonicalShrinks(ms.value);
      PutSize(before, ms.key, Canonical(ms.value));
      CanonicalMembersShrink(Put(before, ms.key, Canonical(ms.value)), ms.rest);
      ConcatAssociates(before, ms.key, ms.value, ms.rest);
    } else {
      ConcatNothing(before);
    }
  }

  lemma {:induction false} ConcatNothing(a: Members)
    ensures Concat(a, MNil) == a
  {
    if a.MCons? { ConcatNothing(a.rest); }
  }

  lemma {:induction false} DistinctIsCanonical(j: Json)
    requires DistinctKeys(j)
    ensures Canonical(j) == j
  {
    match j
    case Arr(es) => DistinctElemsAreCanonical(es);
    case Obj(ms) => DistinctMembersAreCanonical(MNil, ms);
    case _ =>
  }

  lemma {:induction false} DistinctElemsAreCanonical(es: Elems)
    requires DistinctElems(es)
    ensures CanonicalElems(es) == es
  {
    if es.ECons? {
      DistinctIsCanonical(es.head);
      DistinctElemsAreCanonical(es.tail);
    }
  }

  lemma {:induction false} DistinctMembersAreCanonical(before: Members, ms: Members)
    requires DistinctMembers(ms) && forall k :: HasKey(before, k) ==> !HasKey(ms, k)
    ensures CanonicalMembers(before, ms) == Concat(before, ms)
    decreases ms
  {
    if ms.MCons? {
      assert HasKey(ms, ms.key);
      DistinctIsCanonical(ms.value);
      PutSize(before, ms.key, ms.value);
      forall k ensures HasKey(Put(before, ms.key, ms.value), k) <==> HasKey(before, k) || k == ms.key {
        ConcatKeys(before, MCons(ms.key, ms.value, MNil), k);
      }
      DistinctMembersAreCanonical(Put(before, ms.key, ms.value), ms.rest);
      ConcatAssociates(before, ms.key, ms.value, ms.rest);
    } else {
      ConcatNothing(before);
    }
  }

  lemma {:induction false} PutDistinct(ms: Members, key: string, value: Json)
    requires DistinctMembers(ms) && DistinctKeys(value)
    ensures DistinctMembers(Put(ms, key, value))
    ensures forall k :: HasKey(Put(ms, key, value), k) ==> HasKey(ms, k) || k == key
  {
    if ms.MCons? && ms.key != key {
      PutDistinct(ms.rest, key, value);
    }
  }

  lemma {:induction false} CanonicalIsDistinct(j: Json)
    ensures DistinctKeys(Canonical(j))
  {
    match j
    case Arr(es) => CanonicalElemsAreDistinct(es);
    case Obj(ms) => CanonicalMembersAreDistinct(MNil, ms);
    case _ =>
  }

  lemma {:induction false} CanonicalElemsAreDistinct(es: Elems)
    ensures DistinctElems(CanonicalElems(es))
  {
    if es.ECons? {
      CanonicalIsDistinct(es.head);
      CanonicalElemsAreDistinct(es.tail);
    }
  }

  lemma {:induction false} CanonicalMembersAreDistinct(before: Members, ms: Members)
    requires DistinctMembers(before)
    ensures DistinctMembers(CanonicalMembers(before, ms))
    decreases ms
  {
    if ms.MCons? {
      CanonicalIsDistinct(ms.value);
      PutDistinct(before, ms.key, Canonical(ms.value));
      CanonicalMembersAreDistinct(Put(before, ms.key, Canonical(ms.value)), ms.rest);
    }
  }

  /** `JSON.parse`: of members with the same key the last one counts. */
  function Parse(s: string): Option<Json> {
    match ParseValue(s)
    case Some((j, rest)) => if rest == "" then Some(Canonical(j)) else None
    case None => None
  }

  // ---------------------------------------------------------------- round trip

  /** Section 7 of RFC 8259: exactly the quotation mark, the backslash and the control characters
      are escaped, five of them with a letter and the others with their four hexadecimal digits. */
  lemma EscapeOutcome(c: char)
    ensures var e := EscapeChar(c); var n := c as int;
      if n == 34 || n == 92 then e == ['\\', c]
      else if n == 8 then e == "\\b" else if n == 9 then e == "\\t" else if n == 10 then e == "\\n"
      else if n == 12 then e == "\\f" else if n == 13 then e == "\\r"
      else if n < 32 then |e| == 6 && e[..4] == "\\u00" && ParseHex4(e[2..]) == Some(c)
      else e == [c]
  {
    var e := EscapeChar(c);
    if |e| == 6 {
      assert HexValue(e[4]) == Some(c as int / 16) && HexValue(e[5]) == Some(c as int % 16);
    }
  }

  lemma EscapeCharRoundTrip(c: char, rest: string)
    ensures ParseChars(EscapeChar(c) + rest) ==
            match ParseChars(rest)
            case Some((v, r)) => Some(([c] + v, r))
            case None => None
  {
    var e := EscapeChar(c);
    var s := e + rest;
    if |e| == 1 {
      assert s[1..] == rest;
    } else {
      assert s[0] == '\\';
      var n := |e| - 1;
      assert s[1 + n..] == rest;
      if |e| == 6 {
        var t := s[1..];
        assert t[1..][..4] == e[2..];
        assert t[1] == '0' && t[2] == '0' && t[3] == e[4] && t[4] == e[5];
        assert HexValue(e[4]) == Some(c as int / 16) && HexValue(e[5]) == Some(c as int % 16);
        assert ParseHex4(t[1..]) == Some(c);
      }
      assert ParseEscape(s[1..]) == Some((c, n));
    }
  }

  lemma {:induction false} StringRoundTrip(v: string, rest: string)
    ensures ParseChars(Escape(v) + "\"" + rest) == Some((v, rest))
  {
    if v == "" {
      assert Escape(v) + "\"" + rest == "\"" + rest;
    } else {
      StringRoundTrip(v[1..], rest);
      EscapeCharRoundTrip(v[0], Escape(v[1..]) + "\"" + rest);
      assert Escape(v) + "\"" + rest == EscapeChar(v[0]) + (Escape(v[1..]) + "\"" + rest);
      assert [v[0]] + v[1..] == v;
    }
  }

  predicate EndsNumber(rest: string) {
    rest == "" || !IsNumChar(rest[0])
  }

  lemma {:induction false} NumberRoundTrip(t: string, rest: string)
    requires forall c <- t :: IsNumChar(c)
    requires EndsNumber(rest)
    ensures NumLength(t + rest) == |t|
  {
    if t != "" {
      assert (t + rest)[1..] == t[1..] + rest;
      NumberRoundTrip(t[1..], rest);
    } else {
      assert t + rest == rest;
    }
  }

  lemma FirstChar(j: Json)
    requires WellFormed(j)
    ensures var s := Stringify(j);
      s != "" && s[0] != ']' && s[0] != '}' && s[0] != ','
      && (j.Num? <==> IsNumStart(s[0]))
      && (j.Str? <==> s[0] == '"') && (j.Arr? <==> s[0] == '[') && (j.Obj? <==> s[0] == '{')
      && (j.Null? <==> s[0] == 'n')
      && (s[0] == 't' <==> j == Bool(true)) && (s[0] == 'f' <==> j == Bool(false))
  {
  }

  lemma LiteralRoundTrip(j: Json, rest: string)
    requires j.Null? || j.Bool?
    ensures ParseValue(Stringify(j) + rest) == Some((j, rest))
  {
    var t := Stringify(j);
    var s := t + rest;
    assert s[0] == t[0];
    assert s[..|t|] == t && s[|t|..] == rest;
  }

  lemma NumRoundTrip(t: string, rest: string)
    requires IsNumText(t) && EndsNumber(rest)
    ensures ParseValue(t + rest) == Some((Num(t), rest))
  {
    NumberRoundTrip(t, rest);
    var s := t + rest;
    assert s[0] == t[0];
    assert s[..|t|] == t && s[|t|..] == rest;
  }

  lemma StrRoundTrip(v: string, rest: string)
    ensures ParseValue(Quote(v) + rest) == Some((Str(v), rest))
  {
    StringRoundTrip(v, rest);
    var s := Quote(v) + rest;
    assert s[0] == '"' && s[1..] == Escape(v) + "\"" + rest;
  }

  lemma ArrRoundTrip(es: Elems, body: string, rest: string)
    requires es.ECons? ==> body != "" && body[0] != ']' && ParseElems(body + "]" + rest) == Some((es, rest))
    requires es.ENil? ==> body == ""
    ensures ParseValue("[" + body + "]" + rest) == Some((Arr(es), rest))
  {
    var s := "[" + body + "]" + rest;
    assert s[0] == '[';
    if es.ENil? {
      assert s == "[]" + rest;
    } else {
      assert s[1..] == body + "]" + rest;
      assert s[1] == body[0];
    }
  }

  lemma ObjRoundTrip(ms: Members, body: string, rest: string)
    requires ms.MCons? ==> body != "" && body[0] != '}' && ParseMembers(body + "}" + rest) == Some((ms, rest))
    requires ms.MNil? ==> body == ""
    ensures ParseValue("{" + body + "}" + rest) == Some((Obj(ms), rest))
  {
    var s := "{" + body + "}" + rest;
    assert s[0] == '{';
    if ms.MNil? {
      assert s == "{}" + rest;
    } else {
      assert s[1..] == body + "}" + rest;
      assert s[1] == body[0];
    }
  }

  lemma {:induction false} ValueRoundTrip(j: Json, rest: string)
    requires WellFormed(j) && EndsNumber(rest)
    ensures ParseValue(Stringify(j) + rest) == Some((j, rest))
    decreases j
  {
    match j
    case Num(t) => NumRoundTrip(t, rest);
    case Str(v) => StrRoundTrip(v, rest);
    case Arr(es) =>
      if es.ECons? {
        FirstChar(es.head);
        ElemsRoundTrip(es, rest);
      }
      ArrRoundTrip(es, StringifyElems(es), rest);
    case Obj(ms) =>
      if ms.MCons? {
        MembersRoundTrip(ms, "}" + rest);
        assert StringifyMembers(ms) + "}" + rest == StringifyMembers(ms) + ("}" + rest);
      }
      ObjRoundTrip(ms, StringifyMembers(ms), rest);
    case _ => LiteralRoundTrip(j, rest);
  }

  lemma {:induction false} ElemsRoundTrip(es: Elems, rest: string)
    requires es.ECons? && WellFormedElems(es)
    ensures ParseElems(StringifyElems(es) + "]" + rest) == Some((es, rest))
    decreases es
  {
    var tail := if es.tail.ENil? then "]" + rest else "," + (StringifyElems(es.tail) + "]" + rest);
    assert StringifyElems(es) + "]" + rest == Stringify(es.head) + tail;
    ValueRoundTrip(es.head, tail);
    if es.tail.ECons? {
      ElemsRoundTrip(es.tail, rest);
      assert tail[1..] == StringifyElems(es.tail) + "]" + rest;
    } else {
      assert tail[1..] == rest;
    }
  }

  lemma MemberRoundTrip(k: string, j: Json, s: string, afterKey: string, rest: string)
    requires s != "" && s[0] == '"' && ParseChars(s[1..]) == Some((k, afterKey))
    requires afterKey != "" && afterKey[0] == ':' && ParseValue(afterKey[1..]) == Some((j, rest))
    ensures ParseMember(s) == Some((k, j, rest))
  {
  }

  /** The text of a member, split where the parser stops. */
  lemma MemberText(k: string, text: string, tail: string)
    ensures var s := Quote(k) + ":" + text + tail;
      s[0] == '"' && s[1..] == Escape(k) + "\"" + (":" + (text + tail))
  {
  }

  lemma MembersText(ms: Members, end: string)
    requires ms.MCons?
    ensures StringifyMembers(ms) + end == Quote(ms.key) + ":" + Stringify(ms.value) +
      if ms.rest.MNil? then end else "," + (StringifyMembers(ms.rest) + end)
  {
  }

  /** What follows a member of a non-empty list of members. */
  function MembersTail(ms: Members, end: string): string
    requires ms.MCons?
  {
    if ms.rest.MNil? then end else "," + (StringifyMembers(ms.rest) + end)
  }

  lemma FirstMember(ms: Members, end: string)
    requires ms.MCons?
    requires ParseValue(Stringify(ms.value) + MembersTail(ms, end)) == Some((ms.value, MembersTail(ms, end)))
    ensures ParseMember(StringifyMembers(ms) + end) == Some((ms.key, ms.value, MembersTail(ms, end)))
  {
    var text, tail := Stringify(ms.value), MembersTail(ms, end);
    var afterKey := ":" + (text + tail);
    MembersText(ms, end);
    MemberText(ms.key, text, tail);
    StringRoundTrip(ms.key, afterKey);
    assert afterKey[1..] == text + tail;
    MemberRoundTrip(ms.key, ms.value, StringifyMembers(ms) + end, afterKey, tail);
  }

  lemma {:induction false} MembersRoundTrip(ms: Members, end: string)
    requires ms.MCons? && WellFormedMembers(ms)
    requires end != "" && end[0] == '}'
    ensures ParseMembers(StringifyMembers(ms) + end) == Some((ms, end[1..]))
    decreases ms
  {
    var tail := MembersTail(ms, end);
    ValueRoundTrip(ms.value, tail);
    FirstMember(ms, end);
    if ms.rest.MCons? {
      MembersRoundTrip(ms.rest, end);
      assert tail[1..] == StringifyMembers(ms.rest) + end;
    }
  }

  lemma PrintedIsParsed(j: Json)
    requires WellFormed(j)
    ensures Parse(Stringify(j)) == Some(Canonical(j))
  {
    ValueRoundTrip(j, "");
    assert Stringify(j) + "" == Stringify(j);
  }

  /** A printed value comes back unchanged exactly when none of its objects repeats a key. */
  lemma RoundTrip(j: Json)
    requires WellFormed(j)
    ensures Parse(Stringify(j)) == Some(j) <==> DistinctKeys(j)
  {
    PrintedIsParsed(j);
    CanonicalIsDistinct(j);
    if DistinctKeys(j) {
      DistinctIsCanonical(j);
    }
  }
}
