/** canonical.js: the canonical printer whose text the duplicate checks compare and hash. */
module CanonicalJson {
  import opened Collections
  import opened Options

  /** JSON data. A number carries the literal that JSON.stringify prints for it. Members keep insertion order. */
  datatype Json =
    | Null
    | Bool(b: bool)
    | Number(literal: string)
    | Str(text: string)
    | Arr(items: seq<Json>)
    | Obj(members: seq<Member>)

  datatype Member = Member(key: string, value: Json)

  // ---------- Values ----------

  predicate NumberChar(c: char) {
    '0' <= c <= '9' || c == '-' || c == '+' || c == '.' || c == 'e'
  }

  predicate IsNumberLiteral(s: string) {
    s != "" && forall i | 0 <= i < |s| :: NumberChar(s[i])
  }

  function Keys(ms: seq<Member>): (keys: seq<string>)
    ensures |keys| == |ms| && forall i | 0 <= i < |ms| :: keys[i] == ms[i].key
  {
    seq(|ms|, i requires 0 <= i < |ms| => ms[i].key)
  }

  predicate HasKey(ms: seq<Member>, key: string) {
    exists i | 0 <= i < |ms| :: ms[i].key == key
  }

  function IndexOf(ms: seq<Member>, key: string): (i: nat)
    requires HasKey(ms, key)
    ensures i < |ms| && ms[i].key == key
    ensures forall j | 0 <= j < i :: ms[j].key != key
  {
    if ms[0].key == key then 0
    else
      assert HasKey(ms[1..], key) by {
        var i :| 0 <= i < |ms| && ms[i].key == key;
        assert ms[1..][i - 1].key == key;
      }
      1 + IndexOf(ms[1..], key)
  }

  function Lookup(ms: seq<Member>, key: string): Json
    requires HasKey(ms, key)
  {
    ms[IndexOf(ms, key)].value
  }

  /** What a value built from JSON data satisfies: real number literals and no repeated member name. */
  predicate WellFormed(v: Json) {
    match v
    case Number(literal) => IsNumberLiteral(literal)
    case Arr(items) => forall i | 0 <= i < |items| :: WellFormed(items[i])
    case Obj(ms) => Distinct(Keys(ms)) && forall i | 0 <= i < |ms| :: WellFormed(ms[i].value)
    case _ => true
  }

  /** Equality of JSON data up to the order of members, at every depth. */
  ghost predicate Same(a: Json, b: Json) {
    match a
    case Arr(xs) => b.Arr? && |xs| == |b.items| && forall i | 0 <= i < |xs| :: Same(xs[i], b.items[i])
    case Obj(ms) =>
      b.Obj?
      && (forall i | 0 <= i < |ms| :: HasKey(b.members, ms[i].key) && Same(ms[i].value, Lookup(b.members, ms[i].key)))
      && (forall i | 0 <= i < |b.members| :: HasKey(ms, b.members[i].key))
    case _ => a == b
  }

  // ---------- Member order ----------

  /** Orders characters as their UTF-16 code units do: supplementary characters come before U+E000 to U+FFFF. */
  function CodeUnitRank(c: char): int {
    var n := c as int;
    if 0xE000 <= n < 0x10000 then n + 0x110000 else n
  }

  /** The UTF-16 code units of a character (section 2.1 of RFC 2781). */
  function CodeUnits(c: char): seq<nat> {
    var n := c as int;
    if n < 0x10000 then [n] else [0xD800 + (n - 0x10000) / 1024, 0xDC00 + (n - 0x10000) % 1024]
  }

  predicate UnitsBefore(x: seq<nat>, y: seq<nat>) {
    |x| > 0 && |y| > 0 && (x[0] < y[0] || (x[0] == y[0] && |x| == 2 && |y| == 2 && x[1] < y[1]))
  }

  /** The character with the smaller first unit has the smaller rank, or with the smaller second one when the first
      units are the same. */
  lemma RankIsCodeUnitOrder(a: char, b: char)
    ensures CodeUnitRank(a) < CodeUnitRank(b) <==> UnitsBefore(CodeUnits(a), CodeUnits(b))
  {
  }

  predicate KeyLeq(a: string, b: string) {
    if a == "" then true
    else if b == "" then false
    else if a[0] == b[0] then KeyLeq(a[1..], b[1..])
    else CodeUnitRank(a[0]) < CodeUnitRank(b[0])
  }

  lemma {:induction false} KeyLeqTotal(a: string, b: string)
    ensures KeyLeq(a, b) || KeyLeq(b, a)
    ensures KeyLeq(a, b) && KeyLeq(b, a) ==> a == b
  {
    if a != "" && b != "" && a[0] == b[0] {
      KeyLeqTotal(a[1..], b[1..]);
      assert a == [a[0]] + a[1..] && b == [b[0]] + b[1..];
    }
  }

  lemma {:induction false} KeyLeqTransitive(a: string, b: string, c: string)
    requires KeyLeq(a, b) && KeyLeq(b, c)
    ensures KeyLeq(a, c)
  {
    if a != "" && a[0] == b[0] && b[0] == c[0] {
      KeyLeqTransitive(a[1..], b[1..], c[1..]);
    }
  }

  ghost predicate Sorted(keys: seq<string>) {
    forall i, j | 0 <= i < j < |keys| :: KeyLeq(keys[i], keys[j]) && keys[i] != keys[j]
  }

  function Insert(key: string, keys: seq<string>): seq<string> {
    if keys == [] || KeyLeq(key, keys[0]) then [key] + keys
    else [keys[0]] + Insert(key, keys[1..])
  }

  /** Object.keys(value).sort() */
  function SortKeys(keys: seq<string>): (sorted: seq<string>) {
    if keys == [] then [] else Insert(keys[0], SortKeys(keys[1..]))
  }

  lemma {:induction false} InsertSorted(key: string, keys: seq<string>)
    requires Sorted(keys) && key !in keys
    ensures Sorted(Insert(key, keys))
    ensures |Insert(key, keys)| == |keys| + 1
    ensures forall k :: k in Insert(key, keys) <==> k == key || k in keys
  {
    if keys != [] {
      KeyLeqTotal(key, keys[0]);
      if KeyLeq(key, keys[0]) {
        forall j | 0 <= j < |keys| ensures KeyLeq(key, keys[j]) {
          if j > 0 {
            KeyLeqTransitive(key, keys[0], keys[j]);
          }
        }
      } else {
        InsertSorted(key, keys[1..]);
        var rest := Insert(key, keys[1..]);
        assert forall k :: k in keys <==> k == keys[0] || k in keys[1..];
        forall j | 0 <= j < |rest| ensures KeyLeq(keys[0], rest[j]) && keys[0] != rest[j] {
          assert rest[j] in rest;
        }
      }
    }
  }

  lemma {:induction false} SortKeysSorted(keys: seq<string>)
    requires Distinct(keys)
    ensures Sorted(SortKeys(keys))
    ensures |SortKeys(keys)| == |keys|
    ensures forall k :: k in SortKeys(keys) <==> k in keys
  {
    if keys != [] {
      SortKeysSorted(keys[1..]);
      assert forall k :: k in keys <==> k == keys[0] || k in keys[1..];
      InsertSorted(keys[0], SortKeys(keys[1..]));
    }
  }

  lemma NonEmptyHas(keys: seq<string>)
    ensures keys == [] || exists k :: k in keys
  {
    if keys != [] {
      assert keys[0] in keys;
    }
  }

  /** A set of names has one sorted listing. */
  lemma {:induction false} SortedUnique(a: seq<string>, b: seq<string>)
    requires Sorted(a) && Sorted(b)
    requires forall k :: k in a <==> k in b
    ensures a == b
  {
    if a == [] {
      NonEmptyHas(b);
    } else {
      assert a[0] in b;
      assert b[0] in a;
      KeyLeqTotal(a[0], b[0]);
      assert a[0] == b[0];
      forall k ensures k in a[1..] <==> k in b[1..] {
        assert k in a <==> k == a[0] || k in a[1..];
        assert k in b <==> k == b[0] || k in b[1..];
        assert a[0] !in a[1..] && b[0] !in b[1..];
      }
      SortedUnique(a[1..], b[1..]);
    }
  }

  // ---------- Printer ----------

  function HexDigit(n: nat): char
    requires n < 16
  {
    "0123456789abcdef"[n]
  }

  /** JSON.stringify's escape of one character of a string. */
  function EscapeChar(c: char): string {
    if c == '\"' then "\\\""
    else if c == '\\' then "\\\\"
    else if c as int == 8 then "\\b"
    else if c as int == 9 then "\\t"
    else if c as int == 10 then "\\n"
    else if c as int == 12 then "\\f"
    else if c as int == 13 then "\\r"
    else if c as int < 32 then "\\u00" + [HexDigit(c as int / 16), HexDigit(c as int % 16)]
    else [c]
  }

  function EscapeText(s: string): string {
    if s == "" then "" else EscapeChar(s[0]) + EscapeText(s[1..])
  }

  function Quote(s: string): string {
    "\"" + EscapeText(s) + "\""
  }

  /** canonicalJson */
  function Print(v: Json): string
    decreases v, 0
  {
    match v
    case Null => "null"
    case Bool(b) => if b then "true" else "false"
    case Number(literal) => literal
    case Str(text) => Quote(text)
    case Arr(items) => "[" + PrintItems(items) + "]"
    case Obj(ms) => "{" + PrintMembers(ms, SortKeys(Keys(ms))) + "}"
  }

  function PrintItems(items: seq<Json>): string
    decreases items, 0
  {
    if items == [] then ""
    else if |items| == 1 then Print(items[0])
    else Print(items[0]) + "," + PrintItems(items[1..])
  }

  function PrintMembers(ms: seq<Member>, keys: seq<string>): string
    decreases ms, |keys|
  {
    if keys == [] || !HasKey(ms, keys[0]) then ""
    else
      var i := IndexOf(ms, keys[0]);
      var first := Quote(keys[0]) + ":" + Print(ms[i].value);
      if |keys| == 1 then first else first + "," + PrintMembers(ms, keys[1..])
  }

  /** Characters from the space on stand for themselves but the quote and the backslash; of the others five have a
      letter and the rest four hexadecimal digits, in lower case. */
  lemma EscapesExactly(c: char)
    ensures var n, letters := c as int, map[8 := 'b', 9 := 't', 10 := 'n', 12 := 'f', 13 := 'r'];
            if n >= 32 then EscapeChar(c) == if c == '\"' || c == '\\' then ['\\', c] else [c]
            else if n in letters then EscapeChar(c) == ['\\', letters[n]]
            else
              |EscapeChar(c)| == 6 && EscapeChar(c)[5] in "0123456789abcdef"
              && EscapeChar(c)[..5] == if n < 16 then "\\u000" else "\\u001"
  {
  }

  // ---------- Parser ----------

  function HexValue(c: char): Option<nat> {
    if '0' <= c <= '9' then Some(c as int - '0' as int)
    else if 'a' <= c <= 'f' then Some(c as int - 'a' as int + 10)
    else if 'A' <= c <= 'F' then Some(c as int - 'A' as int + 10)
    else None
  }

  function Prepend(c: char, tail: Option<(string, string)>): (r: Option<(string, string)>)
    ensures r.Some? <==> tail.Some?
    ensures r.Some? ==> r.value.1 == tail.value.1
  {
    if tail.None? then None else Some(([c] + tail.value.0, tail.value.1))
  }

  /** The character that four hexadecimal digits name, below the surrogates. */
  function HexChar(a: char, b: char, c: char, d: char): Option<char> {
    var (p, q, r, s) := (HexValue(a), HexValue(b), HexValue(c), HexValue(d));
    if p.None? || q.None? || r.None? || s.None? then None
    else
      var n := p.value * 4096 + q.value * 256 + r.value * 16 + s.value;
      if n < 0xD800 then Some(n as char) else None
  }

  function ShortEscape(e: char): Option<char> {
    if e == 'b' then Some(8 as char) else if e == 't' then Some(9 as char)
    else if e == 'n' then Some(10 as char) else if e == 'f' then Some(12 as char)
    else if e == 'r' then Some(13 as char)
    else if e == '\"' || e == '\\' || e == '/' then Some(e) else None
  }

  /** Reads string characters up to the closing quote; returns the string and the text after the quote. */
  function ParseText(t: string): (r: Option<(string, string)>)
    ensures r.Some? ==> |r.value.1| < |t|
  {
    if t == "" then None
    else if t[0] == '\"' then Some(("", t[1..]))
    else if t[0] == '\\' then
      if |t| < 2 then None
      else if t[1] == 'u' then
        if |t| < 6 then None
        else
          var c := HexChar(t[2], t[3], t[4], t[5]);
          if c.None? then None else Prepend(c.value, ParseText(t[6..]))
      else
        var c := ShortEscape(t[1]);
        if c.None? then None else Prepend(c.value, ParseText(t[2..]))
    else if t[0] as int < 32 then None
    else Prepend(t[0], ParseText(t[1..]))
  }

  /** The length of the longest prefix made of number characters. */
  function NumberSpan(t: string): (n: nat)
    ensures n <= |t|
  {
    if t == "" || !NumberChar(t[0]) then 0 else 1 + NumberSpan(t[1..])
  }

  /** A JSON reader for text without white space: the value and the remaining text. */
  function ParseValue(t: string): (r: Option<(Json, string)>)
    ensures r.Some? ==> |r.value.1| < |t|
    decreases |t|, 0
  {
    if t == "" then None
    else if t[0] == 'n' then if "null" <= t then Some((Null, t[4..])) else None
    else if t[0] == 't' then if "true" <= t then Some((Bool(true), t[4..])) else None
    else if t[0] == 'f' then if "false" <= t then Some((Bool(false), t[5..])) else None
    else if t[0] == '\"' then
      var s := ParseText(t[1..]);
      if s.None? then None else Some((Str(s.value.0), s.value.1))
    else if t[0] == '[' then
      if |t| > 1 && t[1] == ']' then Some((Arr([]), t[2..]))
      else
        var xs := ParseItems(t[1..]);
        if xs.None? then None else Some((Arr(xs.value.0), xs.value.1))
    else if t[0] == '{' then
      if |t| > 1 && t[1] == '}' then Some((Obj([]), t[2..]))
      else
        var ms := ParseMembers(t[1..]);
        if ms.None? then None else Some((Obj(ms.value.0), ms.value.1))
    else
      var n := NumberSpan(t);
      if n == 0 then None else Some((Number(t[..n]), t[n..]))
  }

  function ParseItems(t: string): (r: Option<(seq<Json>, string)>)
    ensures r.Some? ==> |r.value.1| < |t|
    decreases |t|, 1
  {
    var v := ParseValue(t);
    if v.None? || v.value.1 == "" then None
    else if v.value.1[0] == ']' then Some(([v.value.0], v.value.1[1..]))
    else if v.value.1[0] != ',' then None
    else
      var more := ParseItems(v.value.1[1..]);
      if more.None? then None else Some(([v.value.0] + more.value.0, more.value.1))
  }

  function ParseMembers(t: string): (r: Option<(seq<Member>, string)>)
    ensures r.Some? ==> |r.value.1| < |t|
    decreases |t|, 1
  {
    if t == "" || t[0] != '\"' then None
    else
      var key := ParseText(t[1..]);
      if key.None? || key.value.1 == "" || key.value.1[0] != ':' then None
      else
        var v := ParseValue(key.value.1[1..]);
        if v.None? || v.value.1 == "" then None
        else
          var m := Member(key.value.0, v.value.0);
          if v.value.1[0] == '}' then Some(([m], v.value.1[1..]))
          else if v.value.1[0] != ',' then None
          else
            var more := ParseMembers(v.value.1[1..]);
            if more.None? then None else Some(([m] + more.value.0, more.value.1))
  }

  /** JSON.parse of a whole text. */
  function Parse(t: string): Option<Json> {
    var r := ParseValue(t);
    if r.Some? && r.value.1 == "" then Some(r.value.0) else None
  }

  // ---------- Round trip ----------

  /** The value with the members of every object in sorted order. */
  function Normalize(v: Json): Json
    decreases v, 0
  {
    match v
    case Arr(items) => Arr(NormalizeItems(items))
    case Obj(ms) => Obj(NormalizeMembers(ms, SortKeys(Keys(ms))))
    case _ => v
  }

  function NormalizeItems(items: seq<Json>): (r: seq<Json>)
    ensures |r| == |items|
    decreases items, 0
  {
    if items == [] then [] else [Normalize(items[0])] + NormalizeItems(items[1..])
  }

  function NormalizeMembers(ms: seq<Member>, keys: seq<string>): (r: seq<Member>)
    decreases ms, |keys|
  {
    if keys == [] || !HasKey(ms, keys[0]) then []
    else
      var i := IndexOf(ms, keys[0]);
      [Member(keys[0], Normalize(ms[i].value))] + NormalizeMembers(ms, keys[1..])
  }

  lemma EscapeForms(c: char)
    ensures var e := EscapeChar(c);
      (|e| == 6 && e[0] == '\\' && e[1] == 'u' && HexChar(e[2], e[3], e[4], e[5]) == Some(c))
      || (|e| == 2 && e[0] == '\\' && e[1] != 'u' && ShortEscape(e[1]) == Some(c))
      || (e == [c] && c != '\"' && c != '\\' && c as int >= 32)
  {
    if |EscapeChar(c)| == 6 {
      var n := c as int;
      assert HexValue(HexDigit(n / 16)) == Some(n / 16) && HexValue(HexDigit(n % 16)) == Some(n % 16);
      assert HexValue('0') == Some(0);
    }
  }

  lemma ParseEscapedChar(c: char, rest: string)
    ensures ParseText(EscapeChar(c) + rest) == Prepend(c, ParseText(rest))
  {
    EscapeForms(c);
    var e := EscapeChar(c);
    var t := e + rest;
    assert t[|e|..] == rest;
    assert forall i | 0 <= i < |e| :: t[i] == e[i];
  }

  lemma {:induction false} ParseEscapedText(s: string, rest: string)
    ensures ParseText(EscapeText(s) + "\"" + rest) == Some((s, rest))
  {
    if s == "" {
      assert (EscapeText(s) + "\"" + rest)[1..] == rest;
    } else {
      var more := EscapeText(s[1..]) + "\"" + rest;
      ParseEscapedText(s[1..], rest);
      assert EscapeText(s) + "\"" + rest == EscapeChar(s[0]) + more;
      ParseEscapedChar(s[0], more);
      assert [s[0]] + s[1..] == s;
    }
  }

  lemma {:induction false} NumberSpanExact(literal: string, rest: string)
    requires forall i | 0 <= i < |literal| :: NumberChar(literal[i])
    requires rest == "" || !NumberChar(rest[0])
    ensures NumberSpan(literal + rest) == |literal|
  {
    if literal == "" {
      assert literal + rest == rest;
    } else {
      NumberSpanExact(literal[1..], rest);
      assert (literal + rest)[1..] == literal[1..] + rest;
    }
  }

  lemma ParseArray(body: string, xs: seq<Json>, rest: string)
    requires body != "" && body[0] != ']' && ParseItems(body) == Some((xs, rest))
    ensures ParseValue("[" + body) == Some((Arr(xs), rest))
  {
    assert ("[" + body)[1..] == body;
  }

  lemma ParseObject(body: string, ms: seq<Member>, rest: string)
    requires body != "" && body[0] != '}' && ParseMembers(body) == Some((ms, rest))
    ensures ParseValue("{" + body) == Some((Obj(ms), rest))
  {
    assert ("{" + body)[1..] == body;
  }

  lemma ParseLastItem(t: string, v: Json, rest: string)
    requires ParseValue(t) == Some((v, "]" + rest))
    ensures ParseItems(t) == Some(([v], rest))
  {
    assert ("]" + rest)[1..] == rest;
  }

  lemma ParseNextItem(t: string, v: Json, more: string, xs: seq<Json>, rest: string)
    requires ParseValue(t) == Some((v, "," + more)) && ParseItems(more) == Some((xs, rest))
    ensures ParseItems(t) == Some(([v] + xs, rest))
  {
    assert ("," + more)[1..] == more;
  }

  lemma ParseLastMember(key: string, body: string, v: Json, rest: string)
    requires ParseValue(body) == Some((v, "}" + rest))
    ensures ParseMembers(Quote(key) + ":" + body) == Some(([Member(key, v)], rest))
  {
    ParseQuotedKey(key, body);
    assert ("}" + rest)[1..] == rest;
  }

  lemma ParseNextMember(key: string, body: string, v: Json, more: string, ms: seq<Member>, rest: string)
    requires ParseValue(body) == Some((v, "," + more)) && ParseMembers(more) == Some((ms, rest))
    ensures ParseMembers(Quote(key) + ":" + body) == Some(([Member(key, v)] + ms, rest))
  {
    ParseQuotedKey(key, body);
    assert ("," + more)[1..] == more;
  }

  lemma ParseQuotedKey(key: string, body: string)
    ensures var t := Quote(key) + ":" + body; t[0] == '\"' && ParseText(t[1..]) == Some((key, ":" + body))
    ensures (":" + body)[1..] == body
  {
    var t := Quote(key) + ":" + body;
    ParseEscapedText(key, ":" + body);
    assert t[1..] == EscapeText(key) + "\"" + (":" + body);
  }

  lemma ParseNumber(literal: string, rest: string)
    requires IsNumberLiteral(literal)
    requires rest == "" || !NumberChar(rest[0])
    ensures ParseValue(literal + rest) == Some((Number(literal), rest))
  {
    var t := literal + rest;
    NumberSpanExact(literal, rest);
    assert t[..|literal|] == literal && t[|literal|..] == rest;
    assert NumberChar(literal[0]) && t[0] == literal[0];
  }

  lemma ParseString(text: string, rest: string)
    ensures ParseValue(Quote(text) + rest) == Some((Str(text), rest))
  {
    hide ParseText, EscapeText;
    var t := Quote(text) + rest;
    ParseEscapedText(text, rest);
    assert t[1..] == EscapeText(text) + "\"" + rest;
  }

  lemma ParseScalar(v: Json, rest: string)
    requires WellFormed(v) && !v.Arr? && !v.Obj?
    requires rest == "" || !NumberChar(rest[0])
    ensures ParseValue(Print(v) + rest) == Some((v, rest))
  {
    match v {
      case Null => assert ("null" + rest)[..4] == "null" && ("null" + rest)[4..] == rest;
      case Bool(b) =>
        if b {
          assert ("true" + rest)[..4] == "true" && ("true" + rest)[4..] == rest;
        } else {
          assert ("false" + rest)[..5] == "false" && ("false" + rest)[5..] == rest;
        }
      case Number(literal) => ParseNumber(literal, rest);
      case Str(text) => ParseString(text, rest);
    }
  }

  lemma Reassociate(a: string, b: string, c: string, d: string)
    ensures (a + b + c) + d == a + (b + c + d)
  {
  }

  lemma ParseEmpty(rest: string)
    ensures ParseValue("[]" + rest) == Some((Arr([]), rest))
    ensures ParseValue("{}" + rest) == Some((Obj([]), rest))
  {
    assert ("[]" + rest)[1] == ']' && ("[]" + rest)[2..] == rest;
    assert ("{}" + rest)[1] == '}' && ("{}" + rest)[2..] == rest;
  }

  /** Reading a printed value gives it back with members sorted, and leaves the text that follows. */
  lemma {:induction false} ParsePrint(v: Json, rest: string)
    requires WellFormed(v)
    requires rest == "" || !NumberChar(rest[0])
    ensures ParseValue(Print(v) + rest) == Some((Normalize(v), rest))
    decreases v, 0
  {
    match v {
      case Arr(items) => ParsePrintArray(items, rest);
      case Obj(ms) => ParsePrintObject(ms, rest);
      case _ => ParseScalar(v, rest);
    }
  }

  lemma {:induction false} ParsePrintArray(items: seq<Json>, rest: string)
    requires WellFormed(Arr(items))
    ensures ParseValue(Print(Arr(items)) + rest) == Some((Normalize(Arr(items)), rest))
    decreases items, 1
  {
    if items == [] {
      ParseEmpty(rest);
      assert Print(Arr([])) == "[]";
    } else {
      PrintStart(items[0]);
      ParsePrintItems(items, rest);
      ParseArray(PrintItems(items) + "]" + rest, NormalizeItems(items), rest);
      Reassociate("[", PrintItems(items), "]", rest);
    }
  }

  lemma {:induction false} ParsePrintObject(ms: seq<Member>, rest: string)
    requires WellFormed(Obj(ms))
    ensures ParseValue(Print(Obj(ms)) + rest) == Some((Normalize(Obj(ms)), rest))
    decreases ms, |ms| + 1
  {
    var keys := SortKeys(Keys(ms));
    SortedKeysOf(ms);
    if ms == [] {
      ParseEmpty(rest);
      assert Print(Obj([])) == "{}";
    } else {
      ParsePrintMembers(ms, keys, rest);
      assert keys[0] in keys;
      PrintMembersStart(ms, keys);
      ParseObject(PrintMembers(ms, keys) + "}" + rest, NormalizeMembers(ms, keys), rest);
      Reassociate("{", PrintMembers(ms, keys), "}", rest);
    }
  }

  lemma PrintMembersStart(ms: seq<Member>, keys: seq<string>)
    requires keys != [] && HasKey(ms, keys[0])
    ensures PrintMembers(ms, keys) != "" && PrintMembers(ms, keys)[0] == '\"'
  {
    assert Quote(keys[0])[0] == '\"';
  }

  lemma PrintStart(v: Json)
    requires WellFormed(v)
    ensures Print(v) != "" && Print(v)[0] != ']'
  {
    if v.Number? {
      assert NumberChar(v.literal[0]);
    }
  }

  lemma {:induction false} ParsePrintItems(items: seq<Json>, rest: string)
    requires items != [] && forall i | 0 <= i < |items| :: WellFormed(items[i])
    ensures ParseItems(PrintItems(items) + "]" + rest) == Some((NormalizeItems(items), rest))
    decreases items, 0
  {
    var t := PrintItems(items) + "]" + rest;
    if |items| == 1 {
      assert t == Print(items[0]) + ("]" + rest);
      ParsePrint(items[0], "]" + rest);
      ParseLastItem(t, Normalize(items[0]), rest);
      assert NormalizeItems(items) == [Normalize(items[0])];
    } else {
      var more := PrintItems(items[1..]) + "]" + rest;
      assert t == Print(items[0]) + ("," + more);
      ParsePrint(items[0], "," + more);
      ParsePrintItems(items[1..], rest);
      ParseNextItem(t, Normalize(items[0]), more, NormalizeItems(items[1..]), rest);
    }
  }

  lemma {:induction false} ParsePrintMembers(ms: seq<Member>, keys: seq<string>, rest: string)
    requires keys != [] && forall k | k in keys :: HasKey(ms, k)
    requires forall i | 0 <= i < |ms| :: WellFormed(ms[i].value)
    ensures ParseMembers(PrintMembers(ms, keys) + "}" + rest) == Some((NormalizeMembers(ms, keys), rest))
    decreases ms, |keys|
  {
    assert keys[0] in keys;
    var v := ms[IndexOf(ms, keys[0])].value;
    if |keys| == 1 {
      ParsePrint(v, "}" + rest);
      ParseMembersLast(ms, keys, v, rest);
    } else {
      ParsePrintMembers(ms, keys[1..], rest);
      ParsePrint(v, "," + (PrintMembers(ms, keys[1..]) + "}" + rest));
      ParseMembersNext(ms, keys, v, rest);
    }
  }

  lemma ParseMembersLast(ms: seq<Member>, keys: seq<string>, v: Json, rest: string)
    requires |keys| == 1 && HasKey(ms, keys[0]) && v == ms[IndexOf(ms, keys[0])].value
    requires ParseValue(Print(v) + ("}" + rest)) == Some((Normalize(v), "}" + rest))
    ensures ParseMembers(PrintMembers(ms, keys) + "}" + rest) == Some((NormalizeMembers(ms, keys), rest))
  {
    var name := Quote(keys[0]) + ":";
    ParseLastMember(keys[0], Print(v) + ("}" + rest), Normalize(v), rest);
    calc {
      PrintMembers(ms, keys) + "}" + rest;
      name + Print(v) + "}" + rest;
      { JoinLast(name, Print(v), rest); }
      name + (Print(v) + ("}" + rest));
    }
    calc {
      NormalizeMembers(ms, keys);
      [Member(keys[0], Normalize(v))] + NormalizeMembers(ms, keys[1..]);
      { assert keys[1..] == []; }
      [Member(keys[0], Normalize(v))];
    }
  }

  lemma JoinLast(a: string, b: string, rest: string)
    ensures a + b + "}" + rest == a + (b + ("}" + rest))
  {
  }

  lemma JoinNext(a: string, b: string, c: string, rest: string)
    ensures (a + b + "," + c) + "}" + rest == a + (b + ("," + (c + "}" + rest)))
  {
  }

  lemma ParseMembersNext(ms: seq<Member>, keys: seq<string>, v: Json, rest: string)
    requires |keys| > 1 && HasKey(ms, keys[0]) && v == ms[IndexOf(ms, keys[0])].value
    requires var more := PrintMembers(ms, keys[1..]) + "}" + rest;
             ParseValue(Print(v) + ("," + more)) == Some((Normalize(v), "," + more))
             && ParseMembers(more) == Some((NormalizeMembers(ms, keys[1..]), rest))
    ensures ParseMembers(PrintMembers(ms, keys) + "}" + rest) == Some((NormalizeMembers(ms, keys), rest))
  {
    var name := Quote(keys[0]) + ":";
    var tail := PrintMembers(ms, keys[1..]);
    var more := tail + "}" + rest;
    ParseNextMember(keys[0], Print(v) + ("," + more), Normalize(v), more, NormalizeMembers(ms, keys[1..]), rest);
    calc {
      PrintMembers(ms, keys) + "}" + rest;
      (name + Print(v) + "," + tail) + "}" + rest;
      { JoinNext(name, Print(v), tail, rest); }
      name + (Print(v) + ("," + more));
    }
  }

  lemma ParseRoundTrip(v: Json)
    requires WellFormed(v)
    ensures Parse(Print(v)) == Some(Normalize(v))
  {
    ParsePrint(v, "");
    assert Print(v) + "" == Print(v);
  }

  // ---------- The text identifies the data ----------

  lemma {:induction false} NormalizeMembersAt(ms: seq<Member>, keys: seq<string>)
    requires forall k | k in keys :: HasKey(ms, k)
    ensures |NormalizeMembers(ms, keys)| == |keys|
    ensures forall j | 0 <= j < |keys| ::
              NormalizeMembers(ms, keys)[j].key == keys[j]
              && HasKey(ms, keys[j])
              && NormalizeMembers(ms, keys)[j].value == Normalize(Lookup(ms, keys[j]))
  {
    if keys != [] {
      assert keys[0] in keys;
      NormalizeMembersAt(ms, keys[1..]);
    }
  }

  lemma {:induction false} NormalizeItemsAt(items: seq<Json>, i: nat)
    requires i < |items|
    ensures NormalizeItems(items)[i] == Normalize(items[i])
  {
    if i > 0 {
      NormalizeItemsAt(items[1..], i - 1);
    }
  }

  lemma KeysOf(ms: seq<Member>, key: string)
    ensures HasKey(ms, key) <==> key in Keys(ms)
  {
    if HasKey(ms, key) {
      var i :| 0 <= i < |ms| && ms[i].key == key;
      assert Keys(ms)[i] == key;
    }
  }

  lemma LookupAt(ms: seq<Member>, i: nat)
    requires Distinct(Keys(ms)) && i < |ms|
    ensures HasKey(ms, ms[i].key) && IndexOf(ms, ms[i].key) == i
  {
    var j := IndexOf(ms, ms[i].key);
    DistinctAt(Keys(ms), i, j);
  }

  lemma DistinctAt(keys: seq<string>, i: nat, j: nat)
    requires Distinct(keys) && i < |keys| && j < |keys| && keys[i] == keys[j]
    ensures i == j
  {
  }

  /** The sorted names of an object: each is a member, each member is listed, and a second object with the
      same names has the same listing. */
  lemma SortedKeysOf(ms: seq<Member>)
    requires Distinct(Keys(ms))
    ensures Sorted(SortKeys(Keys(ms))) && |SortKeys(Keys(ms))| == |ms|
    ensures forall k :: k in SortKeys(Keys(ms)) <==> HasKey(ms, k)
  {
    SortKeysSorted(Keys(ms));
    forall k ensures k in SortKeys(Keys(ms)) <==> HasKey(ms, k) {
      KeysOf(ms, k);
    }
  }

  lemma {:induction false} NormalizeEqualSame(a: Json, b: Json)
    requires WellFormed(a) && WellFormed(b)
    requires Normalize(a) == Normalize(b)
    ensures Same(a, b)
    decreases a
  {
    match a {
      case Arr(xs) =>
        forall i | 0 <= i < |xs| ensures Same(xs[i], b.items[i]) {
          NormalizeItemsAt(xs, i);
          NormalizeItemsAt(b.items, i);
          NormalizeEqualSame(xs[i], b.items[i]);
        }
      case Obj(ms) =>
        SortedKeysOf(ms);
        SortedKeysOf(b.members);
        var ka, kb := SortKeys(Keys(ms)), SortKeys(Keys(b.members));
        NormalizeMembersAt(ms, ka);
        NormalizeMembersAt(b.members, kb);
        assert ka == kb;
        forall i | 0 <= i < |ms|
          ensures HasKey(b.members, ms[i].key) && Same(ms[i].value, Lookup(b.members, ms[i].key))
        {
          LookupAt(ms, i);
          var j :| 0 <= j < |ka| && ka[j] == ms[i].key;
          NormalizeEqualSame(ms[i].value, Lookup(b.members, ms[i].key));
        }
        forall i | 0 <= i < |b.members| ensures HasKey(ms, b.members[i].key) {
          LookupAt(b.members, i);
        }
      case _ =>
    }
  }

  lemma {:induction false} SamePrints(a: Json, b: Json)
    requires WellFormed(a) && WellFormed(b) && Same(a, b)
    ensures Print(a) == Print(b)
    decreases a, 0
  {
    match a {
      case Arr(xs) => SamePrintsItems(xs, b.items);
      case Obj(ms) =>
        SortedKeysOf(ms);
        SortedKeysOf(b.members);
        forall k ensures HasKey(ms, k) <==> HasKey(b.members, k) {
        }
        SortedUnique(SortKeys(Keys(ms)), SortKeys(Keys(b.members)));
        SamePrintsMembers(ms, b.members, SortKeys(Keys(ms)));
      case _ =>
    }
  }

  lemma {:induction false} SamePrintsItems(xs: seq<Json>, ys: seq<Json>)
    requires |xs| == |ys|
    requires forall i | 0 <= i < |xs| :: WellFormed(xs[i]) && WellFormed(ys[i]) && Same(xs[i], ys[i])
    ensures PrintItems(xs) == PrintItems(ys)
    decreases xs, 0
  {
    if xs != [] {
      SamePrints(xs[0], ys[0]);
      SamePrintsItems(xs[1..], ys[1..]);
    }
  }

  lemma {:induction false} SamePrintsMembers(ms: seq<Member>, ns: seq<Member>, keys: seq<string>)
    requires WellFormed(Obj(ms)) && WellFormed(Obj(ns)) && Same(Obj(ms), Obj(ns))
    requires forall k | k in keys :: HasKey(ms, k)
    ensures PrintMembers(ms, keys) == PrintMembers(ns, keys)
    decreases ms, |keys|
  {
    if keys != [] {
      assert keys[0] in keys;
      var i := IndexOf(ms, keys[0]);
      assert HasKey(ns, keys[0]);
      SamePrints(ms[i].value, Lookup(ns, keys[0]));
      SamePrintsMembers(ms, ns, keys[1..]);
    }
  }

  /** Two values print the same text exactly when they are the same data up to member order. */
  lemma PrintIdentifies(a: Json, b: Json)
    requires WellFormed(a) && WellFormed(b)
    ensures Print(a) == Print(b) <==> Same(a, b)
  {
    if Print(a) == Print(b) {
      ParseRoundTrip(a);
      ParseRoundTrip(b);
      NormalizeEqualSame(a, b);
    } else if Same(a, b) {
      SamePrints(a, b);
    }
  }

  lemma {:induction false} NormalizeKeeps(v: Json)
    requires WellFormed(v)
    ensures WellFormed(Normalize(v)) && Same(Normalize(v), v)
    decreases v, 0
  {
    match v {
      case Arr(items) =>
        forall i | 0 <= i < |items|
          ensures WellFormed(NormalizeItems(items)[i]) && Same(NormalizeItems(items)[i], items[i])
        {
          NormalizeItemsAt(items, i);
          NormalizeKeeps(items[i]);
        }
      case Obj(ms) => NormalizeMembersKeep(ms);
      case _ =>
    }
  }

  lemma {:induction false} NormalizeMembersKeep(ms: seq<Member>)
    requires WellFormed(Obj(ms))
    ensures WellFormed(Normalize(Obj(ms))) && Same(Normalize(Obj(ms)), Obj(ms))
    decreases ms, 1
  {
    var keys := SortKeys(Keys(ms));
    var ns := NormalizeMembers(ms, keys);
    SortedKeysOf(ms);
    NormalizeMembersAt(ms, keys);
    assert Keys(ns) == keys;
    forall i | 0 <= i < |ns|
      ensures WellFormed(ns[i].value) && HasKey(ms, ns[i].key) && Same(ns[i].value, Lookup(ms, ns[i].key))
    {
      NormalizeKeeps(ms[IndexOf(ms, keys[i])].value);
    }
    forall i | 0 <= i < |ms| ensures HasKey(ns, ms[i].key) {
      LookupAt(ms, i);
      var j :| 0 <= j < |keys| && keys[j] == ms[i].key;
      assert ns[j].key == ms[i].key;
    }
  }

  /** Reading canonical text and printing it again changes nothing. */
  lemma PrintParsePrint(v: Json)
    requires WellFormed(v)
    ensures Parse(Print(v)).Some? && Print(Parse(Print(v)).value) == Print(v)
    ensures WellFormed(Parse(Print(v)).value) && Same(Parse(Print(v)).value, v)
  {
    ParseRoundTrip(v);
    NormalizeKeeps(v);
    PrintIdentifies(Normalize(v), v);
  }

  // ---------- Objects ----------

  /** Two member lists hold the same names with the same data. */
  ghost predicate SameMembers(a: seq<Member>, b: seq<Member>) {
    forall k :: (HasKey(a, k) <==> HasKey(b, k)) && (HasKey(a, k) ==> Same(Lookup(a, k), Lookup(b, k)))
  }

  lemma SameObjects(a: seq<Member>, b: seq<Member>)
    requires Distinct(Keys(a)) && Distinct(Keys(b))
    ensures Same(Obj(a), Obj(b)) <==> SameMembers(a, b)
  {
    if Same(Obj(a), Obj(b)) {
      forall k ensures (HasKey(a, k) <==> HasKey(b, k)) && (HasKey(a, k) ==> Same(Lookup(a, k), Lookup(b, k))) {
        if HasKey(a, k) {
          var i := IndexOf(a, k);
          assert a[i].key == k;
        }
      }
    }
    if SameMembers(a, b) {
      forall i | 0 <= i < |a| ensures HasKey(b, a[i].key) && Same(a[i].value, Lookup(b, a[i].key)) {
        LookupAt(a, i);
      }
      forall i | 0 <= i < |b| ensures HasKey(a, b[i].key) {
        LookupAt(b, i);
      }
    }
  }

  /** Records with the same member names in the same places are the same data when their values are. */
  lemma SameRecords(a: seq<Member>, b: seq<Member>)
    requires Keys(a) == Keys(b) && Distinct(Keys(a))
    ensures Same(Obj(a), Obj(b)) <==> forall i | 0 <= i < |a| :: Same(a[i].value, b[i].value)
  {
    assert |a| == |b|;
    forall i | 0 <= i < |a|
      ensures a[i].key == b[i].key && HasKey(b, a[i].key) && IndexOf(b, a[i].key) == i && HasKey(a, b[i].key)
    {
      assert Keys(a)[i] == Keys(b)[i];
      LookupAt(a, i);
      LookupAt(b, i);
    }
  }
}
