/** mfa-totp.util.ts: base32 through a 32-bit accumulator, against the bit strings of section 6 of RFC 4648. */
module Base32 {
  import opened Bits
  import opened Text

  const ALPHABET := "ABCDEFGHIJKLMNOPQRSTUVWXYZ234567"

  /** Table 3 of RFC 4648: the letters stand for 0 to 25, the digits 2 to 7 for 26 to 31. */
  lemma AlphabetIsTable3(i: nat)
    requires i < 32
    ensures |ALPHABET| == 32 && ALPHABET[i] == if i < 26 then 'A' + i as char else '2' + (i - 26) as char
  {
  }

  /** What an ECMAScript bitwise operator keeps of a number. */
  const WORD := 0x1_0000_0000

  datatype Decoded = Bytes(bytes: seq<nat>) | InvalidSecret

  predicate AreBytes(buf: seq<nat>) {
    forall i | 0 <= i < |buf| :: buf[i] < 256
  }

  // ---------- The encoding as bit strings ----------

  function IndexIn(s: string, c: char): (i: int)
    ensures -1 <= i < |s|
    ensures i < 0 <==> c !in s
    ensures i >= 0 ==> s[i] == c && c !in s[..i]
  {
    if s == "" then -1
    else if s[0] == c then 0
    else
      var i := IndexIn(s[1..], c);
      assert i >= 0 ==> s[..i + 1] == [s[0]] + s[1..][..i];
      if i < 0 then -1 else i + 1
  }

  function Symbols(xs: seq<nat>): (s: string)
    requires forall i | 0 <= i < |xs| :: xs[i] < 32
    ensures |s| == |xs| && forall i | 0 <= i < |xs| :: s[i] == ALPHABET[xs[i]]
  {
    seq(|xs|, i requires 0 <= i < |xs| => ALPHABET[xs[i]])
  }

  function IndexOf(c: char): (i: int)
    ensures -1 <= i < 32
  {
    IndexIn(ALPHABET, c)
  }

  predicate InAlphabet(s: string) {
    forall i | 0 <= i < |s| :: IndexOf(s[i]) >= 0
  }

  function Indexes(s: string): (xs: seq<nat>)
    requires InAlphabet(s)
    ensures |xs| == |s| && forall i | 0 <= i < |s| :: xs[i] == IndexOf(s[i])
  {
    seq(|s|, i requires 0 <= i < |s| => IndexOf(s[i]))
  }

  /** Zero bits that fill n bytes up to a whole number of 5-bit groups. */
  function Fill(n: nat): (p: nat)
    ensures p < 5 && (8 * n + p) % 5 == 0
  {
    2 * n % 5
  }

  /** The bits of the bytes, zero-filled, read off in groups of five. */
  function Groups(buf: seq<nat>): (xs: seq<nat>)
    ensures forall i | 0 <= i < |xs| :: xs[i] < 32
  {
    JoinCut(Join(buf, 8) + Zeros(Fill(|buf|)), 5);
    Cut(Join(buf, 8) + Zeros(Fill(|buf|)), 5)
  }

  /** Unpadded base32. */
  function Encode(buf: seq<nat>): string {
    Symbols(Groups(buf))
  }

  function StripEquals(s: string): string {
    if s != "" && s[|s| - 1] == '=' then StripEquals(s[..|s| - 1]) else s
  }

  function DropSpaces(s: string): string {
    if s == "" then "" else (if IsSpace(s[0]) then "" else [s[0]]) + DropSpaces(s[1..])
  }

  /** Trailing padding goes first, then case, then white space. */
  function Clean(s: string): string {
    DropSpaces(Upper(StripEquals(s)))
  }

  function Decode(s: string): Decoded {
    if InAlphabet(Clean(s)) then Bytes(Cut(Join(Indexes(Clean(s)), 5), 8)) else InvalidSecret
  }

  // ---------- The loops ----------

  lemma WordIsPow2()
    ensures Pow2(32) == WORD && Pow2(8) == 256 && Pow2(5) == 32
  {
    assert Pow2(8) == 256;
    assert Pow2(16) == 0x1_0000;
    assert Pow2(24) == 0x100_0000;
  }

  /** (value << k) | b on 32 bits: the vacated bits are zero, so filling in b is an addition. */
  function Shift(value: nat, k: nat, b: nat): nat {
    ShiftIn(value, k, 0) % WORD + b
  }

  lemma LowBits(x: nat, m: nat, p: nat, b: nat)
    requires m > 0 && p > 0 && b < p
    ensures (x * p) % (m * p) + b == (x * p + b) % (m * p)
    ensures (x * p) % (m * p) + b < m * p
  {
    var q, r := x / m, x % m;
    assert x * p == (m * p) * q + r * p by {
      assert x == m * q + r;
      assert (m * q + r) * p == (m * p) * q + r * p;
    }
    NextMultiple(p, r, m);
    UniqueRemainder(x * p, m * p, q, r * p);
    UniqueRemainder(x * p + b, m * p, q, r * p + b);
  }

  /** A shift forgets bits above the word, never one of the pending bits. */
  lemma ShiftKeepsPending(value: nat, bits: nat, k: nat, b: nat)
    requires k == 8 || k == 5
    requires bits + k <= 32 && b < Pow2(k)
    ensures Shift(value, k, b) < WORD
    ensures ToBits(Shift(value, k, b), bits + k) == ToBits(value, bits) + ToBits(b, k)
  {
    WordIsPow2();
    LowBits(value, WORD / Pow2(k), Pow2(k), b);
    assert Shift(value, k, b) == ShiftIn(value, k, b) % Pow2(32);
    ToBitsMod(ShiftIn(value, k, b), 32, bits + k);
    ToBitsAppend(value, b, bits, k);
  }

  /** (value >>> (bits - width)) & (2^width - 1). */
  function Taken(value: nat, bits: nat, width: nat): (x: nat)
    requires width <= bits
    ensures x < Pow2(width)
  {
    ShiftRight(value, bits - width) % Pow2(width)
  }

  /** (value << (5 - bits)) & 31. */
  function LastSymbol(value: nat, bits: nat): (x: nat)
    requires bits <= 5
    ensures x < 32
  {
    Shift(value, 5 - bits, 0) % 32
  }

  lemma TakePending(value: nat, bits: nat, width: nat)
    requires width <= bits
    ensures ToBits(value, bits) == ToBits(Taken(value, bits, width), width) + ToBits(value, bits - width)
  {
    ToBitsSplit(value, width, bits - width);
    ToBitsMod(ShiftRight(value, bits - width), width, width);
  }

  lemma PadPending(value: nat, bits: nat)
    requires bits <= 5
    ensures ToBits(LastSymbol(value, bits), 5) == ToBits(value, bits) + Zeros(5 - bits)
  {
    WordIsPow2();
    var pad := 5 - bits;
    ToBitsMod(Shift(value, pad, 0), 5, 5);
    ToBitsMod(ShiftIn(value, pad, 0), 32, 5);
    ToBitsAppend(value, 0, bits, pad);
    ToBitsZero(pad);
  }

  /** The numbers written so far and the pending bits are together the bits of the numbers read so far. */
  ghost predicate Held(out: seq<nat>, outWidth: nat, value: nat, bits: nat, fed: seq<nat>, inWidth: nat) {
    Join(out, outWidth) + ToBits(value, bits) == Join(fed, inWidth)
  }

  lemma Feed(out: seq<nat>, outWidth: nat, value: nat, bits: nat, fed: seq<nat>, inWidth: nat, x: nat, more: nat)
    requires inWidth == 8 || inWidth == 5
    requires more == bits + inWidth <= 32 && x < Pow2(inWidth)
    requires Held(out, outWidth, value, bits, fed, inWidth)
    ensures Held(out, outWidth, Shift(value, inWidth, x), more, fed + [x], inWidth)
  {
    ShiftKeepsPending(value, bits, inWidth, x);
    JoinAppend(fed, x, inWidth);
    Regroup(Join(out, outWidth), ToBits(value, bits), ToBits(x, inWidth));
  }

  lemma Emit(out: seq<nat>, outWidth: nat, value: nat, bits: nat, fed: seq<nat>, inWidth: nat, left: nat)
    requires bits == left + outWidth && Held(out, outWidth, value, bits, fed, inWidth)
    ensures Held(out + [Taken(value, bits, outWidth)], outWidth, value, left, fed, inWidth)
  {
    var x := Taken(value, bits, outWidth);
    TakePending(value, bits, outWidth);
    JoinAppend(out, x, outWidth);
    Regroup(Join(out, outWidth), ToBits(x, outWidth), ToBits(value, left));
  }

  lemma GroupsAreEncode(buf: seq<nat>, xs: seq<nat>, pad: nat)
    requires forall i | 0 <= i < |xs| :: xs[i] < 32
    requires pad < 5 && Join(xs, 5) == Join(buf, 8) + Zeros(pad)
    ensures Encode(buf) == Symbols(xs)
  {
    WordIsPow2();
    JoinLength(xs, 5);
    JoinLength(buf, 8);
    FillIsUnique(|buf|, |xs|, pad);
    CutJoin(xs, [], 5);
    assert Join(xs, 5) + [] == Join(xs, 5);
  }

  lemma FillIsUnique(bytes: nat, groups: nat, pad: nat)
    requires pad < 5 && groups * 5 == bytes * 8 + pad
    ensures pad == Fill(bytes)
  {
  }

  lemma AlphabetLayout(i: nat)
    requires i < 32
    ensures ALPHABET[i] as int == if i < 26 then 'A' as int + i else '2' as int + i - 26
  {
  }

  lemma SymbolAt(i: nat)
    requires i < 32
    ensures IndexOf(ALPHABET[i]) == i
  {
    AlphabetLayout(i);
    assert ALPHABET[i] in ALPHABET;
    AlphabetLayout(IndexOf(ALPHABET[i]));
  }

  lemma IndexedSymbol(c: char)
    requires IndexOf(c) >= 0
    ensures ALPHABET[IndexOf(c)] == c
  {
  }

  lemma IndexesName(s: string)
    requires InAlphabet(s)
    ensures Symbols(Indexes(s)) == s
  {
    forall i | 0 <= i < |s|
      ensures Symbols(Indexes(s))[i] == s[i]
    {
      IndexedSymbol(s[i]);
    }
  }

  lemma SymbolsAppend(xs: seq<nat>, x: nat)
    requires x < 32 && forall i | 0 <= i < |xs| :: xs[i] < 32
    ensures Symbols(xs + [x]) == Symbols(xs) + [ALPHABET[x]]
  {
    assert forall i | 0 <= i < |xs| :: (xs + [x])[i] == xs[i];
  }

  /** The zero-filled last symbol completes the encoding. */
  lemma EmitLast(xs: seq<nat>, value: nat, bits: nat, buf: seq<nat>)
    requires 0 < bits < 5 && Held(xs, 5, value, bits, buf, 8) && forall i | 0 <= i < |xs| :: xs[i] < 32
    ensures Symbols(xs + [LastSymbol(value, bits)]) == Encode(buf)
  {
    var symbol := LastSymbol(value, bits);
    PadPending(value, bits);
    JoinAppend(xs, symbol, 5);
    Regroup(Join(xs, 5), ToBits(value, bits), Zeros(5 - bits));
    GroupsAreEncode(buf, xs + [symbol], 5 - bits);
  }

  lemma NothingPending(xs: seq<nat>, value: nat, buf: seq<nat>)
    requires Held(xs, 5, value, 0, buf, 8) && forall i | 0 <= i < |xs| :: xs[i] < 32
    ensures Symbols(xs) == Encode(buf)
  {
    assert Join(xs, 5) == Join(buf, 8) + Zeros(0);
    GroupsAreEncode(buf, xs, 0);
  }

  method Base32Encode(buf: seq<nat>) returns (output: string)
    requires AreBytes(buf)
    ensures output == Encode(buf)
  {
    WordIsPow2();
    var bits, value := 0, 0;
    output := "";
    ghost var xs: seq<nat> := [];
    for n := 0 to |buf|
      invariant bits < 5 && Held(xs, 5, value, bits, buf[..n], 8)
      invariant forall i | 0 <= i < |xs| :: xs[i] < 32
      invariant output == Symbols(xs)
    {
      Feed(xs, 5, value, bits, buf[..n], 8, buf[n], bits + 8);
      TakeNext(buf, n);
      value := Shift(value, 8, buf[n]);
      bits := bits + 8;
      while bits >= 5
        invariant bits < 13 && Held(xs, 5, value, bits, buf[..n + 1], 8)
        invariant forall i | 0 <= i < |xs| :: xs[i] < 32
        invariant output == Symbols(xs)
      {
        var symbol, left := Taken(value, bits, 5), bits - 5;
        Emit(xs, 5, value, bits, buf[..n + 1], 8, left);
        SymbolsAppend(xs, symbol);
        output := output + [ALPHABET[symbol]];
        xs := xs + [symbol];
        bits := left;
      }
    }
    assert buf[..|buf|] == buf;
    if bits > 0 {
      var symbol := LastSymbol(value, bits);
      EmitLast(xs, value, bits, buf);
      SymbolsAppend(xs, symbol);
      output := output + [ALPHABET[symbol]];
    } else {
      NothingPending(xs, value, buf);
    }
  }

  lemma AllRead(out: seq<nat>, value: nat, bits: nat, fed: seq<nat>)
    requires bits < 8 && AreBytes(out) && Held(out, 8, value, bits, fed, 5)
    ensures Cut(Join(fed, 5), 8) == out
  {
    WordIsPow2();
    CutJoin(out, ToBits(value, bits), 8);
  }

  /** The numbers read so far are the places of the first symbols of the text. */
  ghost predicate Follows(fed: seq<nat>, s: string) {
    |fed| <= |s| && forall i | 0 <= i < |fed| :: fed[i] == IndexOf(s[i])
  }

  lemma FollowsNext(fed: seq<nat>, s: string, x: nat)
    requires Follows(fed, s) && |fed| < |s| && x == IndexOf(s[|fed|])
    ensures Follows(fed + [x], s)
  {
  }

  lemma FollowsAll(fed: seq<nat>, s: string)
    requires Follows(fed, s) && |fed| == |s|
    ensures InAlphabet(s) && Indexes(s) == fed
  {
  }

  method Base32Decode(input: string) returns (result: Decoded)
    ensures result == Decode(input)
  {
    WordIsPow2();
    var cleaned := Clean(input);
    var bits, value := 0, 0;
    var out: seq<nat> := [];
    ghost var fed: seq<nat> := [];
    for n := 0 to |cleaned|
      invariant bits < 8 && AreBytes(out) && Held(out, 8, value, bits, fed, 5)
      invariant |fed| == n && Follows(fed, cleaned)
    {
      var idx := IndexOf(cleaned[n]);
      if idx < 0 {
        return InvalidSecret;
      }
      var symbol: nat, more := idx, bits + 5;
      Feed(out, 8, value, bits, fed, 5, symbol, more);
      FollowsNext(fed, cleaned, symbol);
      fed := fed + [symbol];
      value := Shift(value, 5, symbol);
      bits := more;
      if bits >= 8 {
        var left := bits - 8;
        Emit(out, 8, value, bits, fed, 5, left);
        out := out + [Taken(value, bits, 8)];
        bits := left;
      }
    }
    AllRead(out, value, bits, fed);
    FollowsAll(fed, cleaned);
    result := Bytes(out);
  }

  // ---------- Round trips ----------

  predicate IsClean(s: string) {
    forall i | 0 <= i < |s| :: s[i] != '=' && !IsSpace(s[i]) && UpperChar(s[i]) == [s[i]]
  }

  lemma SymbolIsClean(i: nat)
    requires i < 32
    ensures ALPHABET[i] != '=' && !IsSpace(ALPHABET[i]) && UpperChar(ALPHABET[i]) == [ALPHABET[i]]
  {
    AlphabetLayout(i);
  }

  lemma {:induction false} DropSpacesKeeps(s: string)
    requires IsClean(s)
    ensures DropSpaces(s) == s
  {
    if s != "" {
      DropSpacesKeeps(s[1..]);
    }
  }

  function Repeat(c: char, k: nat): string {
    seq(k, i => c)
  }

  lemma {:induction false} StripEqualsStops(s: string, k: nat)
    requires IsClean(s)
    ensures StripEquals(s + Repeat('=', k)) == s
  {
    if k == 0 {
      assert s + Repeat('=', 0) == s;
    } else {
      var t := s + Repeat('=', k);
      assert t[..|t| - 1] == s + Repeat('=', k - 1);
      StripEqualsStops(s, k - 1);
    }
  }

  lemma CleanKeeps(s: string, k: nat)
    requires IsClean(s)
    ensures Clean(s + Repeat('=', k)) == s
  {
    StripEqualsStops(s, k);
    UpperKeeps(s);
    DropSpacesKeeps(s);
  }

  lemma SymbolsRead(xs: seq<nat>)
    requires forall i | 0 <= i < |xs| :: xs[i] < 32
    ensures IsClean(Symbols(xs)) && InAlphabet(Symbols(xs)) && Indexes(Symbols(xs)) == xs
  {
    forall i | 0 <= i < |xs|
      ensures IndexOf(Symbols(xs)[i]) == xs[i]
      ensures Symbols(xs)[i] != '=' && !IsSpace(Symbols(xs)[i]) && UpperChar(Symbols(xs)[i]) == [Symbols(xs)[i]]
    {
      SymbolAt(xs[i]);
      SymbolIsClean(xs[i]);
    }
  }

  /** The text spells exactly the bits of the bytes and fewer than five zero bits. */
  lemma EncodeSpells(buf: seq<nat>)
    ensures InAlphabet(Encode(buf)) && IsClean(Encode(buf)) && |Encode(buf)| == (8 * |buf| + 4) / 5
    ensures Join(Indexes(Encode(buf)), 5) == Join(buf, 8) + Zeros(Fill(|buf|))
  {
    GroupsSpell(buf);
    SymbolsRead(Groups(buf));
  }

  lemma GroupsSpell(buf: seq<nat>)
    ensures Join(Groups(buf), 5) == Join(buf, 8) + Zeros(Fill(|buf|))
    ensures |Groups(buf)| == (8 * |buf| + 4) / 5
  {
    JoinLength(buf, 8);
    JoinCutWhole(Join(buf, 8) + Zeros(Fill(|buf|)), 5);
    JoinLength(Groups(buf), 5);
    GroupsNeeded(|buf|, |Groups(buf)|);
  }

  lemma GroupsNeeded(bytes: nat, groups: nat)
    requires groups * 5 == bytes * 8 + Fill(bytes)
    ensures groups == (8 * bytes + 4) / 5
  {
  }

  /** Decoding the encoding of any bytes gives them back, with or without trailing padding. */
  lemma RoundTrip(buf: seq<nat>, padding: nat)
    requires AreBytes(buf)
    ensures Decode(Encode(buf) + Repeat('=', padding)) == Bytes(buf)
  {
    WordIsPow2();
    EncodeSpells(buf);
    CleanKeeps(Encode(buf), padding);
    CutJoin(buf, Zeros(Fill(|buf|)), 8);
  }

  // ---------- Which texts are accepted ----------

  lemma {:induction false} StripEqualsSplits(s: string) returns (k: nat)
    ensures s == StripEquals(s) + Repeat('=', k)
    ensures StripEquals(s) != "" ==> StripEquals(s)[|StripEquals(s)| - 1] != '='
  {
    if s != "" && s[|s| - 1] == '=' {
      k := StripEqualsSplits(s[..|s| - 1]);
      assert Repeat('=', k) + ['='] == Repeat('=', k + 1);
      k := k + 1;
    } else {
      k := 0;
    }
  }

  /** White space, or a character whose upper case is spelt in the alphabet. */
  predicate Acceptable(c: char) {
    IsSpace(c) || InAlphabet(UpperChar(c))
  }

  lemma {:induction false} DropSpacesConcat(a: string, b: string)
    ensures DropSpaces(a + b) == DropSpaces(a) + DropSpaces(b)
  {
    if a == "" {
      assert a + b == b;
    } else {
      assert (a + b)[1..] == a[1..] + b;
      DropSpacesConcat(a[1..], b);
    }
  }

  lemma {:induction false} NoSpacesStay(s: string)
    requires forall i | 0 <= i < |s| :: !IsSpace(s[i])
    ensures DropSpaces(s) == s
  {
    if s != "" {
      NoSpacesStay(s[1..]);
    }
  }

  predicate Every(s: string, ok: char -> bool) {
    forall i | 0 <= i < |s| :: ok(s[i])
  }

  lemma EveryConcat(a: string, b: string, ok: char -> bool)
    ensures Every(a + b, ok) <==> Every(a, ok) && Every(b, ok)
  {
    if Every(a + b, ok) {
      forall i | 0 <= i < |a| ensures ok(a[i]) {
        assert a[i] == (a + b)[i];
      }
      forall i | 0 <= i < |b| ensures ok(b[i]) {
        assert b[i] == (a + b)[|a| + i];
      }
    }
  }

  /** Every character of the cleaned text passes exactly when every character but white space has an upper case that
      does. */
  lemma {:induction false} BodyPasses(body: string, ok: char -> bool)
    ensures Every(DropSpaces(Upper(body)), ok) <==>
              forall i | 0 <= i < |body| :: IsSpace(body[i]) || Every(UpperChar(body[i]), ok)
  {
    if body != "" {
      var c, rest := body[0], body[1..];
      BodyPasses(rest, ok);
      FirstPasses(c, Upper(rest), ok);
      assert forall i | 0 < i < |body| :: body[i] == rest[i - 1];
    }
  }

  lemma FirstPasses(c: char, rest: string, ok: char -> bool)
    ensures Every(DropSpaces(UpperChar(c) + rest), ok) <==>
              (IsSpace(c) || Every(UpperChar(c), ok)) && Every(DropSpaces(rest), ok)
  {
    var upper := UpperChar(c);
    UpperKeepsSpace(c);
    DropSpacesConcat(upper, rest);
    if IsSpace(c) {
      assert DropSpaces([c]) == "";
    } else {
      NoSpacesStay(upper);
    }
    EveryConcat(DropSpaces(upper), DropSpaces(rest), ok);
  }

  function IsSymbol(): char -> bool {
    c => IndexOf(c) >= 0
  }

  lemma AlphabetPasses(s: string)
    ensures InAlphabet(s) <==> Every(s, IsSymbol())
  {
  }

  /** A text is accepted exactly when every character before its trailing padding is white space or has an upper case
      spelt in the alphabet. */
  lemma AcceptedExactly(body: string, padding: nat)
    requires body != "" ==> body[|body| - 1] != '='
    ensures Decode(body + Repeat('=', padding)).Bytes? <==> forall i | 0 <= i < |body| :: Acceptable(body[i])
  {
    StripEqualsPadding(body, padding);
    AlphabetPasses(DropSpaces(Upper(body)));
    BodyPasses(body, IsSymbol());
    forall i | 0 <= i < |body|
      ensures Acceptable(body[i]) <==> IsSpace(body[i]) || Every(UpperChar(body[i]), IsSymbol())
    {
      AlphabetPasses(UpperChar(body[i]));
    }
  }

  lemma {:induction false} StripEqualsPadding(body: string, k: nat)
    requires body != "" ==> body[|body| - 1] != '='
    ensures StripEquals(body + Repeat('=', k)) == body
  {
    var t := body + Repeat('=', k);
    if k == 0 {
      assert t == body;
    } else {
      assert t[..|t| - 1] == body + Repeat('=', k - 1);
      StripEqualsPadding(body, k - 1);
    }
  }

  /** Padding is stripped at the very end only, and before white space is: a padding sign with anything else after it
      has the text refused. */
  lemma InnerPaddingIsRefused(s: string, i: nat, j: nat)
    requires i < j < |s| && s[i] == '=' && s[j] != '='
    ensures Decode(s) == InvalidSecret
  {
    var k := StripEqualsSplits(s);
    var body := StripEquals(s);
    assert j < |body| by {
      assert forall n | |body| <= n < |s| :: s[n] == '=';
    }
    assert body[i] == s[i];
    AcceptedExactly(body, k);
    EqualsIsRefused(s[i]);
  }

  lemma EqualsIsRefused(c: char)
    requires c == '='
    ensures !Acceptable(c)
  {
    EqualsIsNoSymbol(c);
    EqualsHasNoCase(c);
    ForeignIsRefused(UpperChar(c), c);
  }

  lemma EqualsHasNoCase(c: char)
    requires c == '='
    ensures UpperChar(c) == [c] && !IsSpace(c)
  {
  }

  lemma ForeignIsRefused(s: string, c: char)
    requires s == [c] && IndexOf(c) < 0
    ensures !InAlphabet(s)
  {
    assert s[0] == c;
  }

  /** So white space after the padding of an encoding has it refused, although either alone is accepted. */
  lemma PaddingBeforeSpaceIsRefused(buf: seq<nat>, padding: nat, spaces: string)
    requires AreBytes(buf) && padding > 0 && spaces != "" && Blank(spaces)
    ensures Decode(Encode(buf) + Repeat('=', padding) + spaces) == InvalidSecret
    ensures Decode(Encode(buf) + Repeat('=', padding)) == Bytes(buf)
    ensures Decode(Encode(buf) + spaces) == Bytes(buf)
  {
    var s := Encode(buf) + Repeat('=', padding) + spaces;
    var n := |Encode(buf)|;
    assert s[n] == '=' && s[n + padding] == spaces[0];
    InnerPaddingIsRefused(s, n, n + padding);
    RoundTrip(buf, padding);
    SpacesAreDropped(buf, spaces);
  }

  lemma {:induction false} BlankVanishes(s: string)
    requires Blank(s)
    ensures Upper(s) == s && DropSpaces(s) == ""
  {
    if s != "" {
      UpperKeepsSpace(s[0]);
      BlankVanishes(s[1..]);
      assert s == [s[0]] + s[1..];
    }
  }

  lemma {:induction false} UpperConcat(a: string, b: string)
    ensures Upper(a + b) == Upper(a) + Upper(b)
  {
    if a == "" {
      assert a + b == b;
    } else {
      assert (a + b)[1..] == a[1..] + b;
      UpperConcat(a[1..], b);
    }
  }

  lemma CleanDropsSpaces(text: string, spaces: string)
    requires IsClean(text) && spaces != "" && Blank(spaces)
    ensures Clean(text + spaces) == text
  {
    BlankVanishes(spaces);
    UpperConcat(text, spaces);
    UpperKeeps(text);
    DropSpacesKeeps(text);
    DropSpacesConcat(text, spaces);
    NothingToStrip(text + spaces, text, spaces);
  }

  lemma NothingToStrip(s: string, text: string, spaces: string)
    requires s == text + spaces && spaces != "" && Blank(spaces)
    ensures StripEquals(s) == s
  {
    assert s[|s| - 1] == spaces[|spaces| - 1];
    assert !IsSpace('=');
  }

  lemma SameCleanSameResult(a: string, b: string)
    requires Clean(a) == Clean(b)
    ensures Decode(a) == Decode(b)
  {
  }

  lemma SpacesAreDropped(buf: seq<nat>, spaces: string)
    requires AreBytes(buf) && spaces != "" && Blank(spaces)
    ensures Decode(Encode(buf) + spaces) == Bytes(buf)
  {
    EncodeSpells(buf);
    CleanDropsSpaces(Encode(buf), spaces);
    CleanKeeps(Encode(buf), 0);
    SameCleanSameResult(Encode(buf) + spaces, Encode(buf) + Repeat('=', 0));
    RoundTrip(buf, 0);
  }

  lemma EqualsIsNoSymbol(c: char)
    requires c == '='
    ensures IndexOf(c) < 0
  {
    if IndexOf(c) >= 0 {
      SymbolIsClean(IndexOf(c));
    }
  }

  /** The bits beyond the last whole byte. */
  function Leftover(bits: seq<bool>): seq<bool> {
    bits[|bits| / 8 * 8..]
  }

  lemma LeftoverIsTail(bits: seq<bool>)
    ensures bits == Join(Cut(bits, 8), 8) + Leftover(bits)
  {
    JoinCut(bits, 8);
    JoinLength(Cut(bits, 8), 8);
    SplitWhole(bits, Join(Cut(bits, 8), 8), |Cut(bits, 8)|);
  }

  lemma SplitWhole(bits: seq<bool>, whole: seq<bool>, groups: nat)
    requires |whole| == groups * 8 && |whole| <= |bits| < |whole| + 8 && whole == bits[..|whole|]
    ensures bits == whole + Leftover(bits)
  {
    assert |bits| / 8 == groups;
  }

  lemma SameSpelling(buf: seq<nat>, xs: seq<nat>, tail: seq<bool>)
    requires forall i | 0 <= i < |xs| :: xs[i] < 32
    requires Join(xs, 5) == Join(buf, 8) + tail
    ensures Groups(buf) == xs <==> |tail| < 5 && tail == Zeros(|tail|)
  {
    WordIsPow2();
    GroupsSpell(buf);
    JoinLength(xs, 5);
    JoinLength(buf, 8);
    if |tail| < 5 && tail == Zeros(|tail|) {
      FillIsUnique(|buf|, |xs|, |tail|);
      CutJoin(xs, [], 5);
      assert Join(xs, 5) + [] == Join(xs, 5);
    }
    if Groups(buf) == xs {
      SameTail(Join(buf, 8), tail, Zeros(Fill(|buf|)));
    }
  }

  lemma SameTail(front: seq<bool>, a: seq<bool>, b: seq<bool>)
    requires front + a == front + b
    ensures a == b
  {
    assert a == (front + a)[|front|..];
    assert b == (front + b)[|front|..];
  }

  /** A text is the encoding of what it decodes to exactly when fewer than five zero bits are left over. */
  lemma DecodedTextIsCanonical(s: string)
    requires InAlphabet(Clean(s))
    ensures var tail := Leftover(Join(Indexes(Clean(s)), 5));
      Encode(Decode(s).bytes) == Clean(s) <==> |tail| < 5 && tail == Zeros(|tail|)
  {
    var t := Clean(s);
    var buf := Decode(s).bytes;
    LeftoverIsTail(Join(Indexes(t), 5));
    SameSpelling(buf, Indexes(t), Leftover(Join(Indexes(t), 5)));
    IndexesName(t);
    SymbolsRead(Groups(buf));
  }
}
