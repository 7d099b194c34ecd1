/** The string operations of ECMAScript that the models need, on ASCII letters. */
module Text {
  /** White space and line terminators, as String.prototype.trim and \s understand them. */
  predicate IsSpace(c: char) {
    var n := c as int;
    9 <= n <= 13 || n == 0x20 || n == 0xA0 || n == 0x1680 || 0x2000 <= n <= 0x200A
    || n == 0x2028 || n == 0x2029 || n == 0x202F || n == 0x205F || n == 0x3000 || n == 0xFEFF
  }

  function TrimStart(s: string): string {
    if s != "" && IsSpace(s[0]) then TrimStart(s[1..]) else s
  }

  function TrimEnd(s: string): string {
    if s != "" && IsSpace(s[|s| - 1]) then TrimEnd(s[..|s| - 1]) else s
  }

  function Trim(s: string): string {
    TrimEnd(TrimStart(s))
  }

  predicate Blank(s: string) {
    forall i | 0 <= i < |s| :: IsSpace(s[i])
  }

  /** Trimming splits a text into white space, the trimmed text, and white space. */
  lemma {:induction false} TrimStartSplits(s: string) returns (before: string)
    ensures Blank(before) && s == before + TrimStart(s)
    ensures TrimStart(s) != "" ==> !IsSpace(TrimStart(s)[0])
  {
    if s != "" && IsSpace(s[0]) {
      var rest := TrimStartSplits(s[1..]);
      before := [s[0]] + rest;
    } else {
      before := "";
    }
  }

  lemma {:induction false} TrimEndSplits(s: string) returns (after: string)
    ensures Blank(after) && s == TrimEnd(s) + after
    ensures TrimEnd(s) != "" ==> !IsSpace(TrimEnd(s)[|TrimEnd(s)| - 1])
  {
    if s != "" && IsSpace(s[|s| - 1]) {
      var rest := TrimEndSplits(s[..|s| - 1]);
      after := rest + [s[|s| - 1]];
    } else {
      after := "";
    }
  }

  lemma TrimSplits(s: string) returns (before: string, after: string)
    ensures Blank(before) && Blank(after) && s == before + Trim(s) + after
  {
    before := TrimStartSplits(s);
    after := TrimEndSplits(TrimStart(s));
  }

  lemma {:induction false} TrimStartPadded(before: string, s: string)
    requires Blank(before) && (s != "" ==> !IsSpace(s[0]))
    ensures TrimStart(before + s) == s
  {
    if before == "" {
      assert before + s == s;
    } else {
      assert (before + s)[1..] == before[1..] + s;
      TrimStartPadded(before[1..], s);
    }
  }

  lemma {:induction false} TrimEndPadded(s: string, after: string)
    requires Blank(after) && (s != "" ==> !IsSpace(s[|s| - 1]))
    ensures TrimEnd(s + after) == s
  {
    if after == "" {
      assert s + after == s;
    } else {
      assert (s + after)[..|s + after| - 1] == s + after[..|after| - 1];
      TrimEndPadded(s, after[..|after| - 1]);
    }
  }

  /** A text that neither starts nor ends with white space is what trimming leaves of it within white space. */
  lemma TrimPadded(before: string, s: string, after: string)
    requires Blank(before) && Blank(after) && s != "" && !IsSpace(s[0]) && !IsSpace(s[|s| - 1])
    ensures Trim(before + s + after) == s
  {
    assert before + s + after == before + (s + after);
    TrimStartPadded(before, s + after);
    TrimEndPadded(s, after);
  }

  lemma TrimBlank(s: string)
    ensures Trim(s) == "" <==> Blank(s)
  {
    if Blank(s) {
      assert s + "" == s;
      TrimStartPadded(s, "");
    } else {
      var before, after := TrimSplits(s);
      assert Trim(s) == "" ==> s == before + after;
    }
  }

  /** toUpperCase of one character: exact wherever the result has an ASCII letter in it, which it also has for the long
      s, the dotless i, the sharp s, the Latin ligatures and seven letters whose mark is split off. */
  function UpperChar(c: char): string {
    var n := c as int;
    if 'a' <= c <= 'z' then ['A' + (c - 'a')]
    else if n < 0x80 then [c]
    else if n == 0xDF then "SS"
    else if n == 0x131 then "I"
    else if n == 0x149 then "\U{02BC}N"
    else if n == 0x17F then "S"
    else if n == 0x1F0 then "J\U{030C}"
    else if 0x1E96 <= n <= 0x1E9A then UpperMarked(n)
    else if 0xFB00 <= n <= 0xFB06 then UpperLigature(n)
    else [c]
  }

  function UpperMarked(n: int): string {
    if n == 0x1E96 then "H\U{0331}"
    else if n == 0x1E97 then "T\U{0308}"
    else if n == 0x1E98 then "W\U{030A}"
    else if n == 0x1E99 then "Y\U{030A}"
    else "A\U{02BE}"
  }

  function UpperLigature(n: int): string {
    if n == 0xFB00 then "FF"
    else if n == 0xFB01 then "FI"
    else if n == 0xFB02 then "FL"
    else if n == 0xFB03 then "FFI"
    else if n == 0xFB04 then "FFL"
    else "ST"
  }

  function Upper(s: string): string {
    if s == "" then "" else UpperChar(s[0]) + Upper(s[1..])
  }

  /** On ASCII text every letter from a to z becomes the capital 32 code points before it, and nothing else changes. */
  lemma {:induction false} UpperAscii(s: string, i: nat)
    requires i < |s| && forall j | 0 <= j < |s| :: s[j] as int < 128
    ensures |Upper(s)| == |s|
    ensures Upper(s)[i] as int == if 'a' <= s[i] <= 'z' then s[i] as int - 32 else s[i] as int
  {
    if |s| > 1 {
      UpperAscii(s[1..], if i > 0 then i - 1 else 0);
    }
  }

  /** The code points of white space and line terminators (sections 12.2 and 12.3 of ECMA-262). */
  lemma SpacesExactly(c: char)
    ensures IsSpace(c) <==>
              c as int in {0x9, 0xA, 0xB, 0xC, 0xD, 0x20, 0xA0, 0x1680, 0x2000, 0x2001, 0x2002, 0x2003, 0x2004, 0x2005,
                           0x2006, 0x2007, 0x2008, 0x2009, 0x200A, 0x2028, 0x2029, 0x202F, 0x205F, 0x3000, 0xFEFF}
  {
  }

  lemma UpperKeepsSpace(c: char)
    ensures IsSpace(c) ==> UpperChar(c) == [c]
    ensures !IsSpace(c) ==> UpperChar(c) != "" && forall i | 0 <= i < |UpperChar(c)| :: !IsSpace(UpperChar(c)[i])
  {
  }

  lemma {:induction false} UpperKeeps(s: string)
    requires forall i | 0 <= i < |s| :: UpperChar(s[i]) == [s[i]]
    ensures Upper(s) == s
  {
    if s != "" {
      UpperKeeps(s[1..]);
      assert s == [s[0]] + s[1..];
    }
  }
}
