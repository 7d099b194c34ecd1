/** continuity.js, currencyScale and decimalToMinorExact: exact minor units of a decimal text. */
module MinorUnits {
  import opened Options
  import opened Digits
  import opened Text

  const ZERO_MINOR_CURRENCIES :=
      {"BIF", "CLP", "DJF", "GNF", "ISK", "JPY", "KMF", "KRW", "PYG", "RWF", "UGX", "VND", "VUV", "XAF", "XOF", "XPF"}
  const THREE_MINOR_CURRENCIES := {"BHD", "IQD", "JOD", "KWD", "LYD", "OMR", "TND"}

  datatype Parsed = Minor(units: nat) | Missing | Malformed | TooPrecise

  function CurrencyScale(currency: string): (scale: nat) {
    var code := Upper(Trim(currency));
    if code in ZERO_MINOR_CURRENCIES then 0 else if code in THREE_MINOR_CURRENCIES then 3 else 2
  }

  function DigitSpan(s: string): (n: nat)
    ensures n <= |s| && AllDigits(s[..n]) && (n < |s| ==> !IsDigit(s[n]))
  {
    if s == "" || !IsDigit(s[0]) then 0
    else
      var n := DigitSpan(s[1..]);
      assert s[..n + 1] == [s[0]] + s[1..][..n];
      n + 1
  }

  /** The two groups of ^(\d+)(?:\.(\d+))?$, the second "" when absent. */
  function Match(s: string): (r: Option<(string, string)>)
    ensures r.Some? ==> AllDigits(r.value.0) && AllDigits(r.value.1) && r.value.0 != ""
  {
    var n := DigitSpan(s);
    if n == 0 then None
    else if n == |s| then
      assert s[..n] == s;
      Some((s, ""))
    else if s[n] == '.' && n + 1 < |s| && DigitSpan(s[n + 1..]) == |s| - n - 1 then
      assert s[n + 1..][..|s| - n - 1] == s[n + 1..];
      Some((s[..n], s[n + 1..]))
    else None
  }

  function PadEnd(s: string, width: nat): (r: string)
    requires |s| <= width
    ensures |r| == width && r[..|s|] == s && (forall i | |s| <= i < width :: r[i] == '0')
  {
    s + seq(width - |s|, _ => '0')
  }

  function DecimalToMinor(value: string, currency: string): Parsed {
    var raw := Trim(value);
    if raw == "" then Missing
    else
      var groups := Match(raw);
      if groups.None? then Malformed
      else if Trim(currency) == "" then Missing
      else GroupsToMinor(groups.value.0, groups.value.1, CurrencyScale(currency))
  }

  predicate Zeros(s: string) {
    forall i | 0 <= i < |s| :: s[i] == '0'
  }

  function GroupsToMinor(whole: string, fraction: string, scale: nat): (r: Parsed)
    requires AllDigits(whole) && AllDigits(fraction)
  {
    var kept := if |fraction| < scale then |fraction| else scale;
    var retained := PadEnd(fraction[..kept], scale);
    var excess := fraction[kept..];
    if !Zeros(excess) then TooPrecise
    else
      assert AllDigits(retained) by {
        assert forall i | 0 <= i < kept :: retained[i] == retained[..kept][i];
      }
      Minor(Value(whole) * Pow10(scale) + Value(retained))
  }

  /** Digits, or digits, a point and digits. */
  function DecimalText(whole: string, fraction: string): string {
    if fraction == "" then whole else whole + "." + fraction
  }

  /** The pattern splits a text into digits and fraction exactly when it is written that way. */
  lemma MatchExact(s: string, whole: string, fraction: string)
    requires AllDigits(whole) && whole != "" && AllDigits(fraction)
    ensures Match(s) == Some((whole, fraction)) <==> s == DecimalText(whole, fraction)
  {
    if s == DecimalText(whole, fraction) {
      DigitSpanOf(s, |whole|);
      assert s[..|whole|] == whole;
      if fraction != "" {
        assert s[|whole| + 1..] == fraction;
        DigitSpanOf(fraction, |fraction|);
      }
    }
    if Match(s) == Some((whole, fraction)) {
      var n := DigitSpan(s);
      if n < |s| {
        assert s == s[..n] + [s[n]] + s[n + 1..];
      }
    }
  }

  lemma {:induction false} DigitSpanOf(s: string, n: nat)
    requires n <= |s| && AllDigits(s[..n]) && (n < |s| ==> !IsDigit(s[n]))
    ensures DigitSpan(s) == n
  {
    if n > 0 {
      assert s[..n][0] == s[0];
      assert s[1..][..n - 1] == s[..n][1..];
      DigitSpanOf(s[1..], n - 1);
    }
  }

  lemma {:induction false} AllZero(s: string)
    requires forall i | 0 <= i < |s| :: s[i] == '0'
    ensures AllDigits(s) && Value(s) == 0
  {
    ValueZero(s);
  }

  /** n is the amount in minor units of whole.fraction: n / 10^scale == Value(whole fraction) / 10^|fraction|. */
  ghost predicate IsExact(n: nat, whole: string, fraction: string, scale: nat)
    requires AllDigits(whole) && AllDigits(fraction)
  {
    n * Pow10(|fraction|) == Value(whole + fraction) * Pow10(scale)
  }

  lemma Cancel(a: int, b: int, p: int)
    requires p > 0
    ensures a * p == b * p <==> a == b
  {
    if a < b {
      assert (b - a) * p > 0;
    } else if b < a {
      assert (a - b) * p > 0;
    }
  }

  lemma Swap(a: int, b: int, c: int)
    ensures (a * b) * c == (a * c) * b
  {
  }

  lemma PaddedArithmetic(n: int, w: int, f: int, p: int, q: int)
    requires p > 0
    ensures n * p == (w * p + f) * (q * p) <==> n == w * (q * p) + f * q
  {
    var r := q * p;
    calc {
      (w * p + f) * r;
      (w * p) * r + f * r;
      { Swap(w, p, r); }
      (w * r) * p + f * (q * p);
      { assert f * (q * p) == (f * q) * p; }
      (w * r) * p + (f * q) * p;
      (w * r + f * q) * p;
    }
    Cancel(n, w * r + f * q, p);
  }

  lemma ExcessArithmetic(n: int, v: int, x: int, p: int, q: int)
    requires p > 0 && 0 <= x < q
    ensures n * (q * p) == (v * q + x) * p <==> x == 0 && n == v
  {
    assert n * (q * p) == (n * q) * p;
    Cancel(n * q, v * q + x, p);
    SmallMultiple(n - v, q, x);
  }

  lemma SmallMultiple(d: int, q: int, x: int)
    requires 0 <= x < q
    ensures d * q == x <==> d == 0 && x == 0
  {
    if d > 0 {
      assert d * q >= q;
    } else if d < 0 {
      assert d * q <= -q;
    }
  }

  lemma ShortFraction(n: nat, whole: string, fraction: string, scale: nat)
    requires AllDigits(whole) && AllDigits(fraction) && |fraction| <= scale
    ensures AllDigits(PadEnd(fraction, scale))
    ensures IsExact(n, whole, fraction, scale) <==> n == Value(whole) * Pow10(scale) + Value(PadEnd(fraction, scale))
  {
    var zeros := PadEnd(fraction, scale)[|fraction|..];
    AllZero(zeros);
    ValueConcat(fraction, zeros);
    ValueConcat(whole, fraction);
    assert fraction + zeros == PadEnd(fraction, scale);
    Pow10Sum(|zeros|, |fraction|);
    PaddedArithmetic(n, Value(whole), Value(fraction), Pow10(|fraction|), Pow10(|zeros|));
  }

  lemma LongValue(whole: string, kept: string, excess: string)
    requires AllDigits(whole) && AllDigits(kept) && AllDigits(excess)
    ensures AllDigits(kept + excess) && AllDigits(whole + kept)
    ensures Value(whole + (kept + excess)) == Value(whole + kept) * Pow10(|excess|) + Value(excess)
  {
    assert whole + (kept + excess) == whole + kept + excess;
    ValueConcat(whole + kept, excess);
  }

  lemma LongFraction(n: nat, whole: string, kept: string, excess: string)
    requires AllDigits(whole) && AllDigits(kept) && AllDigits(excess)
    ensures AllDigits(kept + excess) && AllDigits(whole + kept)
    ensures IsExact(n, whole, kept + excess, |kept|) <==> Value(excess) == 0 && n == Value(whole + kept)
  {
    LongValue(whole, kept, excess);
    ValueBound(excess);
    Pow10Sum(|excess|, |kept|);
    ExcessArithmetic(n, Value(whole + kept), Value(excess), Pow10(|kept|), Pow10(|excess|));
  }

  lemma GroupsExact(whole: string, fraction: string, scale: nat, n: nat)
    requires AllDigits(whole) && AllDigits(fraction)
    ensures GroupsToMinor(whole, fraction, scale) == Minor(n) <==> IsExact(n, whole, fraction, scale)
  {
    if |fraction| <= scale {
      assert fraction[..|fraction|] == fraction && fraction[|fraction|..] == "";
      ShortFraction(n, whole, fraction, scale);
    } else {
      var kept, excess := fraction[..scale], fraction[scale..];
      assert kept + excess == fraction;
      assert PadEnd(kept, scale) == kept;
      ValueZero(excess);
      ValueConcat(whole, kept);
      LongFraction(n, whole, kept, excess);
      assert Value(excess) == 0 <==> Zeros(excess);
    }
  }

  /** The value is this decimal, with white space around it perhaps. */
  ghost predicate Writes(value: string, whole: string, fraction: string) {
    AllDigits(whole) && whole != "" && AllDigits(fraction)
    && exists before, after ::
         Blank(before) && Blank(after) && value == before + DecimalText(whole, fraction) + after
  }

  lemma WritesTrims(value: string, whole: string, fraction: string)
    ensures Writes(value, whole, fraction) <==> Match(Trim(value)) == Some((whole, fraction))
  {
    if Writes(value, whole, fraction) {
      var before, after :|
        Blank(before) && Blank(after) && value == before + DecimalText(whole, fraction) + after;
      DecimalEnds(whole, fraction);
      TrimPadded(before, DecimalText(whole, fraction), after);
      MatchExact(Trim(value), whole, fraction);
    }
    if Match(Trim(value)) == Some((whole, fraction)) {
      MatchExact(Trim(value), whole, fraction);
      var before, after := TrimSplits(value);
    }
  }

  lemma DecimalEnds(whole: string, fraction: string)
    requires AllDigits(whole) && whole != "" && AllDigits(fraction)
    ensures var s := DecimalText(whole, fraction); s != "" && !IsSpace(s[0]) && !IsSpace(s[|s| - 1])
  {
    var s := DecimalText(whole, fraction);
    assert s[0] == whole[0] && IsDigit(whole[0]);
    var last := if fraction == "" then whole[|whole| - 1] else fraction[|fraction| - 1];
    assert s[|s| - 1] == last && IsDigit(last);
  }

  /** For a value that writes a decimal, the answer is n exactly when there is a currency and n is the value in its
      minor units; otherwise that the value is too precise, or that the currency is missing. */
  lemma DecimalExact(value: string, currency: string, whole: string, fraction: string, n: nat)
    requires Writes(value, whole, fraction)
    ensures DecimalToMinor(value, currency) == Minor(n)
       <==> !Blank(currency) && IsExact(n, whole, fraction, CurrencyScale(currency))
    ensures !Blank(currency) ==> DecimalToMinor(value, currency).Minor? || DecimalToMinor(value, currency).TooPrecise?
    ensures Blank(currency) ==> DecimalToMinor(value, currency) == Missing
  {
    WritesTrims(value, whole, fraction);
    TrimBlank(currency);
    assert Trim(value) != "";
    GroupsExact(whole, fraction, CurrencyScale(currency), n);
  }

  /** Something is missing exactly when the value is blank, or it writes a decimal and the currency is blank; a value is
      malformed exactly when it is not blank and writes no decimal. */
  lemma DecimalRejected(value: string, currency: string)
    ensures DecimalToMinor(value, currency) == Missing
       <==> Blank(value) || (Blank(currency) && exists whole, fraction :: Writes(value, whole, fraction))
    ensures DecimalToMinor(value, currency) == Malformed
       <==> !Blank(value) && forall whole, fraction :: !Writes(value, whole, fraction)
  {
    TrimBlank(value);
    TrimBlank(currency);
    forall whole, fraction ensures Writes(value, whole, fraction) <==> Match(Trim(value)) == Some((whole, fraction)) {
      WritesTrims(value, whole, fraction);
    }
    if Match(Trim(value)).Some? {
      var groups := Match(Trim(value)).value;
      assert Writes(value, groups.0, groups.1);
    }
  }
}
