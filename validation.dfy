/**
 * Input checks of the expense form: the amount text must be a non-negative
 * decimal with at most two fractional digits, and a date must be present and
 * valid.
 */
module Validation {
  import opened Wrappers
  import opened Text
  import opened Dates

  /** `\d` in a JavaScript regular expression: the ASCII digits only. */
  predicate IsDigit(c: char) {
    '0' <= c <= '9'
  }

  predicate AllDigits(s: string) {
    forall i :: 0 <= i < |s| ==> IsDigit(s[i])
  }

  /** The strings matched by `^(?:\d+)(?:\.(\d{1,2}))?$`, stated as a language. */
  ghost predicate InTwoDpLanguage(s: string) {
    || (s != [] && AllDigits(s))
    || (exists p :: 0 < p < |s| && s[p] == '.' && AllDigits(s[..p]) && AllDigits(s[p + 1..])
                    && 1 <= |s| - (p + 1) <= 2)
  }

  /** The length of the run of digits that starts `s`. */
  function DigitRun(s: string): (n: nat)
    ensures n <= |s| && AllDigits(s[..n])
    ensures n < |s| ==> !IsDigit(s[n])
  {
    if s == [] || !IsDigit(s[0]) then 0 else 1 + DigitRun(s[1..])
  }

  /** `TWO_DP_RE.test(s)`, scanning left to right. */
  predicate MatchesTwoDp(s: string) {
    var n := DigitRun(s);
    && n >= 1
    && (n == |s| || (s[n] == '.' && var f := DigitRun(s[n + 1..]); 1 <= f <= 2 && n + 1 + f == |s|))
  }

  /** A digit run ends exactly at the first non-digit. */
  lemma {:induction false} DigitRunAt(s: string, p: nat)
    requires p <= |s| && AllDigits(s[..p]) && (p < |s| ==> !IsDigit(s[p]))
    ensures DigitRun(s) == p
  {
    if p > 0 {
      assert s[..p][0] == s[0];
      assert s[1..][..p - 1] == s[..p][1..];
      DigitRunAt(s[1..], p - 1);
    }
  }

  /** The scanner accepts exactly the language of the regular expression. */
  lemma MatchesTwoDpIsLanguage(s: string)
    ensures MatchesTwoDp(s) <==> InTwoDpLanguage(s)
  {
    if MatchesTwoDp(s) {
      MatchedIsInLanguage(s);
    }
    if InTwoDpLanguage(s) {
      if s != [] && AllDigits(s) {
        WholeNumberMatches(s);
      } else {
        var p :| 0 < p < |s| && s[p] == '.' && AllDigits(s[..p]) && AllDigits(s[p + 1..])
                 && 1 <= |s| - (p + 1) <= 2;
        DecimalMatches(s, p);
      }
    }
  }

  lemma MatchedIsInLanguage(s: string)
    requires MatchesTwoDp(s)
    ensures InTwoDpLanguage(s)
  {
    var n := DigitRun(s);
    if n == |s| {
      assert s[..n] == s;
    } else {
      var t := s[n + 1..];
      var f := DigitRun(t);
      assert t[..f] == t;
    }
  }

  lemma WholeNumberMatches(s: string)
    requires s != [] && AllDigits(s)
    ensures MatchesTwoDp(s)
  {
    assert s[..|s|] == s;
    DigitRunAt(s, |s|);
  }

  lemma DecimalMatches(s: string, p: int)
    requires 0 < p < |s| && s[p] == '.' && AllDigits(s[..p]) && AllDigits(s[p + 1..])
    requires 1 <= |s| - (p + 1) <= 2
    ensures MatchesTwoDp(s)
  {
    DigitRunAt(s, p);
    var t := s[p + 1..];
    assert t[..|t|] == t;
    DigitRunAt(t, |t|);
  }

  /**
   * `isAmount2dp(input)`: the trimmed text is non-empty and matches the
   * two-decimal-place pattern.  `Number(s)` of a matching text is never
   * negative, so the final `n >= 0` check never rejects.
   */
  function IsAmount2dp(input: string): (ok: bool)
    ensures ok <==> InTwoDpLanguage(Trim(input))
  {
    var s := Trim(input);
    MatchesTwoDpIsLanguage(s);
    if s == [] then false
    else if !MatchesTwoDp(s) then false
    else true
  }

  /** Empty or whitespace-only input is rejected. */
  lemma AmountRejectsBlank(input: string)
    requires AllWhitespace(input)
    ensures !IsAmount2dp(input)
  {
    TrimEmptyIffBlank(input);
  }

  /** Surrounding whitespace is ignored. */
  lemma AmountIgnoresSurroundingWhitespace(w1: string, s: string, w2: string)
    requires AllWhitespace(w1) && AllWhitespace(w2)
    ensures IsAmount2dp(w1 + s + w2) == IsAmount2dp(s)
  {
    TrimIgnoresSurroundingWhitespace(w1, s, w2);
  }

  /** What every match looks like: digits at both ends, and at most one dot, at the end of the digit run and followed by one or two characters. */
  lemma MatchShape(s: string)
    ensures MatchesTwoDp(s) ==> IsDigit(s[0]) && IsDigit(s[|s| - 1])
    ensures MatchesTwoDp(s) ==> forall p :: 0 <= p < |s| && s[p] == '.' ==> p == DigitRun(s) && |s| - (p + 1) <= 2
  {
    if MatchesTwoDp(s) {
      var n := DigitRun(s);
      forall p | 0 <= p < n ensures IsDigit(s[p]) {
        assert s[..n][p] == s[p];
      }
      if n < |s| {
        var t := s[n + 1..];
        var f := DigitRun(t);
        assert t[..f] == t;
        forall p | n < p < |s| ensures IsDigit(s[p]) {
          assert t[p - n - 1] == s[p];
        }
      }
    }
  }

  /** A sign, a leading dot or any other non-digit first character is rejected: `"-1"`, `"+1"`, `".5"`. */
  lemma AmountNeedsLeadingDigit(input: string)
    requires Trim(input) != [] && !IsDigit(Trim(input)[0])
    ensures !IsAmount2dp(input)
  {
    MatchesTwoDpIsLanguage(Trim(input));
    MatchShape(Trim(input));
  }

  /** The pattern needs digits after a dot, so `"12."` is rejected. */
  lemma AmountRejectsTrailingDot(input: string)
    requires Trim(input) != [] && Trim(input)[|Trim(input)| - 1] == '.'
    ensures !IsAmount2dp(input)
  {
    MatchesTwoDpIsLanguage(Trim(input));
    MatchShape(Trim(input));
  }

  /** A dot followed by three or more characters is rejected: `"12.345"`. */
  lemma AmountRejectsLongFraction(input: string, p: nat)
    requires p < |Trim(input)| && Trim(input)[p] == '.' && |Trim(input)| - (p + 1) > 2
    ensures !IsAmount2dp(input)
  {
    MatchesTwoDpIsLanguage(Trim(input));
    MatchShape(Trim(input));
  }

  /** For a given text, acceptance is decided by the scanner on the trimmed text. */
  lemma DecidedByScanner(input: string)
    ensures IsAmount2dp(input) <==> MatchesTwoDp(Trim(input))
  {
    MatchesTwoDpIsLanguage(Trim(input));
  }

  lemma MatchesDecimal(w: string, f: string)
    requires w != [] && AllDigits(w) && AllDigits(f) && |f| <= 2
    ensures MatchesTwoDp(if f == [] then w else w + "." + f)
  {
    if f == [] {
      MatchesTwoDpIsLanguage(w);
    } else {
      var s := w + "." + f;
      assert s[|w|] == '.' && s[..|w|] == w && s[|w| + 1..] == f;
      MatchesTwoDpIsLanguage(s);
    }
  }

  /** A digit string, optionally followed by a dot and one or two digits, is accepted. */
  lemma AcceptsDecimal(s: string, w: string, f: string)
    requires w != [] && AllDigits(w) && AllDigits(f) && |f| <= 2
    requires s == if f == [] then w else w + "." + f
    ensures IsAmount2dp(s)
  {
    MatchesDecimal(w, f);
    MatchShape(s);
    TrimOfClean(s);
    DecidedByScanner(s);
  }

  /** The examples the source documents as accepted. */
  lemma AcceptedExamples(s: string)
    requires s in ["0.01", "12", "12.3", "12.30", " 12.3 "]
    ensures IsAmount2dp(s)
  {
    if s == "0.01" {
      AcceptsDecimal(s, "0", "01");
    } else if s == "12" {
      AcceptsDecimal(s, "12", "");
    } else if s == "12.3" {
      AcceptsDecimal(s, "12", "3");
    } else if s == "12.30" {
      AcceptsDecimal(s, "12", "30");
    } else {
      PaddedAccepted(s);
    }
  }

  /** `" 12.3 "` is accepted once the spaces are trimmed. */
  lemma PaddedAccepted(s: string)
    requires s == " 12.3 "
    ensures IsAmount2dp(s)
  {
    var core, pad := s[1..|s| - 1], [s[0]];
    assert s == pad + core + pad;
    AcceptsDecimal(core, "12", "3");
    AmountIgnoresSurroundingWhitespace(pad, core, pad);
  }

  /** Examples of rejected input: too many decimals, signs, a missing side of the dot, blank text. */
  lemma RejectedExamples(s: string)
    requires s in ["12.345", "-1", "+1", "12.", ".5", "", "  "]
    ensures !IsAmount2dp(s)
  {
    if s == "" || s == "  " {
      AmountRejectsBlank(s);
    } else {
      TrimOfClean(s);
      if s == "12.345" {
        AmountRejectsLongFraction(s, 2);
      } else if s == "12." {
        AmountRejectsTrailingDot(s);
      } else {
        AmountNeedsLeadingDigit(s);
      }
    }
  }

  // ---------------------------------------------------------------------
  // The value of a validated amount, in cents.

  function DigitValue(c: char): nat
    requires IsDigit(c)
  {
    c as int - '0' as int
  }

  /** The integer a digit string denotes. */
  function DecimalValue(ds: string): nat
    requires AllDigits(ds)
  {
    if ds == [] then 0 else 10 * DecimalValue(ds[..|ds| - 1]) + DigitValue(ds[|ds| - 1])
  }

  predicate HasNonZeroDigit(s: string) {
    exists i :: 0 <= i < |s| && '1' <= s[i] <= '9'
  }

  lemma {:induction false} DecimalValuePositive(ds: string)
    requires AllDigits(ds)
    ensures DecimalValue(ds) > 0 <==> HasNonZeroDigit(ds)
  {
    if ds != [] {
      var init := ds[..|ds| - 1];
      DecimalValuePositive(init);
      if HasNonZeroDigit(ds) && !HasNonZeroDigit(init) {
        var i :| 0 <= i < |ds| && '1' <= ds[i] <= '9';
      }
      if HasNonZeroDigit(init) {
        var i :| 0 <= i < |init| && '1' <= init[i] <= '9';
        assert ds[i] == init[i];
      }
    }
  }

  /**
   * The amount in cents that a matching text denotes: the whole part times a
   * hundred plus the fraction read as hundredths (`"12.3"` is 1230).
   */
  function AmountCents(s: string): (cents: nat)
    requires MatchesTwoDp(s)
    ensures cents > 0 <==> HasNonZeroDigit(s)
  {
    var n := DigitRun(s);
    var whole := s[..n];
    DecimalValuePositive(whole);
    if n == |s| then
      assert whole == s;
      100 * DecimalValue(whole)
    else
      var frac := s[n + 1..];
      var f := DigitRun(frac);
      assert frac[..f] == frac;
      DecimalValuePositive(frac);
      assert HasNonZeroDigit(s) <==> HasNonZeroDigit(whole) || HasNonZeroDigit(frac) by {
        if HasNonZeroDigit(s) {
          var i :| 0 <= i < |s| && '1' <= s[i] <= '9';
          if i < n { assert whole[i] == s[i]; }
          else { assert i > n; assert frac[i - n - 1] == s[i]; }
        }
        if HasNonZeroDigit(whole) {
          var i :| 0 <= i < |whole| && '1' <= whole[i] <= '9';
          assert s[i] == whole[i];
        }
        if HasNonZeroDigit(frac) {
          var i :| 0 <= i < |frac| && '1' <= frac[i] <= '9';
          assert s[n + 1 + i] == frac[i];
        }
      }
      100 * DecimalValue(whole) + (if f == 1 then 10 * DecimalValue(frac) else DecimalValue(frac))
  }

  /**
   * `to2dpNumber(input)` on an input `isAmount2dp` accepts, in cents: the
   * value of the trimmed text, positive exactly when a digit is non-zero.
   */
  function To2dpCents(input: string): (cents: nat)
    requires IsAmount2dp(input)
    ensures cents > 0 <==> HasNonZeroDigit(Trim(input))
  {
    DecidedByScanner(input);
    AmountCents(Trim(input))
  }

  lemma AmountCentsExamples()
    ensures MatchesTwoDp("12.3") && AmountCents("12.3") == 1230
    ensures MatchesTwoDp("0.01") && AmountCents("0.01") == 1
    ensures MatchesTwoDp("0.00") && AmountCents("0.00") == 0
  {
    OneDecimalExample();
    HundredthsExamples();
  }

  /** `"12.3"` is twelve units and thirty hundredths. */
  lemma OneDecimalExample()
    ensures MatchesTwoDp("12.3") && AmountCents("12.3") == 1230
  {
    assert DigitRun("12.3") == 2;
    assert "12.3"[..2] == "12" && "12.3"[3..] == "3";
    assert DecimalValue("12") == 12;
  }

  /** `"0.01"` is one cent and `"0.00"` none. */
  lemma HundredthsExamples()
    ensures MatchesTwoDp("0.01") && AmountCents("0.01") == 1
    ensures MatchesTwoDp("0.00") && AmountCents("0.00") == 0
  {
    assert DigitRun("0.01") == 1;
    assert DigitRun("0.00") == 1;
    assert "0.01"[..1] == "0" && "0.01"[2..] == "01";
    assert "0.00"[..1] == "0" && "0.00"[2..] == "00";
    assert DecimalValue("01") == 1;
  }

  /** `isRequiredDate(d)`: a date is present and valid, which is exactly when it can be formatted. */
  function IsRequiredDate(d: Option<JsDate>): (ok: bool)
    ensures ok <==> ToIsoDate(d).Some?
  {
    d.Some? && d.value.LocalDate?
  }
}
