/**
 * String building for asset URLs and node ids: `pad`, `pad2`, the two URL
 * pattern fillers, the transition clip paths, the PANOS table, the indicator
 * text and `getNodeIdForIndex`.
 *
 * Numbers are integers here; `String(n)` is decimal notation with a leading
 * '-' for negatives, which is what JavaScript prints for every safe integer.
 */
module Naming {

  import Base

  // ---------------------------------------------------------------------------
  // Decimal notation and its inverse
  // ---------------------------------------------------------------------------

  predicate IsDigit(c: char) { '0' <= c <= '9' }

  function DigitChar(d: nat): (c: char)
    requires d < 10
    ensures IsDigit(c)
  {
    ['0', '1', '2', '3', '4', '5', '6', '7', '8', '9'][d]
  }

  /** The value of a decimal digit character (callers only pass digits). */
  function DigitValue(c: char): nat
  {
    if IsDigit(c) then (c as int - '0' as int) as nat else 0
  }

  /** Decimal notation of a natural number, without leading zeros ("0" for 0). */
  function Digits(n: nat): (s: seq<char>)
    ensures |s| >= 1
    ensures forall k :: 0 <= k < |s| ==> IsDigit(s[k])
  {
    if n < 10 then [DigitChar(n)] else Digits(n / 10) + [DigitChar(n % 10)]
  }

  /** `String(n)` for an integer `n`. */
  function ToDecimal(n: int): string
  {
    if n < 0 then ['-'] + Digits(-n) else Digits(n)
  }

  /** The value of a string of decimal digits, as `parseInt(s, 10)` reads it. */
  function ParseDigits(s: seq<char>): nat
  {
    if s == [] then 0 else ParseDigits(s[..|s| - 1]) * 10 + DigitValue(s[|s| - 1])
  }

  function Zeros(k: nat): (z: seq<char>)
    ensures |z| == k && forall j :: 0 <= j < k ==> z[j] == '0'
  {
    if k == 0 then [] else Zeros(k - 1) + ['0']
  }

  lemma DigitRoundTrip(d: nat)
    requires d < 10
    ensures DigitValue(DigitChar(d)) == d
  {
  }

  lemma {:induction false} DigitsRoundTrip(n: nat)
    ensures ParseDigits(Digits(n)) == n
  {
    if n < 10 {
      DigitRoundTrip(n);
    } else {
      var s := Digits(n);
      assert s[..|s| - 1] == Digits(n / 10);
      DigitsRoundTrip(n / 10);
      DigitRoundTrip(n % 10);
    }
  }

  /** Leading zeros do not change the value of a digit string. */
  lemma {:induction false} LeadingZeros(k: nat, s: seq<char>)
    requires forall j :: 0 <= j < |s| ==> IsDigit(s[j])
    ensures forall j :: 0 <= j < |Zeros(k) + s| ==> IsDigit((Zeros(k) + s)[j])
    ensures ParseDigits(Zeros(k) + s) == ParseDigits(s)
  {
    var z := Zeros(k) + s;
    assert forall j :: 0 <= j < |z| ==> IsDigit(z[j]) by {
      forall j | 0 <= j < |z| ensures IsDigit(z[j]) {
        if j < k { assert z[j] == '0'; } else { assert z[j] == s[j - k]; }
      }
    }
    if s == [] {
      assert z == Zeros(k);
      if k > 0 {
        assert z[..|z| - 1] == Zeros(k - 1) + [];
        LeadingZeros(k - 1, []);
      }
    } else {
      assert z[..|z| - 1] == Zeros(k) + s[..|s| - 1];
      LeadingZeros(k, s[..|s| - 1]);
    }
  }

  // ---------------------------------------------------------------------------
  // pad / pad2
  // ---------------------------------------------------------------------------

  /** `String(n).padStart(len, "0")` (src/main.js `pad`). */
  function Pad(n: int, len: nat): (r: string)
    ensures |r| == Base.Max(len, |ToDecimal(n)|)
    ensures r[|r| - |ToDecimal(n)|..] == ToDecimal(n)
    ensures forall k :: 0 <= k < |r| - |ToDecimal(n)| ==> r[k] == '0'
  {
    var s := ToDecimal(n);
    if |s| >= len then s else Zeros(len - |s|) + s
  }

  /** `pad2(n)` is `pad(n, 2)`. */
  function Pad2(n: int): string
  {
    Pad(n, 2)
  }

  /** A padded non-negative number is all digits and reads back as itself. */
  lemma PadRoundTrip(n: nat, len: nat)
    ensures forall k :: 0 <= k < |Pad(n, len)| ==> IsDigit(Pad(n, len)[k])
    ensures ParseDigits(Pad(n, len)) == n
  {
    DigitsRoundTrip(n);
    if |Digits(n)| < len {
      LeadingZeros(len - |Digits(n)|, Digits(n));
    }
  }

  /** Padding never introduces a placeholder brace (only digits and '-'). */
  lemma PadHasNoBrace(n: int, len: nat)
    ensures '{' !in Pad(n, len)
  {
    var s := ToDecimal(n);
    assert '{' !in Digits(if n < 0 then -n else n);
    assert '{' !in s;
    if |s| < len {
      assert Pad(n, len) == Zeros(len - |s|) + s;
      assert '{' !in Zeros(len - |s|);
    }
  }

  function Pow10(k: nat): (p: nat)
    ensures p >= 1
  {
    if k == 0 then 1 else 10 * Pow10(k - 1)
  }

  /** A number below 10^k has at most k digits (k >= 1). */
  lemma {:induction false} DigitsLength(n: nat, k: nat)
    requires 1 <= k && n < Pow10(k)
    ensures |Digits(n)| <= k
  {
    if n >= 10 {
      assert k > 1;
      DigitsLength(n / 10, k - 1);
    }
  }

  /** For n <= 9999, `pad(n, 4)` is exactly four digits. */
  lemma PadFourWide(n: nat)
    requires n <= 9999
    ensures |Pad(n, 4)| == 4
  {
    assert Pow10(4) == 10000;
    DigitsLength(n, 4);
  }

  /** Distinct non-negative numbers pad to distinct strings, at any width. */
  lemma PadInjective(a: nat, b: nat, len: nat)
    requires Pad(a, len) == Pad(b, len)
    ensures a == b
  {
    PadRoundTrip(a, len);
    PadRoundTrip(b, len);
  }

  // ---------------------------------------------------------------------------
  // String.prototype.replace with a string pattern: first occurrence only
  // ---------------------------------------------------------------------------

  predicate OccursAt(s: string, pat: string, k: int)
  {
    0 <= k && k + |pat| <= |s| && s[k..k + |pat|] == pat
  }

  /** The first position at or after `from` where `pat` occurs in `s`. */
  function FindFrom(s: string, pat: string, from: nat): (r: Base.Option<nat>)
    decreases |s| - from
    ensures r.Some? ==> from <= r.value && OccursAt(s, pat, r.value)
    ensures r.Some? ==> forall m :: from <= m < r.value ==> !OccursAt(s, pat, m)
    ensures r.None? ==> forall m :: from <= m ==> !OccursAt(s, pat, m)
  {
    if from + |pat| > |s| then Base.None
    else if s[from..from + |pat|] == pat then Base.Some(from)
    else FindFrom(s, pat, from + 1)
  }

  /** `s.replace(pat, rep)` for a string `pat` and a replacement without '$'. */
  function ReplaceFirst(s: string, pat: string, rep: string): (r: string)
    ensures (forall m :: !OccursAt(s, pat, m)) ==> r == s
  {
    match FindFrom(s, pat, 0)
    case None => s
    case Some(k) => s[..k] + rep + s[k + |pat|..]
  }

  /**
   * When nothing before the first occurrence of `pat` can start one (its first
   * character does not appear there), the replacement lands exactly there.
   */
  lemma ReplaceFirstAt(p0: string, pat: string, p1: string, rep: string)
    requires |pat| > 0 && pat[0] !in p0
    ensures ReplaceFirst(p0 + pat + p1, pat, rep) == p0 + rep + p1
  {
    var s := p0 + pat + p1;
    assert OccursAt(s, pat, |p0|) by { assert s[|p0|..|p0| + |pat|] == pat; }
    var k := FindFrom(s, pat, 0).value;
    assert k == |p0|;
    assert s[..k] == p0;
    assert s[k + |pat|..] == p1;
  }

  // ---------------------------------------------------------------------------
  // URL patterns (src/main.js applyPanoPattern / applyTransitionPattern)
  // ---------------------------------------------------------------------------

  const PanoPlaceholder: string := "{0000}"
  const TransitionPlaceholder: string := "{00}"

  function ApplyPanoPattern(pattern: string, i1: int): string
  {
    ReplaceFirst(pattern, PanoPlaceholder, Pad(i1, 4))
  }

  function ApplyTransitionPattern(pattern: string, a2: int, b2: int): string
  {
    ReplaceFirst(ReplaceFirst(pattern, TransitionPlaceholder, Pad(a2, 2)), TransitionPlaceholder, Pad(b2, 2))
  }

  /** The pano pattern's first placeholder becomes the 4-digit 1-based index. */
  lemma PanoPatternFill(p0: string, p1: string, i1: int)
    requires '{' !in p0
    ensures ApplyPanoPattern(p0 + PanoPlaceholder + p1, i1) == p0 + Pad(i1, 4) + p1
  {
    ReplaceFirstAt(p0, PanoPlaceholder, p1, Pad(i1, 4));
  }

  /**
   * The transition pattern's first placeholder becomes `pad(a, 2)` and the
   * second becomes `pad(b, 2)`: the second replace cannot find a placeholder in
   * the digits written by the first.
   */
  lemma {:induction false} TransitionPatternFill(p0: string, p1: string, p2: string, a: int, b: int)
    requires '{' !in p0 && '{' !in p1
    ensures ApplyTransitionPattern(p0 + TransitionPlaceholder + p1 + TransitionPlaceholder + p2, a, b)
         == p0 + Pad(a, 2) + p1 + Pad(b, 2) + p2
  {
    var rest := p1 + TransitionPlaceholder + p2;
    assert p0 + TransitionPlaceholder + p1 + TransitionPlaceholder + p2 == p0 + TransitionPlaceholder + rest;
    ReplaceFirstAt(p0, TransitionPlaceholder, rest, Pad(a, 2));
    var q0 := p0 + Pad(a, 2) + p1;
    PadHasNoBrace(a, 2);
    assert '{' !in q0 by {
      forall k | 0 <= k < |q0| ensures q0[k] != '{' {
        if k < |p0| { assert q0[k] == p0[k]; }
        else if k < |p0| + |Pad(a, 2)| { assert q0[k] == Pad(a, 2)[k - |p0|]; }
        else { assert q0[k] == p1[k - |p0| - |Pad(a, 2)|]; }
      }
    }
    assert p0 + Pad(a, 2) + rest == q0 + TransitionPlaceholder + p2;
    ReplaceFirstAt(q0, TransitionPlaceholder, p2, Pad(b, 2));
  }

  lemma PrependThree(base: string, a: string, b: string, c: string)
    ensures base + (a + b + c) == base + a + b + c
  {
  }

  /** Equal strings with the same prefix and suffix agree in the middle. */
  lemma MiddleEqual(pre: string, x: string, y: string, post: string)
    requires pre + x + post == pre + y + post
    ensures x == y
  {
    assert |x| == |y|;
    assert x == (pre + x + post)[|pre|..|pre| + |x|];
    assert y == (pre + y + post)[|pre|..|pre| + |y|];
  }

  lemma OuterSlices(a: string, b: string, c: string)
    ensures (a + b + c)[..|a|] == a && (a + b + c)[|a| + |b|..] == c
  {
  }

  lemma PrependFive(base: string, a: string, b: string, c: string, d: string, e: string)
    ensures base + (a + b + c + d + e) == base + a + b + c + d + e
  {
  }

  // ---------------------------------------------------------------------------
  // Transition clip paths (src/main.js transitionPathForward / Reverse)
  // ---------------------------------------------------------------------------

  /** The clip played when moving from `fromIndex` to `fromIndex + 1`. */
  function TransitionPathForward(base: string, forwardPattern: string, fromIndex: int): string
  {
    base + ApplyTransitionPattern(forwardPattern, fromIndex + 1, fromIndex + 2)
  }

  /** The clip played when moving from `fromIndex` to `fromIndex - 1`. */
  function TransitionPathReverse(base: string, reversePattern: string, fromIndex: int): string
  {
    base + ApplyTransitionPattern(reversePattern, fromIndex + 1, fromIndex)
  }

  /** Forward from node `i` (0-based) names the 1-based pair (i+1, i+2). */
  lemma ForwardPathNames(base: string, p0: string, p1: string, p2: string, i: int)
    requires '{' !in p0 && '{' !in p1
    ensures TransitionPathForward(base, p0 + TransitionPlaceholder + p1 + TransitionPlaceholder + p2, i)
         == base + p0 + Pad(i + 1, 2) + p1 + Pad(i + 2, 2) + p2
  {
    TransitionPatternFill(p0, p1, p2, i + 1, i + 2);
    PrependFive(base, p0, Pad(i + 1, 2), p1, Pad(i + 2, 2), p2);
  }

  /** Reverse from node `i` (0-based) names the 1-based pair (i+1, i). */
  lemma ReversePathNames(base: string, p0: string, p1: string, p2: string, i: int)
    requires '{' !in p0 && '{' !in p1
    ensures TransitionPathReverse(base, p0 + TransitionPlaceholder + p1 + TransitionPlaceholder + p2, i)
         == base + p0 + Pad(i + 1, 2) + p1 + Pad(i, 2) + p2
  {
    TransitionPatternFill(p0, p1, p2, i + 1, i);
    PrependFive(base, p0, Pad(i + 1, 2), p1, Pad(i, 2), p2);
  }

  // ---------------------------------------------------------------------------
  // PANOS, the indicator and node ids
  // ---------------------------------------------------------------------------

  /** `PANOS`: one URL per pano, built from the pattern with the 1-based index. */
  function BuildPanos(base: string, pattern: string, count: nat): (panos: seq<string>)
    ensures |panos| == count
  {
    seq(count, i => base + ApplyPanoPattern(pattern, i + 1))
  }

  /**
   * When the pattern holds the placeholder (with no brace before it), every
   * pano gets its own URL, holding its 1-based number padded to four digits.
   */
  lemma PanoUrlsDistinct(base: string, p0: string, p1: string, count: nat, i: nat, j: nat)
    requires '{' !in p0
    requires i < count && j < count
    ensures BuildPanos(base, p0 + PanoPlaceholder + p1, count)[i] == base + p0 + Pad(i + 1, 4) + p1
    ensures (BuildPanos(base, p0 + PanoPlaceholder + p1, count)[i]
             == BuildPanos(base, p0 + PanoPlaceholder + p1, count)[j]) ==> i == j
  {
    var panos := BuildPanos(base, p0 + PanoPlaceholder + p1, count);
    var x, y := Pad(i + 1, 4), Pad(j + 1, 4);
    PanoUrlAt(base, p0, p1, count, i);
    PanoUrlAt(base, p0, p1, count, j);
    if panos[i] == panos[j] {
      MiddleEqual(base + p0, x, y, p1);
      PadInjective(i + 1, j + 1, 4);
    }
  }

  lemma PanoUrlAt(base: string, p0: string, p1: string, count: nat, i: nat)
    requires '{' !in p0 && i < count
    ensures BuildPanos(base, p0 + PanoPlaceholder + p1, count)[i] == base + p0 + Pad(i + 1, 4) + p1
  {
    PanoPatternFill(p0, p1, i + 1);
    PrependThree(base, p0, Pad(i + 1, 4), p1);
  }

  /** The indicator text `"NN / MM"` written by `updateIndicator`. */
  function IndicatorText(i: int, count: nat): string
  {
    Pad2(i + 1) + " / " + Pad2(count)
  }

  /** The indicator shows the 1-based position first, then the node count. */
  lemma IndicatorReadsBack(i: nat, count: nat)
    requires i + 1 < 100 && count < 100
    ensures |IndicatorText(i, count)| == 7
    ensures ParseDigits(IndicatorText(i, count)[..2]) == i + 1
    ensures ParseDigits(IndicatorText(i, count)[5..]) == count
  {
    IndicatorParts(i, count);
    Pad2Reads(i + 1);
    Pad2Reads(count);
  }

  lemma IndicatorParts(i: nat, count: nat)
    requires i + 1 < 100 && count < 100
    ensures |IndicatorText(i, count)| == 7
    ensures IndicatorText(i, count)[..2] == Pad2(i + 1)
    ensures IndicatorText(i, count)[5..] == Pad2(count)
  {
    Pad2Reads(i + 1);
    Pad2Reads(count);
    OuterSlices(Pad2(i + 1), " / ", Pad2(count));
  }

  lemma Pad2Reads(n: nat)
    requires n < 100
    ensures |Pad2(n)| == 2
    ensures forall k :: 0 <= k < |Pad2(n)| ==> IsDigit(Pad2(n)[k])
    ensures ParseDigits(Pad2(n)) == n
  {
    assert Pow10(2) == 100;
    DigitsLength(n, 2);
    PadRoundTrip(n, 2);
  }

  /** `getNodeIdForIndex`: the 1-based node id, or 0 for a negative index. */
  function NodeIdForIndex(i: int): (id: nat)
    ensures i >= 0 ==> id == i + 1 && id > 0
    ensures i < 0 ==> id == 0
  {
    if i < 0 then 0 else i + 1
  }
}
