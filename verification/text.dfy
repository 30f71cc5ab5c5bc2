/**
 * Character and string helpers shared by the models of Python's str methods
 * (strip, startswith, find) and of JavaScript's String.prototype.trim.
 */
module Text {

  /** Python's str.isspace(), which is also what `\s` matches in a str regular expression. */
  predicate IsSpace(c: char) {
    c == ' ' || ('\t' <= c <= '\r') || ('\U{1C}' <= c <= '\U{1F}') ||
    c == '\U{85}' || c == '\U{A0}' || c == '\U{1680}' || ('\U{2000}' <= c <= '\U{200A}') ||
    c == '\U{2028}' || c == '\U{2029}' || c == '\U{202F}' || c == '\U{205F}' || c == '\U{3000}'
  }

  predicate IsDigit(c: char) { '0' <= c <= '9' }

  /** The regular-expression class [a-zA-Z0-9]. */
  predicate IsAsciiAlnum(c: char) { IsDigit(c) || 'a' <= c <= 'z' || 'A' <= c <= 'Z' }

  /** The first index at or after i that does not hold white space (or |s|). */
  function SkipSpace(s: string, i: nat): (j: nat)
    requires i <= |s|
    ensures i <= j <= |s| && (j < |s| ==> !IsSpace(s[j]))
    ensures forall k :: i <= k < j ==> IsSpace(s[k])
    decreases |s| - i
  {
    if i < |s| && IsSpace(s[i]) then SkipSpace(s, i + 1) else i
  }

  /** The end of s[..j] once its trailing white space is removed. */
  function TrimEnd(s: string, j: nat): (e: nat)
    requires j <= |s|
    ensures e <= j && (e > 0 ==> !IsSpace(s[e - 1]))
    ensures forall k :: e <= k < j ==> IsSpace(s[k])
  {
    if j > 0 && IsSpace(s[j - 1]) then TrimEnd(s, j - 1) else j
  }

  /** Python's str.lstrip() with no argument. */
  function LStrip(s: string): string {
    s[SkipSpace(s, 0)..]
  }

  /** Python's str.rstrip() with no argument. */
  function RStrip(s: string): string {
    s[..TrimEnd(s, |s|)]
  }

  /** Python's str.strip() with no argument. */
  function Strip(s: string): string {
    RStrip(LStrip(s))
  }

  predicate AllSpace(s: string) {
    forall k :: 0 <= k < |s| ==> IsSpace(s[k])
  }

  /** SkipSpace(s, i) is the only j whose run from i is white space and which stops at other text. */
  lemma {:induction false} SkipSpaceAt(s: string, i: nat, j: nat)
    requires i <= j <= |s| && (forall k :: i <= k < j ==> IsSpace(s[k])) && (j < |s| ==> !IsSpace(s[j]))
    ensures SkipSpace(s, i) == j
    decreases j - i
  {
    if i < j {
      SkipSpaceAt(s, i + 1, j);
    }
  }

  /** lstrip() removes exactly the white space before the first other character. */
  lemma LStripAt(s: string, a: nat)
    requires a <= |s| && (forall k :: 0 <= k < a ==> IsSpace(s[k])) && (a < |s| ==> !IsSpace(s[a]))
    ensures LStrip(s) == s[a..]
  {
    SkipSpaceAt(s, 0, a);
  }

  /** rstrip() removes exactly the white space after the last other character. */
  lemma RStripAt(s: string, e: nat)
    requires e <= |s| && (forall k :: e <= k < |s| ==> IsSpace(s[k])) && (e > 0 ==> !IsSpace(s[e - 1]))
    ensures RStrip(s) == s[..e]
  {
    TrimEndAt(s, |s|, e);
  }

  /** TrimEnd(s, j) is the only e whose run up to j is white space and which follows other text. */
  lemma {:induction false} TrimEndAt(s: string, j: nat, e: nat)
    requires e <= j <= |s| && (forall k :: e <= k < j ==> IsSpace(s[k])) && (e > 0 ==> !IsSpace(s[e - 1]))
    ensures TrimEnd(s, j) == e
  {
    if e < j {
      TrimEndAt(s, j - 1, e);
    }
  }

  /** A string that neither starts nor ends with white space is its own strip. */
  lemma StripNoop(s: string)
    requires s != [] ==> !IsSpace(s[0]) && !IsSpace(s[|s| - 1])
    ensures Strip(s) == s
  {
    LStripAt(s, 0);
    assert s[0..] == s;
    RStripAt(s, |s|);
  }

  /** Strip() removes exactly the white space around s[a..e]. */
  lemma StripAt(s: string, a: nat, e: nat)
    requires a < e <= |s| && !IsSpace(s[a]) && !IsSpace(s[e - 1])
    requires forall k :: 0 <= k < a ==> IsSpace(s[k])
    requires forall k :: e <= k < |s| ==> IsSpace(s[k])
    ensures Strip(s) == s[a..e]
  {
    LStripAt(s, a);
    var t := s[a..];
    RStripAt(t, e - a);
    assert t[..e - a] == s[a..e];
  }

  /** Text with some character other than white space strips to the slice between its first and last such characters. */
  lemma StripSlice(s: string, i: nat)
    requires i < |s| && !IsSpace(s[i])
    ensures SkipSpace(s, 0) <= i < TrimEnd(s, |s|)
    ensures Strip(s) == s[SkipSpace(s, 0)..TrimEnd(s, |s|)]
  {
    var a, e := SkipSpace(s, 0), TrimEnd(s, |s|);
    StripAt(s, a, e);
  }

  /**
   * The characters JavaScript's String.prototype.trim removes: its white space
   * (which adds U+FEFF to the Unicode space separators) and line terminators.
   */
  predicate IsJsSpace(c: char) {
    ('\t' <= c <= '\r') || c == ' ' || c == '\U{A0}' || c == '\U{1680}' || ('\U{2000}' <= c <= '\U{200A}') ||
    c == '\U{2028}' || c == '\U{2029}' || c == '\U{202F}' || c == '\U{205F}' || c == '\U{3000}' || c == '\U{FEFF}'
  }

  function JsSkipSpace(s: string, i: nat): (j: nat)
    requires i <= |s|
    ensures i <= j <= |s| && (j < |s| ==> !IsJsSpace(s[j]))
    ensures forall k :: i <= k < j ==> IsJsSpace(s[k])
    decreases |s| - i
  {
    if i < |s| && IsJsSpace(s[i]) then JsSkipSpace(s, i + 1) else i
  }

  function JsTrimEnd(s: string, j: nat): (e: nat)
    requires j <= |s|
    ensures e <= j && (e > 0 ==> !IsJsSpace(s[e - 1]))
    ensures forall k :: e <= k < j ==> IsJsSpace(s[k])
  {
    if j > 0 && IsJsSpace(s[j - 1]) then JsTrimEnd(s, j - 1) else j
  }

  /** JavaScript's s.trim(): s without its leading and trailing white space. */
  function JsTrim(s: string): (r: string)
    ensures r == [] || (!IsJsSpace(r[0]) && !IsJsSpace(r[|r| - 1]))
  {
    var a, e := JsSkipSpace(s, 0), JsTrimEnd(s, |s|);
    if a < e then s[a..e] else []
  }

  /** trim() keeps every character that is not white space, and only removes white space at the ends. */
  lemma JsTrimKeeps(s: string, i: nat)
    requires i < |s| && !IsJsSpace(s[i])
    ensures JsSkipSpace(s, 0) <= i < JsTrimEnd(s, |s|)
    ensures JsTrim(s) == s[JsSkipSpace(s, 0)..JsTrimEnd(s, |s|)]
  {
  }

  /** trim() of text that neither starts nor ends with white space is the text itself. */
  lemma JsTrimNoop(s: string)
    requires s != [] ==> !IsJsSpace(s[0]) && !IsJsSpace(s[|s| - 1])
    ensures JsTrim(s) == s
  {
    if s != [] {
      JsTrimKeeps(s, 0);
      assert s[0..|s|] == s;
    }
  }

  /** trim() of text made only of white space is empty. */
  lemma JsTrimAllSpace(s: string)
    requires forall k :: 0 <= k < |s| ==> IsJsSpace(s[k])
    ensures JsTrim(s) == []
  {
  }

  predicate StartsWith(s: string, prefix: string) {
    |prefix| <= |s| && s[..|prefix|] == prefix
  }

  predicate EndsWith(s: string, suffix: string) {
    |suffix| <= |s| && s[|s| - |suffix|..] == suffix
  }

  /** The first index at or after `from` holding c, or -1. */
  function FindFrom(s: string, c: char, from: nat): (r: int)
    requires from <= |s|
    ensures r == -1 || (from <= r < |s| && s[r] == c)
    decreases |s| - from
  {
    if from == |s| then -1
    else if s[from] == c then from
    else FindFrom(s, c, from + 1)
  }

  /** The last index below `upto` holding c, or -1. */
  function FindBefore(s: string, c: char, upto: nat): (r: int)
    requires upto <= |s|
    ensures r == -1 || (0 <= r < upto && s[r] == c)
  {
    if upto == 0 then -1
    else if s[upto - 1] == c then upto - 1
    else FindBefore(s, c, upto - 1)
  }

  /** str.find(c) for a single character: the first index holding c, or -1. */
  function FindFirst(s: string, c: char): (r: int)
    ensures r == -1 || (0 <= r < |s| && s[r] == c)
  {
    FindFrom(s, c, 0)
  }

  /** str.rfind(c) for a single character: the last index holding c, or -1. */
  function FindLast(s: string, c: char): (r: int)
    ensures r == -1 || (0 <= r < |s| && s[r] == c)
  {
    FindBefore(s, c, |s|)
  }

  lemma {:induction false} FindFromAt(s: string, c: char, from: nat, i: nat)
    requires from <= i < |s| && s[i] == c && forall k :: from <= k < i ==> s[k] != c
    ensures FindFrom(s, c, from) == i
    decreases i - from
  {
    if from < i {
      FindFromAt(s, c, from + 1, i);
    }
  }

  lemma {:induction false} FindFromNone(s: string, c: char, from: nat)
    requires from <= |s| && forall k :: from <= k < |s| ==> s[k] != c
    ensures FindFrom(s, c, from) == -1
    decreases |s| - from
  {
    if from < |s| {
      FindFromNone(s, c, from + 1);
    }
  }

  lemma {:induction false} FindBeforeAt(s: string, c: char, upto: nat, j: nat)
    requires j < upto <= |s| && s[j] == c && forall k :: j < k < upto ==> s[k] != c
    ensures FindBefore(s, c, upto) == j
  {
    if j < upto - 1 {
      FindBeforeAt(s, c, upto - 1, j);
    }
  }

  /** find() gives the index of the first c. */
  lemma FindFirstAt(s: string, c: char, i: nat)
    requires i < |s| && s[i] == c && forall k :: 0 <= k < i ==> s[k] != c
    ensures FindFirst(s, c) == i
  {
    FindFromAt(s, c, 0, i);
  }

  /** find() gives -1 when c does not occur. */
  lemma FindFirstNone(s: string, c: char)
    requires forall k :: 0 <= k < |s| ==> s[k] != c
    ensures FindFirst(s, c) == -1
  {
    FindFromNone(s, c, 0);
  }

  /** rfind() gives the index of the last c. */
  lemma FindLastAt(s: string, c: char, j: nat)
    requires j < |s| && s[j] == c && forall k :: j < k < |s| ==> s[k] != c
    ensures FindLast(s, c) == j
  {
    FindBeforeAt(s, c, |s|, j);
  }

  /** ASCII lower-casing, enough for Python's case-insensitive "inf"/"nan" check. */
  function LowerAscii(s: string): (r: string)
    ensures |r| == |s|
  {
    if s == [] then []
    else [if 'A' <= s[0] <= 'Z' then (s[0] as int + 32) as char else s[0]] + LowerAscii(s[1..])
  }

  function DigitValue(c: char): nat
    requires IsDigit(c)
  {
    c as int - '0' as int
  }

  predicate AllDigits(s: string) {
    forall k :: 0 <= k < |s| ==> IsDigit(s[k])
  }

  /** The value of a run of decimal digits (the empty run is 0). */
  function DigitsValue(s: string): nat
    requires AllDigits(s)
  {
    if s == [] then 0 else DigitsValue(s[..|s| - 1]) * 10 + DigitValue(s[|s| - 1])
  }

  function Pow10(n: nat): (r: nat)
    ensures r >= 1
  {
    if n == 0 then 1 else 10 * Pow10(n - 1)
  }

  import opened Wrappers
}
