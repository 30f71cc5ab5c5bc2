/**
 * The raw-output sanitiser `_extract_json_text` (nodal/backend.py:111-121):
 * it trims the language model's answer, removes a surrounding markdown code
 * fence, and cuts the text from the first "{" to the last "}".
 */
module Sanitizer {
  import opened Wrappers
  import opened Text

  const Fence: string := "```"

  /** The first index at or after i that does not hold a character from [a-zA-Z0-9] (or |s|). */
  function SkipAlnum(s: string, i: nat): (j: nat)
    requires i <= |s|
    ensures i <= j <= |s| && (j < |s| ==> !IsAsciiAlnum(s[j]))
    ensures forall k :: i <= k < j ==> IsAsciiAlnum(s[k])
    decreases |s| - i
  {
    if i < |s| && IsAsciiAlnum(s[i]) then SkipAlnum(s, i + 1) else i
  }

  /**
   * `re.sub(r"^```[a-zA-Z0-9]*\s*", "", s)` on text that starts with a fence:
   * the fence, the language tag after it and the white space after the tag go.
   */
  function DropOpeningFence(s: string): string
    requires StartsWith(s, Fence)
  {
    s[SkipSpace(s, SkipAlnum(s, |Fence|))..]
  }

  /**
   * `re.sub(r"\s*```$", "", t).strip()`. The text is a suffix of stripped
   * text, so it never ends in a newline and `$` only matches at its very end.
   */
  function DropClosingFence(t: string): string {
    if EndsWith(t, Fence) then Strip(t[..|t| - |Fence|]) else Strip(t)
  }

  /** The text after line 112's trim and the fence removal of lines 114-116. */
  function Unfenced(raw: string): string {
    var s := Strip(raw);
    if StartsWith(s, Fence) then DropClosingFence(DropOpeningFence(s)) else s
  }

  /** Lines 117-120: the text from the first "{" to the last "}", when the last follows the first. */
  function CutObject(s: string): string {
    var start, end := FindFirst(s, '{'), FindLast(s, '}');
    if start != -1 && end != -1 && end > start
    then Span(s, start, end)
    else s
  }

  /** `s[start:end+1].strip()` */
  function Span(s: string, start: nat, end: nat): string
    requires start <= end < |s|
  {
    Strip(s[start..end + 1])
  }

  /** `_extract_json_text(raw)`; a missing response text is the empty string. */
  function ExtractJsonText(raw: string): (r: string)
    ensures raw == "" ==> r == ""
  {
    if raw == "" then "" else CutObject(Unfenced(raw))
  }

  /** Text that opens with "{" and closes with "}". */
  predicate Braced(b: string) {
    |b| >= 2 && b[0] == '{' && b[|b| - 1] == '}'
  }

  lemma {:induction false} CutAt(u: string, i: nat, j: nat)
    requires i < j < |u| && u[i] == '{' && u[j] == '}' &&
      (forall k :: 0 <= k < i ==> u[k] != '{') && (forall k :: j < k < |u| ==> u[k] != '}')
    ensures CutObject(u) == u[i..j + 1]
  {
    FindFirstAt(u, '{', i);
    FindLastAt(u, '}', j);
    CutFound(u, i, j);
    var b := u[i..j + 1];
    assert b[0] == '{' && b[|b| - 1] == '}';
    StripBraced(b);
  }

  lemma CutFound(u: string, i: nat, j: nat)
    requires FindFirst(u, '{') == i && FindLast(u, '}') == j && i < j
    ensures CutObject(u) == Span(u, i, j)
  {
  }

  lemma StripBraced(b: string)
    requires Braced(b)
    ensures Strip(b) == b
  {
    StripNoop(b);
  }

  /**
   * The cut: when, after trimming and fence removal, the first "{" stands at i
   * and the last "}" at j > i, the result is exactly the text from i to j.
   */
  lemma {:induction false} ExtractCutsOutermostBraces(raw: string, i: nat, j: nat)
    requires raw != ""
    requires var u := Unfenced(raw);
      i < j < |u| && u[i] == '{' && u[j] == '}' &&
      (forall k :: 0 <= k < i ==> u[k] != '{') && (forall k :: j < k < |u| ==> u[k] != '}')
    ensures ExtractJsonText(raw) == Unfenced(raw)[i..j + 1]
    ensures Braced(ExtractJsonText(raw))
  {
    var u := Unfenced(raw);
    CutAt(u, i, j);
    BracedSlice(u, i, j);
    assert ExtractJsonText(raw) == CutObject(u);
  }

  lemma BracedSlice(u: string, i: nat, j: nat)
    requires i < j < |u| && u[i] == '{' && u[j] == '}'
    ensures Braced(u[i..j + 1])
  {
  }

  /**
   * No cut: when no "{" is followed by a later "}", the trimmed, unfenced text
   * is returned unchanged.
   */
  lemma ExtractKeepsTextWithoutObject(raw: string)
    requires var u := Unfenced(raw);
      forall i, j :: 0 <= i < j < |u| && u[i] == '{' ==> u[j] != '}'
    ensures ExtractJsonText(raw) == if raw == "" then "" else Unfenced(raw)
  {
  }

  lemma {:induction false} SkipAlnumAt(s: string, i: nat, j: nat)
    requires i <= j <= |s| && (forall k :: i <= k < j ==> IsAsciiAlnum(s[k])) && (j < |s| ==> !IsAsciiAlnum(s[j]))
    ensures SkipAlnum(s, i) == j
    decreases j - i
  {
    if i < j {
      SkipAlnumAt(s, i + 1, j);
    }
  }

  /**
   * A fenced answer: the opening fence with a language tag such as "json",
   * white space, a braced body, white space and the closing fence. Trimming
   * and fence removal leave exactly the body.
   */
  lemma FencedUnfenced(tag: string, ws1: string, b: string, ws2: string)
    requires forall k :: 0 <= k < |tag| ==> IsAsciiAlnum(tag[k])
    requires AllSpace(ws1) && AllSpace(ws2) && Braced(b)
    ensures Unfenced(Fence + tag + ws1 + b + ws2 + Fence) == b
  {
    var tail := b + ws2 + Fence;
    var raw := Fence + tag + ws1 + tail;
    assert raw == Fence + tag + ws1 + b + ws2 + Fence;
    assert raw[0] == '`' && raw[|raw| - 1] == '`';
    StripNoop(raw);
    OpeningFenceDropped(tag, ws1, tail);
    ClosingFenceDropped(b, ws2);
  }

  /** The closing fence and the white space before it are removed together. */
  lemma ClosingFenceDropped(b: string, ws: string)
    requires Braced(b) && AllSpace(ws)
    ensures DropClosingFence(b + ws + Fence) == b
  {
    var tail := b + ws + Fence;
    assert EndsWith(tail, Fence) && tail[..|tail| - |Fence|] == b + ws;
    TrailingSpaceDropped(b, ws);
  }

  /** The opening fence, its language tag and the white space after it are removed together. */
  lemma OpeningFenceDropped(tag: string, ws: string, tail: string)
    requires forall k :: 0 <= k < |tag| ==> IsAsciiAlnum(tag[k])
    requires AllSpace(ws) && tail != [] && !IsSpace(tail[0]) && !IsAsciiAlnum(tail[0])
    ensures StartsWith(Fence + tag + ws + tail, Fence)
    ensures DropOpeningFence(Fence + tag + ws + tail) == tail
  {
    var raw := Fence + tag + ws + tail;
    var n1, n2 := |Fence| + |tag|, |Fence| + |tag| + |ws|;
    assert raw[..3] == Fence;
    forall k | |Fence| <= k < n1 ensures IsAsciiAlnum(raw[k]) {
      assert raw[k] == tag[k - |Fence|];
    }
    forall k | n1 <= k < n2 ensures IsSpace(raw[k]) {
      assert raw[k] == ws[k - n1];
    }
    assert raw[n2] == tail[0];
    SkipAlnumAt(raw, |Fence|, n1);
    SkipSpaceAt(raw, n1, n2);
    assert raw[n2..] == tail;
  }

  lemma TrailingSpaceDropped(b: string, ws: string)
    requires Braced(b) && AllSpace(ws)
    ensures Strip(b + ws) == b
  {
    var bw := b + ws;
    forall k | |b| <= k < |bw| ensures IsSpace(bw[k]) {
      assert bw[k] == ws[k - |b|];
    }
    assert bw[0] == '{' && bw[|b| - 1] == '}';
    StripAt(bw, 0, |b|);
    assert bw[0..|b|] == b;
  }

  /**
   * The whole sanitiser on a fenced answer: it returns exactly the body.
   */
  lemma {:induction false} ExtractFencedBlock(tag: string, ws1: string, b: string, ws2: string)
    requires forall k :: 0 <= k < |tag| ==> IsAsciiAlnum(tag[k])
    requires AllSpace(ws1) && AllSpace(ws2) && Braced(b)
    ensures ExtractJsonText(Fence + tag + ws1 + b + ws2 + Fence) == b
  {
    var raw := Fence + tag + ws1 + b + ws2 + Fence;
    assert raw != "" by { assert |raw| >= |Fence|; }
    FencedUnfenced(tag, ws1, b, ws2);
    ExtractIsCut(raw);
    CutBraced(b);
  }

  /**
   * An answer with prose around the object (the prose may itself hold a
   * fence, as long as the trimmed answer does not start with one): when the
   * text before the object has no "{" and the text after it has no "}", the
   * sanitiser returns exactly the object.
   */
  lemma {:induction false} ExtractObjectFromProse(p1: string, b: string, p2: string)
    requires forall k :: 0 <= k < |p1| ==> p1[k] != '{'
    requires forall k :: 0 <= k < |p2| ==> p2[k] != '}'
    requires LStrip(p1) == [] || LStrip(p1)[0] != '`'
    requires Braced(b)
    ensures ExtractJsonText(p1 + b + p2) == b
  {
    var raw := p1 + b + p2;
    assert raw != "" by { assert |raw| >= |b|; }
    ExtractIsCut(raw);
    ProseStripped(p1, b, p2);
    ProseUnfenced(p1, b, p2);
    CutProse(p1, b, p2, SkipSpace(raw, 0), TrimEnd(raw, |raw|));
  }

  /** Trimming prose-wrapped text stops inside the prose on both sides. */
  lemma ProseStripped(p1: string, b: string, p2: string)
    requires Braced(b)
    ensures var raw := p1 + b + p2;
      var a, e := SkipSpace(raw, 0), TrimEnd(raw, |raw|);
      a <= |p1| && |p1| + |b| <= e <= |raw| && Strip(raw) == raw[a..e]
  {
    var raw := p1 + b + p2;
    var m := |p1| + |b|;
    assert raw[|p1|] == '{' && raw[m - 1] == '}';
    StripSlice(raw, |p1|);
    StripSlice(raw, m - 1);
  }

  /** Prose-wrapped text whose trimmed form does not open with a fence is only trimmed. */
  lemma ProseUnfenced(p1: string, b: string, p2: string)
    requires LStrip(p1) == [] || LStrip(p1)[0] != '`'
    requires Braced(b)
    ensures Unfenced(p1 + b + p2) == Strip(p1 + b + p2)
  {
    var raw := p1 + b + p2;
    ProseStripped(p1, b, p2);
    var a, e := SkipSpace(raw, 0), TrimEnd(raw, |raw|);
    var u := raw[a..e];
    assert !StartsWith(u, Fence) by {
      if |u| >= 3 {
        assert u[..3][0] == u[0] == raw[a];
        if a < |p1| {
          assert raw == p1 + (b + p2);
          FirstOfProse(p1, b + p2, a);
          assert raw[a] == p1[a];
        }
      }
    }
  }

  /** Where the stripped text starts inside the prose, it starts where lstrip() of the prose does. */
  lemma FirstOfProse(p: string, rest: string, a: nat)
    requires a < |p| && a == SkipSpace(p + rest, 0)
    ensures LStrip(p) != [] && LStrip(p)[0] == p[a]
  {
    var s := p + rest;
    forall k | 0 <= k < a ensures IsSpace(p[k]) {
      assert s[k] == p[k];
    }
    assert s[a] == p[a];
    SkipSpaceAt(p, 0, a);
  }

  /** The cut of the stripped prose-wrapped text is the object itself. */
  lemma CutProse(p1: string, b: string, p2: string, a: nat, e: nat)
    requires forall k :: 0 <= k < |p1| ==> p1[k] != '{'
    requires forall k :: 0 <= k < |p2| ==> p2[k] != '}'
    requires Braced(b) && a <= |p1| && |p1| + |b| <= e <= |p1| + |b| + |p2|
    ensures CutObject((p1 + b + p2)[a..e]) == b
  {
    var raw := p1 + b + p2;
    var m := |p1| + |b|;
    var u := raw[a..e];
    var i, j := |p1| - a, m - 1 - a;
    assert u[i] == raw[|p1|] == '{' && u[j] == raw[m - 1] == '}';
    forall k | 0 <= k < i ensures u[k] != '{' {
      assert u[k] == p1[a + k];
    }
    forall k | j < k < |u| ensures u[k] != '}' {
      assert u[k] == p2[a + k - m];
    }
    CutAt(u, i, j);
    MiddleOfCut(p1, b, p2, a, e);
  }

  lemma MiddleOfCut(p1: string, b: string, p2: string, a: nat, e: nat)
    requires a <= |p1| && |p1| + |b| <= e <= |p1| + |b| + |p2| && b != []
    ensures (p1 + b + p2)[a..e][|p1| - a..|p1| + |b| - a] == b
  {
    var raw := p1 + b + p2;
    var u := raw[a..e];
    forall k | 0 <= k < |b| ensures u[|p1| - a..|p1| + |b| - a][k] == b[k] {
      assert u[|p1| - a + k] == raw[|p1| + k];
    }
  }

  /** Braced text is a fixed point of the sanitiser. */
  lemma {:induction false} ExtractFixesBraced(b: string)
    requires Braced(b)
    ensures ExtractJsonText(b) == b
  {
    UnfencedBraced(b);
    ExtractIsCut(b);
    CutBraced(b);
  }

  /** Braced text is neither trimmed nor unfenced. */
  lemma UnfencedBraced(b: string)
    requires Braced(b)
    ensures Unfenced(b) == b
  {
    StripBraced(b);
    assert !StartsWith(b, Fence) by {
      if |b| >= 3 { assert b[..3][0] == b[0]; }
    }
  }

  /** Braced text is its own cut. */
  lemma CutBraced(b: string)
    requires Braced(b)
    ensures CutObject(b) == b
  {
    var j := |b| - 1;
    FindFirstAt(b, '{', 0);
    FindLastAt(b, '}', j);
    CutFound(b, 0, j);
    assert b[0..j + 1] == b;
    StripBraced(b);
  }

  /** A non-empty answer is the cut of its trimmed, unfenced text. */
  lemma ExtractIsCut(raw: string)
    requires raw != ""
    ensures ExtractJsonText(raw) == CutObject(Unfenced(raw))
  {
  }

  /** Re-applying the sanitiser to a result that it cut out changes nothing. */
  lemma ExtractIdempotent(raw: string)
    requires Braced(ExtractJsonText(raw))
    ensures ExtractJsonText(ExtractJsonText(raw)) == ExtractJsonText(raw)
  {
    ExtractFixesBraced(ExtractJsonText(raw));
  }
}
