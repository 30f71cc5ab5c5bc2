/**
 * Python's `float(x)` on a parsed JSON value, as `_clamp_weight` uses it
 * (nodal/backend.py:103-106): booleans and ints convert, floats pass through,
 * strings are parsed, and everything else raises.
 */
module PyFloat {
  import opened Wrappers
  import opened Text
  import opened Json

  /**
   * 2^1024 - 2^970: ints of at least this magnitude round to 2^1024, beyond
   * the largest binary64 value, and `float(i)` raises OverflowError.
   */
  const OverflowBound: int := 179769313486231580793728971405303415079934132710037826936173778980444968292764750946649017977587207096330286416692887910946555547851940402630657488671505820681908902000708383676273854845817711531764475730270069855571366959622842914819860834936475292719074168444365510704342711559699508093042880177904174497792

  /** The mantissa of a decimal literal: digits ["." [digits]] or "." digits. */
  function ParseMantissa(s: string): Option<real> {
    var k := FindFirst(s, '.');
    if k == -1 then
      if s != [] && AllDigits(s) then Some(DigitsValue(s) as real) else None
    else
      var whole, frac := s[..k], s[k + 1..];
      if AllDigits(whole) && AllDigits(frac) && |whole| + |frac| > 0 then
        assert AllDigits(whole + frac) by {
          assert forall i :: 0 <= i < |whole + frac| ==>
            (whole + frac)[i] == if i < |whole| then whole[i] else frac[i - |whole|];
        }
        Some(DigitsValue(whole + frac) as real / Pow10(|frac|) as real)
      else None
  }

  /** The text after an optional leading sign. */
  function Unsigned(s: string): string {
    if s != [] && (s[0] == '+' || s[0] == '-') then s[1..] else s
  }

  /** The exponent of a decimal literal: an optional sign and at least one digit. */
  function ParseExponent(s: string): Option<int> {
    var neg := s != [] && s[0] == '-';
    var digits := Unsigned(s);
    if digits != [] && AllDigits(digits) then
      Some(if neg then -(DigitsValue(digits) as int) else DigitsValue(digits))
    else None
  }

  function Scale(v: real, e: int): real {
    if e >= 0 then v * Pow10(e) as real else v / Pow10(-e) as real
  }

  /** An unsigned decimal literal with an optional exponent introduced by e or E. */
  function ParseUnsigned(s: string): Option<real> {
    var k := FindFirst(LowerAscii(s), 'e');
    if k == -1 then ParseMantissa(s)
    else
      match (ParseMantissa(s[..k]), ParseExponent(s[k + 1..]))
      case (Some(m), Some(x)) => Some(Scale(m, x))
      case _ => None
  }

  /**
   * `float(s)` for a str: surrounding white space is ignored, then an optional
   * sign and either "inf", "infinity", "nan" (any case) or a decimal literal.
   * None stands for the ValueError Python raises.
   */
  function ParseFloatText(s: string): (r: Option<Float>)
    ensures Strip(s) == [] ==> r.None?
    ensures r.Some? && r.value.Finite? ==> exists i :: 0 <= i < |Strip(s)| && IsDigit(Strip(s)[i])
  {
    var t := Strip(s);
    if t == [] then
      assert ParseUnsigned(t) == None by { FindFirstNone(LowerAscii(t), 'e'); FindFirstNone(t, '.'); }
      None
    else
      var r := ParseStripped(t);
      if r.Some? && r.value.Finite? then
        StrippedHasDigit(t);
        r
      else r
  }

  /** `float(t)` once the surrounding white space is gone. */
  function ParseStripped(t: string): Option<Float> {
    var neg := t != [] && t[0] == '-';
    var body := Unsigned(t);
    var word := LowerAscii(body);
    if word == "inf" || word == "infinity" then Some(if neg then NegInf else PosInf)
    else if word == "nan" then Some(NaN)
    else
      match ParseUnsigned(body)
      case None => None
      case Some(v) => Some(Finite(if neg then -v else v))
  }

  /**
   * `float(x)`. None stands for the exception it raises: TypeError for None,
   * lists and dicts, ValueError for unparsable text, OverflowError for huge ints.
   */
  function ToFloat(j: Json): (r: Option<Float>)
    ensures r.None? <==>
      j.JNull? || j.JArr? || j.JObj? ||
      (j.JInt? && !(-OverflowBound < j.i < OverflowBound)) ||
      (j.JStr? && ParseFloatText(j.s).None?)
    ensures j.JFloat? ==> r == Some(j.f)
    ensures (j.JInt? || j.JBool?) && r.Some? ==> r.value.Finite?
    ensures j.JInt? && r.Some? ==> r.value.r == j.i as real
  {
    match j
    case JBool(b) => Some(Finite(if b then 1.0 else 0.0))
    case JInt(i) => if -OverflowBound < i < OverflowBound then Some(Finite(i as real)) else None
    case JFloat(f) => Some(f)
    case JStr(s) => ParseFloatText(s)
    case _ => None
  }

  /** A character that can occur in a decimal literal: a digit, the point, a sign or an exponent marker. */
  predicate NumeralChar(c: char) {
    IsDigit(c) || c == '.' || c == '+' || c == '-' || c == 'e' || c == 'E'
  }

  /**
   * The ValueError path: text that, once stripped, holds a character no
   * decimal literal has, and whose unsigned part is not "inf", "infinity" or
   * "nan" in any case, does not convert.
   */
  lemma ToFloatRejectsText(s: string, i: nat)
    requires i < |Strip(s)| && !NumeralChar(Strip(s)[i])
    requires var word := LowerAscii(Unsigned(Strip(s))); word != "inf" && word != "infinity" && word != "nan"
    ensures ToFloat(JStr(s)) == None
  {
    var t := Strip(s);
    var body := Unsigned(t);
    var at := if body == t then i else i - 1;
    assert at < |body| && body[at] == t[i];
    UnsignedRejects(body, at);
  }

  /** "abc", the example of a non-numeric weight, does not convert. */
  lemma ToFloatRejectsWord()
    ensures ToFloat(JStr("abc")) == None
  {
    StripNoop("abc");
    assert Unsigned("abc") == "abc";
    var w := LowerAscii("abc");
    assert w == "abc";
    assert w != "inf" && w != "infinity" && w != "nan" by { assert w[0] == 'a'; }
    ToFloatRejectsText("abc", 0);
  }

  lemma {:induction false} LowerAsciiAt(s: string, i: nat)
    requires i < |s|
    ensures LowerAscii(s)[i] == if 'A' <= s[i] <= 'Z' then (s[i] as int + 32) as char else s[i]
  {
    if i > 0 {
      LowerAsciiAt(s[1..], i - 1);
    }
  }

  lemma MantissaRejects(s: string, i: nat)
    requires i < |s| && !NumeralChar(s[i])
    ensures ParseMantissa(s) == None
  {
    var k := FindFirst(s, '.');
    if k != -1 {
      if i < k {
        assert s[..k][i] == s[i];
      } else {
        assert s[k + 1..][i - k - 1] == s[i];
      }
    }
  }

  lemma ExponentRejects(s: string, i: nat)
    requires i < |s| && !NumeralChar(s[i])
    ensures ParseExponent(s) == None
  {
    if Unsigned(s) != s {
      assert Unsigned(s)[i - 1] == s[i];
    }
  }

  lemma UnsignedRejects(s: string, i: nat)
    requires i < |s| && !NumeralChar(s[i])
    ensures ParseUnsigned(s) == None
  {
    var k := FindFirst(LowerAscii(s), 'e');
    if k == -1 {
      MantissaRejects(s, i);
    } else {
      LowerAsciiAt(s, k);
      if i < k {
        assert s[..k][i] == s[i];
        MantissaRejects(s[..k], i);
      } else {
        assert s[k + 1..][i - k - 1] == s[i];
        ExponentRejects(s[k + 1..], i - k - 1);
      }
    }
  }

  lemma MantissaHasDigit(s: string)
    requires ParseMantissa(s).Some?
    ensures exists i :: 0 <= i < |s| && IsDigit(s[i])
  {
    var k := FindFirst(s, '.');
    if k == -1 {
      assert IsDigit(s[0]);
    } else if k > 0 {
      assert IsDigit(s[..k][0]);
      assert s[0] == s[..k][0];
    } else {
      assert IsDigit(s[k + 1..][0]);
      assert s[k + 1] == s[k + 1..][0];
    }
  }

  lemma StrippedHasDigit(t: string)
    requires ParseStripped(t).Some? && ParseStripped(t).value.Finite?
    ensures exists i :: 0 <= i < |t| && IsDigit(t[i])
  {
    var body := Unsigned(t);
    assert ParseUnsigned(body).Some?;
    var k := FindFirst(LowerAscii(body), 'e');
    var mantissa := if k == -1 then body else body[..k];
    MantissaHasDigit(mantissa);
    var i :| 0 <= i < |mantissa| && IsDigit(mantissa[i]);
    assert mantissa[i] == body[i];
    if body != t {
      assert body[i] == t[i + 1];
    }
  }

  /** Text whose stripped form starts with a digit is read as an unsigned decimal literal. */
  lemma ParseFloatTextDecimal(s: string, v: real)
    requires Strip(s) != [] && IsDigit(Strip(s)[0])
    requires ParseUnsigned(Strip(s)) == Some(v)
    ensures ParseFloatText(s) == Some(Finite(v))
  {
    DecimalStripped(Strip(s), v);
  }

  lemma DecimalStripped(t: string, v: real)
    requires t != [] && IsDigit(t[0]) && ParseUnsigned(t) == Some(v)
    ensures ParseStripped(t) == Some(Finite(v))
  {
    assert t[0] != '+' && t[0] != '-';
    var w := LowerAscii(t);
    assert w[0] == t[0] by { assert w == [t[0]] + LowerAscii(t[1..]); }
    assert w != "inf" by { assert "inf"[0] == 'i'; }
    assert w != "infinity" by { assert "infinity"[0] == 'i'; }
    assert w != "nan" by { assert "nan"[0] == 'n'; }
  }
}
