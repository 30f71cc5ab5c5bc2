/**
 * The parsed JSON value that `json.loads` hands to the normaliser, and the few
 * Python built-ins the normaliser applies to such values: `dict.get`, truth
 * testing (`if not x`) and `str(x)`.
 */
module Json {

  /** A Python float. Values are exact reals: rounding to binary64 is not modelled. */
  datatype Float = Finite(r: real) | PosInf | NegInf | NaN

  /**
   * A JSON value as Python's json module builds it: null, booleans, ints, floats
   * (json.loads also accepts NaN and Infinity), strings, lists and dicts.
   */
  datatype Json =
    | JNull
    | JBool(b: bool)
    | JInt(i: int)
    | JFloat(f: Float)
    | JStr(s: string)
    | JArr(items: seq<Json>)
    | JObj(fields: map<string, Json>)

  /** `d.get(key, default)` on a dict. */
  function Get(fields: map<string, Json>, key: string, default: Json): Json {
    if key in fields then fields[key] else default
  }

  /** Python truth testing: None, False, zero, "" and empty containers are false; NaN is true. */
  predicate Truthy(j: Json) {
    match j
    case JNull => false
    case JBool(b) => b
    case JInt(i) => i != 0
    case JFloat(f) => !(f.Finite? && f.r == 0.0)
    case JStr(s) => s != ""
    case JArr(items) => items != []
    case JObj(fields) => fields != map[]
  }

  function DigitChar(d: nat): char
    requires d < 10
  {
    ('0' as int + d) as char
  }

  /** Decimal digits of a natural number, most significant first, without leading zeros. */
  function NatToString(n: nat): (r: string)
    ensures r != []
    ensures forall k :: 0 <= k < |r| ==> '0' <= r[k] <= '9'
  {
    if n < 10 then [DigitChar(n)] else NatToString(n / 10) + [DigitChar(n % 10)]
  }

  /** `str(i)` for a Python int. */
  function IntToString(i: int): string {
    if i < 0 then "-" + NatToString(-i) else NatToString(i)
  }

  /**
   * `str(x)`. Exact for None, booleans, ints, strings, infinities, NaN and the
   * integral floats that Python prints in positional notation (below 10^16).
   * Python's repr of other floats and of lists and dicts is not modelled: they
   * render as fixed markers.
   */
  function PyStr(j: Json): string {
    match j
    case JNull => "None"
    case JBool(b) => if b then "True" else "False"
    case JInt(i) => IntToString(i)
    case JStr(s) => s
    case JFloat(f) =>
      (match f
       case PosInf => "inf"
       case NegInf => "-inf"
       case NaN => "nan"
       case Finite(r) =>
         if r.Floor as real == r && -10000000000000000 < r.Floor < 10000000000000000
         then IntToString(r.Floor) + ".0"
         else "<float>")
    case JArr(_) => "<list>"
    case JObj(_) => "<dict>"
  }

  /** Distinct numbers print differently, so generated names such as "e1", "e2" never clash. */
  lemma {:induction false} NatToStringInjective(m: nat, n: nat)
    requires NatToString(m) == NatToString(n)
    ensures m == n
  {
    if m >= 10 && n >= 10 {
      var a, b := NatToString(m), NatToString(n);
      assert a[..|a| - 1] == NatToString(m / 10);
      assert b[..|b| - 1] == NatToString(n / 10);
      NatToStringInjective(m / 10, n / 10);
      assert a[|a| - 1] == DigitChar(m % 10);
      assert b[|b| - 1] == DigitChar(n % 10);
    }
  }
  /** The falsy values are exactly None, False, 0, 0.0, "", [] and {}. */
  lemma FalsyValues(j: Json)
    ensures !Truthy(j) <==> j in {JNull, JBool(false), JInt(0), JFloat(Finite(0.0)), JStr(""), JArr([]), JObj(map[])}
  {
  }

  /**
   * `str()` keeps a string and prints an int as its decimal digits, so two
   * different ints never give the same id; an integral float gets ".0", so 1
   * and 1.0 give different ids.
   */
  lemma PyStrIds(i: int, s: string)
    ensures PyStr(JStr(s)) == s
    ensures PyStr(JInt(i)) == IntToString(i)
    ensures -10000000000000000 < i < 10000000000000000 ==> PyStr(JFloat(Finite(i as real))) == PyStr(JInt(i)) + ".0"
  {
    assert (i as real).Floor == i;
  }

  /** Different ints print differently. */
  lemma PyStrIntInjective(a: int, b: int)
    requires PyStr(JInt(a)) == PyStr(JInt(b))
    ensures a == b
  {
    var x, y := PyStr(JInt(a)), PyStr(JInt(b));
    IntToStringSign(a);
    IntToStringSign(b);
    if a < 0 {
      assert x[1..] == NatToString(-a) && y[1..] == NatToString(-b);
      NatToStringInjective(-a, -b);
    } else {
      NatToStringInjective(a, b);
    }
  }

  /** `str(i)` starts with a minus sign exactly when i is negative. */
  lemma IntToStringSign(i: int)
    ensures IntToString(i) != [] && (IntToString(i)[0] == '-' <==> i < 0)
  {
    if i >= 0 {
      assert '0' <= NatToString(i)[0] <= '9';
    }
  }
}
