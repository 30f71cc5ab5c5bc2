/**
 * The graph data as the front-end components see it: the same JSON-shaped
 * values, read with JavaScript's rules for property access, truthiness, `||`,
 * `String(x)`, `Number(x)`, the relational operators on numbers and the
 * SameValueZero equality behind `Set.prototype.has`.
 */
module JsValue {
  import opened Wrappers
  import opened Json
  import opened Text
  import StableSort

  /** A JavaScript value read out of the data: `undefined` (None) or a JSON-shaped value. */
  type JsVal = Option<Json>

  /** The exception a component throws, which unmounts it. */
  datatype JsError = TypeError

  /** Reading any property of these throws a TypeError. */
  predicate Nullish(v: JsVal) {
    v.None? || v.value.JNull?
  }

  /**
   * `v.key` on a value that is not null or undefined: an own property of an
   * object, else undefined. None of the keys the components read is a property
   * of arrays, strings, numbers or Object.prototype.
   */
  function Prop(v: Json, key: string): (r: JsVal)
    ensures r.Some? <==> v.JObj? && key in v.fields
    ensures r.Some? ==> r.value == v.fields[key]
  {
    if v.JObj? && key in v.fields then Some(v.fields[key]) else None
  }

  /** JavaScript truthiness: undefined, null, false, 0, NaN and "" are falsy; every array and object is truthy. */
  predicate JsTruthy(v: JsVal) {
    match v
    case None => false
    case Some(j) =>
      match j
      case JNull => false
      case JBool(b) => b
      case JInt(i) => i != 0
      case JFloat(f) => !f.NaN? && f != Finite(0.0)
      case JStr(s) => s != ""
      case JArr(_) => true
      case JObj(_) => true
  }

  /** `a || b`: a when it is truthy, else b. */
  function Or(a: JsVal, b: JsVal): (r: JsVal)
    ensures JsTruthy(r) <==> JsTruthy(a) || JsTruthy(b)
    ensures JsTruthy(a) ==> r == a
    ensures !JsTruthy(a) ==> r == b
  {
    if JsTruthy(a) then a else b
  }

  /**
   * `(v && v.key) ? v.key : fallback`, the components' way of reading an
   * optional setting: the property when v and the property are both truthy.
   */
  function Setting(v: JsVal, key: string, fallback: Json): (r: Json)
    ensures JsTruthy(v) && JsTruthy(Prop(v.value, key)) ==> Some(r) == Prop(v.value, key)
    ensures !(JsTruthy(v) && JsTruthy(Prop(v.value, key))) ==> r == fallback
    ensures JsTruthy(Some(fallback)) ==> JsTruthy(Some(r))
  {
    if JsTruthy(v) && JsTruthy(Prop(v.value, key)) then Prop(v.value, key).value else fallback
  }

  /** Numbers below this magnitude print in positional notation. */
  const PlainLimit: int := 1_000_000_000_000_000_000_000

  /**
   * `String(x)` for a number. Exact for NaN, the infinities and integral values
   * below 10^21; other numbers render as a fixed marker.
   */
  function NumberString(f: Float): string {
    match f
    case NaN => "NaN"
    case PosInf => "Infinity"
    case NegInf => "-Infinity"
    case Finite(r) =>
      if r.Floor as real == r && -PlainLimit < r.Floor < PlainLimit then IntToString(r.Floor) else "<number>"
  }

  /**
   * `String(x)`. Exact for primitives and plain objects; arrays (which
   * `String` joins with commas) render as a fixed marker.
   */
  function JsString(j: Json): string {
    match j
    case JNull => "null"
    case JBool(b) => if b then "true" else "false"
    case JInt(i) => NumberString(Finite(i as real))
    case JFloat(f) => NumberString(f)
    case JStr(s) => s
    case JArr(_) => "<array>"
    case JObj(_) => "[object Object]"
  }

  /**
   * `Number(s)` for a string: surrounding white space is ignored, the empty
   * string is 0, an optionally signed run of decimal digits is its value, and
   * "Infinity" (optionally signed) is infinite. Every other string is NaN here.
   */
  function StringNumber(s: string): Float {
    var t := JsTrim(s);
    if t == [] then Finite(0.0)
    else if AllDigits(t) then Finite(DigitsValue(t) as real)
    else if t[0] == '-' && |t| > 1 && AllDigits(t[1..]) then Finite(-(DigitsValue(t[1..]) as real))
    else if t[0] == '+' && |t| > 1 && AllDigits(t[1..]) then Finite(DigitsValue(t[1..]) as real)
    else if t == "Infinity" || t == "+Infinity" then PosInf
    else if t == "-Infinity" then NegInf
    else NaN
  }

  /** `Number(x)`, the conversion the relational operators apply to a value compared with a number. */
  function JsNumber(v: JsVal): Float {
    match v
    case None => NaN
    case Some(j) =>
      match j
      case JNull => Finite(0.0)
      case JBool(b) => Finite(if b then 1.0 else 0.0)
      case JInt(i) => Finite(i as real)
      case JFloat(f) => f
      case JStr(s) => StringNumber(s)
      case JArr(_) => NaN
      case JObj(_) => NaN
  }

  /** `a < b` on numbers: false as soon as either is NaN. */
  predicate NumLess(a: Float, b: Float) {
    !a.NaN? && !b.NaN? && StableSort.FloatLess(a, b)
  }

  /** `a <= b` on numbers: false as soon as either is NaN. */
  predicate NumAtMost(a: Float, b: Float) {
    !a.NaN? && !b.NaN? && !StableSort.FloatLess(b, a)
  }

  /** Apart from NaN, `<=` is `<` or equality, and `<=` chains. */
  lemma NumAtMostMeaning(a: Float, b: Float)
    ensures NumAtMost(a, b) <==> !a.NaN? && !b.NaN? && (NumLess(a, b) || a == b)
  {
  }

  lemma NumAtMostTransitive(a: Float, b: Float, c: Float)
    requires NumAtMost(a, b) && NumAtMost(b, c)
    ensures NumAtMost(a, c)
  {
  }

  /** If c1 <= c2 then anything greater than c2 is greater than c1. */
  lemma NumLessWeaken(c1: Float, c2: Float, x: Float)
    requires NumAtMost(c1, c2) && NumLess(c2, x)
    ensures NumLess(c1, x)
  {
  }

  /**
   * The values `Set.prototype.has` tells apart. SameValueZero compares
   * primitives by value (one number type, with NaN equal to itself and 0 equal
   * to -0); arrays and objects are keyed by their contents here.
   */
  datatype SetKey = KUndefined | KNull | KBool(b: bool) | KNum(f: Float) | KStr(s: string) | KRef(j: Json)

  function KeyOf(v: JsVal): (k: SetKey)
    ensures v.Some? && v.value.JInt? ==> k == KNum(Finite(v.value.i as real))
  {
    match v
    case None => KUndefined
    case Some(j) =>
      match j
      case JNull => KNull
      case JBool(b) => KBool(b)
      case JInt(i) => KNum(Finite(i as real))
      case JFloat(f) => KNum(f)
      case JStr(s) => KStr(s)
      case JArr(_) => KRef(j)
      case JObj(_) => KRef(j)
  }

  /** A number and a string never match, even when the string spells the number. */
  lemma KeyOfSeparatesTypes(i: int, s: string)
    ensures KeyOf(Some(JInt(i))) != KeyOf(Some(JStr(s)))
  {
  }

  /** The integer and the integral float of the same value are one set member. */
  lemma KeyOfNumbersByValue(i: int)
    ensures KeyOf(Some(JInt(i))) == KeyOf(Some(JFloat(Finite(i as real))))
  {
  }

  /** The digits NatToString writes read back as the same number. */
  lemma {:induction false} DigitsValueOfNatToString(n: nat)
    ensures AllDigits(NatToString(n))
    ensures DigitsValue(NatToString(n)) == n
  {
    var s := NatToString(n);
    if n >= 10 {
      DigitsValueOfNatToString(n / 10);
      assert s[..|s| - 1] == NatToString(n / 10);
    }
  }

  /** Integers print as their decimal digits. */
  lemma IntegerString(i: int)
    requires -PlainLimit < i < PlainLimit
    ensures JsString(JInt(i)) == IntToString(i)
  {
    assert (i as real).Floor == i;
  }

  /** `Number(String(i))` is i for every integer printed in positional notation. */
  lemma NumberOfString(i: int)
    requires -PlainLimit < i < PlainLimit
    ensures StringNumber(JsString(JInt(i))) == Finite(i as real)
  {
    IntegerString(i);
    var s := IntToString(i);
    JsTrimNoop(s);
    if i < 0 {
      DigitsValueOfNatToString(-i);
      assert s[1..] == NatToString(-i);
      assert !AllDigits(s) by { assert !IsDigit(s[0]); }
    } else {
      DigitsValueOfNatToString(i);
    }
  }
  /**
   * The falsy values are undefined, null, false, 0, NaN and "". Unlike in
   * Python, an empty array or object is truthy.
   */
  lemma JsFalsyValues(v: JsVal)
    ensures !JsTruthy(v) <==>
      v.None? || v.value in {JNull, JBool(false), JInt(0), JFloat(Finite(0.0)), JFloat(NaN), JStr("")}
    ensures JsTruthy(Some(JArr([]))) && !Truthy(JArr([]))
    ensures JsTruthy(Some(JObj(map[]))) && !Truthy(JObj(map[]))
  {
  }

  /**
   * `String()` keeps a string and prints an integer as Python's `str()` does,
   * but prints an integral float without ".0": in JavaScript 1 and 1.0 give
   * the same id.
   */
  lemma JsStringIds(i: int, s: string)
    requires -10000000000000000 < i < 10000000000000000
    ensures JsString(JStr(s)) == s
    ensures JsString(JInt(i)) == PyStr(JInt(i))
    ensures JsString(JFloat(Finite(i as real))) == JsString(JInt(i))
  {
    IntegerString(i);
    assert (i as real).Floor == i;
  }

  /**
   * `Number()` reads back what `String()` prints for an integer, and a
   * missing value is NaN while null is 0, so `undefined <= c` is false and
   * `null <= c` holds for every chapter c from 0 up.
   */
  lemma JsNumberOfValues(i: int)
    requires -PlainLimit < i < PlainLimit
    ensures JsNumber(Some(JStr(JsString(JInt(i))))) == JsNumber(Some(JInt(i)))
    ensures JsNumber(None).NaN? && JsNumber(Some(JNull)) == Finite(0.0)
  {
    NumberOfString(i);
  }
}
