/** JavaScript values as the application handles them (parameter values,
    parsed JSON, manifest documents), with the two coercions it uses:
    `Boolean(v)` (truthiness) and `Number(v)`. Numbers are exact reals plus
    NaN and the two infinities; double-precision rounding is not modelled. */
module JsValues {
  import opened Options
  import opened JsStrings

  datatype Number = Finite(r: real) | PosInfinity | NegInfinity | NaN

  datatype JsValue =
    | Undefined
    | Null
    | Bool(b: bool)
    | Num(n: Number)
    | Str(s: string)
    | Arr(items: seq<JsValue>)
    | Obj(entries: seq<(string, JsValue)>)

  /** `a < b` on numbers; every comparison with NaN is false. */
  predicate Less(a: Number, b: Number)
  {
    match (a, b)
    case (Finite(x), Finite(y)) => x < y
    case (NegInfinity, Finite(_)) => true
    case (NegInfinity, PosInfinity) => true
    case (Finite(_), PosInfinity) => true
    case _ => false
  }

  /** `Math.min(a, b)`: NaN if either is NaN. */
  function Min(a: Number, b: Number): (r: Number)
    ensures a.NaN? || b.NaN? <==> r.NaN?
    ensures !r.NaN? ==> !Less(a, r) && !Less(b, r) && (r == a || r == b)
  {
    if a.NaN? || b.NaN? then NaN else if Less(b, a) then b else a
  }

  /** `Math.max(a, b)`: NaN if either is NaN. */
  function Max(a: Number, b: Number): (r: Number)
    ensures a.NaN? || b.NaN? <==> r.NaN?
    ensures !r.NaN? ==> !Less(r, a) && !Less(r, b) && (r == a || r == b)
  {
    if a.NaN? || b.NaN? then NaN else if Less(a, b) then b else a
  }

  /** `Boolean(v)`: false exactly for undefined, null, false, 0, NaN and "". */
  predicate Truthy(v: JsValue)
  {
    match v
    case Undefined => false
    case Null => false
    case Bool(b) => b
    case Num(n) => !(n.NaN? || n == Finite(0.0))
    case Str(s) => s != ""
    case Arr(_) => true
    case Obj(_) => true
  }

  /** `Number(v)`. A one-element array converts as its element's string form
      would; any other array but the empty one has a comma in its string
      form and is NaN; a plain object's string form is "[object Object]". */
  function ToNumber(v: JsValue): (r: Number)
    ensures v.Num? ==> r == v.n
    ensures v.Num? || v.Bool? || v.Null? ==> (Truthy(v) <==> !r.NaN? && r != Finite(0.0))
    ensures v == Null || v == Str("") || v == Arr([]) ==> r == Finite(0.0)
    ensures v.Undefined? || v.Obj? || (v.Arr? && |v.items| > 1) ==> r.NaN?
    ensures v.Arr? && |v.items| == 1 && v.items[0].Num? ==> r == v.items[0].n
    ensures v.Arr? && |v.items| == 1 && v.items[0].Str? ==> r == StringToNumber(v.items[0].s)
  {
    match v
    case Undefined => NaN
    case Null => Finite(0.0)
    case Bool(b) => Finite(if b then 1.0 else 0.0)
    case Num(n) => n
    case Str(s) => StringToNumber(s)
    case Arr(items) =>
      if |items| == 0 then Finite(0.0)
      else if |items| > 1 then NaN
      else (match items[0]
            case Undefined => Finite(0.0)
            case Null => Finite(0.0)
            case Bool(_) => NaN
            case _ => ToNumber(items[0]))
    case Obj(_) => NaN
  }

  /** `Number(s)` for a string: surrounding white space is ignored, the empty
      string is 0, otherwise a signed decimal literal or Infinity. */
  function StringToNumber(s: string): Number
  {
    var t := Trim(s);
    if t == "" then Finite(0.0)
    else if t[0] == '-' then Negate(UnsignedToNumber(t[1..]))
    else if t[0] == '+' then UnsignedToNumber(t[1..])
    else UnsignedToNumber(t)
  }

  function Negate(n: Number): Number
  {
    match n
    case Finite(x) => Finite(-x)
    case PosInfinity => NegInfinity
    case NegInfinity => PosInfinity
    case NaN => NaN
  }

  function UnsignedToNumber(u: string): Number
  {
    if u == "Infinity" then PosInfinity
    else match ParseDecimal(u)
      case Some(x) => Finite(x)
      case None => NaN
  }

  /** Index of the first occurrence of a character satisfying `p`, or `|s|`. */
  function IndexWhere(s: string, p: char -> bool): (k: nat)
    ensures k <= |s|
    ensures forall i :: 0 <= i < k ==> !p(s[i])
    ensures k < |s| ==> p(s[k])
  {
    if s == [] then 0 else if p(s[0]) then 0 else 1 + IndexWhere(s[1..], p)
  }

  predicate IsExponentMark(c: char) { c == 'e' || c == 'E' }

  predicate IsPoint(c: char) { c == '.' }

  /** An unsigned decimal literal `digits [. digits] [(e|E) [+-] digits]`
      (`.5` and `5.` included), read exactly. */
  function ParseDecimal(u: string): Option<real>
  {
    var e := IndexWhere(u, IsExponentMark);
    var mantissa := ParseMantissa(u[..e]);
    var exponent := if e == |u| then Some(0) else ParseExponent(u[e + 1..]);
    if mantissa.None? || exponent.None? then None
    else Some(mantissa.value * Scale(exponent.value))
  }

  function ParseMantissa(m: string): Option<real>
  {
    var d := IndexWhere(m, IsPoint);
    var whole := m[..d];
    var frac := if d == |m| then "" else m[d + 1..];
    if AllDigits(whole) && AllDigits(frac) && |whole| + |frac| > 0 then
      Some(DecimalValue(whole, frac))
    else None
  }

  /** The value of the digits `whole`.`frac`. */
  function DecimalValue(whole: string, frac: string): real
    requires AllDigits(whole) && AllDigits(frac)
  {
    DigitsValue(whole) as real + DigitsValue(frac) as real / Pow10(|frac|) as real
  }

  function ParseExponent(x: string): Option<int>
  {
    var sign := if x != [] && x[0] == '-' then -1 else 1;
    var digits := if x != [] && (x[0] == '-' || x[0] == '+') then x[1..] else x;
    if digits != [] && AllDigits(digits) then Some(sign * DigitsValue(digits)) else None
  }

  /** `10^k` as a real, for any integer `k`. */
  function Scale(k: int): real
  {
    if k >= 0 then Pow10(k) as real else 1.0 / Pow10(-k) as real
  }

  /** `Number(String(n))` is `n` for every natural number: the decimal form
      the application prints reads back as the same number. */
  lemma NatStringToNumber(n: nat)
    ensures ToNumber(Str(NatToString(n))) == Finite(n as real)
  {
    var s := NatToString(n);
    NoSpaceInDigits(s);
    assert Trim(s) == s;
    assert s[0] != '-' && s[0] != '+';
    assert s != "Infinity" by { assert IsDigit(s[0]); }
    DigitsParse(s);
    NatToStringRoundTrip(n);
  }

  /** A non-empty run of digits reads as its decimal value. */
  lemma DigitsParse(s: string)
    requires s != [] && AllDigits(s)
    ensures ParseDecimal(s) == Some(DigitsValue(s) as real)
  {
    NoCharInDigits(s, 'e');
    NoCharInDigits(s, 'E');
    IndexWhereNone(s, IsExponentMark);
    assert s[..|s|] == s;
    MantissaOfDigits(s);
    assert Scale(0) == 1.0;
  }

  /** A run of digits without a point is a whole mantissa. */
  lemma MantissaOfDigits(s: string)
    requires s != [] && AllDigits(s)
    ensures ParseMantissa(s) == Some(DigitsValue(s) as real)
  {
    NoCharInDigits(s, '.');
    IndexWhereNone(s, IsPoint);
    MantissaWithoutPoint(s);
    WholeDecimal(s);
  }

  /** A mantissa with no decimal point is its whole part with an empty fraction. */
  lemma MantissaWithoutPoint(m: string)
    requires m != [] && AllDigits(m) && IndexWhere(m, IsPoint) == |m|
    ensures ParseMantissa(m) == Some(DecimalValue(m, ""))
  {
    assert m[..|m|] == m;
  }

  /** Digits with an empty fraction are worth their whole part. */
  lemma WholeDecimal(m: string)
    requires AllDigits(m)
    ensures DecimalValue(m, "") == DigitsValue(m) as real
  {
    assert DigitsValue("") == 0 && Pow10(0) == 1;
  }

  lemma NoSpaceInDigits(s: string)
    requires AllDigits(s)
    ensures TrimStart(s) == s && TrimEnd(s) == s
  {
  }

  lemma NoCharInDigits(s: string, c: char)
    requires AllDigits(s) && !IsDigit(c)
    ensures forall i :: 0 <= i < |s| ==> s[i] != c
  {
  }

  lemma IndexWhereNone(s: string, p: char -> bool)
    requires forall i :: 0 <= i < |s| ==> !p(s[i])
    ensures IndexWhere(s, p) == |s|
  {
  }
}
