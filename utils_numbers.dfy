/** The numeric and colour helpers of frontend/src/utils/index.ts: `clamp`,
    `hexToRgb`, `rgbToHex` and `formatDuration`. */
module UtilsNumbers {
  import opened Options
  import opened JsStrings
  import opened JsValues

  /** `clamp(value, min, max)` = `Math.min(Math.max(value, min), max)`. */
  function Clamp(value: Number, min: Number, max: Number): (r: Number)
    ensures r.NaN? <==> value.NaN? || min.NaN? || max.NaN?
    ensures !r.NaN? ==> !Less(max, r)
    ensures !r.NaN? && !Less(max, min) ==> !Less(r, min)
    ensures !r.NaN? && !Less(value, min) && !Less(max, value) ==> r == value
  {
    Min(Max(value, min), max)
  }

  /** With finite bounds `min <= max` a finite value is clamped into
      `[min, max]`: kept when already inside, otherwise moved to the bound
      it crossed. */
  lemma ClampInRange(value: real, min: real, max: real)
    requires min <= max
    ensures var r := Clamp(Finite(value), Finite(min), Finite(max));
      r.Finite? && min <= r.r <= max
    ensures min <= value <= max ==> Clamp(Finite(value), Finite(min), Finite(max)) == Finite(value)
    ensures value < min ==> Clamp(Finite(value), Finite(min), Finite(max)) == Finite(min)
    ensures max < value ==> Clamp(Finite(value), Finite(min), Finite(max)) == Finite(max)
  {
  }

  /** Bounds in the wrong order are not swapped: the result is `max`. */
  lemma ClampInvertedBounds(value: real, min: real, max: real)
    requires max < min
    ensures Clamp(Finite(value), Finite(min), Finite(max)) == Finite(max)
  {
  }

  /** A NaN anywhere makes the result NaN. */
  lemma ClampPropagatesNaN(value: Number, min: Number, max: Number)
    ensures Clamp(value, min, max).NaN? <==> value.NaN? || min.NaN? || max.NaN?
  {
  }

  /** Clamping twice with the same bounds is clamping once. */
  lemma ClampIdempotent(value: Number, min: Number, max: Number)
    ensures Clamp(Clamp(value, min, max), min, max) == Clamp(value, min, max)
  {
  }

  // ---------------------------------------------------------------------
  // Colours

  datatype Rgb = Rgb(r: nat, g: nat, b: nat)

  predicate AllHex(s: string)
  {
    forall i :: 0 <= i < |s| ==> IsHexDigit(s[i])
  }

  /** The value of two hexadecimal digits `s[i]s[i+1]` (`parseInt(_, 16)`). */
  function PairValue(s: string, i: nat): (v: nat)
    requires i + 1 < |s| && IsHexDigit(s[i]) && IsHexDigit(s[i + 1])
    ensures v < 256
  {
    HexValue(s[i]) * 16 + HexValue(s[i + 1])
  }

  /** `hexToRgb(hex)`: `/^#?([a-f\d]{2})([a-f\d]{2})([a-f\d]{2})$/i`, the
      three pairs read in base 16; `None` stands for `null`. */
  function HexToRgb(hex: string): (r: Option<Rgb>)
    ensures r.Some? <==> (|hex| == 6 && AllHex(hex)) || (|hex| == 7 && hex[0] == '#' && AllHex(hex[1..]))
    ensures r.Some? ==> r.value.r < 256 && r.value.g < 256 && r.value.b < 256
  {
    var digits := if |hex| == 7 && hex[0] == '#' then hex[1..] else hex;
    if |digits| == 6 && AllHex(digits) then
      Some(Rgb(PairValue(digits, 0), PairValue(digits, 2), PairValue(digits, 4)))
    else
      None
  }

  /** ECMAScript ToInt32 on an integer: the value modulo 2^32, read as a
      signed 32-bit integer. */
  function ToInt32(x: int): (r: int)
    ensures -0x8000_0000 <= r < 0x8000_0000
    ensures (r - x) % 0x1_0000_0000 == 0
  {
    (x + 0x8000_0000) % 0x1_0000_0000 - 0x8000_0000
  }

  /** `x << k` for a shift count below 32: 32-bit signed wrap-around. */
  function ShiftLeft(x: int, k: nat): int
    requires k < 32
  {
    ToInt32(ToInt32(x) * Pow2(k))
  }

  /** `n.toString(16)` for an integer: lowercase digits, a '-' when negative. */
  function IntToHex(n: int): (r: string)
    ensures |r| >= 1
  {
    if n < 0 then "-" + NatToHex(-n) else NatToHex(n)
  }

  /** `rgbToHex(r, g, b)` =
      `"#" + ((1 << 24) + (r << 16) + (g << 8) + b).toString(16).slice(1)`,
      with the shifts' 32-bit wrap-around written out. */
  function RgbToHex(r: int, g: int, b: int): (s: string)
    ensures |s| >= 1 && s[0] == '#'
    ensures 0 <= r < 256 && 0 <= g < 256 && 0 <= b < 256 ==> s == "#" + ByteDigits(r, g, b)
  {
    var n := Pow2(24) + ShiftLeft(r, 16) + ShiftLeft(g, 8) + b;
    if 0 <= r < 256 && 0 <= g < 256 && 0 <= b < 256 then
      PackedDigits(r, g, b);
      "#" + IntToHex(n)[1..]
    else
      "#" + IntToHex(n)[1..]
  }

  /** The six lowercase hexadecimal digits of three bytes. */
  function ByteDigits(r: nat, g: nat, b: nat): (s: string)
    requires r < 256 && g < 256 && b < 256
    ensures |s| == 6 && AllHex(s)
  {
    [HexChar(r / 16), HexChar(r % 16), HexChar(g / 16), HexChar(g % 16), HexChar(b / 16), HexChar(b % 16)]
  }

  /** Appending one base-16 digit to a non-zero number appends its digit. */
  lemma NatToHexStep(q: nat, d: nat)
    requires 1 <= q && d < 16
    ensures NatToHex(16 * q + d) == NatToHex(q) + [HexChar(d)]
  {
    assert (16 * q + d) / 16 == q;
    assert (16 * q + d) % 16 == d;
  }

  lemma Pow2Values()
    ensures Pow2(8) == 256 && Pow2(16) == 65536 && Pow2(24) == 16777216
  {
    assert Pow2(4) == 16;
    assert Pow2(8) == 16 * Pow2(4) by {
      assert Pow2(8) == 2 * Pow2(7) == 4 * Pow2(6) == 8 * Pow2(5) == 16 * Pow2(4);
    }
    assert Pow2(12) == 16 * Pow2(8) by {
      assert Pow2(12) == 2 * Pow2(11) == 4 * Pow2(10) == 8 * Pow2(9) == 16 * Pow2(8);
    }
    assert Pow2(16) == 16 * Pow2(12) by {
      assert Pow2(16) == 2 * Pow2(15) == 4 * Pow2(14) == 8 * Pow2(13) == 16 * Pow2(12);
    }
    assert Pow2(20) == 16 * Pow2(16) by {
      assert Pow2(20) == 2 * Pow2(19) == 4 * Pow2(18) == 8 * Pow2(17) == 16 * Pow2(16);
    }
    assert Pow2(24) == 16 * Pow2(20) by {
      assert Pow2(24) == 2 * Pow2(23) == 4 * Pow2(22) == 8 * Pow2(21) == 16 * Pow2(20);
    }
  }

  /** The number `rgbToHex` prints, for components in 0..255: the shifts do
      not wrap. */
  lemma PackedValue(r: nat, g: nat, b: nat)
    requires r < 256 && g < 256 && b < 256
    ensures Pow2(24) + ShiftLeft(r, 16) + ShiftLeft(g, 8) + b == 16777216 + r * 65536 + g * 256 + b
  {
    Pow2Values();
    assert ToInt32(r) == r;
    assert ToInt32(g) == g;
    assert ToInt32(r * 65536) == r * 65536;
    assert ToInt32(g * 256) == g * 256;
  }

  /** A base-16 numeral grows by one digit. */
  lemma NatToHexGrow(q: nat, d: nat, digits: string)
    requires 1 <= q && d < 16 && NatToHex(q) == digits
    ensures NatToHex(16 * q + d) == digits + [HexChar(d)]
  {
    NatToHexStep(q, d);
  }

  /** A base-16 numeral grows by three digits. */
  lemma NatToHexGrowThree(p: nat, a: nat, b: nat, c: nat, digits: string)
    requires 1 <= p && a < 16 && b < 16 && c < 16 && NatToHex(p) == digits
    ensures NatToHex(16 * (16 * (16 * p + a) + b) + c) == digits + [HexChar(a), HexChar(b), HexChar(c)]
  {
    NatToHexGrow(p, a, digits);
    NatToHexGrow(16 * p + a, b, digits + [HexChar(a)]);
    NatToHexGrow(16 * (16 * p + a) + b, c, digits + [HexChar(a)] + [HexChar(b)]);
    assert digits + [HexChar(a)] + [HexChar(b)] + [HexChar(c)] == digits + [HexChar(a), HexChar(b), HexChar(c)];
  }

  /** Six base-16 digits after a leading 1. */
  lemma NatToHexSixDigits(d1: nat, d2: nat, d3: nat, d4: nat, d5: nat, d6: nat, n: nat)
    requires d1 < 16 && d2 < 16 && d3 < 16 && d4 < 16 && d5 < 16 && d6 < 16
    requires n == 16 * (16 * (16 * (16 * (16 * (16 + d1) + d2) + d3) + d4) + d5) + d6
    ensures NatToHex(n) == [HexChar(1), HexChar(d1), HexChar(d2), HexChar(d3), HexChar(d4), HexChar(d5), HexChar(d6)]
  {
    var high := 16 * (16 * (16 * 1 + d1) + d2) + d3;
    assert NatToHex(1) == [HexChar(1)];
    NatToHexGrowThree(1, d1, d2, d3, [HexChar(1)]);
    NatToHexGrowThree(high, d4, d5, d6, [HexChar(1), HexChar(d1), HexChar(d2), HexChar(d3)]);
    assert n == 16 * (16 * (16 * high + d4) + d5) + d6;
  }

  /** For components in 0..255 the shifts do not wrap, and the leading '1'
      of `1 << 24` is what `slice(1)` drops: two hexadecimal digits per
      component remain. */
  lemma PackedDigits(r: nat, g: nat, b: nat)
    requires r < 256 && g < 256 && b < 256
    ensures IntToHex(Pow2(24) + ShiftLeft(r, 16) + ShiftLeft(g, 8) + b)[1..] == ByteDigits(r, g, b)
  {
    PackedValue(r, g, b);
    var d1, d2, d3, d4, d5, d6 := r / 16, r % 16, g / 16, g % 16, b / 16, b % 16;
    var n := 16777216 + r * 65536 + g * 256 + b;
    assert n == 16 * (16 * (16 * (16 * (16 * (16 + d1) + d2) + d3) + d4) + d5) + d6;
    NatToHexSixDigits(d1, d2, d3, d4, d5, d6, n);
  }

  /** For components in 0..255 the result is '#' followed by two lowercase
      hexadecimal digits per component. */
  lemma RgbToHexDigits(r: nat, g: nat, b: nat)
    requires r < 256 && g < 256 && b < 256
    ensures RgbToHex(r, g, b) == "#" + ByteDigits(r, g, b)
    ensures forall i :: 1 <= i < 7 ==> !IsUpper(RgbToHex(r, g, b)[i])
  {
  }

  /** `hexToRgb(rgbToHex(r, g, b))` gives back `{r, g, b}` for components
      in 0..255. */
  lemma RgbRoundTrip(r: nat, g: nat, b: nat)
    requires r < 256 && g < 256 && b < 256
    ensures HexToRgb(RgbToHex(r, g, b)) == Some(Rgb(r, g, b))
  {
    RgbToHexDigits(r, g, b);
    var s := RgbToHex(r, g, b);
    var digits := ByteDigits(r, g, b);
    assert s[1..] == digits;
    ByteOfDigits(r, digits, 0);
    ByteOfDigits(g, digits, 2);
    ByteOfDigits(b, digits, 4);
  }

  /** Two digits printed from a byte read back as that byte. */
  lemma ByteOfDigits(x: nat, s: string, i: nat)
    requires x < 256 && i + 1 < |s| && s[i] == HexChar(x / 16) && s[i + 1] == HexChar(x % 16)
    ensures PairValue(s, i) == x
  {
    HexCharValue(x / 16);
    HexCharValue(x % 16);
  }

  /** Re-printing the value of two hexadecimal digits gives them back in
      lowercase. */
  lemma PairRoundTrip(s: string, i: nat)
    requires i + 1 < |s| && IsHexDigit(s[i]) && IsHexDigit(s[i + 1])
    ensures HexChar(PairValue(s, i) / 16) == LowerChar(s[i])
    ensures HexChar(PairValue(s, i) % 16) == LowerChar(s[i + 1])
  {
    assert PairValue(s, i) / 16 == HexValue(s[i]);
    assert PairValue(s, i) % 16 == HexValue(s[i + 1]);
  }

  /** The digits of three parsed pairs are the pairs in lowercase. */
  lemma ByteDigitsOfPairs(digits: string)
    requires |digits| == 6 && AllHex(digits)
    ensures ByteDigits(PairValue(digits, 0), PairValue(digits, 2), PairValue(digits, 4)) == ToLower(digits)
  {
    PairRoundTrip(digits, 0);
    PairRoundTrip(digits, 2);
    PairRoundTrip(digits, 4);
    var lower := ToLower(digits);
    assert lower == [lower[0], lower[1], lower[2], lower[3], lower[4], lower[5]];
  }

  /** Going the other way, `rgbToHex` of a parsed colour is the colour's
      digits in lowercase with a '#' in front. */
  lemma HexRoundTrip(hex: string)
    requires HexToRgb(hex).Some?
    ensures var c := HexToRgb(hex).value;
      RgbToHex(c.r, c.g, c.b) == "#" + ToLower(if |hex| == 7 then hex[1..] else hex)
  {
    var digits := if |hex| == 7 then hex[1..] else hex;
    var c := HexToRgb(hex).value;
    assert c == Rgb(PairValue(digits, 0), PairValue(digits, 2), PairValue(digits, 4));
    RgbToHexDigits(c.r, c.g, c.b);
    ByteDigitsOfPairs(digits);
  }

  // ---------------------------------------------------------------------
  // Durations

  /** JavaScript's `a % b` for a positive divisor: the remainder takes the
      sign of the dividend. */
  function TruncRem(a: int, b: int): (r: int)
    requires b > 0
    ensures a >= 0 ==> 0 <= r < b
    ensures a < 0 ==> -b < r <= 0
  {
    if a >= 0 then a % b else -((-a) % b)
  }

  /** `formatDuration(milliseconds)` for a finite number of milliseconds:
      whole seconds, minutes and hours by `Math.floor`, then
      `h:mm:ss` when there is at least one hour and `m:ss` otherwise. */
  function FormatDuration(milliseconds: real): (r: string)
    ensures milliseconds >= 0.0 ==>
      var total := (milliseconds / 1000.0).Floor;
      0 <= total &&
      r == if total >= 3600
        then NatToString(total / 3600) + ":" + PadStart2(NatToString((total / 60) % 60)) + ":" + PadStart2(NatToString(total % 60))
        else NatToString(total / 60) + ":" + PadStart2(NatToString(total % 60))
  {
    var seconds := (milliseconds / 1000.0).Floor;
    var minutes := seconds / 60;
    var hours := minutes / 60;
    assert seconds >= 0 ==> hours == seconds / 3600 by {
      if seconds >= 0 {
        SplitSeconds(seconds);
      }
    }
    if hours > 0 then
      IntToString(hours) + ":" + PadStart2(IntToString(TruncRem(minutes, 60)))
      + ":" + PadStart2(IntToString(TruncRem(seconds, 60)))
    else
      IntToString(minutes) + ":" + PadStart2(IntToString(TruncRem(seconds, 60)))
  }

  /** A two-character field of decimal digits denoting `n`. */
  predicate IsField(s: string, n: nat)
  {
    |s| == 2 && AllDigits(s) && DigitsValue(s) == n
  }

  /** A number below 60 is printed as a zero-padded two-digit field. */
  lemma PaddedField(n: nat)
    requires n < 60
    ensures IsField(PadStart2(IntToString(n)), n)
  {
    var s := NatToString(n);
    NatToStringRoundTrip(n);
    if n < 10 {
      assert PadStart2(s) == ['0', DigitChar(n)];
      assert ['0', DigitChar(n)][..1] == ['0'];
    } else {
      assert NatToString(n / 10) == [DigitChar(n / 10)];
      assert |s| == 2;
    }
  }

  /** Splitting a whole number of seconds into hours, minutes and seconds. */
  lemma SplitSeconds(total: nat)
    ensures (total / 60) / 60 == total / 3600
    ensures (total / 60) % 60 < 60 && total % 60 < 60
    ensures total == (total / 3600) * 3600 + ((total / 60) % 60) * 60 + total % 60
  {
    var m := total / 60;
    var s := total % 60;
    var h := m / 60;
    var mm := m % 60;
    assert total == 60 * m + s;
    assert m == 60 * h + mm;
    assert total == 3600 * h + 60 * mm + s;
    assert 0 <= 60 * mm + s < 3600;
  }

  /** For a non-negative duration the text is `h:mm:ss` when it lasts an
      hour or more and `m:ss` otherwise; the padded fields are two digits
      below 60, and the fields put back together give the whole seconds. */
  lemma FormatDurationFields(milliseconds: real)
    requires milliseconds >= 0.0
    ensures var total := (milliseconds / 1000.0).Floor;
      total >= 0 &&
      var h, m, s := total / 3600, (total / 60) % 60, total % 60;
      h * 3600 + m * 60 + s == total &&
      IsField(PadStart2(IntToString(m)), m) && IsField(PadStart2(IntToString(s)), s) &&
      FormatDuration(milliseconds) ==
        if h > 0 then NatToString(h) + ":" + PadStart2(IntToString(m)) + ":" + PadStart2(IntToString(s))
        else NatToString(total / 60) + ":" + PadStart2(IntToString(s))
  {
    var total := (milliseconds / 1000.0).Floor;
    assert total >= 0;
    SplitSeconds(total);
    PaddedField((total / 60) % 60);
    PaddedField(total % 60);
  }
}
