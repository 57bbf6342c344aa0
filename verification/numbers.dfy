/**
 * JavaScript's `parseFloat` on the decimal numerals that appear in the
 * seeker's distance tokens, and the NaN it yields when there is no number.
 */
module Numbers {
  import opened Text

  /** A JavaScript number as far as parsing needs it: NaN, or a finite real value. */
  datatype Number = NaN | Num(value: real)

  /** Multiplication by a constant; NaN stays NaN. */
  function Times(n: Number, k: real): Number {
    match n
    case NaN => NaN
    case Num(v) => Num(v * k)
  }

  /** The characters JavaScript's `parseFloat` skips before the number. */
  predicate IsJsSpace(c: char) {
    c == ' ' || c == '\t' || c == '\n' || c == '\r' || c == '\U{000B}' || c == '\U{000C}' ||
    c == '\U{00A0}' || c == '\U{1680}' || '\U{2000}' <= c <= '\U{200A}' || c == '\U{2028}' ||
    c == '\U{2029}' || c == '\U{202F}' || c == '\U{205F}' || c == '\U{3000}' || c == '\U{FEFF}'
  }

  function TrimStart(s: string): (t: string)
    ensures |t| <= |s| && t == s[|s| - |t|..]
    ensures t == [] || !IsJsSpace(t[0])
  {
    if s != [] && IsJsSpace(s[0]) then TrimStart(s[1..]) else s
  }

  /** Drops one leading sign character. */
  function Unsigned(t: string): string {
    if |t| > 0 && (t[0] == '-' || t[0] == '+') then t[1..] else t
  }

  /** `u` starts with a digit, or with a point followed by a digit. */
  predicate HasNumericPrefix(u: string) {
    |u| > 0 && (IsDigit(u[0]) || (u[0] == '.' && |u| > 1 && IsDigit(u[1])))
  }

  /** The digits after a leading decimal point, if `rest` starts with one. */
  function FractionDigits(rest: string): (f: string)
    ensures AllDigits(f)
  {
    if |rest| > 0 && rest[0] == '.' then DigitPrefix(rest[1..]) else []
  }

  /** The value of the decimal numeral `whole.fraction`. */
  function DecimalValue(whole: string, fraction: string): (v: real)
    requires AllDigits(whole) && AllDigits(fraction)
    ensures v >= 0.0
  {
    DigitsValue(whole) as real + DigitsValue(fraction) as real / Pow10(|fraction|) as real
  }

  /** Reads digits, then an optional point and more digits, from the start of `u`. */
  function ReadUnsigned(u: string): (r: Number)
    ensures r.Num? <==> HasNumericPrefix(u)
  {
    var whole := DigitPrefix(u);
    var fraction := FractionDigits(u[|whole|..]);
    if whole == [] && fraction == [] then NaN else Num(DecimalValue(whole, fraction))
  }

  /**
   * `parseFloat(s)`: skip leading white space, read an optional sign, digits,
   * and an optional point with more digits; whatever follows is ignored.
   * No number there at all gives NaN.
   */
  function ParseFloat(s: string): (r: Number)
    ensures r.Num? <==> HasNumericPrefix(Unsigned(TrimStart(s)))
  {
    var t := TrimStart(s);
    match ReadUnsigned(Unsigned(t))
    case NaN => NaN
    case Num(m) => Num(if |t| > 0 && t[0] == '-' then -m else m)
  }

  /** Text that starts with a digit has no white space or sign to skip. */
  lemma ParseFromDigit(s: string)
    requires s != [] && IsDigit(s[0])
    ensures ParseFloat(s) == ReadUnsigned(s)
  {
    assert TrimStart(s) == s;
    assert Unsigned(s) == s;
  }

  /** A non-empty run of digits followed by a non-digit is read as the whole part. */
  lemma ReadAfterDigits(d: string, t: string)
    requires d != [] && AllDigits(d)
    requires t == [] || !IsDigit(t[0])
    ensures ReadUnsigned(d + t) == Num(DecimalValue(d, FractionDigits(t)))
  {
    DigitPrefixOfDigits(d, t);
    assert (d + t)[|d|..] == t;
  }

  lemma ReadWholeNumber(n: nat, rest: string)
    requires rest == [] || !(IsDigit(rest[0]) || rest[0] == '.')
    ensures ReadUnsigned(NatToString(n) + rest) == Num(n as real)
  {
    ReadAfterDigits(NatToString(n), rest);
    assert FractionDigits(rest) == [];
    NatToStringRoundTrip(n);
  }

  /** `parseFloat` reads back the decimal text of a whole number, whatever non-numeric text follows. */
  lemma ParseWholeNumber(n: nat, rest: string)
    requires rest == [] || !(IsDigit(rest[0]) || rest[0] == '.')
    ensures ParseFloat(NatToString(n) + rest) == Num(n as real)
  {
    var d := NatToString(n);
    assert (d + rest)[0] == d[0];
    ParseFromDigit(d + rest);
    ReadWholeNumber(n, rest);
  }

  lemma FractionAfterPoint(f: string, rest: string)
    requires AllDigits(f)
    requires rest == [] || !IsDigit(rest[0])
    ensures FractionDigits("." + f + rest) == f
  {
    DigitPrefixOfDigits(f, rest);
    assert ("." + f + rest)[1..] == f + rest;
  }

  lemma ReadDecimal(n: nat, f: string, rest: string)
    requires f != [] && AllDigits(f)
    requires rest == [] || !IsDigit(rest[0])
    ensures ReadUnsigned(NatToString(n) + ("." + f + rest)) == Num(DecimalValue(NatToString(n), f))
  {
    ReadAfterDigits(NatToString(n), "." + f + rest);
    FractionAfterPoint(f, rest);
  }

  /** `parseFloat` reads back a decimal fraction "n.f". */
  lemma ParseDecimal(n: nat, f: string, rest: string)
    requires f != [] && AllDigits(f)
    requires rest == [] || !IsDigit(rest[0])
    ensures ParseFloat(NatToString(n) + ("." + f + rest)) == Num(DecimalValue(NatToString(n), f))
  {
    var d := NatToString(n);
    assert (d + ("." + f + rest))[0] == d[0];
    ParseFromDigit(d + ("." + f + rest));
    ReadDecimal(n, f, rest);
  }

}
