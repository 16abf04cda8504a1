/**
 * JavaScript numbers as the import code uses them, and the two number parsers it
 * calls, `parseFloat` and `parseInt(_, 10)`. A finite number is an exact real: the
 * rounding to the nearest double is not modelled.
 */
module JsNumber {
  import opened Wrappers
  import opened JsText

  /** A JavaScript `number`. */
  datatype Number = Finite(value: real) | Infinite(negative: bool) | NaN
  {
    /** `Number.isInteger`. */
    predicate IsInteger()
    {
      Finite? && value.Floor as real == value
    }

    /** `x < 0`, which is false for NaN. */
    predicate IsNegative()
    {
      (Finite? && value < 0.0) || (Infinite? && negative)
    }

    /** Truthiness: `0`, `-0` and `NaN` are the falsy numbers. */
    predicate Truthy()
    {
      !NaN? && !(Finite? && value == 0.0)
    }
  }

  function DigitValue(c: char): (d: nat)
    requires IsDigit(c)
    ensures d < 10
  {
    c as int - '0' as int
  }

  predicate AllDigits(s: string)
  {
    forall i :: 0 <= i < |s| ==> IsDigit(s[i])
  }

  /** The value of a string of decimal digits, most significant first. */
  function DigitsValue(s: string): nat
    requires AllDigits(s)
  {
    if s == [] then 0 else DigitsValue(s[..|s| - 1]) * 10 + DigitValue(s[|s| - 1])
  }

  /** How many decimal digits `s` starts with. */
  function LeadingDigits(s: string): (k: nat)
    ensures k <= |s|
    ensures AllDigits(s[..k])
    ensures k == |s| || !IsDigit(s[k])
  {
    if s != [] && IsDigit(s[0]) then 1 + LeadingDigits(s[1..]) else 0
  }

  function Pow10(n: nat): (r: real)
    ensures r >= 1.0
  {
    if n == 0 then 1.0 else 10.0 * Pow10(n - 1)
  }

  /** `10` raised to a signed exponent. */
  function Scale(e: int): real
  {
    if e >= 0 then Pow10(e) else 1.0 / Pow10(-e)
  }

  /** The exponent of an `e`/`E` part at the front of `s`, or `0` when there is no complete one. */
  function ExponentPart(s: string): int
  {
    if |s| >= 2 && (s[0] == 'e' || s[0] == 'E') then
      var t := s[1..];
      var neg := t[0] == '-';
      var digits := if t[0] == '+' || t[0] == '-' then t[1..] else t;
      var k := LeadingDigits(digits);
      if k == 0 then 0
      else if neg then -(DigitsValue(digits[..k]) as int)
      else DigitsValue(digits[..k])
    else 0
  }

  /**
   * The longest prefix of `s` that is an unsigned decimal literal
   * (`ddd`, `ddd.`, `ddd.ddd`, `.ddd`, each with an optional exponent), or
   * `None` when `s` starts with none.
   */
  function UnsignedDecimal(s: string): Option<real>
  {
    var k := LeadingDigits(s);
    AfterDigits(s[..k], s[k..])
  }

  /** The rest of a decimal literal once its integer digits `whole` are read: an optional `.ddd`, then an exponent. */
  function AfterDigits(whole: string, rest: string): Option<real>
    requires AllDigits(whole)
  {
    if rest != [] && rest[0] == '.' then
      var f := LeadingDigits(rest[1..]);
      if whole == [] && f == 0 then None
      else Some(Mantissa(whole, rest[1..][..f]) * Scale(ExponentPart(rest[1 + f..])))
    else if whole == [] then None
    else Some(Mantissa(whole, []) * Scale(ExponentPart(rest)))
  }

  /** The value of `whole.frac`. */
  function Mantissa(whole: string, frac: string): real
    requires AllDigits(whole) && AllDigits(frac)
  {
    DigitsValue(whole) as real + DigitsValue(frac) as real / Pow10(|frac|)
  }

  /** Unary minus. */
  function Negate(n: Number): Number
  {
    match n
    case Finite(v) => Finite(-v)
    case Infinite(neg) => Infinite(!neg)
    case NaN => NaN
  }

  /** `Infinity` or an unsigned decimal literal at the front of `s`. */
  function ParseUnsignedFloat(s: string): Number
  {
    if StartsWith(s, "Infinity") then Infinite(false)
    else match UnsignedDecimal(s)
      case None => NaN
      case Some(v) => Finite(v)
  }

  /** `s` holds a decimal digit somewhere. */
  predicate HasDigit(s: string)
  {
    exists i :: 0 <= i < |s| && IsDigit(s[i])
  }

  /** A digit in a suffix is a digit of the whole. */
  lemma HasDigitOfSuffix(s: string, k: nat)
    requires k <= |s| && HasDigit(s[k..])
    ensures HasDigit(s)
  {
    var i :| 0 <= i < |s[k..]| && IsDigit(s[k..][i]);
    assert s[k + i] == s[k..][i];
  }

  /** A decimal literal has at least one digit, before or after its point. */
  lemma DecimalHasDigit(s: string)
    requires UnsignedDecimal(s).Some?
    ensures HasDigit(s)
  {
    var k := LeadingDigits(s);
    if k > 0 {
      assert IsDigit(s[0]);
    } else {
      assert s[k..] == s;
      assert s[0] == '.' && LeadingDigits(s[1..]) > 0;
      assert IsDigit(s[1..][0]);
      HasDigitOfSuffix(s, 1);
    }
  }

  /** A decimal literal at the start of a suffix of `s` puts a digit in `s`. */
  lemma SuffixDecimalHasDigit(s: string, k: nat)
    requires k <= |s|
    ensures UnsignedDecimal(s[k..]).Some? ==> HasDigit(s)
  {
    if UnsignedDecimal(s[k..]).Some? {
      DecimalHasDigit(s[k..]);
      HasDigitOfSuffix(s, k);
    }
  }

  /**
   * `parseFloat`: skips leading whitespace, reads an optional sign, then `Infinity`
   * or a decimal prefix. Blank text is NaN, and a finite result needs a digit in the text.
   */
  function ParseFloat(s: string): (r: Number)
    ensures TrimStart(s) == [] ==> r.NaN?
    ensures r.Finite? ==> HasDigit(s)
  {
    var t := TrimStart(s);
    var u := if t != [] && (t[0] == '-' || t[0] == '+') then t[1..] else t;
    SuffixDecimalHasDigit(s, |s| - |u|);
    if t != [] && t[0] == '-' then Negate(ParseUnsignedFloat(t[1..]))
    else if t != [] && t[0] == '+' then ParseUnsignedFloat(t[1..])
    else ParseUnsignedFloat(t)
  }

  /**
   * `parseFloat` of text that starts with neither whitespace, a sign, a digit, a
   * point nor the `I` of `Infinity` is NaN: no prefix of it is a number.
   */
  lemma NoNumericStartIsNaN(s: string)
    requires s != [] && !IsWhitespace(s[0])
    requires !IsDigit(s[0]) && s[0] != '.' && s[0] != '+' && s[0] != '-' && s[0] != 'I'
    ensures ParseFloat(s).NaN?
  {
    assert TrimStart(s) == s;
    assert LeadingDigits(s) == 0;
    assert !StartsWith(s, "Infinity");
  }

  /** `parseInt(s, 10)`: skips leading whitespace, reads an optional sign, then the leading digits. */
  function ParseInt(s: string): (n: Number)
    ensures n.NaN? || n.IsInteger()
  {
    var t := TrimStart(s);
    var neg := t != [] && t[0] == '-';
    var body := if t != [] && (t[0] == '+' || t[0] == '-') then t[1..] else t;
    var k := LeadingDigits(body);
    if k == 0 then NaN
    else
      var v: int := if neg then -(DigitsValue(body[..k]) as int) else DigitsValue(body[..k]);
      IntegerIsInteger(v);
      Finite(v as real)
  }

  lemma IntegerIsInteger(v: int)
    ensures Finite(v as real).IsInteger()
  {
  }

  lemma {:induction false} LeadingDigitsOfDigits(s: string, rest: string)
    requires AllDigits(s)
    requires rest == [] || !IsDigit(rest[0])
    ensures LeadingDigits(s + rest) == |s|
  {
    if s != [] {
      assert (s + rest)[1..] == s[1..] + rest;
      LeadingDigitsOfDigits(s[1..], rest);
    }
  }

  /** A non-empty run of digits parses to its value with both parsers. */
  lemma DigitsParse(s: string)
    requires s != [] && AllDigits(s)
    ensures ParseFloat(s) == Finite(DigitsValue(s) as real)
    ensures ParseInt(s) == Finite(DigitsValue(s) as real)
  {
    DigitStart(s);
    UnsignedDigits(s);
    DigitsParseInt(s);
  }

  lemma UnsignedDigits(s: string)
    requires s != [] && AllDigits(s)
    ensures UnsignedDecimal(s) == Some(DigitsValue(s) as real)
  {
    LeadingDigitsOfDigits(s, []);
    assert s + [] == s;
    var k := LeadingDigits(s);
    assert s[..k] == s && s[k..] == [];
    WholeOnly(s);
  }

  lemma WholeOnly(whole: string)
    requires whole != [] && AllDigits(whole)
    ensures AfterDigits(whole, []) == Some(DigitsValue(whole) as real)
  {
    assert ExponentPart([]) == 0;
    assert Scale(0) == 1.0;
    assert Mantissa(whole, []) == DigitsValue(whole) as real;
  }

  lemma DigitsParseInt(s: string)
    requires s != [] && AllDigits(s)
    ensures ParseInt(s) == Finite(DigitsValue(s) as real)
  {
    LeadingDigitsOfDigits(s, []);
    assert s + [] == s;
    assert TrimStart(s) == s;
    assert s[..|s|] == s;
  }

  lemma {:induction false} UnsignedDecimalParse(whole: string, frac: string)
    requires whole != [] && AllDigits(whole) && AllDigits(frac)
    ensures UnsignedDecimal(whole + "." + frac) == Some(Mantissa(whole, frac))
  {
    var s := whole + "." + frac;
    LeadingDigitsOfDigits(whole, "." + frac);
    assert s == whole + ("." + frac);
    assert s[..|whole|] == whole;
    assert s[|whole|..] == "." + frac;
    FractionPart(whole, frac);
  }

  lemma FractionPart(whole: string, frac: string)
    requires whole != [] && AllDigits(whole) && AllDigits(frac)
    ensures AfterDigits(whole, "." + frac) == Some(Mantissa(whole, frac))
  {
    var rest := "." + frac;
    assert rest[1..] == frac;
    LeadingDigitsOfDigits(frac, []);
    assert frac + [] == frac;
    assert frac[..|frac|] == frac;
    assert rest[1 + |frac|..] == [];
    assert ExponentPart([]) == 0;
  }

  /** Text that starts with a digit has no sign and is not `Infinity`. */
  lemma {:induction false} DigitStart(s: string)
    requires s != [] && IsDigit(s[0])
    ensures ParseFloat(s) == ParseUnsignedFloat(s)
    ensures !StartsWith(s, "Infinity")
  {
    assert TrimStart(s) == s;
  }

  /** `int.frac` parses to `int + frac / 10^|frac|`. */
  lemma {:induction false} DecimalParse(whole: string, frac: string)
    requires whole != [] && AllDigits(whole) && AllDigits(frac)
    ensures ParseFloat(whole + "." + frac) == Finite(Mantissa(whole, frac))
  {
    var s := whole + "." + frac;
    assert s[0] == whole[0];
    DigitStart(s);
    UnsignedDecimalParse(whole, frac);
  }

}
