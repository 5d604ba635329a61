/**
 * JavaScript numbers as the application uses them: the truthiness test `!x` on a request
 * field, `Number(text)` / `isNaN(text)` on decimal text, `Math.round` and `toFixed(2)`.
 * Numbers are exact reals; `None` stands for NaN.
 */
module Numbers {

  import opened Wrappers
  import opened Text

  /** A numeric field of a JSON request body: absent (or null), a JSON number, or a string. */
  datatype NumField = Missing | Num(value: real) | Str(raw: string)

  /** JavaScript truthiness of the field: `undefined`, `null`, `0` and `""` are falsy. */
  predicate Truthy(f: NumField) {
    match f
    case Missing => false
    case Num(v) => v != 0.0
    case Str(s) => s != []
  }

  function Pow10(n: nat): (p: nat)
    ensures p >= 1
  {
    if n == 0 then 1 else 10 * Pow10(n - 1)
  }

  /**
   * A decimal literal without sign: digits, optionally followed by '.' and more digits, or
   * '.' followed by digits.
   */
  function UnsignedDecimal(u: string): Option<real> {
    var parts := Split(u, '.');
    if |parts| == 1 then
      if u != [] && AllDigits(u) then Some(DigitsValue(u) as real) else None
    else if |parts| == 2 then
      var ip, fp := parts[0], parts[1];
      if (ip != [] || fp != []) && AllDigits(ip) && AllDigits(fp) then
        Some(DecimalValue(ip, fp))
      else None
    else None
  }

  /** The value of the decimal literal `ip.fp`. */
  function DecimalValue(ip: string, fp: string): real
    requires AllDigits(ip) && AllDigits(fp)
  {
    DigitsValue(ip) as real + DigitsValue(fp) as real / Pow10(|fp|) as real
  }

  /**
   * `Number(s)` for decimal text: surrounding white space is ignored, blank text is 0, an
   * optional sign may lead, and anything else that is not a decimal literal is NaN (`None`).
   */
  function ParseNumber(s: string): Option<real> {
    var t := Trim(s);
    if t == [] then Some(0.0)
    else if t[0] == '-' then
      match UnsignedDecimal(t[1..])
      case Some(v) => Some(-v)
      case None => None
    else if t[0] == '+' then UnsignedDecimal(t[1..])
    else UnsignedDecimal(t)
  }

  /** Blank text reads as 0. */
  lemma BlankReadsZero(s: string)
    requires forall k :: 0 <= k < |s| ==> IsSpace(s[k])
    ensures ParseNumber(s) == Some(0.0)
  {
    TrimEmptyIffBlank(s);
  }

  /** `Number(f)` for a request field; `undefined` is NaN. */
  function ToNumber(f: NumField): (r: Option<real>)
    ensures f.Num? ==> r == Some(f.value)
    ensures f.Missing? ==> r == None
  {
    match f
    case Missing => None
    case Num(v) => Some(v)
    case Str(s) => ParseNumber(s)
  }

  /** `isNaN(f)`. */
  predicate IsNaN(f: NumField) {
    ToNumber(f).None?
  }

  /** The decimal rendering of a whole number reads back as that number. */
  lemma NatStringParses(n: nat)
    ensures ParseNumber(NatString(n)) == Some(n as real)
  {
    var s := NatString(n);
    assert s[0] != '-' && s[0] != '+' && !IsSpace(s[0]) && !IsSpace(s[|s| - 1]);
    assert TrimStart(s) == s;
    assert TrimEnd(s) == s;
    assert '.' !in s;
    SplitWithoutSeparator(s, '.');
  }

  /**
   * `Math.round(x)`: the whole number nearest to `x`, halves rounded up (towards +infinity).
   */
  function Round(x: real): (r: int)
    ensures x - 0.5 < r as real <= x + 0.5
  {
    (x + 0.5).Floor
  }

  /** Two decimal digits, with a leading zero below ten. */
  function TwoDigits(n: nat): (r: string)
    requires n < 100
    ensures |r| == 2 && AllDigits(r) && DigitsValue(r) == n
  {
    var r := [DigitChar(n / 10), DigitChar(n % 10)];
    assert r[..1] == [r[0]] && r[..1][..0] == [];
    assert DigitsValue(r[..1]) == n / 10;
    assert DigitsValue(r) == DigitsValue(r[..1]) * 10 + n % 10;
    r
  }

  /** `x.toFixed(2)`: a '-' for a negative `x`, then `|x|` in hundredths rounded half up. */
  function Fixed2(x: real): string {
    var sign := if x < 0.0 then "-" else "";
    sign + CentsText(Cents(if x < 0.0 then -x else x))
  }

  /** A count of hundredths written with a point before its last two digits. */
  function CentsText(cents: nat): string {
    NatString(cents / 100) + "." + TwoDigits(cents % 100)
  }

  /** Digits, a point and digits split at the point into the two runs of digits. */
  lemma SplitDecimal(ip: string, fp: string)
    requires AllDigits(ip) && AllDigits(fp)
    ensures Split(ip + ['.'] + fp, '.') == [ip, fp]
  {
    assert '.' !in ip by {
      forall k | 0 <= k < |ip| ensures ip[k] != '.' { assert IsDigit(ip[k]); }
    }
    assert '.' !in fp by {
      forall k | 0 <= k < |fp| ensures fp[k] != '.' { assert IsDigit(fp[k]); }
    }
    SplitAtSeparator(ip, '.', fp);
    SplitWithoutSeparator(fp, '.');
  }

  /** Text that splits at '.' into two runs of digits reads as whole part plus scaled fraction. */
  lemma DecimalReads(u: string, ip: string, fp: string)
    requires ip != [] && AllDigits(ip) && AllDigits(fp)
    requires Split(u, '.') == [ip, fp]
    ensures UnsignedDecimal(u) == Some(DecimalValue(ip, fp))
  {
  }

  /** `x` rounded to hundredths, halves up. */
  function Hundredths(x: real): real
    requires x >= 0.0
  {
    Cents(x) as real / 100.0
  }

  /** A non-negative `x` counted in hundredths, halves rounded up. */
  function Cents(x: real): (c: nat)
    requires x >= 0.0
    ensures x * 100.0 - 0.5 < c as real <= x * 100.0 + 0.5
  {
    Round(x * 100.0)
  }

  /** A value rendered with `toFixed(2)` reads back as the value rounded to hundredths. */
  lemma Fixed2Parses(x: real)
    requires x >= 0.0
    ensures ParseNumber(Fixed2(x)) == Some(Hundredths(x))
  {
    var t := Fixed2Text(x);
  }

  /** For a non-negative value, `toFixed(2)` writes `CentsText` of its hundredths, which reads back as them. */
  lemma Fixed2Text(x: real) returns (t: string)
    requires x >= 0.0
    ensures Fixed2(x) == t && ParseNumber(t) == Some(Hundredths(x))
  {
    t := CentsText(Cents(x));
    Fixed2Cents(x);
    HundredthsParse(x);
  }

  /** A non-negative value has no sign in `toFixed(2)`. */
  lemma Fixed2Cents(x: real)
    requires x >= 0.0
    ensures Fixed2(x) == CentsText(Cents(x))
  {
    assert Fixed2(x) == "" + CentsText(Cents(x));
  }

  /** The hundredths of `x` written with `CentsText` read back as `x` rounded to hundredths. */
  lemma HundredthsParse(x: real)
    requires x >= 0.0
    ensures ParseNumber(CentsText(Cents(x))) == Some(Hundredths(x))
  {
    CentsParse(Cents(x), Hundredths(x));
  }

  /** A count of hundredths written with `CentsText` reads back as that many hundredths. */
  lemma CentsParse(cents: nat, v: real)
    requires v == cents as real / 100.0
    ensures ParseNumber(CentsText(cents)) == Some(v)
  {
    CentsValue(cents);
    PointedDecimalParsesTo(NatString(cents / 100), TwoDigits(cents % 100), v);
    assert CentsText(cents) == NatString(cents / 100) + ['.'] + TwoDigits(cents % 100);
  }

  /** Digits, a point and more digits whose decimal value is `v` read back as `v`. */
  lemma PointedDecimalParsesTo(ip: string, fp: string, v: real)
    requires ip != [] && fp != [] && AllDigits(ip) && AllDigits(fp) && DecimalValue(ip, fp) == v
    ensures ParseNumber(ip + ['.'] + fp) == Some(v)
  {
    PointedDecimalParses(ip, fp);
  }

  /** Digits, a point and at least one more digit read back as the decimal they spell. */
  lemma PointedDecimalParses(ip: string, fp: string)
    requires ip != [] && fp != [] && AllDigits(ip) && AllDigits(fp)
    ensures ParseNumber(ip + ['.'] + fp) == Some(DecimalValue(ip, fp))
  {
    var s := ip + ['.'] + fp;
    assert s[0] == ip[0] && s[|s| - 1] == fp[|fp| - 1];
    assert IsDigit(s[0]) && IsDigit(s[|s| - 1]);
    TrimUntouched(s);
    SplitDecimal(ip, fp);
    DecimalReads(s, ip, fp);
  }

  /** A count of hundredths written as whole part and two digits has the value of that count. */
  lemma CentsValue(cents: nat)
    ensures DecimalValue(NatString(cents / 100), TwoDigits(cents % 100)) == cents as real / 100.0
  {
    assert Pow10(2) == 100;
    assert DecimalValue(NatString(cents / 100), TwoDigits(cents % 100))
      == (cents / 100) as real + (cents % 100) as real / 100.0;
    assert (cents / 100) as real + (cents % 100) as real / 100.0 == cents as real / 100.0;
  }
}
