/**
 * Temperature display: `Math.round`, `celsiusToFahrenheit` and
 * `formatTemperature`, over exact reals rather than IEEE doubles.
 */
module Temperature {

  function Abs(x: real): real
  {
    if x < 0.0 then -x else x
  }

  /**
   * `Math.round(x)`, which is floor(x + 0.5): the integer within half a unit of
   * x, with a tie going to the integer above.
   */
  function Round(x: real): (n: int)
    ensures n as real - 0.5 <= x < n as real + 0.5
  {
    (x + 0.5).Floor
  }

  /** No integer is closer to x than Round(x). */
  lemma RoundIsNearest(x: real, m: int)
    ensures Abs(x - Round(x) as real) <= Abs(x - m as real)
  {
    var n := Round(x);
    if m < n {
      assert m as real <= n as real - 1.0;
    } else if m > n {
      assert m as real >= n as real + 1.0;
    }
  }

  /** Round(x) is the only integer m with m - 0.5 <= x < m + 0.5. */
  lemma RoundUnique(x: real, m: int)
    requires m as real - 0.5 <= x < m as real + 0.5
    ensures Round(x) == m
  {
  }

  /** Halfway cases go up, toward +infinity: 2.5 rounds to 3 and -2.5 to -2. */
  lemma RoundTiesUp(n: int)
    ensures Round(n as real + 0.5) == n + 1
  {
  }

  /** The Fahrenheit value of a Celsius temperature, before any rounding. */
  function FahrenheitOf(celsius: real): real
  {
    celsius * 9.0 / 5.0 + 32.0
  }

  /** `celsiusToFahrenheit(celsius)`: the whole number of degrees Fahrenheit nearest the exact conversion. */
  function CelsiusToFahrenheit(celsius: real): (f: int)
    ensures f as real - 0.5 <= FahrenheitOf(celsius) < f as real + 0.5
  {
    Round(FahrenheitOf(celsius))
  }

  predicate IsDigit(c: char) { '0' <= c <= '9' }

  function DigitChar(d: nat): (c: char)
    requires d < 10
    ensures IsDigit(c) && c as int - '0' as int == d
  {
    ('0' as int + d) as char
  }

  predicate AllDigits(s: string)
  {
    forall i :: 0 <= i < |s| ==> IsDigit(s[i])
  }

  /** The number a string of decimal digits denotes, most significant digit first. */
  function DigitsValue(s: string): nat
    requires AllDigits(s)
  {
    if |s| == 0 then 0 else DigitsValue(s[..|s| - 1]) * 10 + (s[|s| - 1] as int - '0' as int)
  }

  /**
   * A JavaScript integer numeral: an optional '-' and then a non-empty run of
   * digits with no leading zero (other than "0" itself).
   */
  predicate IsNumeral(s: string)
  {
    var digits := if |s| > 0 && s[0] == '-' then s[1..] else s;
    |digits| > 0 && AllDigits(digits) && (|digits| > 1 ==> digits[0] != '0')
  }

  /** The integer a numeral denotes. */
  function NumeralValue(s: string): int
    requires IsNumeral(s)
  {
    if s[0] == '-' then -(DigitsValue(s[1..]) as int) else DigitsValue(s)
  }

  /** The decimal digits of n. */
  function NatToString(n: nat): (r: string)
    ensures |r| > 0 && AllDigits(r) && (|r| > 1 ==> r[0] != '0')
    ensures DigitsValue(r) == n
  {
    if n < 10 then
      [DigitChar(n)]
    else
      var prefix := NatToString(n / 10);
      var r := prefix + [DigitChar(n % 10)];
      assert r[..|r| - 1] == prefix;
      r
  }

  /** `${n}` for an integer n: its decimal numeral, signed when negative. */
  function IntToString(n: int): (r: string)
    ensures IsNumeral(r) && NumeralValue(r) == n
    ensures r[0] == '-' <==> n < 0
  {
    if n < 0 then
      var digits := NatToString(-n);
      var r := "-" + digits;
      assert r[1..] == digits;
      r
    else
      NatToString(n)
  }

  /** The unit suffix shown after the number. */
  function UnitSuffix(isCelsius: bool): string
  {
    if isCelsius then "\U{00B0}C" else "\U{00B0}F"
  }

  /**
   * `formatTemperature(celsius)` with the `isCelsius` flag it reads: a numeral
   * followed by the unit's suffix, where the numeral's value is within half a
   * degree of the exact temperature in the chosen unit, so rounding happens
   * only after the full conversion. A '-' appears only for a negative value,
   * so a temperature that rounds to zero shows as "0", never "-0".
   */
  function FormatTemperature(celsius: real, isCelsius: bool): (r: string)
    ensures |r| >= 3 && r[|r| - 2..] == UnitSuffix(isCelsius)
    ensures IsNumeral(r[..|r| - 2])
    ensures r[0] == '-' <==> NumeralValue(r[..|r| - 2]) < 0
    ensures var shown := NumeralValue(r[..|r| - 2]) as real;
            var exact := if isCelsius then celsius else FahrenheitOf(celsius);
            shown - 0.5 <= exact < shown + 0.5
  {
    var numeral := if isCelsius then IntToString(Round(celsius)) else IntToString(CelsiusToFahrenheit(celsius));
    var r := numeral + UnitSuffix(isCelsius);
    assert r[..|r| - 2] == numeral;
    assert r[|r| - 2..] == UnitSuffix(isCelsius);
    r
  }

  /** The displayed number is the only integer within half a degree of the exact temperature. */
  lemma FormatTemperatureShowsRounded(celsius: real, isCelsius: bool)
    ensures var r := FormatTemperature(celsius, isCelsius);
            NumeralValue(r[..|r| - 2]) == Round(if isCelsius then celsius else FahrenheitOf(celsius))
  {
    var r := FormatTemperature(celsius, isCelsius);
    RoundUnique(if isCelsius then celsius else FahrenheitOf(celsius), NumeralValue(r[..|r| - 2]));
  }

  /** 20.4 degrees Celsius is shown as "20°C". */
  lemma FormatCelsiusExample(c: real)
    requires c == 20.4
    ensures FormatTemperature(c, true) == "20\U{00B0}C"
  {
    FormatTemperatureShowsRounded(c, true);
    assert Round(c) == 20;
  }

  /** 20.6 degrees Celsius, 69.08 degrees Fahrenheit, is shown as "69°F". */
  lemma FormatFahrenheitExample(c: real)
    requires c == 20.6
    ensures FormatTemperature(c, false) == "69\U{00B0}F"
  {
    assert FahrenheitOf(c) == 69.08;
    assert CelsiusToFahrenheit(c) == 69;
  }
}
