/** The decimal text the telemetry loop reads and writes: Go's
    strconv.ParseUint(s, 10, 32) on the sensor strings, and the two-decimal
    rendering of a boost value. Values are exact: a boost is a number of
    millionths of a psi. */
module Strconv {

  datatype Option<T> = None | Some(value: T)

  const Uint32Limit: nat := 0x1_0000_0000

  predicate IsDigit(c: char) {
    '0' <= c <= '9'
  }

  predicate AllDigits(s: string) {
    forall k :: 0 <= k < |s| ==> IsDigit(s[k])
  }

  function DigitValue(c: char): nat
    requires IsDigit(c)
  {
    (c as int - '0' as int) as nat
  }

  function DigitChar(d: nat): (c: char)
    requires d < 10
    ensures IsDigit(c) && DigitValue(c) == d
  {
    ('0' as int + d) as char
  }

  function Pow10(n: nat): (p: nat)
    ensures p >= 1
  {
    if n == 0 then 1 else 10 * Pow10(n - 1)
  }

  /** The number a string of decimal digits denotes, most significant
      digit first. */
  function DigitsValue(s: string): nat
    requires AllDigits(s)
  {
    if s == [] then 0 else DigitValue(s[0]) * Pow10(|s| - 1) + DigitsValue(s[1..])
  }

  /** Go's ParseUint loop, base 10, 32 bits: digits are taken left to
      right; a character that is not a digit is a syntax error and a value
      that reaches 2^32 is a range error, each ending the scan at once.
      `acc` is the value of the digits already taken. */
  function ParseDigits(s: string, acc: nat): (r: Option<nat>)
    requires acc < Uint32Limit
    decreases |s|
  {
    if s == [] then Some(acc)
    else if !IsDigit(s[0]) then None
    else
      var n := acc * 10 + DigitValue(s[0]);
      if n >= Uint32Limit then None else ParseDigits(s[1..], n)
  }

  /** strconv.ParseUint(s, 10, 32): an empty string is a syntax error;
      there is no sign, prefix or digit separator in base 10. */
  function ParseUint32(s: string): (r: Option<nat>)
    ensures r.Some? <==> s != [] && AllDigits(s) && DigitsValue(s) < Uint32Limit
    ensures r.Some? ==> r.value == DigitsValue(s)
  {
    if s == [] then None
    else
      ParseDigitsValue(s, 0);
      ParseDigits(s, 0)
  }

  /** The scan from `acc` succeeds exactly when the whole text is digits and
      the accumulated value stays below 2^32, and then yields that value. */
  lemma {:induction false} ParseDigitsValue(s: string, acc: nat)
    requires acc < Uint32Limit
    ensures ParseDigits(s, acc).Some? <==> AllDigits(s) && acc * Pow10(|s|) + DigitsValue(s) < Uint32Limit
    ensures ParseDigits(s, acc).Some? ==> ParseDigits(s, acc).value == acc * Pow10(|s|) + DigitsValue(s)
    decreases |s|
  {
    if s != [] {
      var t := s[1..];
      AllDigitsCons(s);
      if IsDigit(s[0]) {
        var n := acc * 10 + DigitValue(s[0]);
        if AllDigits(t) {
          Shift(acc, DigitValue(s[0]), Pow10(|t|), DigitsValue(t));
        }
        if n < Uint32Limit {
          ParseDigitsValue(t, n);
        }
      }
    }
  }

  lemma AllDigitsCons(s: string)
    requires s != []
    ensures AllDigits(s) <==> IsDigit(s[0]) && AllDigits(s[1..])
  {
    if IsDigit(s[0]) && AllDigits(s[1..]) {
      forall k | 0 <= k < |s| ensures IsDigit(s[k]) {
        if k > 0 {
          assert s[k] == s[1..][k - 1];
        }
      }
    }
  }

  /** One more digit on the left of the accumulated value, as arithmetic. */
  lemma Shift(acc: nat, d: nat, p: nat, rest: nat)
    requires p >= 1
    ensures acc * (10 * p) + (d * p + rest) == (acc * 10 + d) * p + rest
    ensures acc * 10 + d <= (acc * 10 + d) * p + rest
  {
    assert acc * (10 * p) == (acc * 10) * p;
    assert (acc * 10 + d) * p == (acc * 10) * p + d * p;
  }

  /** Leading zeros do not change the parse. */
  lemma LeadingZero(s: string)
    requires s != []
    ensures ParseUint32("0" + s) == ParseUint32(s)
  {
    var z := "0" + s;
    assert z[1..] == s;
    assert AllDigits(z) <==> AllDigits(s) by {
      if AllDigits(s) {
        forall k | 0 <= k < |z| ensures IsDigit(z[k]) {
          if k > 0 {
            assert z[k] == s[k - 1];
          }
        }
      }
      if AllDigits(z) {
        forall k | 0 <= k < |s| ensures IsDigit(s[k]) {
          assert s[k] == z[k + 1];
        }
      }
    }
  }

  /** The last digit of a numeral: the snoc view of DigitsValue. */
  lemma {:induction false} DigitsValueSnoc(s: string, c: char)
    requires AllDigits(s) && IsDigit(c)
    ensures AllDigits(s + [c])
    ensures DigitsValue(s + [c]) == DigitsValue(s) * 10 + DigitValue(c)
    decreases |s|
  {
    var sc := s + [c];
    if s == [] {
      assert sc == [c] && sc[1..] == [];
    } else {
      var t := s[1..];
      AllDigitsCons(s);
      DigitsValueSnoc(t, c);
      assert sc[1..] == t + [c] && sc[0] == s[0];
      AllDigitsCons(sc);
      assert Pow10(|sc| - 1) == 10 * Pow10(|t|);
      Regroup(DigitValue(s[0]), Pow10(|t|), DigitsValue(t), DigitValue(c));
    }
  }

  /** A leading digit, the digits after it and one more digit, regrouped. */
  lemma Regroup(a: nat, p: nat, r: nat, c: nat)
    ensures a * (10 * p) + (r * 10 + c) == (a * p + r) * 10 + c
  {
    assert a * (10 * p) == (a * p) * 10;
  }

  /** The decimal numeral of n, without leading zeros. */
  function Decimal(n: nat): (s: string)
    ensures s != [] && AllDigits(s)
    ensures DigitsValue(s) == n
    ensures |s| > 1 ==> s[0] != '0'
    decreases n
  {
    if n < 10 then
      assert [DigitChar(n)][1..] == [];
      [DigitChar(n)]
    else
      DigitsValueSnoc(Decimal(n / 10), DigitChar(n % 10));
      Decimal(n / 10) + [DigitChar(n % 10)]
  }

  /** Round trip: every 32-bit value's numeral parses back to it; the
      numeral of any larger value is a range error. */
  lemma DecimalParse(n: nat)
    ensures n < Uint32Limit ==> ParseUint32(Decimal(n)) == Some(n)
    ensures n >= Uint32Limit ==> ParseUint32(Decimal(n)) == None
  {
  }

  // ---------------------------------------------------------------------
  // Two-decimal rendering

  /** A value in millionths, rounded to hundredths, halves up. */
  function RoundToHundredths(micro: nat): (h: nat)
    ensures h * 10000 <= micro + 5000 < h * 10000 + 10000
  {
    (micro + 5000) / 10000
  }

  /** Two digits, with a leading zero. */
  function TwoDigits(d: nat): (s: string)
    requires d < 100
    ensures |s| == 2 && AllDigits(s) && DigitsValue(s) == d
  {
    var s := [DigitChar(d / 10), DigitChar(d % 10)];
    assert s[1..] == [DigitChar(d % 10)] && s[1..][1..] == [];
    assert Pow10(1) == 10 && Pow10(0) == 1;
    assert DigitsValue(s[1..]) == d % 10;
    assert DigitsValue(s) == (d / 10) * 10 + d % 10;
    s
  }

  /** The text of a value in millionths with exactly two decimals, as
      strconv.FormatFloat(v, 'f', 2, 64) writes it: the integer part without
      leading zeros, a point, two digits. */
  function FormatFixed2(micro: nat): (s: string)
    ensures |s| >= 4 && s[|s| - 3] == '.'
    ensures AllDigits(s[..|s| - 3]) && AllDigits(s[|s| - 2..])
  {
    var h := RoundToHundredths(micro);
    var s := Decimal(h / 100) + "." + TwoDigits(h % 100);
    assert s[..|s| - 3] == Decimal(h / 100);
    assert s[|s| - 2..] == TwoDigits(h % 100);
    s
  }

  /** Reading the rendered text back gives the value rounded to
      hundredths, within half a hundredth of the exact value. */
  lemma FormatFixed2Value(micro: nat)
    ensures var s := FormatFixed2(micro);
      DigitsValue(s[..|s| - 3]) * 100 + DigitsValue(s[|s| - 2..]) == RoundToHundredths(micro)
    ensures var s := FormatFixed2(micro);
      |s[..|s| - 3]| > 1 ==> s[0] != '0'
  {
    var h := RoundToHundredths(micro);
    var s := FormatFixed2(micro);
    assert s[..|s| - 3] == Decimal(h / 100);
    assert s[|s| - 2..] == TwoDigits(h % 100);
  }

  /** Below 9.995 psi the integer part is one digit: four characters. */
  lemma FormatFixed2Short(micro: nat)
    requires micro < 9995000
    ensures |FormatFixed2(micro)| == 4
  {
    var h := RoundToHundredths(micro);
    assert h / 100 < 10;
    assert |Decimal(h / 100)| == 1;
  }

  /** A larger value never renders as a smaller one. */
  lemma RoundMonotone(a: nat, b: nat)
    requires a <= b
    ensures RoundToHundredths(a) <= RoundToHundredths(b)
  {
  }
}
