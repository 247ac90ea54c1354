/**
 * The text formatting the report uses for volumes: Python's `str` on integers
 * and the threshold choice of `StockReport._format_volume`.
 */
module Formatting {
  import opened Common

  predicate IsDigit(c: char) {
    '0' <= c <= '9'
  }

  predicate AllDigits(s: string) {
    forall i :: 0 <= i < |s| ==> IsDigit(s[i])
  }

  function DigitChar(d: nat): char
    requires d < 10
  {
    ('0' as int + d) as char
  }

  function DigitValue(c: char): nat
    requires IsDigit(c)
  {
    c as int - '0' as int
  }

  /** `str(n)` for a non-negative integer: its decimal digits, most significant first. */
  function NatToDecimal(n: nat): string
    decreases n
  {
    if n < 10 then [DigitChar(n)] else NatToDecimal(n / 10) + [DigitChar(n % 10)]
  }

  /** `str(n)`: a minus sign before the digits of a negative number. */
  function IntToDecimal(n: int): string {
    if n < 0 then "-" + NatToDecimal(-n) else NatToDecimal(n)
  }

  /** The number a string of decimal digits denotes. */
  function DigitsValue(s: string): nat
    requires AllDigits(s)
  {
    if s == [] then 0 else DigitsValue(s[..|s| - 1]) * 10 + DigitValue(s[|s| - 1])
  }

  /** `int(s)` restricted to an optional minus sign followed by at least one digit; `None` for anything else. */
  function ParseDecimal(s: string): Option<int> {
    if |s| > 1 && s[0] == '-' && AllDigits(s[1..]) then Some(-(DigitsValue(s[1..]) as int))
    else if |s| > 0 && AllDigits(s) then Some(DigitsValue(s))
    else None
  }

  /** The digits of `n` are non-empty, digits only, without a leading zero, and read back as `n`. */
  lemma {:induction false} NatToDecimalRoundTrip(n: nat)
    ensures |NatToDecimal(n)| > 0 && AllDigits(NatToDecimal(n))
    ensures NatToDecimal(n)[0] == '0' <==> n == 0
    ensures DigitsValue(NatToDecimal(n)) == n
    decreases n
  {
    var s := NatToDecimal(n);
    if n >= 10 {
      NatToDecimalRoundTrip(n / 10);
      assert s[..|s| - 1] == NatToDecimal(n / 10);
      assert s[0] == NatToDecimal(n / 10)[0];
    }
  }

  /**
   * The text `str` gives for an integer: a digit string without a leading zero
   * (only `"0"` itself starts with `'0'`), possibly after one minus sign, in
   * which case the digits do not start with `'0'` (there is no `"-0"`).
   */
  predicate Canonical(s: string) {
    if |s| > 0 && s[0] == '-' then |s| > 1 && AllDigits(s[1..]) && s[1] != '0'
    else |s| > 0 && AllDigits(s) && (s[0] == '0' ==> |s| == 1)
  }

  /** `str(n)` is canonical and `int(str(n)) == n` for every integer. */
  lemma IntToDecimalRoundTrip(n: int)
    ensures Canonical(IntToDecimal(n))
    ensures ParseDecimal(IntToDecimal(n)) == Some(n)
  {
    if n < 0 {
      NatToDecimalRoundTrip(-n);
      assert IntToDecimal(n)[1..] == NatToDecimal(-n);
    } else {
      NatToDecimalRoundTrip(n);
    }
  }

  /** A digit string that does not start with `'0'` denotes a positive number. */
  lemma {:induction false} DigitsValuePositive(s: string)
    requires |s| > 0 && AllDigits(s) && s[0] != '0'
    ensures DigitsValue(s) >= 1
    decreases |s|
  {
    if |s| > 1 {
      DigitsValuePositive(s[..|s| - 1]);
    }
  }

  /** A digit string without a leading zero is the decimal text of the number it denotes. */
  lemma {:induction false} NatToDecimalOfDigits(s: string)
    requires |s| > 0 && AllDigits(s) && (s[0] == '0' ==> |s| == 1)
    ensures NatToDecimal(DigitsValue(s)) == s
    decreases |s|
  {
    var p := s[..|s| - 1];
    if |s| > 1 {
      DigitsValuePositive(p);
      NatToDecimalOfDigits(p);
      var n := DigitsValue(s);
      assert n / 10 == DigitsValue(p) && n % 10 == DigitValue(s[|s| - 1]);
      assert s == p + [s[|s| - 1]];
    }
  }

  /**
   * Each integer has exactly one canonical text: a canonical string parses, and
   * `str` of what it parses to gives the string back.
   */
  lemma CanonicalIsIntToDecimal(s: string)
    requires Canonical(s)
    ensures ParseDecimal(s).Some? && IntToDecimal(ParseDecimal(s).value) == s
  {
    if s[0] == '-' {
      var t := s[1..];
      DigitsValuePositive(t);
      NatToDecimalOfDigits(t);
      assert s == "-" + t;
    } else {
      NatToDecimalOfDigits(s);
    }
  }

  /**
   * What `_format_volume` renders: the volume in millions or in thousands (which
   * the source prints with two decimals and an `M` or `K` suffix), or `str(volume)`.
   */
  datatype VolumeText = Millions(amount: real) | Thousands(amount: real) | Plain(text: string)

  /**
   * `_format_volume`: one million or more gets the `M` form, one thousand up to
   * a million the `K` form, anything smaller (negatives included) `str(volume)`:
   * the one canonical text that reads back as the volume.
   */
  function FormatVolume(volume: int): (r: VolumeText)
    ensures r.Millions? <==> volume >= 1_000_000
    ensures r.Thousands? <==> 1_000 <= volume < 1_000_000
    ensures r.Plain? <==> volume < 1_000
    ensures r.Millions? ==> r.amount * 1_000_000.0 == volume as real && r.amount >= 1.0
    ensures r.Thousands? ==> r.amount * 1_000.0 == volume as real && 1.0 <= r.amount < 1_000.0
    ensures r.Plain? ==> r.text == IntToDecimal(volume) && Canonical(r.text)
    ensures r.Plain? ==> ParseDecimal(r.text) == Some(volume)
  {
    if volume >= 1_000_000 then Millions(volume as real / 1_000_000.0)
    else if volume >= 1_000 then Thousands(volume as real / 1_000.0)
    else
      IntToDecimalRoundTrip(volume);
      Plain(IntToDecimal(volume))
  }
}
