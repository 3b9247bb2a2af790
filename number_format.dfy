/** The "D8" standard numeric format that names entity nodes after their
    internal id: the decimal digits of the absolute value, padded on the left
    with zeros to at least eight digits, with a leading minus sign for
    negative values. */
module NumberFormat {
  import opened Common

  predicate IsDigit(c: char) {
    '0' <= c <= '9'
  }

  predicate AllDigits(s: string) {
    forall i :: 0 <= i < |s| ==> IsDigit(s[i])
  }

  function DigitChar(d: nat): (c: char)
    requires d < 10
    ensures IsDigit(c) && c as int - '0' as int == d
  {
    (d + '0' as int) as char
  }

  /** The shortest decimal numeral for `n` ("0" for zero). */
  function Decimal(n: nat): string
    decreases n
  {
    if n < 10 then [DigitChar(n)] else Decimal(n / 10) + [DigitChar(n % 10)]
  }

  function Zeros(z: nat): (r: string)
    ensures |r| == z && forall i :: 0 <= i < z ==> r[i] == '0'
  {
    seq(z, _ => '0')
  }

  /** Left-pads `s` with zeros to `width` characters. */
  function ZeroPad(s: string, width: nat): string {
    if |s| >= width then s else Zeros(width - |s|) + s
  }

  /** The minimum number of digits of the "D8" format. */
  const Width: nat := 8

  /** `n.ToString ("D8")`. */
  function FormatD8(n: int): string {
    if n < 0 then "-" + ZeroPad(Decimal(-n), Width) else ZeroPad(Decimal(n), Width)
  }

  /** The value of a string of decimal digits (0 for the empty string). */
  function ValueOf(s: string): nat
    requires AllDigits(s)
    decreases |s|
  {
    if |s| == 0 then 0 else ValueOf(s[..|s| - 1]) * 10 + (s[|s| - 1] as int - '0' as int)
  }

  /** Reads an optionally negative decimal integer back. */
  function ParseInt(s: string): Option<int> {
    if |s| > 1 && s[0] == '-' && AllDigits(s[1..]) then Some(-(ValueOf(s[1..]) as int))
    else if |s| > 0 && AllDigits(s) then Some(ValueOf(s))
    else None
  }

  function Pow10(k: nat): nat {
    if k == 0 then 1 else 10 * Pow10(k - 1)
  }

  lemma {:induction false} DecimalDigits(n: nat)
    ensures |Decimal(n)| >= 1 && AllDigits(Decimal(n)) && ValueOf(Decimal(n)) == n
    decreases n
  {
    if n >= 10 {
      DecimalDigits(n / 10);
      var s := Decimal(n);
      assert s[..|s| - 1] == Decimal(n / 10);
    } else {
      assert Decimal(n)[..0] == [];
    }
  }

  lemma {:induction false} DecimalLength(n: nat, k: nat)
    requires 1 <= k && n < Pow10(k)
    ensures |Decimal(n)| <= k
    decreases k
  {
    if n >= 10 {
      assert k >= 2;
      assert n / 10 < Pow10(k - 1);
      DecimalLength(n / 10, k - 1);
    }
  }

  /** The numeral of a positive number does not start with '0'. */
  lemma {:induction false} DecimalLeading(n: nat)
    requires n >= 1
    ensures |Decimal(n)| >= 1 && Decimal(n)[0] != '0'
    decreases n
  {
    if n >= 10 {
      DecimalLeading(n / 10);
      assert Decimal(n)[0] == Decimal(n / 10)[0];
    }
  }

  lemma {:induction false} ZerosValue(z: nat)
    ensures AllDigits(Zeros(z)) && ValueOf(Zeros(z)) == 0
    decreases z
  {
    if z > 0 {
      assert Zeros(z)[..z - 1] == Zeros(z - 1);
      ZerosValue(z - 1);
    }
  }

  /** Leading zeros do not change the value of a numeral. */
  lemma {:induction false} LeadingZeros(z: nat, s: string)
    requires AllDigits(s)
    ensures AllDigits(Zeros(z) + s) && ValueOf(Zeros(z) + s) == ValueOf(s)
    decreases |s|
  {
    if |s| == 0 {
      ZerosValue(z);
      assert Zeros(z) + s == Zeros(z);
    } else {
      LeadingZeros(z, s[..|s| - 1]);
      var t := Zeros(z) + s;
      assert t[..|t| - 1] == Zeros(z) + s[..|s| - 1];
    }
  }

  /** The padded numeral of `m` is a non-empty string of digits worth `m`. */
  lemma PaddedDecimal(m: nat)
    ensures |ZeroPad(Decimal(m), Width)| >= 1
    ensures AllDigits(ZeroPad(Decimal(m), Width)) && ValueOf(ZeroPad(Decimal(m), Width)) == m
  {
    DecimalDigits(m);
    var d := Decimal(m);
    if |d| < Width {
      LeadingZeros(Width - |d|, d);
    }
  }

  /** A numeral reads back as its value. */
  lemma ParseNumeral(p: string)
    requires |p| >= 1 && AllDigits(p)
    ensures ParseInt(p) == Some(ValueOf(p) as int)
  {
    assert p[0] != '-' by {
      assert IsDigit(p[0]);
    }
  }

  /** A numeral after a minus sign reads back as its value negated. */
  lemma ParseNegatedNumeral(p: string)
    requires |p| >= 1 && AllDigits(p)
    ensures ParseInt("-" + p) == Some(-(ValueOf(p) as int))
  {
    var t := "-" + p;
    assert |t| > 1 && t[0] == '-';
    assert t[1..] == p;
  }

  /** The id can be read back from its "D8" text. */
  lemma FormatD8RoundTrip(n: int)
    ensures ParseInt(FormatD8(n)) == Some(n)
  {
    var m := if n < 0 then -n else n;
    PaddedDecimal(m);
    if n < 0 {
      ParseNegatedNumeral(ZeroPad(Decimal(m), Width));
    } else {
      ParseNumeral(ZeroPad(Decimal(m), Width));
    }
  }

  /** The text has at least eight characters, exactly eight for the ids
      0 to 99999999, and consists of digits after an optional leading
      minus sign that appears exactly for negative ids. Zeros are added
      only to reach eight digits: longer digit strings start with a
      non-zero digit. */
  lemma FormatD8Shape(n: int)
    ensures |FormatD8(n)| >= Width
    ensures 0 <= n < 100000000 ==> |FormatD8(n)| == Width
    ensures FormatD8(n)[0] == '-' <==> n < 0
    ensures forall i :: 0 <= i < |FormatD8(n)| ==> IsDigit(FormatD8(n)[i]) || (i == 0 && n < 0)
    ensures var digits := if n < 0 then FormatD8(n)[1..] else FormatD8(n);
            |digits| > Width ==> digits[0] != '0'
  {
    var m := if n < 0 then -n else n;
    DecimalDigits(m);
    var d := Decimal(m);
    if |d| < Width {
      LeadingZeros(Width - |d|, d);
    }
    if 0 <= n < 100000000 {
      assert Pow10(8) == 100000000;
      DecimalLength(n, 8);
    }
    if m >= 1 {
      DecimalLeading(m);
    }
  }
}
