/** PHP byte strings and the standard-library string primitives the PIX encoder
    relies on: strlen (sequence length), the int-to-string conversion, str_pad,
    dechex and strtoupper. A PHP string counts bytes, so a character here is a
    `char` below 256. */
module PhpStrings {

  /** One byte of a PHP string. */
  type Byte = c: char | c as int < 256

  /** A PHP string: strlen is its length, substr cuts it by byte. */
  type Bytes = seq<Byte>

  function Min(a: int, b: int): int { if a < b then a else b }

  function Pow(base: nat, k: nat): (r: nat)
    ensures 1 <= base ==> 1 <= r
  {
    if k == 0 then 1 else base * Pow(base, k - 1)
  }

  // ---------------------------------------------------------------------------
  // Positional numerals: digit values, most significant first.
  // ---------------------------------------------------------------------------

  /** The digits of `n` in `base`, most significant first, without leading zeros
      ("0" for zero). */
  function Digits(n: nat, base: nat): (ds: seq<nat>)
    requires 2 <= base
    ensures 1 <= |ds|
    ensures forall i :: 0 <= i < |ds| ==> ds[i] < base
    ensures 1 < |ds| ==> ds[0] != 0
    decreases n
  {
    if n < base then [n]
    else
      DivShrinks(n, base);
      Digits(n / base, base) + [n % base]
  }

  /** The number a digit sequence denotes in `base`; the reading-back partner of Digits. */
  function Value(ds: seq<nat>, base: nat): nat
    decreases |ds|
  {
    if ds == [] then 0 else base * Value(ds[..|ds| - 1], base) + ds[|ds| - 1]
  }

  lemma {:induction false} ValueOfDigits(n: nat, base: nat)
    requires 2 <= base
    ensures Value(Digits(n, base), base) == n
    decreases n
  {
    if n >= base {
      var ds, q, m := Digits(n, base), n / base, n % base;
      DivShrinks(n, base);
      assert ds[..|ds| - 1] == Digits(q, base) && ds[|ds| - 1] == m;
      ValueOfDigits(q, base);
      var v := Value(Digits(q, base), base);
      assert Value(ds, base) == base * v + m;
      assert v == q;
      assert n == base * q + m;
    }
  }

  lemma {:induction false} ValueLeadingZero(ds: seq<nat>, base: nat)
    ensures Value([0] + ds, base) == Value(ds, base)
    decreases |ds|
  {
    if ds != [] {
      assert ([0] + ds)[..|ds|] == [0] + ds[..|ds| - 1];
      ValueLeadingZero(ds[..|ds| - 1], base);
    } else {
      var z: seq<nat> := [0];
      assert z[..0] == [];
    }
  }

  lemma DivBelow(n: nat, b: nat, p: nat)
    requires 1 <= b
    ensures n / b < p <==> n < b * p
  {
    var q, m := n / b, n % b;
    assert n == b * q + m && 0 <= m < b;
    if q < p {
      assert q <= p - 1;
      assert b * q <= b * (p - 1) by { MulMono(b, q, p - 1); }
    } else {
      assert b * p <= b * q by { MulMono(b, p, q); }
    }
  }

  lemma DivShrinks(n: nat, b: nat)
    requires 2 <= b && 1 <= n
    ensures n / b < n
  {
    var q := n / b;
    assert n == b * q + n % b;
    assert 2 * q <= b * q by { MulMonoLeft(2, b, q); }
  }

  lemma MulMonoLeft(x: nat, y: nat, b: nat)
    requires x <= y
    ensures x * b <= y * b
  {
  }

  lemma MulMono(b: nat, x: nat, y: nat)
    requires x <= y
    ensures b * x <= b * y
  {
  }

  /** The numeral of `n` has at most `k` digits exactly when `n < base^k`. */
  lemma {:induction false} DigitsWidth(n: nat, base: nat, k: nat)
    requires 2 <= base && 1 <= k
    ensures |Digits(n, base)| <= k <==> n < Pow(base, k)
    decreases n
  {
    var p := Pow(base, k - 1);
    assert Pow(base, k) == base * p;
    if n < base {
      MulMono(base, 1, p);
    } else {
      assert |Digits(n, base)| == |Digits(n / base, base)| + 1;
      if k == 1 {
        assert p == 1;
      } else {
        DivShrinks(n, base);
        DigitsWidth(n / base, base, k - 1);
        DivBelow(n, base, p);
      }
    }
  }

  // ---------------------------------------------------------------------------
  // Decimal: PHP's (string) conversion of a non-negative int, and its reading.
  // ---------------------------------------------------------------------------

  predicate IsDigit(c: char) { '0' <= c <= '9' }

  function DecimalDigit(d: nat): (c: Byte)
    requires d < 10
    ensures IsDigit(c)
  {
    ('0' as int + d) as char
  }

  function DigitValue(c: char): nat
    requires IsDigit(c)
  {
    c as int - '0' as int
  }

  /** The decimal string of a non-negative int, as PHP converts an int to string. */
  function DecimalString(n: nat): (r: Bytes)
    ensures 1 <= |r|
    ensures forall i :: 0 <= i < |r| ==> IsDigit(r[i])
  {
    var ds := Digits(n, 10);
    seq(|ds|, i requires 0 <= i < |ds| => DecimalDigit(ds[i]))
  }

  /** The number a string of decimal digits denotes (PHP's numeric-string coercion). */
  function DecimalValue(s: string): nat
    requires forall i :: 0 <= i < |s| ==> IsDigit(s[i])
  {
    Value(seq(|s|, i requires 0 <= i < |s| => DigitValue(s[i])), 10)
  }

  lemma DecimalDigitsOf(n: nat)
    ensures var s := DecimalString(n);
      seq(|s|, i requires 0 <= i < |s| => DigitValue(s[i])) == Digits(n, 10)
  {
  }

  /** Reading back the decimal string of `n` gives `n`, and its width is the
      number of decimal digits of `n`. */
  lemma DecimalRoundTrip(n: nat)
    ensures DecimalValue(DecimalString(n)) == n
    ensures DecimalString(n)[0] == '0' ==> n == 0
    ensures |DecimalString(n)| == 1 <==> n < 10
    ensures |DecimalString(n)| <= 2 <==> n < 100
    ensures |DecimalString(n)| <= 3 <==> n < 1000
  {
    DecimalDigitsOf(n);
    ValueOfDigits(n, 10);
    DigitsWidth(n, 10, 1);
    DigitsWidth(n, 10, 2);
    DigitsWidth(n, 10, 3);
  }

  /** A leading '0' does not change the value of a decimal string. */
  lemma DecimalLeadingZero(s: string)
    requires forall i :: 0 <= i < |s| ==> IsDigit(s[i])
    ensures DecimalValue("0" + s) == DecimalValue(s)
  {
    var t := "0" + s;
    var vs := seq(|s|, i requires 0 <= i < |s| => DigitValue(s[i]));
    assert seq(|t|, i requires 0 <= i < |t| => DigitValue(t[i])) == [0] + vs;
    ValueLeadingZero(vs, 10);
  }

  // ---------------------------------------------------------------------------
  // str_pad(..., STR_PAD_LEFT) with a one-byte pad string.
  // ---------------------------------------------------------------------------

  /** str_pad($s, $width, $pad, STR_PAD_LEFT): `s` unchanged when it is already
      `width` bytes or longer, otherwise `pad` repeated in front up to `width`. */
  function StrPadLeft(s: Bytes, width: nat, pad: Byte): (r: Bytes)
    ensures |s| >= width ==> r == s
    ensures |s| < width ==> |r| == width && r[width - |s|..] == s
    ensures forall i :: 0 <= i < |r| - |s| ==> r[i] == pad
  {
    if |s| >= width then s else seq(width - |s|, _ => pad) + s
  }

  // ---------------------------------------------------------------------------
  // dechex and strtoupper.
  // ---------------------------------------------------------------------------

  function LowerHexDigit(d: nat): Byte
    requires d < 16
  {
    if d < 10 then DecimalDigit(d) else ('a' as int + (d - 10)) as char
  }

  /** dechex: the lower-case hexadecimal string of `n`, without leading zeros. */
  function Dechex(n: nat): Bytes
  {
    var ds := Digits(n, 16);
    seq(|ds|, i requires 0 <= i < |ds| => LowerHexDigit(ds[i]))
  }

  function ToUpperByte(c: Byte): Byte
  {
    if 'a' <= c <= 'z' then (c as int - 32) as char else c
  }

  /** strtoupper: ASCII lower-case letters become upper-case, every other byte is kept. */
  function StrToUpper(s: Bytes): (r: Bytes)
    ensures |r| == |s|
    ensures forall i :: 0 <= i < |s| ==> !('a' <= r[i] <= 'z')
    ensures forall i :: 0 <= i < |s| ==> !('a' <= s[i] <= 'z') ==> r[i] == s[i]
    ensures forall i :: 0 <= i < |s| && 'a' <= s[i] <= 'z' ==> r[i] as int == s[i] as int - 32
  {
    seq(|s|, i requires 0 <= i < |s| => ToUpperByte(s[i]))
  }

  predicate IsUpperHexDigit(c: char) { '0' <= c <= '9' || 'A' <= c <= 'F' }

  function UpperHexValue(c: char): nat
    requires IsUpperHexDigit(c)
  {
    if c <= '9' then c as int - '0' as int else c as int - 'A' as int + 10
  }

  /** The number an upper-case hexadecimal string denotes. */
  function HexValue(s: string): nat
    requires forall i :: 0 <= i < |s| ==> IsUpperHexDigit(s[i])
  {
    Value(seq(|s|, i requires 0 <= i < |s| => UpperHexValue(s[i])), 16)
  }

  /** strtoupper(dechex(n)): upper-case hexadecimal digits only, no leading zero,
      reading back to `n`, and exactly as wide as `n` needs. */
  lemma UpperHexRoundTrip(n: nat)
    ensures var r := StrToUpper(Dechex(n));
      1 <= |r| &&
      (forall i :: 0 <= i < |r| ==> IsUpperHexDigit(r[i])) &&
      HexValue(r) == n &&
      (1 < |r| ==> r[0] != '0') &&
      (|r| <= 3 <==> n < 0x1000) &&
      (|r| <= 4 <==> n < 0x10000)
  {
    var ds := Digits(n, 16);
    var r := StrToUpper(Dechex(n));
    assert forall i :: 0 <= i < |r| ==> IsUpperHexDigit(r[i]) && UpperHexValue(r[i]) == ds[i];
    assert seq(|r|, i requires 0 <= i < |r| => UpperHexValue(r[i])) == ds;
    ValueOfDigits(n, 16);
    DigitsWidth(n, 16, 3);
    DigitsWidth(n, 16, 4);
  }
}
