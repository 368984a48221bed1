/** `PIX::CRC16` (PIX.php:140-159): CRC-16/CCITT-FALSE, that is polynomial
    0x1021, initial register 0xFFFF, most significant bit first, no final XOR,
    rendered by `strtoupper(dechex(...))` with no zero padding.

    PHP's `$result` is a 64-bit int. It is modelled as a `bv32`: the register is
    below 0x10000 before every shift, so a shifted value is below 0x20000 and
    neither width ever wraps. */
module Crc16 {
  import opened PhpStrings

  const Polynomial: bv32 := 0x1021
  const Initial: bv32 := 0xFFFF

  /** One pass of the inner loop (PIX.php:150-151): shift left, fold the
      polynomial in when bit 16 came out set, keep the low 16 bits. */
  function ShiftBit(reg: bv32): bv32
  {
    var shifted := reg << 1;
    (if shifted & 0x10000 != 0 then shifted ^ Polynomial else shifted) & Initial
  }

  /** `n` passes of the inner loop. */
  function ShiftBits(reg: bv32, n: nat): bv32
  {
    if n == 0 then reg else ShiftBit(ShiftBits(reg, n - 1))
  }

  /** One byte of the outer loop (PIX.php:148-152). */
  function Step(reg: bv32, b: Byte): bv32
  {
    ShiftBits(reg ^ ((b as bv8 as bv32) << 8), 8)
  }

  /** The register after the outer loop has consumed all of `s`. */
  function Register(s: Bytes): (r: bv32)
    ensures r <= 0xFFFF
  {
    if s == [] then Initial else Step(Register(s[..|s| - 1]), s[|s| - 1])
  }

  /** The string `CRC16($s)` returns. */
  function Digest(s: Bytes): (r: Bytes)
    ensures 1 <= |r| <= 4
    ensures forall i :: 0 <= i < |r| ==> IsUpperHexDigit(r[i])
    ensures HexValue(r) == Register(s) as int
    ensures 1 < |r| ==> r[0] != '0'
    ensures |r| == 4 <==> Register(s) >= 0x1000
  {
    UpperHexRoundTrip(Register(s) as int);
    StrToUpper(Dechex(Register(s) as int))
  }

  /** PIX.php:140-159: the nested byte and bit loops over a 16-bit register. */
  method Crc16(subject: Bytes) returns (digest: Bytes)
    ensures digest == Digest(subject)
  {
    var result := Initial;
    var length := |subject|;
    if length > 0 {
      for offset := 0 to length
        invariant result <= 0xFFFF
        invariant result == Register(subject[..offset])
      {
        assert subject[..offset + 1][..offset] == subject[..offset];
        var start := result ^ ((subject[offset] as bv8 as bv32) << 8);
        result := start;
        for bitwise := 0 to 8
          invariant result <= 0xFFFF
          invariant result == ShiftBits(start, bitwise)
        {
          result := result << 1;
          if result & 0x10000 != 0 {
            result := result ^ Polynomial;
          }
          result := result & Initial;
        }
      }
    }
    assert subject[..length] == subject;
    digest := StrToUpper(Dechex(result as int));
  }

  /** The empty string leaves the register at its initial value: "FFFF". */
  lemma EmptyDigest()
    ensures Digest([]) == "FFFF"
  {
    var ds := Digits(0xFFFF, 16);
    assert Digits(0xFFF, 16) == [15, 15, 15] by {
      assert Digits(0xFF, 16) == [15, 15];
    }
    assert ds == [15, 15, 15, 15];
  }

  /** The register after each of the first three bytes of the check string "123456789". */
  lemma CheckStepsOneToThree()
    ensures Step(0xFFFF, '1') == 0xC782
    ensures Step(0xC782, '2') == 0x3DBA
    ensures Step(0x3DBA, '3') == 0x5BCE
  {
    assert ShiftBits(0xCEFF, 1) == 0x8DDF;
    assert ShiftBits(0xCEFF, 2) == 0x0B9F;
    assert ShiftBits(0xCEFF, 3) == 0x173E;
    assert ShiftBits(0xCEFF, 4) == 0x2E7C;
    assert ShiftBits(0xCEFF, 5) == 0x5CF8;
    assert ShiftBits(0xCEFF, 6) == 0xB9F0;
    assert ShiftBits(0xCEFF, 7) == 0x63C1;
    assert ShiftBits(0xCEFF, 8) == 0xC782;
    assert ShiftBits(0xF582, 1) == 0xFB25;
    assert ShiftBits(0xF582, 2) == 0xE66B;
    assert ShiftBits(0xF582, 3) == 0xDCF7;
    assert ShiftBits(0xF582, 4) == 0xA9CF;
    assert ShiftBits(0xF582, 5) == 0x43BF;
    assert ShiftBits(0xF582, 6) == 0x877E;
    assert ShiftBits(0xF582, 7) == 0x1EDD;
    assert ShiftBits(0xF582, 8) == 0x3DBA;
    assert ShiftBits(0x0EBA, 1) == 0x1D74;
    assert ShiftBits(0x0EBA, 2) == 0x3AE8;
    assert ShiftBits(0x0EBA, 3) == 0x75D0;
    assert ShiftBits(0x0EBA, 4) == 0xEBA0;
    assert ShiftBits(0x0EBA, 5) == 0xC761;
    assert ShiftBits(0x0EBA, 6) == 0x9EE3;
    assert ShiftBits(0x0EBA, 7) == 0x2DE7;
    assert ShiftBits(0x0EBA, 8) == 0x5BCE;
  }

  /** The register after each of the middle three bytes of the check string "123456789". */
  lemma CheckStepsFourToSix()
    ensures Step(0x5BCE, '4') == 0x5349
    ensures Step(0x5349, '5') == 0x4560
    ensures Step(0x4560, '6') == 0x2EF4
  {
    assert ShiftBits(0x6FCE, 1) == 0xDF9C;
    assert ShiftBits(0x6FCE, 2) == 0xAF19;
    assert ShiftBits(0x6FCE, 3) == 0x4E13;
    assert ShiftBits(0x6FCE, 4) == 0x9C26;
    assert ShiftBits(0x6FCE, 5) == 0x286D;
    assert ShiftBits(0x6FCE, 6) == 0x50DA;
    assert ShiftBits(0x6FCE, 7) == 0xA1B4;
    assert ShiftBits(0x6FCE, 8) == 0x5349;
    assert ShiftBits(0x6649, 1) == 0xCC92;
    assert ShiftBits(0x6649, 2) == 0x8905;
    assert ShiftBits(0x6649, 3) == 0x022B;
    assert ShiftBits(0x6649, 4) == 0x0456;
    assert ShiftBits(0x6649, 5) == 0x08AC;
    assert ShiftBits(0x6649, 6) == 0x1158;
    assert ShiftBits(0x6649, 7) == 0x22B0;
    assert ShiftBits(0x6649, 8) == 0x4560;
    assert ShiftBits(0x7360, 1) == 0xE6C0;
    assert ShiftBits(0x7360, 2) == 0xDDA1;
    assert ShiftBits(0x7360, 3) == 0xAB63;
    assert ShiftBits(0x7360, 4) == 0x46E7;
    assert ShiftBits(0x7360, 5) == 0x8DCE;
    assert ShiftBits(0x7360, 6) == 0x0BBD;
    assert ShiftBits(0x7360, 7) == 0x177A;
    assert ShiftBits(0x7360, 8) == 0x2EF4;
  }

  /** The register after each of the last three bytes of the check string "123456789". */
  lemma CheckStepsSevenToNine()
    ensures Step(0x2EF4, '7') == 0x7718
    ensures Step(0x7718, '8') == 0xA12B
    ensures Step(0xA12B, '9') == 0x29B1
  {
    assert ShiftBits(0x19F4, 1) == 0x33E8;
    assert ShiftBits(0x19F4, 2) == 0x67D0;
    assert ShiftBits(0x19F4, 3) == 0xCFA0;
    assert ShiftBits(0x19F4, 4) == 0x8F61;
    assert ShiftBits(0x19F4, 5) == 0x0EE3;
    assert ShiftBits(0x19F4, 6) == 0x1DC6;
    assert ShiftBits(0x19F4, 7) == 0x3B8C;
    assert ShiftBits(0x19F4, 8) == 0x7718;
    assert ShiftBits(0x4F18, 1) == 0x9E30;
    assert ShiftBits(0x4F18, 2) == 0x2C41;
    assert ShiftBits(0x4F18, 3) == 0x5882;
    assert ShiftBits(0x4F18, 4) == 0xB104;
    assert ShiftBits(0x4F18, 5) == 0x7229;
    assert ShiftBits(0x4F18, 6) == 0xE452;
    assert ShiftBits(0x4F18, 7) == 0xD885;
    assert ShiftBits(0x4F18, 8) == 0xA12B;
    assert ShiftBits(0x982B, 1) == 0x2077;
    assert ShiftBits(0x982B, 2) == 0x40EE;
    assert ShiftBits(0x982B, 3) == 0x81DC;
    assert ShiftBits(0x982B, 4) == 0x1399;
    assert ShiftBits(0x982B, 5) == 0x2732;
    assert ShiftBits(0x982B, 6) == 0x4E64;
    assert ShiftBits(0x982B, 7) == 0x9CC8;
    assert ShiftBits(0x982B, 8) == 0x29B1;
  }

  /** The register after one more byte of a prefix. */
  lemma RegisterOfPrefix(s: Bytes, k: nat)
    requires k < |s|
    ensures Register(s[..k + 1]) == Step(Register(s[..k]), s[k])
  {
    assert s[..k + 1][..k] == s[..k];
  }

  /** The catalogue check value of CRC-16/CCITT-FALSE: "123456789" leaves 0x29B1
      in the register. */
  lemma CheckRegister(s: Bytes)
    requires |s| == 9
    requires forall k :: 0 <= k < 9 ==> s[k] as int == '1' as int + k
    ensures Register(s) == 0x29B1
  {
    CheckStepsOneToThree();
    CheckStepsFourToSix();
    CheckStepsSevenToNine();
    assert s[..0] == [];
    RegisterOfPrefix(s, 0);
    assert Register(s[..1]) == 0xC782;
    RegisterOfPrefix(s, 1);
    assert Register(s[..2]) == 0x3DBA;
    RegisterOfPrefix(s, 2);
    assert Register(s[..3]) == 0x5BCE;
    RegisterOfPrefix(s, 3);
    assert Register(s[..4]) == 0x5349;
    RegisterOfPrefix(s, 4);
    assert Register(s[..5]) == 0x4560;
    RegisterOfPrefix(s, 5);
    assert Register(s[..6]) == 0x2EF4;
    RegisterOfPrefix(s, 6);
    assert Register(s[..7]) == 0x7718;
    RegisterOfPrefix(s, 7);
    assert Register(s[..8]) == 0xA12B;
    RegisterOfPrefix(s, 8);
    assert Register(s[..9]) == 0x29B1;
    assert s[..9] == s;
  }

  /** ... and `CRC16` renders it as "29B1". */
  lemma CheckValue(s: Bytes)
    requires s == "123456789"
    ensures Digest(s) == "29B1"
  {
    CheckRegister(s);
    assert Digits(0x29B1, 16) == [2, 9, 11, 1] by {
      assert Digits(0x29B, 16) == [2, 9, 11] by {
        assert Digits(0x29, 16) == [2, 9];
      }
    }
  }
}
