/** EMV data objects as PIX.php builds them: a two-byte ID, a length field
    rendered by `padlen`, then the value. `padlen` is `PIX::padlen`
    (PIX.php:130-132); the rest of this module is the reading side of the format,
    used to state what the record builders produce. */
module Tlv {
  import opened PhpStrings

  datatype Option<T> = None | Some(value: T)

  /** One data object: its two-byte ID and its value. */
  datatype DataObject = DataObject(id: Bytes, value: Bytes)

  /** `padlen` (PIX.php:130-132): the byte length of `s` in decimal, left-padded
      with '0' to at least two characters. */
  function PadLen(s: Bytes): (r: Bytes)
    ensures 2 <= |r|
    ensures forall i :: 0 <= i < |r| ==> IsDigit(r[i])
    ensures DecimalValue(r) == |s|
    ensures |r| == 2 <==> |s| <= 99
    ensures |s| < 1000 ==> |r| <= 3
  {
    var digits := DecimalString(|s|);
    DecimalRoundTrip(|s|);
    if |digits| < 2 then
      DecimalLeadingZero(digits);
      assert StrPadLeft(digits, 2, '0') == "0" + digits;
      StrPadLeft(digits, 2, '0')
    else
      StrPadLeft(digits, 2, '0')
  }

  /** The two-digit length field of a value of at most nine bytes. */
  lemma SmallLength(s: Bytes)
    requires |s| < 10
    ensures PadLen(s) == ['0', DecimalDigit(|s|)]
  {
    assert Digits(|s|, 10) == [|s|];
  }

  /** A data object the two-digit length field can describe. */
  predicate WellFormed(obj: DataObject)
  {
    |obj.id| == 2 && |obj.value| <= 99
  }

  /** `ID + padlen(value) + value`, the shape of every PIX.php record builder. */
  function Encode(obj: DataObject): Bytes
  {
    obj.id + PadLen(obj.value) + obj.value
  }

  function EncodeAll(objs: seq<DataObject>): Bytes
  {
    if objs == [] then [] else Encode(objs[0]) + EncodeAll(objs[1..])
  }

  /** Reads one data object off the front of `s`: two bytes of ID, two decimal
      digits of length, that many bytes of value. */
  function ParseObject(s: Bytes): (r: Option<(DataObject, Bytes)>)
    ensures r.Some? ==> |r.value.1| < |s|
  {
    if |s| < 4 || !IsDigit(s[2]) || !IsDigit(s[3]) then None
    else
      var n := DecimalValue(s[2..4]);
      if |s| < 4 + n then None
      else Some((DataObject(s[..2], s[4..4 + n]), s[4 + n..]))
  }

  /** Reads a whole string as a sequence of data objects; None unless it splits
      exactly. */
  function ParseAll(s: Bytes): Option<seq<DataObject>>
    decreases |s|
  {
    if s == [] then Some([])
    else match ParseObject(s)
      case None => None
      case Some((obj, rest)) =>
        match ParseAll(rest)
        case None => None
        case Some(objs) => Some([obj] + objs)
  }

  /** The parser reads back one encoded data object and leaves what follows it. */
  lemma ParseEncoded(obj: DataObject, rest: Bytes)
    requires WellFormed(obj)
    ensures ParseObject(Encode(obj) + rest) == Some((obj, rest))
  {
    var s := Encode(obj) + rest;
    var len := PadLen(obj.value);
    assert s[2..4] == len;
    assert s[..2] == obj.id;
    assert s[4..4 + |obj.value|] == obj.value;
    assert s[4 + |obj.value|..] == rest;
  }

  /** A single well-formed data object reads back as itself. */
  lemma ParseSingle(obj: DataObject)
    requires WellFormed(obj)
    ensures ParseAll(Encode(obj)) == Some([obj])
  {
    ParseEncoded(obj, []);
    assert Encode(obj) + [] == Encode(obj);
    assert [obj] + [] == [obj];
  }

  /** Encoding a list of well-formed data objects and parsing the result gives the list back. */
  lemma {:induction false} ParseEncodeAll(objs: seq<DataObject>)
    requires forall i :: 0 <= i < |objs| ==> WellFormed(objs[i])
    ensures ParseAll(EncodeAll(objs)) == Some(objs)
    decreases |objs|
  {
    if objs != [] {
      ParseEncoded(objs[0], EncodeAll(objs[1..]));
      ParseEncodeAll(objs[1..]);
      assert [objs[0]] + objs[1..] == objs;
    }
  }

  /** A two-digit length field is exactly what `padlen` renders for a value of that length. */
  lemma TwoDigitField(t: Bytes, v: Bytes)
    requires |t| == 2 && IsDigit(t[0]) && IsDigit(t[1])
    requires |v| == DecimalValue(t)
    ensures PadLen(v) == t
  {
    var a, b := DigitValue(t[0]), DigitValue(t[1]);
    var ds := seq(2, i requires 0 <= i < 2 => DigitValue(t[i]));
    assert ds == [a, b] && ds[..1] == [a] && [a][..0] == [];
    assert Value([a], 10) == a;
    assert |v| == Value(ds, 10) == 10 * a + b;
    if a == 0 {
      SmallLength(v);
    } else {
      assert |v| / 10 == a && |v| % 10 == b;
      assert Digits(|v|, 10) == [a, b];
    }
  }

  /** Whatever the parser reads off the front is a well-formed data object whose
      encoding is exactly the bytes it consumed. */
  lemma ParsedObject(s: Bytes)
    requires ParseObject(s).Some?
    ensures WellFormed(ParseObject(s).value.0)
    ensures s == Encode(ParseObject(s).value.0) + ParseObject(s).value.1
  {
    var (obj, rest) := ParseObject(s).value;
    TwoDigitField(s[2..4], obj.value);
    assert s == s[..2] + s[2..4] + obj.value + rest;
  }

  /** Conversely, whatever the parser accepts is the encoding of the well-formed
      data objects it returns: the encoding is canonical. */
  lemma {:induction false} EncodeParseAll(s: Bytes)
    requires ParseAll(s).Some?
    ensures forall i :: 0 <= i < |ParseAll(s).value| ==> WellFormed(ParseAll(s).value[i])
    ensures EncodeAll(ParseAll(s).value) == s
    decreases |s|
  {
    if s != [] {
      var (obj, rest) := ParseObject(s).value;
      ParsedObject(s);
      EncodeParseAll(rest);
      var objs := ParseAll(s).value;
      assert objs == [obj] + ParseAll(rest).value;
      assert objs[1..] == ParseAll(rest).value;
    }
  }
}
