/** The `PIX` class (PIX.php:13-294): a static PIX "BR Code" payload built from a
    receiving key, a merchant name, a city, a reference code and an amount. The
    payload is a row of EMV data objects in a fixed order, closed by data object
    63, the CRC-16/CCITT-FALSE of everything before it, the CRC's own ID and
    length field included. */
module PixPayload {
  import opened PhpStrings
  import opened Tlv
  import Sanitize
  import Crc16

  // The configuration constants (PIX.php:18-22).
  const PayloadFormat: Bytes := "01"
  const MerchantAccountGui: Bytes := "BR.GOV.BCB.PIX"
  const MerchantCategoryCode: Bytes := "0000"
  const TransactionCurrency: Bytes := "986"
  const CountryCode: Bytes := "BR"
  /** The ID of the CRC data object (PIX.php:266-268). */
  const CrcId: Bytes := "63"
  /** The length field `payload()` assumes for the digest before computing it (PIX.php:288). */
  const AssumedCrcLength: Bytes := "04"

  class Pix {
    const key: Bytes
    const merchant: Bytes
    const city: Bytes
    const code: Bytes
    /** The amount as `number_format($amount, 2, '.', '')` renders it. */
    const amount: Bytes

    /** What the constructor's filters guarantee of the stored fields. */
    ghost predicate Valid()
    {
      |key| <= Sanitize.KeyMax && (forall i :: 0 <= i < |key| ==> Sanitize.KeyByte(key[i])) &&
      |merchant| <= Sanitize.MerchantMax && (forall i :: 0 <= i < |merchant| ==> Sanitize.NameByte(merchant[i])) &&
      |city| <= Sanitize.CityMax && (forall i :: 0 <= i < |city| ==> Sanitize.NameByte(city[i])) &&
      |code| <= Sanitize.CodeMax && (forall i :: 0 <= i < |code| ==> Sanitize.CodeByte(code[i]))
    }

    /** PIX.php:80-88: each field is filtered and cut once, here and nowhere else. */
    constructor (key: Bytes, merchant: Bytes, city: Bytes, code: Bytes, amount: Bytes)
      ensures Valid()
      ensures this.key == Sanitize.Key(key)
      ensures this.merchant == Sanitize.Merchant(merchant)
      ensures this.city == Sanitize.City(city)
      ensures this.code == Sanitize.Code(code)
      ensures this.amount == amount
    {
      this.key := Sanitize.Key(key);
      this.merchant := Sanitize.Merchant(merchant);
      this.city := Sanitize.City(city);
      this.code := Sanitize.Code(code);
      this.amount := amount;
    }

    // -------------------------------------------------------------------------
    // The record builders (PIX.php:167-268).
    // -------------------------------------------------------------------------

    /** ID 00, Payload Format Indicator (PIX.php:167-169). */
    function PayloadFormatRecord(): Bytes
    {
      "00" + PadLen(PayloadFormat) + PayloadFormat
    }

    /** The GUI child of ID 26 (PIX.php:181). */
    function GuiField(): Bytes
    {
      "00" + PadLen(MerchantAccountGui) + MerchantAccountGui
    }

    /** The key child of ID 26 (PIX.php:182). */
    function KeyField(): Bytes
    {
      "01" + PadLen(key) + key
    }

    /** The value of ID 26: its two children, GUI then key. */
    function MerchantAccountInfo(): Bytes
    {
      GuiField() + KeyField()
    }

    /** ID 26, Merchant Account Information (PIX.php:179-186). Its length field is
        the sum of the children's `padlen` strings read as numbers and printed
        without padding: the decimal length of the value, however many digits. */
    function MerchantAccountRecord(): (r: Bytes)
      requires Valid()
      ensures r == "26" + DecimalString(|MerchantAccountInfo()|) + MerchantAccountInfo()
    {
      var gui := GuiField();
      var keyField := KeyField();
      "26" + DecimalString(DecimalValue(PadLen(gui)) + DecimalValue(PadLen(keyField))) + gui + keyField
    }

    /** ID 52, Merchant Category Code (PIX.php:194-196). */
    function MerchantCategoryRecord(): Bytes
    {
      "52" + PadLen(MerchantCategoryCode) + MerchantCategoryCode
    }

    /** ID 53, Transaction Currency (PIX.php:204-206). */
    function TransactionCurrencyRecord(): Bytes
    {
      "53" + PadLen(TransactionCurrency) + TransactionCurrency
    }

    /** ID 54, Transaction Amount (PIX.php:214-216): always emitted. */
    function TransactionAmountRecord(): Bytes
    {
      "54" + PadLen(amount) + amount
    }

    /** ID 58, Country Code (PIX.php:224-226). */
    function CountryCodeRecord(): Bytes
    {
      "58" + PadLen(CountryCode) + CountryCode
    }

    /** ID 59, Merchant Name (PIX.php:234-236). */
    function MerchantNameRecord(): Bytes
    {
      "59" + PadLen(merchant) + merchant
    }

    /** ID 60, Merchant City (PIX.php:244-246). */
    function MerchantCityRecord(): Bytes
    {
      "60" + PadLen(city) + city
    }

    /** The Reference Label child of ID 62 (PIX.php:256). */
    function ReferenceLabelField(): Bytes
    {
      "05" + PadLen(code) + code
    }

    /** ID 62, Additional Data Field Template (PIX.php:255-258). */
    function AdditionalDataRecord(): Bytes
    {
      var refLabel := ReferenceLabelField();
      "62" + PadLen(refLabel) + refLabel
    }

    /** ID 63 without length or value: the CRC's place-holder (PIX.php:266-268). */
    function CrcTag(): Bytes
    {
      CrcId
    }

    // -------------------------------------------------------------------------
    // What each record builder produces.
    // -------------------------------------------------------------------------

    /** The records built from the configuration constants alone, and the GUI
        child of ID 26, are fixed strings. */
    lemma FixedRecords()
      ensures PayloadFormatRecord() == "000201"
      ensures GuiField() == "0014BR.GOV.BCB.PIX"
      ensures MerchantCategoryRecord() == "52040000"
      ensures TransactionCurrencyRecord() == "5303986"
      ensures CountryCodeRecord() == "5802BR"
    {
      SmallLength(PayloadFormat);
      assert Digits(14, 10) == [1, 4];
      SmallLength(MerchantCategoryCode);
      SmallLength(TransactionCurrency);
      SmallLength(CountryCode);
    }

    /** ID 26: its value reads back as the GUI and the key, and is 22 bytes longer
        than the key; its length field has two digits exactly when the key has at
        most 77 bytes, and then the whole record reads back as ID 26. */
    lemma MerchantAccountReadsBack()
      requires Valid()
      ensures ParseAll(MerchantAccountInfo()) == Some([DataObject("00", MerchantAccountGui), DataObject("01", key)])
      ensures |key| <= 77 ==> ParseAll(MerchantAccountRecord()) == Some([DataObject("26", MerchantAccountInfo())])
    {
      var children := [DataObject("00", MerchantAccountGui), DataObject("01", key)];
      ParseEncodeAll(children);
      assert EncodeAll(children) == MerchantAccountInfo() by {
        assert EncodeAll(children[1..]) == KeyField() + EncodeAll([]);
      }
      MerchantAccountEncodes();
      if |key| <= 77 {
        ParseSingle(DataObject("26", MerchantAccountInfo()));
      }
    }

    /** The value of ID 26 is 22 bytes longer than the key. Its unpadded length
        field has two digits exactly when the key has at most 77 bytes, and then
        it is what `padlen` renders: ID 26 is an ordinary data object. */
    lemma MerchantAccountEncodes()
      requires Valid()
      ensures |MerchantAccountInfo()| == 22 + |key|
      ensures |DecimalString(22 + |key|)| == 2 <==> |key| <= 77
      ensures MerchantAccountRecord() == Encode(DataObject("26", MerchantAccountInfo()))
    {
      DecimalRoundTrip(22 + |key|);
      var info := MerchantAccountInfo();
      assert PadLen(info) == DecimalString(|info|) by {
        var d := DecimalString(|info|);
        assert |d| >= 2;
        assert StrPadLeft(d, 2, '0') == d;
      }
    }

    /** IDs 59 and 60: the name and the city read back unchanged, with two-digit
        length fields. */
    lemma NameAndCityReadBack()
      requires Valid()
      ensures |MerchantNameRecord()| == 4 + |merchant|
      ensures ParseAll(MerchantNameRecord()) == Some([DataObject("59", merchant)])
      ensures |MerchantCityRecord()| == 4 + |city|
      ensures ParseAll(MerchantCityRecord()) == Some([DataObject("60", city)])
    {
      ParseSingle(DataObject("59", merchant));
      ParseSingle(DataObject("60", city));
    }

    /** ID 54: an amount of at most 99 bytes reads back unchanged. */
    lemma AmountReadsBack()
      requires |amount| <= 99
      ensures |TransactionAmountRecord()| == 4 + |amount|
      ensures ParseAll(TransactionAmountRecord()) == Some([DataObject("54", amount)])
    {
      ParseSingle(DataObject("54", amount));
    }

    /** ID 62: it reads back as one data object whose value reads back as ID 05
        holding the code; both length fields are two digits. */
    lemma AdditionalDataReadsBack()
      requires Valid()
      ensures |ReferenceLabelField()| == 4 + |code|
      ensures |AdditionalDataRecord()| == 8 + |code|
      ensures ParseAll(AdditionalDataRecord()) == Some([DataObject("62", ReferenceLabelField())])
      ensures ParseAll(ReferenceLabelField()) == Some([DataObject("05", code)])
    {
      ParseSingle(DataObject("05", code));
      ParseSingle(DataObject("62", ReferenceLabelField()));
    }

    // -------------------------------------------------------------------------
    // The payload (PIX.php:275-292).
    // -------------------------------------------------------------------------

    /** The data objects the payload carries before the CRC, in emitted order. */
    function DataObjects(): seq<DataObject>
      requires Valid()
    {
      [ DataObject("00", PayloadFormat),
        DataObject("26", MerchantAccountInfo()),
        DataObject("52", MerchantCategoryCode),
        DataObject("53", TransactionCurrency),
        DataObject("54", amount),
        DataObject("58", CountryCode),
        DataObject("59", merchant),
        DataObject("60", city),
        DataObject("62", ReferenceLabelField()) ]
    }

    /** `$payload` (PIX.php:277-286): the records in their fixed order, then "63". */
    function Body(): Bytes
      requires Valid()
    {
      PayloadFormatRecord() + MerchantAccountRecord() + MerchantCategoryRecord()
        + TransactionCurrencyRecord() + TransactionAmountRecord() + CountryCodeRecord()
        + MerchantNameRecord() + MerchantCityRecord() + AdditionalDataRecord() + CrcTag()
    }

    /** The body opens with the payload format indicator and closes with the tag of ID 63. */
    lemma BodyFrame()
      requires Valid()
      ensures var body := Body();
        8 <= |body| && body[..6] == "000201" && body[|body| - 2..] == CrcId
    {
      FixedRecords();
      var s0 := PayloadFormatRecord();
      var s1 := s0 + MerchantAccountRecord();
      TakeOfAppend(s0, MerchantAccountRecord(), 6);
      var s2 := s1 + MerchantCategoryRecord();
      TakeOfAppend(s1, MerchantCategoryRecord(), 6);
      var s3 := s2 + TransactionCurrencyRecord();
      TakeOfAppend(s2, TransactionCurrencyRecord(), 6);
      var s4 := s3 + TransactionAmountRecord();
      TakeOfAppend(s3, TransactionAmountRecord(), 6);
      var s5 := s4 + CountryCodeRecord();
      TakeOfAppend(s4, CountryCodeRecord(), 6);
      var s6 := s5 + MerchantNameRecord();
      TakeOfAppend(s5, MerchantNameRecord(), 6);
      var s7 := s6 + MerchantCityRecord();
      TakeOfAppend(s6, MerchantCityRecord(), 6);
      var s8 := s7 + AdditionalDataRecord();
      TakeOfAppend(s7, AdditionalDataRecord(), 6);
      var s9 := s8 + CrcTag();
      TakeOfAppend(s8, CrcTag(), 6);
      assert s9 == Body();
    }

    /** The string `payload()` returns (PIX.php:275-290). */
    function BrCode(): Bytes
      requires Valid()
    {
      WithCrc(Body())
    }

    /** `payload()` (PIX.php:275-292), with the CRC computed by the bitwise loops. */
    method Payload() returns (r: Bytes)
      requires Valid()
      ensures r == BrCode()
    {
      var payload := Body();
      var first := Crc16.Crc16(payload + AssumedCrcLength);
      var crclen := PadLen(first);
      var digest := Crc16.Crc16(payload + crclen);
      r := payload + crclen + digest;
    }

    /** `__toString()` (PIX.php:120-122): the payload again. */
    method ToString() returns (r: Bytes)
      requires Valid()
      ensures r == BrCode()
    {
      r := Payload();
    }

    // -------------------------------------------------------------------------
    // What the payload promises.
    // -------------------------------------------------------------------------

    /** The payload starts with the format indicator, ends with the digest of
        everything before it, and in the four-digit case carries a digest of
        exactly the length its length field announces. */
    lemma PayloadShape()
      requires Valid()
      ensures var r, body := BrCode(), Body();
        r[..6] == "000201" && r[..|body|] == body &&
        (FullWidthDigest(body) ==>
          r == body + AssumedCrcLength + Crc16.Digest(body + AssumedCrcLength) &&
          r[|r| - 4..] == Crc16.Digest(r[..|r| - 4]))
    {
      var body := Body();
      BodyFrame();
      WithCrcShape(body);
      if FullWidthDigest(body) {
        SelfConsistent(body);
      }
    }

    /** Every record builder except ID 26's is the encoding of one data object. */
    lemma RecordsEncode()
      requires Valid()
      ensures PayloadFormatRecord() == Encode(DataObject("00", PayloadFormat))
      ensures MerchantCategoryRecord() == Encode(DataObject("52", MerchantCategoryCode))
      ensures TransactionCurrencyRecord() == Encode(DataObject("53", TransactionCurrency))
      ensures TransactionAmountRecord() == Encode(DataObject("54", amount))
      ensures CountryCodeRecord() == Encode(DataObject("58", CountryCode))
      ensures MerchantNameRecord() == Encode(DataObject("59", merchant))
      ensures MerchantCityRecord() == Encode(DataObject("60", city))
      ensures AdditionalDataRecord() == Encode(DataObject("62", ReferenceLabelField()))
    {
    }

    /** The body up to "63" is exactly the encoding of the data objects, whatever
        the stored fields; every object fits a two-digit length field when the key
        fits the two-digit length of ID 26 and the amount fits its own. */
    lemma BodyObjects()
      requires Valid()
      ensures |key| <= 77 && |amount| <= 99 ==>
        forall i :: 0 <= i < |DataObjects()| ==> WellFormed(DataObjects()[i])
      ensures Body() == EncodeAll(DataObjects()) + CrcId
    {
      if |key| <= 77 && |amount| <= 99 {
        DataObjectsWellFormed();
      }
      RecordsEncode();
      MerchantAccountEncodes();
      EncodeAllUnfold(DataObjects());
    }

    /** Every data object the body carries fits a two-digit length field. */
    lemma DataObjectsWellFormed()
      requires Valid() && |key| <= 77 && |amount| <= 99
      ensures forall i :: 0 <= i < |DataObjects()| ==> WellFormed(DataObjects()[i])
    {
      MerchantAccountEncodes();
      assert |ReferenceLabelField()| == 4 + |code|;
      AllWellFormed(DataObjects());
    }

    /** The whole payload parses as the data objects followed by ID 63 holding the
        CRC of everything before its value: a payload a reader can verify. */
    lemma WellFormedPayload()
      requires Valid() && |key| <= 77 && |amount| <= 99
      ensures FullWidthDigest(Body()) ==> Verifiable(BrCode(), DataObjects())
    {
      if FullWidthDigest(Body()) {
        BodyObjects();
        ClosedEncoding(DataObjects(), Body());
      }
    }
  }

  // ---------------------------------------------------------------------------
  // Closing the payload with data object 63 (PIX.php:288-290).
  // ---------------------------------------------------------------------------

  /** The digest of the body and the assumed length field has all four hex
      digits: its register is at least 0x1000. */
  predicate FullWidthDigest(body: Bytes)
  {
    Crc16.Register(body + AssumedCrcLength) >= 0x1000
  }

  /** `$crclen`: the length field of the digest of the body followed by "04",
      which is one of "01" to "04". */
  function CrcLength(body: Bytes): (r: Bytes)
    ensures |r| == 2 && r[0] == '0' && '1' <= r[1] <= '4'
    ensures DecimalValue(r) == |Crc16.Digest(body + AssumedCrcLength)|
  {
    var digest := Crc16.Digest(body + AssumedCrcLength);
    SmallLength(digest);
    PadLen(digest)
  }

  /** The body, the length field, and the digest of the body and length field. */
  function WithCrc(body: Bytes): Bytes
  {
    var crclen := CrcLength(body);
    body + crclen + Crc16.Digest(body + crclen)
  }

  /** The payload is the body, then two length digits, then the digest of all of
      it up to there, which has from one to four hex digits. */
  lemma WithCrcShape(body: Bytes)
    ensures var r := WithCrc(body);
      r[..|body|] == body && (6 <= |body| ==> r[..6] == body[..6]) &&
      r[|body|..|body| + 2] == CrcLength(body) &&
      r[|body| + 2..] == Crc16.Digest(r[..|body| + 2]) &&
      |body| + 3 <= |r| <= |body| + 6
  {
    var r := WithCrc(body);
    assert r[..|body| + 2] == body + CrcLength(body);
  }

  /** When the digest of body + "04" has four hex digits the correction pass is a
      no-op: the length field is "04", the digest appended has exactly four
      characters, and it is the CRC of everything before it. */
  lemma SelfConsistent(body: Bytes)
    requires FullWidthDigest(body)
    ensures CrcLength(body) == AssumedCrcLength
    ensures WithCrc(body) == body + AssumedCrcLength + Crc16.Digest(body + AssumedCrcLength)
    ensures var r := WithCrc(body);
      |r| >= 4 && r[..|r| - 4] == body + AssumedCrcLength &&
      r[|r| - 4..] == Crc16.Digest(r[..|r| - 4])
  {
    var digest := Crc16.Digest(body + AssumedCrcLength);
    SmallLength(digest);
    assert CrcLength(body) == AssumedCrcLength;
    var r := WithCrc(body);
    assert r[..|r| - 4] == body + AssumedCrcLength;
  }

  /** What a reader of the payload `r` checks: it splits exactly into `objs`
      followed by ID 63, and ID 63 holds the digest of everything before its value. */
  predicate Verifiable(r: Bytes, objs: seq<DataObject>)
  {
    |r| >= 4 && ParseAll(r) == Some(objs + [DataObject(CrcId, Crc16.Digest(r[..|r| - 4]))])
  }

  /** Closing the encoding of well-formed data objects with "63" and the CRC
      gives a string that parses as those objects followed by ID 63 holding the
      digest of everything before its value, when that digest has four digits. */
  lemma ClosedEncoding(objs: seq<DataObject>, body: Bytes)
    requires forall i :: 0 <= i < |objs| ==> WellFormed(objs[i])
    requires body == EncodeAll(objs) + CrcId
    requires FullWidthDigest(body)
    ensures Verifiable(WithCrc(body), objs)
  {
    var r := WithCrc(body);
    var crc := DataObject(CrcId, Crc16.Digest(body + AssumedCrcLength));
    var all := objs + [crc];
    ClosedBytes(objs, body);
    WellFormedAppend(objs, crc);
    ParseEncodeAll(all);
    assert ParseAll(r) == Some(all);
    assert crc.value == Crc16.Digest(r[..|r| - 4]);
  }

  /** The closed payload is the encoding of the data objects and of ID 63. */
  lemma ClosedBytes(objs: seq<DataObject>, body: Bytes)
    requires body == EncodeAll(objs) + CrcId
    requires FullWidthDigest(body)
    ensures var r := WithCrc(body);
      |r| >= 4 && r[..|r| - 4] == body + AssumedCrcLength &&
      r == EncodeAll(objs + [DataObject(CrcId, Crc16.Digest(body + AssumedCrcLength))])
  {
    SelfConsistent(body);
    var crc := DataObject(CrcId, Crc16.Digest(body + AssumedCrcLength));
    assert Encode(crc) == CrcId + AssumedCrcLength + crc.value by {
      SmallLength(crc.value);
    }
    EncodeAllAppend(objs, crc);
    Regroup(EncodeAll(objs), CrcId, AssumedCrcLength, crc.value);
  }

  /** Appending a well-formed data object keeps a list well-formed. */
  lemma WellFormedAppend(objs: seq<DataObject>, last: DataObject)
    requires forall i :: 0 <= i < |objs| ==> WellFormed(objs[i])
    requires WellFormed(last)
    ensures forall i :: 0 <= i < |objs + [last]| ==> WellFormed((objs + [last])[i])
  {
  }

  /** Nine data objects that are each well-formed. */
  lemma AllWellFormed(objs: seq<DataObject>)
    requires |objs| == 9
    requires WellFormed(objs[0]) && WellFormed(objs[1]) && WellFormed(objs[2])
    requires WellFormed(objs[3]) && WellFormed(objs[4]) && WellFormed(objs[5])
    requires WellFormed(objs[6]) && WellFormed(objs[7]) && WellFormed(objs[8])
    ensures forall i :: 0 <= i < |objs| ==> WellFormed(objs[i])
  {
  }

  /** Concatenation regrouped: the last three pieces form one data object. */
  lemma Regroup(a: Bytes, b: Bytes, c: Bytes, d: Bytes)
    ensures a + b + c + d == a + (b + c + d)
  {
  }

  /** Appending leaves a prefix in place. */
  lemma TakeOfAppend(a: Bytes, b: Bytes, k: nat)
    requires k <= |a|
    ensures (a + b)[..k] == a[..k]
  {
  }

  /** Nine data objects encode as their nine encodings side by side. */
  lemma EncodeAllUnfold(objs: seq<DataObject>)
    requires |objs| == 9
    ensures EncodeAll(objs) == Encode(objs[0]) + Encode(objs[1]) + Encode(objs[2])
      + Encode(objs[3]) + Encode(objs[4]) + Encode(objs[5]) + Encode(objs[6])
      + Encode(objs[7]) + Encode(objs[8])
  {
    assert objs[..9] == objs;
    assert objs[..0] == [];
    EncodePrefix(objs, 0);
    var e := EncodeAll(objs[..1]);
    assert e == Encode(objs[0]);
    EncodePrefix(objs, 1);
    e := e + Encode(objs[1]);
    assert EncodeAll(objs[..2]) == e;
    EncodePrefix(objs, 2);
    e := e + Encode(objs[2]);
    assert EncodeAll(objs[..3]) == e;
    EncodePrefix(objs, 3);
    e := e + Encode(objs[3]);
    assert EncodeAll(objs[..4]) == e;
    EncodePrefix(objs, 4);
    e := e + Encode(objs[4]);
    assert EncodeAll(objs[..5]) == e;
    EncodePrefix(objs, 5);
    e := e + Encode(objs[5]);
    assert EncodeAll(objs[..6]) == e;
    EncodePrefix(objs, 6);
    e := e + Encode(objs[6]);
    assert EncodeAll(objs[..7]) == e;
    EncodePrefix(objs, 7);
    e := e + Encode(objs[7]);
    assert EncodeAll(objs[..8]) == e;
    EncodePrefix(objs, 8);
    e := e + Encode(objs[8]);
    assert EncodeAll(objs[..9]) == e;
  }

  /** The encoding of a prefix grows by one encoding per data object. */
  lemma EncodePrefix(objs: seq<DataObject>, k: nat)
    requires k < |objs|
    ensures EncodeAll(objs[..k + 1]) == EncodeAll(objs[..k]) + Encode(objs[k])
  {
    assert objs[..k + 1] == objs[..k] + [objs[k]];
    EncodeAllAppend(objs[..k], objs[k]);
  }

  lemma {:induction false} EncodeAllAppend(objs: seq<DataObject>, last: DataObject)
    ensures EncodeAll(objs + [last]) == EncodeAll(objs) + Encode(last)
    decreases |objs|
  {
    if objs == [] {
      assert EncodeAll([last]) == Encode(last) + EncodeAll([]);
    } else {
      assert (objs + [last])[1..] == objs[1..] + [last];
      EncodeAllAppend(objs[1..], last);
    }
  }
}
