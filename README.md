# PIX "BR Code" payload encoder, modelled in Dafny

This project models `PIX.php`. That file holds one class, `PIX`, which builds the
payload of a static Brazilian PIX "BR Code". The payload is a row of EMV data
objects, each written as a two-byte ID, a two-digit length and the value, as in
section 4 of the EMVCo QR Code Specification for Payment Systems (Merchant-Presented
Mode). The row is closed by data object 63, which holds the CRC-16/CCITT-FALSE of
everything before it: polynomial 0x1021, initial value 0xFFFF.

The modules follow the parts of the class:

- `PhpStrings` (`php_strings.dfy`) models PHP byte strings, where a byte is a `char`
  below 256. It also models the library calls the encoder uses: integer-to-string
  conversion, `str_pad(..., STR_PAD_LEFT)`, `dechex` and `strtoupper`. The two
  conversions are round trips: `DecimalValue` reads back the decimal string of an
  int, and `HexValue` reads back `strtoupper(dechex(n))`. `StrPadLeft` and
  `StrToUpper` carry contracts that state their results directly.
- `Sanitize` (`sanitize.dfy`) models the constructor's `preg_replace` filters and
  `substr` cuts, written as per-byte predicates.
- `Crc16` (`crc16.dfy`) models `CRC16`. `Register` and `Digest` are the recursive
  specification. `Crc16.Crc16` is the source's nested byte and bit loops, proved
  against that specification.
- `Tlv` (`tlv.dfy`) models `padlen` and the data-object shape `ID . padlen(v) . v`.
  It adds a parser for that shape. The parser is the partner of the encoding: it
  states what every record builder produces, and it is proved to invert the encoding
  in both directions.
- `PixPayload` (`pix.dfy`) models the class `Pix`:
  - the constructor assigns the five fields once;
  - one function per `get*` builder;
  - `payload()` is a method that runs the CRC loops twice;
  - `__toString()` delegates to `payload()`.

  Lemmas state what the payload promises, among them:
  - the fixed records;
  - the width of the length field of container 26;
  - checksum self-consistency when the digest has four hex digits;
  - that the whole payload parses back into its data objects.

Where the code departs from the BR Code format it targets, the model follows the
code:

- The key is cut to 99 bytes, the merchant name to 25, the city to 15 and the
  reference code to 20.
- There is no postal-code field, no case folding or upper-casing of names, and no
  default reference label.
- The amount record (ID 54) is always emitted.
- The length field of container 26 is the sum of the two child `padlen` strings
  printed in unpadded decimal. The child strings may carry a leading zero (the key
  child's does for keys of at most 5 bytes), which the integer sum ignores, so the
  sum is always the true length of the value. The value is at least 22 bytes, so
  `padlen` of the value would print the same digits: ID 26 is always
  `ID . padlen(v) . v`. The only departure is the width: the field has three
  digits once the key is longer than 77 bytes
  (`PixPayload.Pix.MerchantAccountEncodes`).
- `CRC16` returns `strtoupper(dechex($result))` without zero padding, so ID 63 holds
  one to four hex digits; it holds four exactly when the register is at least
  0x1000 (`Crc16.Digest`). Its length field is `padlen` of the first digest,
  CRC16(body . "04"). When that digest has fewer than four digits, the field can
  disagree with the digest actually appended (`PixPayload.SelfConsistent` under
  "Left out").
- The CRC is always recomputed over `body . crclen`. When `crclen` is "04" the
  recomputed digest is the first one (`PixPayload.SelfConsistent`).

## Model

| member | source | states |
|---|---|---|
| `PhpStrings.DecimalRoundTrip` | PIX.php:131 | PHP's int-to-string conversion reads back to the same number; it starts with '0' only for zero; it has 1 digit iff n < 10, at most 2 iff n < 100, and at most 3 iff n < 1000 |
| `PhpStrings.DecimalString` | PIX.php:131 | PHP's int-to-string conversion gives at least one byte and only decimal digits; `DecimalRoundTrip` reads it back |
| `PhpStrings.StrPadLeft` | PIX.php:131 | `str_pad(..., STR_PAD_LEFT)` keeps a string that is already wide enough unchanged; otherwise it reaches the width exactly, with the original as suffix and only pad bytes before it |
| `PhpStrings.StrToUpper` | PIX.php:157 | `strtoupper` keeps the length, turns each ASCII lower-case letter into its upper-case letter (32 below it) and keeps every other byte |
| `PhpStrings.Dechex` | PIX.php:157 | `dechex` of n; its contract is stated through `strtoupper` by `UpperHexRoundTrip` |
| `PhpStrings.UpperHexRoundTrip` | PIX.php:157 | `strtoupper(dechex(n))` has only upper-case hex digits and no leading zero; it reads back to n; it has at most 3 digits iff n < 0x1000 and at most 4 iff n < 0x10000 |
| `Sanitize.Filter` | PIX.php:82-85 | a byte-class `preg_replace` never lengthens its input and leaves only bytes of the kept class |
| `Sanitize.FilterCounts` | PIX.php:82-85 | filtering drops every occurrence of a removed byte and keeps every occurrence of a kept one |
| `Sanitize.FilterAppend` | PIX.php:82-85 | filtering distributes over concatenation, so it never reorders the bytes it keeps |
| `Sanitize.FilterKeepsAllowed` | PIX.php:82-85 | a string passes its filter unchanged iff every byte in it is of the kept class |
| `Sanitize.Prefix` | PIX.php:82-85 | `substr($s, 0, n)` is a prefix of s of length min(n, strlen(s)) |
| `Sanitize.Key` | PIX.php:82 | the stored key is a prefix of the input with whitespace removed; it is exactly min(99, filtered length) bytes; it holds no HT, LF, VT, FF, CR or space |
| `Sanitize.Merchant` | PIX.php:83 | the stored merchant name is a prefix of the letters and spaces of the input; it is min(25, filtered length) bytes |
| `Sanitize.City` | PIX.php:84 | the stored city is a prefix of the letters and spaces of the input; it is min(15, filtered length) bytes |
| `Sanitize.Code` | PIX.php:85 | the stored code is a prefix of the ASCII letters and digits of the input; it is min(20, filtered length) bytes |
| `Sanitize.SanitizeIdempotent` | PIX.php:82-85 | sanitizing an already sanitized field changes nothing |
| `Crc16.ShiftBit` | PIX.php:150-151 | one pass of the inner loop: shift left, fold in 0x1021 when bit 16 comes out set, keep 16 bits; the inner loop of `Crc16.Crc16` is proved to compute it pass by pass |
| `Crc16.ShiftBits` | PIX.php:149-152 | the eight passes of the inner loop, the specification the inner loop of `Crc16.Crc16` is proved against |
| `Crc16.Step` | PIX.php:148-152 | one byte of the outer loop; `RegisterOfPrefix` states that each byte advances the register by one step |
| `Crc16.Register` | PIX.php:143-154 | the CRC register after any prefix of the input stays within 0..0xFFFF |
| `Crc16.Digest` | PIX.php:157 | the returned digest has 1 to 4 upper-case hex digits and no leading zero; it reads back to the register; it has 4 digits iff the register is at least 0x1000 |
| `Crc16.Crc16` | PIX.php:140-159 | the nested byte and bit loops, with the register bounded by 0xFFFF at every step, return exactly the digest of the specification |
| `Crc16.EmptyDigest` | PIX.php:146 | an empty subject skips the loops and yields "FFFF" |
| `Crc16.RegisterOfPrefix` | PIX.php:147-153 | each byte advances the register by one outer-loop step |
| `Crc16.CheckRegister` | PIX.php:140-154 | the catalogue check string "123456789" leaves 0x29B1 in the register |
| `Crc16.CheckValue` | PIX.php:140-159 | `CRC16("123456789")` is "29B1" |
| `Tlv.PadLen` | PIX.php:130-132 | `padlen` is at least 2 decimal digits and reads back to the byte length; it is exactly 2 digits iff the length is at most 99, and at most 3 below 1000 |
| `Tlv.Encode` | PIX.php:167-268 | the shape `ID . padlen(v) . v` of every record builder; `ParseEncoded`, `ParseSingle` and `EncodeParseAll` state that the parser inverts it |
| `Tlv.ParseEncoded` | PIX.php:167-268 | an encoded data object with a two-digit length reads back off the front of any string, leaving the rest |
| `Tlv.ParseSingle` | PIX.php:167-268 | one encoded data object parses back as exactly itself |
| `Tlv.ParseEncodeAll` | PIX.php:277-286 | concatenated encodings of well-formed data objects parse back into the same list |
| `Tlv.SmallLength` | PIX.php:130-132 | a value under ten bytes gets the length field '0' followed by its single digit |
| `Tlv.TwoDigitField` | PIX.php:130-132 | a two-digit length field equal to a value's length is exactly what `padlen` renders for it |
| `Tlv.ParsedObject` | PIX.php:167-268 | whatever the parser reads off the front is a well-formed data object whose encoding is exactly the bytes consumed |
| `Tlv.EncodeParseAll` | PIX.php:277-286 | every string the parser accepts is the concatenated encoding of the well-formed objects it returns, so the encoding is canonical |
| `PixPayload.Pix.constructor` | PIX.php:80-88 | each stored field is its sanitized input, the amount is stored as given, and the bounds and byte classes of every field hold |
| `PixPayload.Pix.FixedRecords` | PIX.php:167-226 | the records built from constants alone are fixed: "000201", the GUI child "0014BR.GOV.BCB.PIX", "52040000", "5303986" and "5802BR" |
| `PixPayload.Pix.PayloadFormatRecord` | PIX.php:167-169 | ID 00; stated by `FixedRecords` ("000201") and `RecordsEncode` |
| `PixPayload.Pix.GuiField` | PIX.php:181 | the GUI child of ID 26; stated by `FixedRecords` ("0014BR.GOV.BCB.PIX") |
| `PixPayload.Pix.KeyField` | PIX.php:182 | the key child of ID 26; stated by `MerchantAccountReadsBack` (it parses back as ID 01 holding the key) |
| `PixPayload.Pix.MerchantAccountInfo` | PIX.php:181-182 | the value of ID 26; `MerchantAccountEncodes` states its length and `MerchantAccountReadsBack` its two children |
| `PixPayload.Pix.MerchantAccountRecord` | PIX.php:179-186 | ID 26 is "26", then the unpadded decimal length of its value, then the value (GUI child then key child) |
| `PixPayload.Pix.MerchantAccountEncodes` | PIX.php:181-184 | the value of ID 26 is 22 bytes longer than the key; ID 26 is always `ID . padlen(v) . v` of its value, since the unpadded sum of the children's `padlen` strings equals `padlen` of the value; that field has two digits iff the key has at most 77 bytes |
| `PixPayload.Pix.MerchantAccountReadsBack` | PIX.php:179-186 | the value of ID 26 parses as the GUI child then the key child; for keys up to 77 bytes the whole record parses as ID 26 |
| `PixPayload.Pix.AmountReadsBack` | PIX.php:214-216 | ID 54 is 4 bytes longer than the amount and parses back to it when the amount has at most 99 bytes |
| `PixPayload.Pix.NameAndCityReadBack` | PIX.php:234-246 | IDs 59 and 60 have two-digit length fields and parse back to the stored merchant name and city |
| `PixPayload.Pix.AdditionalDataReadsBack` | PIX.php:255-258 | ID 62 and its child ID 05 both have two-digit length fields equal to the true byte lengths; ID 62 parses as one object whose value parses as the code |
| `PixPayload.Pix.MerchantCategoryRecord` | PIX.php:194-196 | ID 52; stated by `FixedRecords` ("52040000") and `RecordsEncode` |
| `PixPayload.Pix.TransactionCurrencyRecord` | PIX.php:204-206 | ID 53; stated by `FixedRecords` ("5303986") and `RecordsEncode` |
| `PixPayload.Pix.TransactionAmountRecord` | PIX.php:214-216 | ID 54; stated by `AmountReadsBack` and `RecordsEncode` |
| `PixPayload.Pix.CountryCodeRecord` | PIX.php:224-226 | ID 58; stated by `FixedRecords` ("5802BR") and `RecordsEncode` |
| `PixPayload.Pix.MerchantNameRecord` | PIX.php:234-236 | ID 59; stated by `NameAndCityReadBack` and `RecordsEncode` |
| `PixPayload.Pix.MerchantCityRecord` | PIX.php:244-246 | ID 60; stated by `NameAndCityReadBack` and `RecordsEncode` |
| `PixPayload.Pix.ReferenceLabelField` | PIX.php:256 | the child ID 05 of ID 62; stated by `AdditionalDataReadsBack` |
| `PixPayload.Pix.AdditionalDataRecord` | PIX.php:255-258 | ID 62; stated by `AdditionalDataReadsBack` and `RecordsEncode` |
| `PixPayload.Pix.CrcTag` | PIX.php:266-268 | the bare tag of ID 63; stated by `BodyFrame` (the body ends with it) |
| `PixPayload.Pix.RecordsEncode` | PIX.php:167-258 | every record builder other than ID 26's is `ID . padlen(v) . v` of its ID and value: 00, 52, 53, 54, 58, 59, 60 and 62 |
| `PixPayload.Pix.Body` | PIX.php:277-286 | `$payload`; stated by `BodyFrame` and `BodyObjects` |
| `PixPayload.Pix.BrCode` | PIX.php:275-290 | the string `payload()` returns; stated by `Payload`, `PayloadShape` and `WellFormedPayload` |
| `PixPayload.Pix.BodyFrame` | PIX.php:277-286 | the body starts with "000201" and ends with the bare tag "63" |
| `PixPayload.Pix.Payload` | PIX.php:275-292 | `payload()`, running the CRC loops twice, returns the body, then the length field of the digest of body . "04", then the digest of everything before it |
| `PixPayload.Pix.ToString` | PIX.php:120-122 | `__toString()` returns the same string as `payload()` |
| `PixPayload.Pix.PayloadShape` | PIX.php:275-290 | the payload begins with "000201" and with the whole body; in the four-digit case it is body . "04" . CRC16(body . "04"), and its last four bytes are the digest of everything before them |
| `PixPayload.Pix.BodyObjects` | PIX.php:277-286 | the body is the encoding of the nine data objects in the order 00, 26, 52, 53, 54, 58, 59, 60, 62, followed by "63"; for keys up to 77 bytes and amounts up to 99 every object fits a two-digit length field |
| `PixPayload.Pix.DataObjectsWellFormed` | PIX.php:277-286 | for keys up to 77 bytes and amounts up to 99, every data object of the body fits a two-digit length field |
| `PixPayload.Pix.WellFormedPayload` | PIX.php:275-290 | in that case, when the digest has four hex digits, the whole payload parses as the nine data objects followed by ID 63, and ID 63 holds the CRC of everything before its value |
| `PixPayload.CrcLength` | PIX.php:288 | `$crclen` is one of "01" to "04", and it reads back to the length of the first digest |
| `PixPayload.WithCrc` | PIX.php:288-290 | the closing of `payload()`; stated by `WithCrcShape` and `SelfConsistent` |
| `PixPayload.WithCrcShape` | PIX.php:288-290 | the result is the body, then `$crclen`, then the digest of the body and `$crclen`, and it is 3 to 6 bytes longer than the body |
| `PixPayload.SelfConsistent` | PIX.php:288-290 | when CRC16(body . "04") has four digits, `$crclen` is "04", the recomputed digest equals the first one, and the appended digest covers its own length field |
| `PixPayload.ClosedBytes` | PIX.php:288-290 | closing an encoded body in the four-digit case gives the encoding of its data objects followed by ID 63 with the digest |
| `PixPayload.ClosedEncoding` | PIX.php:288-290 | such a closed payload parses as its data objects followed by ID 63, and ID 63 holds the CRC of everything before its value |
| `PixPayload.EncodeAllUnfold` | PIX.php:277-286 | nine data objects encode as their nine encodings side by side |
| `PixPayload.EncodeAllAppend` | PIX.php:288-290 | appending a data object appends its encoding |

## Left out

- `number_format($amount, 2, '.', '')` on a PHP float (PIX.php:86) is floating-point formatting. The constructor takes the amount as the string it would produce and stores it unchanged.
- General PCRE semantics (PIX.php:82-85): each pattern deletes single bytes, so it is modelled as a per-byte predicate. The `s` flag does not change these patterns. The `i` flag is folded into the letter classes.
- PHP's numeric-string coercion in `+` (PIX.php:184) is modelled as integer addition of the two child lengths, rendered in unpadded decimal. Other type juggling is not modelled.
- `toArray()` (PIX.php:95-113) only collects the constants, the stored fields and `payload()` into an associative array. It is not modelled. Its `payload` entry is what `PixPayload.Pix.Payload` returns.
- PHP's 64-bit `$result` in `CRC16` is a 32-bit bit-vector. The register stays below 0x10000 before each shift, so neither width ever wraps.
- PixPayload.SelfConsistent: it says nothing when the first digest has fewer than four hex digits. The code does not promise then that `$crclen` matches the length of the final digest.
- PixPayload.Pix.WellFormedPayload: stated only for keys of at most 77 bytes and amounts of at most 99 bytes. Outside those bounds the code writes a three-digit length field, which the two-digit data-object format cannot read.
- PixPayload.Pix.AmountReadsBack: stated only for amounts of at most 99 bytes, for the same reason.
- The BCB manuals the class cites, rendering the QR image, and all I/O are outside the class.
