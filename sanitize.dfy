/** The constructor's input filters (PIX.php:82-85). Each one is a
    `preg_replace` that deletes every byte of one character class, followed by
    `substr($s, 0, max)`. The regular expressions become explicit per-byte
    predicates: `\s` is HT, LF, VT, FF, CR and space; `[^a-z ]` under the `i`
    flag deletes everything but ASCII letters and space; `[^a-z0-9]` under `i`
    deletes everything but ASCII letters and digits. */
module Sanitize {
  import opened PhpStrings

  const KeyMax := 99
  const MerchantMax := 25
  const CityMax := 15
  const CodeMax := 20

  /** A byte matched by PCRE's `\s`. */
  predicate IsWhitespace(c: Byte) { c == ' ' || 9 <= c as int <= 13 }

  /** A byte kept in the key. */
  predicate KeyByte(c: Byte) { !IsWhitespace(c) }

  /** A byte kept in the merchant name and the city. */
  predicate NameByte(c: Byte) { 'a' <= c <= 'z' || 'A' <= c <= 'Z' || c == ' ' }

  /** A byte kept in the reference code. */
  predicate CodeByte(c: Byte) { 'a' <= c <= 'z' || 'A' <= c <= 'Z' || '0' <= c <= '9' }

  /** preg_replace with a pattern matching single bytes and an empty replacement:
      the bytes for which `keep` holds, in their original order. */
  function Filter(s: Bytes, keep: Byte -> bool): (r: Bytes)
    ensures |r| <= |s|
    ensures forall i :: 0 <= i < |r| ==> keep(r[i])
    decreases |s|
  {
    if s == [] then [] else (if keep(s[0]) then [s[0]] else []) + Filter(s[1..], keep)
  }

  /** Filtering removes every occurrence of each dropped byte and keeps every
      occurrence of each kept one. */
  lemma {:induction false} FilterCounts(s: Bytes, keep: Byte -> bool)
    ensures forall c :: multiset(Filter(s, keep))[c] == if keep(c) then multiset(s)[c] else 0
    decreases |s|
  {
    if s != [] {
      FilterCounts(s[1..], keep);
      assert s == [s[0]] + s[1..];
    }
  }

  /** Filtering works byte by byte: it distributes over concatenation, so it never
      reorders what it keeps. */
  lemma {:induction false} FilterAppend(s: Bytes, t: Bytes, keep: Byte -> bool)
    ensures Filter(s + t, keep) == Filter(s, keep) + Filter(t, keep)
    decreases |s|
  {
    if s != [] {
      var head := if keep(s[0]) then [s[0]] else [];
      assert (s + t)[0] == s[0] && (s + t)[1..] == s[1..] + t;
      assert Filter(s + t, keep) == head + Filter(s[1..] + t, keep);
      FilterAppend(s[1..], t, keep);
      assert Filter(s, keep) == head + Filter(s[1..], keep);
      assert head + (Filter(s[1..], keep) + Filter(t, keep))
          == (head + Filter(s[1..], keep)) + Filter(t, keep);
    } else {
      assert s + t == t;
    }
  }

  /** A string that holds only kept bytes passes through unchanged, and only such a one. */
  lemma {:induction false} FilterKeepsAllowed(s: Bytes, keep: Byte -> bool)
    ensures Filter(s, keep) == s <==> forall i :: 0 <= i < |s| ==> keep(s[i])
    decreases |s|
  {
    if s != [] {
      FilterKeepsAllowed(s[1..], keep);
      if Filter(s, keep) == s {
        assert |Filter(s[1..], keep)| <= |s[1..]|;
        assert keep(s[0]);
        assert Filter(s[1..], keep) == s[1..];
      }
      if forall i :: 0 <= i < |s| ==> keep(s[i]) {
        assert forall i :: 0 <= i < |s[1..]| ==> keep(s[1..][i]);
      }
    }
  }

  /** substr($s, 0, $n) for a non-negative length: the first `n` bytes, or all of `s`. */
  function Prefix(s: Bytes, n: nat): (r: Bytes)
    ensures r <= s
    ensures |r| == Min(n, |s|)
  {
    if |s| <= n then s else s[..n]
  }

  /** The receiving key: whitespace removed, then cut to 99 bytes (PIX.php:82). */
  function Key(raw: Bytes): (r: Bytes)
    ensures r <= Filter(raw, KeyByte)
    ensures |r| == Min(KeyMax, |Filter(raw, KeyByte)|)
    ensures forall i :: 0 <= i < |r| ==> !IsWhitespace(r[i])
  {
    Prefix(Filter(raw, KeyByte), KeyMax)
  }

  /** The merchant name: ASCII letters and spaces only, cut to 25 bytes (PIX.php:83). */
  function Merchant(raw: Bytes): (r: Bytes)
    ensures r <= Filter(raw, NameByte)
    ensures |r| == Min(MerchantMax, |Filter(raw, NameByte)|)
    ensures forall i :: 0 <= i < |r| ==> NameByte(r[i])
  {
    Prefix(Filter(raw, NameByte), MerchantMax)
  }

  /** The city: ASCII letters and spaces only, cut to 15 bytes (PIX.php:84). */
  function City(raw: Bytes): (r: Bytes)
    ensures r <= Filter(raw, NameByte)
    ensures |r| == Min(CityMax, |Filter(raw, NameByte)|)
    ensures forall i :: 0 <= i < |r| ==> NameByte(r[i])
  {
    Prefix(Filter(raw, NameByte), CityMax)
  }

  /** The reference code: ASCII letters and digits only, cut to 20 bytes (PIX.php:85). */
  function Code(raw: Bytes): (r: Bytes)
    ensures r <= Filter(raw, CodeByte)
    ensures |r| == Min(CodeMax, |Filter(raw, CodeByte)|)
    ensures forall i :: 0 <= i < |r| ==> CodeByte(r[i])
  {
    Prefix(Filter(raw, CodeByte), CodeMax)
  }

  /** Sanitizing is idempotent: a sanitized value passes its own filter unchanged. */
  lemma SanitizeIdempotent(key: Bytes, merchant: Bytes, city: Bytes, code: Bytes)
    ensures Key(Key(key)) == Key(key)
    ensures Merchant(Merchant(merchant)) == Merchant(merchant)
    ensures City(City(city)) == City(city)
    ensures Code(Code(code)) == Code(code)
  {
    FilterKeepsAllowed(Key(key), KeyByte);
    FilterKeepsAllowed(Merchant(merchant), NameByte);
    FilterKeepsAllowed(City(city), NameByte);
    FilterKeepsAllowed(Code(code), CodeByte);
  }
}
