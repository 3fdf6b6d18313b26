/**
 JavaScript strings as sequences of UTF-16 code units (section 2.1 of RFC 2781), and the
 number of bytes they take once serialised.
 */
module Utf16 {
  type CodeUnit = u: int | 0 <= u < 0x1_0000
  type Text = seq<CodeUnit>

  predicate IsHigh(u: CodeUnit) { 0xD800 <= u <= 0xDBFF }

  predicate IsLow(u: CodeUnit) { 0xDC00 <= u <= 0xDFFF }

  predicate StartsPair(text: Text) {
    |text| >= 2 && IsHigh(text[0]) && IsLow(text[1])
  }

  /** Cutting before position `k` would separate the two halves of a surrogate pair. */
  predicate Splits(text: Text, k: nat) {
    0 < k < |text| && IsHigh(text[k - 1]) && IsLow(text[k])
  }

  /** UTF-8 length of one unpaired unit (section 3 of RFC 3629); a lone surrogate becomes U+FFFD. */
  function UnitUtf8Bytes(u: CodeUnit): (bytes: nat)
    ensures 1 <= bytes <= 3
  {
    if u < 0x80 then 1 else if u < 0x800 then 2 else 3
  }

  /** Bytes of one unpaired unit inside a well-formed `JSON.stringify` string. */
  function UnitJsonBytes(u: CodeUnit): (bytes: nat)
    ensures 1 <= bytes <= 6
  {
    if u in {8, 9, 10, 12, 13, 34, 92} then 2
    else if u < 0x20 || IsHigh(u) || IsLow(u) then 6
    else UnitUtf8Bytes(u)
  }

  function Utf8Bytes(text: Text): nat {
    if text == [] then 0
    else if StartsPair(text) then 4 + Utf8Bytes(text[2..])
    else UnitUtf8Bytes(text[0]) + Utf8Bytes(text[1..])
  }

  function JsonBytes(text: Text): nat {
    if text == [] then 0
    else if StartsPair(text) then 4 + JsonBytes(text[2..])
    else UnitJsonBytes(text[0]) + JsonBytes(text[1..])
  }

  /** Sizes add up over every cut that leaves surrogate pairs alone. */
  lemma {:induction false} JsonBytesSplit(text: Text, k: nat)
    requires k <= |text| && !Splits(text, k)
    ensures JsonBytes(text) == JsonBytes(text[..k]) + JsonBytes(text[k..])
  {
    if k == 0 {
      assert text[0..] == text;
    } else {
      var step := if StartsPair(text) then 2 else 1;
      assert step <= k;
      JsonBytesSplit(text[step..], k - step);
      assert text[step..][k - step..] == text[k..];
      assert text[..k][step..] == text[step..][..k - step];
    }
  }

  lemma {:induction false} Utf8BytesSplit(text: Text, k: nat)
    requires k <= |text| && !Splits(text, k)
    ensures Utf8Bytes(text) == Utf8Bytes(text[..k]) + Utf8Bytes(text[k..])
  {
    if k == 0 {
      assert text[0..] == text;
    } else {
      var step := if StartsPair(text) then 2 else 1;
      assert step <= k;
      Utf8BytesSplit(text[step..], k - step);
      assert text[step..][k - step..] == text[k..];
      assert text[..k][step..] == text[step..][..k - step];
    }
  }
}
