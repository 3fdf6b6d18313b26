/** UTF-8 as Node encodes strings (section 3 of RFC 3629): a lone surrogate is written as U+FFFD. */
module Utf8 {
  import opened Utf16

  type Byte = b: int | 0 <= b < 256

  type Scalar = u: int | 0 <= u < 0x11_0000

  const REPLACEMENT: int := 0xFFFD

  function Pair(high: CodeUnit, low: CodeUnit): Scalar
    requires IsHigh(high) && IsLow(low)
  {
    0x1_0000 + (high - 0xD800) * 0x400 + (low - 0xDC00)
  }

  function Scalars(text: Text): seq<Scalar> {
    if text == [] then []
    else if StartsPair(text) then [Pair(text[0], text[1])] + Scalars(text[2..])
    else [if IsHigh(text[0]) || IsLow(text[0]) then REPLACEMENT else text[0]] + Scalars(text[1..])
  }

  /** The units of one scalar value. */
  function Units(u: Scalar): Text {
    if u < 0x1_0000 then [u] else [0xD800 + (u - 0x1_0000) / 0x400, 0xDC00 + (u - 0x1_0000) % 0x400]
  }

  function AllUnits(scalars: seq<Scalar>): Text {
    if scalars == [] then [] else Units(scalars[0]) + AllUnits(scalars[1..])
  }

  /** The text a reader of the bytes gets back: lone surrogates replaced. */
  function Repaired(text: Text): Text {
    if text == [] then []
    else if StartsPair(text) then text[..2] + Repaired(text[2..])
    else [if IsHigh(text[0]) || IsLow(text[0]) then REPLACEMENT else text[0]] + Repaired(text[1..])
  }

  predicate WellFormed(text: Text) {
    text == [] || if StartsPair(text) then WellFormed(text[2..])
                  else !IsHigh(text[0]) && !IsLow(text[0]) && WellFormed(text[1..])
  }

  lemma {:induction false} WellFormedNeedsNoRepair(text: Text)
    ensures WellFormed(text) ==> Repaired(text) == text
    decreases |text|
  {
    if text == [] {
    } else {
      if StartsPair(text) {
        WellFormedNeedsNoRepair(text[2..]);
        assert text[..2] + text[2..] == text;
      } else {
        WellFormedNeedsNoRepair(text[1..]);
        assert [text[0]] + text[1..] == text;
      }
    }
  }

  lemma {:induction false} RepairedIsUnits(text: Text)
    ensures AllUnits(Scalars(text)) == Repaired(text)
    decreases |text|
  {
    if text == [] {
    } else {
      if StartsPair(text) {
        RepairedIsUnits(text[2..]);
        var u := Pair(text[0], text[1]);
        assert Units(u) == text[..2];
        assert ([u] + Scalars(text[2..]))[1..] == Scalars(text[2..]);
      } else {
        RepairedIsUnits(text[1..]);
        var u := if IsHigh(text[0]) || IsLow(text[0]) then REPLACEMENT else text[0];
        assert ([u] + Scalars(text[1..]))[1..] == Scalars(text[1..]);
      }
    }
  }

  lemma {:induction false} RepairKeepsScalars(text: Text)
    ensures Scalars(Repaired(text)) == Scalars(text)
    decreases |text|
  {
    if text == [] {
    } else {
      if StartsPair(text) {
        RepairKeepsScalars(text[2..]);
        var repaired := Repaired(text);
        assert repaired == text[..2] + Repaired(text[2..]);
        assert repaired[2..] == Repaired(text[2..]) && repaired[0] == text[0] && repaired[1] == text[1];
      } else {
        RepairKeepsScalars(text[1..]);
        var repaired := Repaired(text);
        assert repaired[1..] == Repaired(text[1..]);
        assert !IsHigh(repaired[0]) && !IsLow(repaired[0]);
      }
    }
  }

  // ---------- Bytes ----------

  function Encode1(u: Scalar): seq<Byte> {
    if u < 0x80 then [u]
    else if u < 0x800 then [0xC0 + u / 64, 0x80 + u % 64]
    else if u < 0x1_0000 then [0xE0 + u / 4096, 0x80 + u / 64 % 64, 0x80 + u % 64]
    else [0xF0 + u / 262144, 0x80 + u / 4096 % 64, 0x80 + u / 64 % 64, 0x80 + u % 64]
  }

  function EncodeAll(scalars: seq<Scalar>): seq<Byte> {
    if scalars == [] then [] else Encode1(scalars[0]) + EncodeAll(scalars[1..])
  }

  /** `Buffer.from(text, 'utf8')`. */
  function Encode(text: Text): seq<Byte> {
    EncodeAll(Scalars(text))
  }

  /** The first scalar of encoded bytes: the lead byte says how many follow. */
  lemma Encode1IsPrefixFree(u: Scalar, v: Scalar, a: seq<Byte>, b: seq<Byte>)
    requires Encode1(u) + a == Encode1(v) + b
    ensures u == v && a == b
  {
    var x, y := Encode1(u), Encode1(v);
    assert (x + a)[0] == (y + b)[0];
    assert |x| == |y|;
    assert forall i | 0 <= i < |x| :: (x + a)[i] == x[i] && (y + b)[i] == y[i];
    SameEncoding(u, v);
    assert (x + a)[|x|..] == a && (y + b)[|y|..] == b;
  }

  lemma SameEncoding(u: Scalar, v: Scalar)
    requires Encode1(u) == Encode1(v)
    ensures u == v
  {
    Rebuild(u);
    Rebuild(v);
  }

  /** The payload bits of byte `i`, whose marker is `base`. */
  function Bits(x: seq<Byte>, i: nat, base: int): int
    requires i < |x|
  {
    x[i] - base
  }

  function Decode1(x: seq<Byte>): int
    requires 1 <= |x| <= 4
  {
    if |x| == 1 then Bits(x, 0, 0)
    else if |x| == 2 then 64 * Bits(x, 0, 0xC0) + Bits(x, 1, 0x80)
    else if |x| == 3 then 4096 * Bits(x, 0, 0xE0) + 64 * Bits(x, 1, 0x80) + Bits(x, 2, 0x80)
    else 262144 * Bits(x, 0, 0xF0) + 4096 * Bits(x, 1, 0x80) + 64 * Bits(x, 2, 0x80) + Bits(x, 3, 0x80)
  }

  lemma Rebuild(u: Scalar)
    ensures Decode1(Encode1(u)) == u
  {
    hide Decode1;
    var x := Encode1(u);
    if u < 0x80 {
      DecodeOne(x);
    } else if u < 0x800 {
      DecodeTwo(x);
    } else if u < 0x1_0000 {
      DecodeThree(x);
      Base64Digits(u);
    } else {
      DecodeFour(x);
      Base64Digits(u);
    }
  }

  lemma Base64Digits(u: Scalar)
    ensures u == 4096 * (u / 4096) + 64 * (u / 64 % 64) + u % 64
    ensures u == 262144 * (u / 262144) + 4096 * (u / 4096 % 64) + 64 * (u / 64 % 64) + u % 64
  {
    assert u / 64 / 64 == u / 4096;
    assert u / 4096 / 64 == u / 262144;
  }

  lemma DecodeOne(x: seq<Byte>)
    requires |x| == 1
    ensures Decode1(x) == x[0]
  {
  }

  lemma DecodeTwo(x: seq<Byte>)
    requires |x| == 2
    ensures Decode1(x) == 64 * Bits(x, 0, 0xC0) + Bits(x, 1, 0x80)
  {
  }

  lemma DecodeThree(x: seq<Byte>)
    requires |x| == 3
    ensures Decode1(x) == 4096 * Bits(x, 0, 0xE0) + 64 * Bits(x, 1, 0x80) + Bits(x, 2, 0x80)
  {
  }

  lemma DecodeFour(x: seq<Byte>)
    requires |x| == 4
    ensures Decode1(x) == 262144 * Bits(x, 0, 0xF0) + 4096 * Bits(x, 1, 0x80) + 64 * Bits(x, 2, 0x80) + Bits(x, 3, 0x80)
  {
  }

  lemma {:induction false} EncodeAllIsInjective(a: seq<Scalar>, b: seq<Scalar>)
    requires EncodeAll(a) == EncodeAll(b)
    ensures a == b
    decreases |a|
  {
    if a == [] || b == [] {
    } else {
      Encode1IsPrefixFree(a[0], b[0], EncodeAll(a[1..]), EncodeAll(b[1..]));
      EncodeAllIsInjective(a[1..], b[1..]);
      assert a == [a[0]] + a[1..] && b == [b[0]] + b[1..];
    }
  }

  /** Two texts have the same bytes exactly when they differ in lone surrogates at most. */
  lemma SameBytesIffSameRepair(a: Text, b: Text)
    ensures Encode(a) == Encode(b) <==> Repaired(a) == Repaired(b)
  {
    if Encode(a) == Encode(b) {
      EncodeAllIsInjective(Scalars(a), Scalars(b));
      RepairedIsUnits(a);
      RepairedIsUnits(b);
    }
    RepairKeepsScalars(a);
    RepairKeepsScalars(b);
  }

  /** The byte count `Buffer.byteLength` reports is the length of the encoding. */
  lemma {:induction false} ByteLengthIsEncodedLength(text: Text)
    ensures |Encode(text)| == Utf8Bytes(text)
    decreases |text|
  {
    if text == [] {
    } else {
      var step := if StartsPair(text) then 2 else 1;
      ByteLengthIsEncodedLength(text[step..]);
      var scalars := Scalars(text);
      assert scalars[1..] == Scalars(text[step..]);
    }
  }

  /** Encoding distributes over a join that does not put the halves of a surrogate pair together. */
  lemma {:induction false} EncodeJoins(a: Text, b: Text)
    requires !Splits(a + b, |a|)
    ensures Encode(a + b) == Encode(a) + Encode(b)
    decreases |a|
  {
    if a == [] {
      assert a + b == b;
    } else {
      hide Encode, Encode1, FirstScalar, Splits;
      var step := if StartsPair(a) then 2 else 1;
      JoinKeepsStart(a, b);
      EncodeJoins(a[step..], b);
      hide StartsPair;
      EncodeStep(a);
      EncodeStep(a + b);
      Assoc(Encode1(FirstScalar(a)), Encode(a[step..]), Encode(b));
    }
  }

  lemma Assoc(a: seq<Byte>, b: seq<Byte>, c: seq<Byte>)
    ensures (a + b) + c == a + (b + c)
  {
  }

  lemma JoinKeepsStart(a: Text, b: Text)
    requires a != [] && !Splits(a + b, |a|)
    ensures StartsPair(a + b) == StartsPair(a) && FirstScalar(a + b) == FirstScalar(a)
    ensures var step := if StartsPair(a) then 2 else 1;
      (a + b)[step..] == a[step..] + b && !Splits(a[step..] + b, |a| - step)
  {
    hide Pair;
    if |a| >= 2 {
      assert (a + b)[1] == a[1];
    } else if b != [] {
      assert (a + b)[1] == b[0];
    }
    var step := if StartsPair(a) then 2 else 1;
    var rest := a[step..] + b;
    assert (a + b)[step..] == rest;
    forall k | 0 <= k < |rest| ensures rest[k] == (a + b)[k + step] { }
  }

  function FirstScalar(text: Text): Scalar
    requires text != []
  {
    if StartsPair(text) then Pair(text[0], text[1])
    else if IsHigh(text[0]) || IsLow(text[0]) then REPLACEMENT else text[0]
  }

  lemma EncodeStep(text: Text)
    requires text != []
    ensures Encode(text) == Encode1(FirstScalar(text)) + Encode(text[if StartsPair(text) then 2 else 1..])
  {
    hide Encode1;
    var rest := Scalars(text[if StartsPair(text) then 2 else 1..]);
    assert Scalars(text) == [FirstScalar(text)] + rest;
    assert Scalars(text)[1..] == rest;
  }

  /** ASCII text is its own encoding. */
  lemma {:induction false} AsciiEncodesItself(text: Text)
    requires forall i | 0 <= i < |text| :: text[i] < 0x80
    ensures Encode(text) == text
    decreases |text|
  {
    if text == [] {
    } else {
      AsciiEncodesItself(text[1..]);
      EncodeStep(text);
      assert text == [text[0]] + text[1..];
    }
  }
}
