/**
 Cutting text to a byte budget: `fitRuntimeText` in src/agentHost/AgentRuntime.ts (binary search
 over the JSON size) and `boundUtf8` in src/application/RemoteTaskRunner.ts (character by
 character over the UTF-8 size).
 */
module RuntimeText {
  import opened Wrappers
  import opened Utf16

  predicate Fits(text: Text, overhead: nat, maxBytes: nat, k: nat) {
    k <= |text| && overhead + JsonBytes(text[..k]) <= maxBytes
  }

  /** The longest cut at or before `k` that splits no pair and fits. */
  function LongestFit(text: Text, overhead: nat, maxBytes: nat, k: nat): (cut: Option<nat>)
    requires k <= |text|
    ensures cut.Some? ==> cut.value <= k && !Splits(text, cut.value) && Fits(text, overhead, maxBytes, cut.value)
  {
    if !Splits(text, k) && Fits(text, overhead, maxBytes, k) then Some(k)
    else if k == 0 then None
    else LongestFit(text, overhead, maxBytes, k - 1)
  }

  /** The text kept by truncation; None when not even the empty text fits. */
  function FitText(text: Text, overhead: nat, maxBytes: nat): (kept: Option<Text>) {
    var cut := LongestFit(text, overhead, maxBytes, |text|);
    if cut.Some? then Some(text[..cut.value]) else None
  }

  /** No cut that fits is longer than the one chosen, not even a cut through a surrogate pair. */
  lemma {:induction false} LongestFitIsMaximal(text: Text, overhead: nat, maxBytes: nat, k: nat, j: nat)
    requires j <= k <= |text| && Fits(text, overhead, maxBytes, j)
    requires Splits(text, j) ==> j < k
    ensures LongestFit(text, overhead, maxBytes, k).Some? && LongestFit(text, overhead, maxBytes, k).value >= j
    decreases k
  {
    if !Splits(text, k) && Fits(text, overhead, maxBytes, k) {
    } else if Splits(text, j) && j + 1 == k {
      SplitCutCostsMore(text, j);
    } else {
      LongestFitIsMaximal(text, overhead, maxBytes, k - 1, j);
    }
  }

  /** A half pair is escaped to six bytes, the whole pair takes four. */
  lemma SplitCutCostsMore(text: Text, j: nat)
    requires Splits(text, j)
    ensures !Splits(text, j + 1) && JsonBytes(text[..j + 1]) < JsonBytes(text[..j])
  {
    var whole, half := text[..j + 1], text[..j];
    JsonBytesSplit(whole, j - 1);
    JsonBytesSplit(half, j - 1);
    assert whole[..j - 1] == half[..j - 1];
    assert whole[j - 1..] == [text[j - 1], text[j]] && half[j - 1..] == [text[j - 1]];
    assert whole[j - 1..][2..] == [] && half[j - 1..][1..] == [];
  }

  lemma FitTextIsMaximal(text: Text, overhead: nat, maxBytes: nat, j: nat)
    requires Fits(text, overhead, maxBytes, j)
    ensures FitText(text, overhead, maxBytes).Some? && |FitText(text, overhead, maxBytes).value| >= j
  {
    LongestFitIsMaximal(text, overhead, maxBytes, |text|, j);
  }

  lemma FitTextFits(text: Text, overhead: nat, maxBytes: nat)
    ensures FitText(text, overhead, maxBytes).Some? ==>
      var kept := FitText(text, overhead, maxBytes).value;
      kept <= text && !Splits(text, |kept|) && overhead + JsonBytes(kept) <= maxBytes
    ensures overhead + JsonBytes(text) <= maxBytes ==> FitText(text, overhead, maxBytes) == Some(text)
    ensures FitText(text, overhead, maxBytes).None? <==> overhead > maxBytes
  {
    assert text[..|text|] == text;
    if overhead <= maxBytes {
      assert Fits(text, overhead, maxBytes, 0);
      FitTextIsMaximal(text, overhead, maxBytes, 0);
    }
  }

  /** The boundary the search tries instead of `k`. */
  function Snap(text: Text, k: nat): (cut: nat)
    requires k <= |text|
    ensures cut <= k && !Splits(text, cut)
  {
    if Splits(text, k) then k - 1 else k
  }

  lemma SnapFitsDownward(text: Text, overhead: nat, maxBytes: nat, j: nat, k: nat)
    requires j <= k <= |text| && Fits(text, overhead, maxBytes, Snap(text, k))
    ensures Fits(text, overhead, maxBytes, Snap(text, j))
  {
    var a, b := Snap(text, j), Snap(text, k);
    assert a <= b;
    var upper := text[..b];
    assert upper[..a] == text[..a];
    JsonBytesSplit(upper, a);
  }

  /** The binary search: `low` and `high` are JavaScript numbers, so `high` may reach -1. */
  method FitRuntimeText(text: Text, overhead: nat, maxBytes: nat) returns (best: Option<Text>)
    ensures best == FitText(text, overhead, maxBytes)
  {
    var low: int, high: int := 0, |text|;
    best := None;
    while low <= high
      invariant 0 <= low <= high + 1 <= |text| + 1
      invariant low == 0 ==> best.None?
      invariant low > 0 ==> Fits(text, overhead, maxBytes, Snap(text, low - 1))
      invariant low > 0 ==> best == Some(text[..Snap(text, low - 1)])
      invariant high < |text| ==> !Fits(text, overhead, maxBytes, Snap(text, high + 1))
      decreases high - low
    {
      var middle := (low + high) / 2;
      var end := Snap(text, middle);
      if overhead + JsonBytes(text[..end]) <= maxBytes {
        best := Some(text[..end]);
        low := middle + 1;
      } else {
        high := middle - 1;
      }
    }
    SearchMeetsSpec(text, overhead, maxBytes, low);
  }

  lemma SearchMeetsSpec(text: Text, overhead: nat, maxBytes: nat, low: nat)
    requires low <= |text| + 1
    requires low > 0 ==> Fits(text, overhead, maxBytes, Snap(text, low - 1))
    requires low <= |text| ==> !Fits(text, overhead, maxBytes, Snap(text, low))
    ensures FitText(text, overhead, maxBytes)
         == if low == 0 then None else Some(text[..Snap(text, low - 1)])
  {
    var cut := LongestFit(text, overhead, maxBytes, |text|);
    if cut.Some? && cut.value >= low {
      SnapFitsDownward(text, overhead, maxBytes, low, cut.value);
    }
    if low > 0 {
      LongestFitIsMaximal(text, overhead, maxBytes, |text|, Snap(text, low - 1));
    }
  }

  // ---------- boundUtf8 ----------

  function CharacterUnits(text: Text, at: nat): (units: nat)
    requires at < |text|
    ensures 1 <= units <= |text| - at
  {
    if StartsPair(text[at..]) then 2 else 1
  }

  /** Copies whole characters while they fit; the result is the longest such prefix. */
  method BoundUtf8(text: Text, maxBytes: nat) returns (result: Text)
    ensures result <= text && Utf8Bytes(result) <= maxBytes && !Splits(text, |result|)
    ensures forall k | |result| < k <= |text| && !Splits(text, k) :: Utf8Bytes(text[..k]) > maxBytes
  {
    if Utf8Bytes(text) <= maxBytes {
      return text;
    }
    result := [];
    var bytes, at := 0, 0;
    assert text[..0] == [];
    while at < |text|
      invariant 0 <= at <= |text| && result == text[..at] && !Splits(text, at)
      invariant bytes == Utf8Bytes(result) <= maxBytes
    {
      var units := CharacterUnits(text, at);
      var character := text[at..at + units];
      NextCharacter(text, at);
      var size := Utf8Bytes(character);
      if bytes + size > maxBytes {
        forall k | at < k <= |text| && !Splits(text, k) ensures Utf8Bytes(text[..k]) > maxBytes {
          LongerPrefixCostsMore(text, at + units, k);
        }
        return;
      }
      result := result + character;
      bytes := bytes + size;
      at := at + units;
    }
    assert text[..|text|] == text;
  }

  lemma NextCharacter(text: Text, at: nat)
    requires at < |text| && !Splits(text, at)
    ensures var next := at + CharacterUnits(text, at);
      && !Splits(text, next)
      && text[..at] + text[at..next] == text[..next]
      && Utf8Bytes(text[..next]) == Utf8Bytes(text[..at]) + Utf8Bytes(text[at..next])
      && forall k | at < k < next :: Splits(text, k)
  {
    var next := at + CharacterUnits(text, at);
    var prefix := text[..next];
    assert prefix[..at] == text[..at] && prefix[at..] == text[at..next];
    Utf8BytesSplit(prefix, at);
  }

  lemma LongerPrefixCostsMore(text: Text, j: nat, k: nat)
    requires j <= k <= |text| && !Splits(text, j)
    ensures Utf8Bytes(text[..j]) <= Utf8Bytes(text[..k])
  {
    assert text[..k][..j] == text[..j];
    Utf8BytesSplit(text[..k], j);
  }
}
