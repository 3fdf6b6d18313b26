/**
 What becomes of a call: which events get in, in what form, and when a call waits, is refused or throws.  The
 conditions are about the entries of the queue and the bytes they take, not about the steps that decide them.
 */
module EventQueueOutcomes {
  import opened Wrappers
  import opened Utf16
  import opened RuntimeText
  import opened EventQueue
  import opened EventQueueSafety
  import opened EventQueueRuns

  // ---------- Room ----------

  /** The entries that stay when everything is discarded that may be. */
  function Lasting(values: seq<Event>, includeOutput: bool): seq<Event> {
    if values == [] then []
    else (if Discardable(values[0], includeOutput) then [] else [values[0]]) + Lasting(values[1..], includeOutput)
  }

  /** There is room for so many bytes once that has been done. */
  ghost predicate Roomy(c: Config, values: seq<Event>, includeOutput: bool, bytes: nat) {
    var left := Lasting(values, includeOutput);
    |left| < c.maxItems && SizesOf(left) + bytes <= c.maxBytes
  }

  lemma {:induction false} LastingConcat(a: seq<Event>, b: seq<Event>, includeOutput: bool)
    ensures Lasting(a + b, includeOutput) == Lasting(a, includeOutput) + Lasting(b, includeOutput)
    decreases |a|
  {
    hide Discardable;
    if a == [] {
      assert a + b == b;
    } else {
      LastingConcat(a[1..], b, includeOutput);
      assert (a + b)[1..] == a[1..] + b;
      var first := if Discardable(a[0], includeOutput) then [] else [a[0]];
      Assoc(first, Lasting(a[1..], includeOutput), Lasting(b, includeOutput));
    }
  }

  lemma LastingOne(e: Event, includeOutput: bool)
    ensures Lasting([e], includeOutput) == if Discardable(e, includeOutput) then [] else [e]
  {
    assert [e][1..] == [];
  }

  lemma LastingWithout(values: seq<Event>, i: nat, removed: bool, includeOutput: bool)
    requires i < |values| && Discardable(values[i], removed) && (removed ==> includeOutput)
    ensures Lasting(values[..i] + values[i + 1..], includeOutput) == Lasting(values, includeOutput)
  {
    hide Lasting;
    var front, one, back := values[..i], [values[i]], values[i + 1..];
    assert values == front + (one + back);
    LastingConcat(front, one + back, includeOutput);
    LastingConcat(one, back, includeOutput);
    LastingConcat(front, back, includeOutput);
    LastingOne(values[i], includeOutput);
    assert [] + Lasting(back, includeOutput) == Lasting(back, includeOutput);
  }

  lemma {:induction false} LastingIsLess(values: seq<Event>, includeOutput: bool)
    ensures |Lasting(values, includeOutput)| <= |values| && SizesOf(Lasting(values, includeOutput)) <= SizesOf(values)
    ensures (forall e | e in values :: !Discardable(e, includeOutput)) ==> Lasting(values, includeOutput) == values
    decreases |values|
  {
    hide Size;
    if values == [] {
    } else {
      LastingIsLess(values[1..], includeOutput);
      var left := Lasting(values[1..], includeOutput);
      assert ([values[0]] + left)[1..] == left;
      assert [] + left == left;
      assert [values[0]] + values[1..] == values;
    }
  }

  lemma NothingDiscardable(values: seq<Event>, includeOutput: bool)
    requires FirstDiscardable(values, includeOutput) == |values|
    ensures Lasting(values, includeOutput) == values
  {
    LastingIsLess(values, includeOutput);
    hide Lasting;
    forall e | e in values ensures !Discardable(e, includeOutput) {
      var j :| 0 <= j < |values| && values[j] == e;
    }
  }

  /** With room as it is there is room when more is discarded; with nothing to discard there is none otherwise. */
  lemma RoomyIff(c: Config, s: State, includeOutput: bool, bytes: nat)
    requires s.bufferedBytes == SizesOf(s.values)
    ensures HasCapacity(c, s, bytes) ==> Roomy(c, s.values, includeOutput, bytes)
    ensures FirstDiscardable(s.values, includeOutput) == |s.values| ==>
      (HasCapacity(c, s, bytes) <==> Roomy(c, s.values, includeOutput, bytes))
  {
    LastingIsLess(s.values, includeOutput);
    if FirstDiscardable(s.values, includeOutput) == |s.values| { NothingDiscardable(s.values, includeOutput); }
    hide Lasting, SizesOf, FirstDiscardable;
  }

  /** Discarding touches the buffer and what is on record as lost, and nothing else. */
  ghost predicate Discards(s: State, s': State) {
    && s'.bufferedBytes == SizesOf(s'.values) && s'.log == s.log && s'.delivered == s.delivered
    && s'.accepted == s.accepted && s'.waiting == s.waiting && (s.values == [] ==> s'.values == [])
    && s'.sealed == s.sealed && s'.closed == s.closed && s'.pressureReported == s.pressureReported
    && s'.pendingItems == s.pendingItems && s'.pendingBytes == s.pendingBytes && s'.episodes == s.episodes
    && Lasting(s'.values, true) == Lasting(s.values, true)
  }

  lemma RemoveDiscards(s: State, i: nat, episode: nat)
    requires s.bufferedBytes == SizesOf(s.values) && i < |s.values| && Discardable(s.values[i], true)
    ensures Discards(s, RemoveAt(s, i, episode))
    ensures s.values[i].Output? <==> RemoveAt(s, i, episode).losses != s.losses
    ensures |RemoveAt(s, i, episode).losses| >= |s.losses|
  {
    hide Lasting, SizesOf, Size;
    RemoveSums(s.values, i);
    LastingWithout(s.values, i, true, true);
  }

  lemma DiscardsTogether(a: State, b: State, c: State)
    requires Discards(a, b) && Discards(b, c)
    ensures Discards(a, c)
  {
    hide Lasting, SizesOf;
  }

  lemma {:induction false} EvictProgressMakesRoom(c: Config, s: State, bytes: nat)
    requires s.bufferedBytes == SizesOf(s.values)
    ensures var s' := EvictProgress(c, s, bytes);
      && (HasCapacity(c, s', bytes) <==> Roomy(c, s.values, false, bytes))
      && Discards(s, s') && s'.losses == s.losses && Lasting(s'.values, false) == Lasting(s.values, false)
    decreases |s.values|
  {
    hide Roomy, HasCapacity, Discards, Discardable, RemoveAt;
    var i := FirstDiscardable(s.values, false);
    RoomyIff(c, s, false, bytes);
    if HasCapacity(c, s, bytes) || i == |s.values| {
      DiscardsNothing(s);
    } else {
      DiscardableMore(s.values[i]);
      RemoveDiscards(s, i, 0);
      LastingWithout(s.values, i, false, false);
      EvictsOne(c, s, i, false, bytes, 0);
      EvictProgressMakesRoom(c, RemoveAt(s, i, 0), bytes);
      DiscardsTogether(s, RemoveAt(s, i, 0), EvictProgress(c, s, bytes));
    }
  }

  lemma DiscardsNothing(s: State)
    requires s.bufferedBytes == SizesOf(s.values)
    ensures Discards(s, s)
  {
  }

  lemma DiscardableMore(e: Event)
    requires Discardable(e, false)
    ensures Discardable(e, true) && !e.Output?
  {
  }

  lemma EvictsOne(c: Config, s: State, i: nat, includeOutput: bool, bytes: nat, episode: nat)
    requires s.bufferedBytes == SizesOf(s.values) && i < |s.values| && Discardable(s.values[i], includeOutput)
    ensures var s' := RemoveAt(s, i, episode);
      && s'.bufferedBytes == SizesOf(s'.values) && |s'.values| < |s.values|
      && s'.values == s.values[..i] + s.values[i + 1..] && (!s.values[i].Output? ==> s'.losses == s.losses)
      && (Roomy(c, s'.values, includeOutput, bytes) <==> Roomy(c, s.values, includeOutput, bytes))
  {
    RemoveSums(s.values, i);
    LastingWithout(s.values, i, includeOutput, includeOutput);
    hide Lasting, SizesOf, Size;
  }

  lemma {:induction false} EvictAnyMakesRoom(c: Config, s: State, bytes: nat, episode: nat, discarded: bool)
    requires s.bufferedBytes == SizesOf(s.values)
    ensures var (s', discarded') := EvictAny(c, s, bytes, episode, discarded);
      && (HasCapacity(c, s', bytes) <==> Roomy(c, s.values, true, bytes))
      && Discards(s, s') && |s'.losses| >= |s.losses|
      && (discarded' <==> discarded || |s'.losses| > |s.losses|) && (|s'.losses| == |s.losses| ==> s'.losses == s.losses)
    decreases |s.values|
  {
    hide Roomy, HasCapacity, Discards, Discardable;
    var i := FirstDiscardable(s.values, true);
    RoomyIff(c, s, true, bytes);
    if HasCapacity(c, s, bytes) || i == |s.values| {
      DiscardsNothing(s);
    } else {
      RemoveDiscards(s, i, episode);
      EvictsOne(c, s, i, true, bytes, episode);
      EvictAnyMakesRoom(c, RemoveAt(s, i, episode), bytes, episode, discarded || s.values[i].Output?);
      DiscardsTogether(s, RemoveAt(s, i, episode), EvictAny(c, s, bytes, episode, discarded).0);
    }
  }

  // ---------- Cutting ----------

  /** The text is cut to the longest prefix within the budget, and no surrogate pair is split. */
  ghost predicate CutTo(e: Event, budget: int, t: Text) {
    && !e.Other? && t <= e.text && !Splits(e.text, |t|) && Overhead(e) + JsonBytes(t) <= budget
    && forall j: nat | |t| < j <= |e.text| :: Overhead(e) + JsonBytes(e.text[..j]) > budget
  }

  lemma TruncateCuts(e: Event, budget: nat)
    ensures Truncate(e, budget).None? <==> e.Other? || Overhead(e) > budget
    ensures Truncate(e, budget).Some? ==>
      var cut := Truncate(e, budget).value;
      && CutTo(e, budget, cut.text) && cut == e.(text := cut.text) && Size(cut) <= budget
      && (Size(e) <= budget ==> cut == e)
  {
    if !e.Other? {
      FitTextFits(e.text, Overhead(e), budget);
      if Truncate(e, budget).Some? {
        var t := FitText(e.text, Overhead(e), budget).value;
        forall j: nat | |t| < j <= |e.text| ensures Overhead(e) + JsonBytes(e.text[..j]) > budget {
          if Fits(e.text, Overhead(e), budget, j) { FitTextIsMaximal(e.text, Overhead(e), budget, j); }
        }
      }
    }
  }

  // ---------- What a call may come to ----------

  /** One more event is logged, and it is the newest of those delivered and buffered. */
  ghost predicate Entered(s: State, s': State, e: Event) {
    && s'.log == s.log + [e]
    && s'.delivered + s'.values == s.delivered + s.values + [e]
  }

  lemma EnqueueEnters(s: State, e: Event)
    requires s.waiting != [] ==> s.values == []
    ensures Entered(s, Enqueue(s, e), e)
    ensures Enqueue(s, e).losses == s.losses
  {
    hide Size;
  }

  /** The report of pressure: one notice for each episode, as soon as there can be room for it. */
  ghost predicate ReportRight(c: Config, s: State, allowSealed: bool, s': State, phase: Phase) {
    if s.pressureReported || IngressClosed(s, allowSealed) then s'.log == s.log && phase == Settled
    else
      && s'.pressureReported && s'.episodes == s.episodes + 1
      && NoticeRight(c, s.log, s.values, s', phase)
  }

  ghost predicate NoticeRight(c: Config, log: seq<Event>, values: seq<Event>, s': State, phase: Phase) {
    if Size(NOTICE) > c.maxBytes then s'.log == log && phase == Rejected
    else if Roomy(c, values, true, Size(NOTICE)) then s'.log == log + [NOTICE] && phase == Settled
    else s'.log == log && phase == Waiting
  }

  lemma {:induction false} ReportLoopIsRight(c: Config, s: State, episode: nat)
    requires s.bufferedBytes == SizesOf(s.values)
    ensures var (s', phase) := ReportLoop(c, s, episode);
      && s'.pressureReported == s.pressureReported && s'.episodes == s.episodes
      && s'.sealed == s.sealed && s'.closed == s.closed && s'.pendingItems == s.pendingItems && s'.pendingBytes == s.pendingBytes
      && (if Roomy(c, s.values, true, Size(NOTICE)) then s'.log == s.log + [NOTICE] && phase == Settled
          else s'.log == s.log && phase == Waiting)
    decreases |s.values|
  {
    hide Roomy, HasCapacity, Discardable, NOTICE, Size, RemoveAt;
    var i := FirstDiscardable(s.values, true);
    RoomyIff(c, s, true, Size(NOTICE));
    if HasCapacity(c, s, Size(NOTICE)) || i == |s.values| {
    } else {
      RemoveDiscards(s, i, episode);
      EvictsOne(c, s, i, true, Size(NOTICE), episode);
      ReportLoopIsRight(c, RemoveAt(s, i, episode), episode);
    }
  }

  lemma BeginReportIsRight(c: Config, s: State, allowSealed: bool)
    requires s.bufferedBytes == SizesOf(s.values)
    ensures var (s', phase) := BeginReport(c, s, allowSealed);
      ReportRight(c, s, allowSealed, s', phase)
  {
    hide Roomy, NOTICE, Size, ReportLoop;
    if !s.pressureReported && !IngressClosed(s, allowSealed) {
      ReportLoopIsRight(c, s.(pressureReported := true, episodes := s.episodes + 1), s.episodes + 1);
    }
  }

  /** The call waits for the report of the pressure it met, and then goes on with `next`. */
  ghost predicate Reports(c: Config, s: State, allowSealed: bool, s': State, flow: Flow, next: Next) {
    && flow.Suspend? && flow.stage.Reporting? && flow.stage.next == next
    && flow.parked == (flow.stage.phase == Waiting)
    && ReportRight(c, s, allowSealed, s', flow.stage.phase)
  }

  lemma ReportIsRight(c: Config, s: State, allowSealed: bool, lost: nat, next: Next)
    requires s.bufferedBytes == SizesOf(s.values)
    ensures var (s', flow) := Report(c, s, allowSealed, lost, next);
      Reports(c, s, allowSealed, s', flow, next)
  {
    hide Roomy, NOTICE, Size, BeginReport;
    BeginReportIsRight(c, s, allowSealed);
  }

  // ---------- Output ----------

  /** The new text joins the newest entry. */
  predicate Joins(c: Config, s: State, e: Event) {
    s.values != [] &&
      var last := s.values[|s.values| - 1];
      && last.Output? && e.Output? && Utf8Bytes(last.text) + Utf8Bytes(e.text) <= OUTPUT_BATCH_BYTES
      && Size(Output(last.text + e.text)) <= c.maxBytes
      && s.bufferedBytes - Size(last) + Size(Output(last.text + e.text)) <= c.maxBytes
  }

  /** Output that could fit: it gets in if it does once all progress is given up, which costs no output. */
  ghost predicate OfferedRight(c: Config, s: State, e: Event, allowSealed: bool, s': State, flow: Flow) {
    if Roomy(c, s.values, false, Size(e)) then
      && flow == Done(true) && s'.log == s.log + [e] && s'.losses == s.losses
      && Lasting(s'.delivered + s'.values, false) == Lasting(s.delivered + s.values, false) + [e]
    else
      exists given: State :: Discards(s, given) && Reports(c, given, allowSealed, s', flow, Squeeze(e))
  }

  /** After its report output is cut to the bytes left, and dropped exactly when not even the empty text fits. */
  ghost predicate SqueezedRight(c: Config, s: State, e: Event, s': State, flow: Flow) {
    if |s.values| < c.maxItems && s.bufferedBytes + Overhead(e) <= c.maxBytes then
      && flow == Done(true)
      && exists t :: CutTo(e, c.maxBytes - s.bufferedBytes, t) && Entered(s, s', Output(t))
                  && LossUnits(s'.losses) == LossUnits(s.losses) + Units(e) - |t|
    else
      && flow == Done(false) && s'.log == s.log && s'.values == s.values
      && LossUnits(s'.losses) == LossUnits(s.losses) + Units(e)
  }

  lemma OneMoreLoss(losses: seq<Loss>, loss: Loss)
    ensures LossUnits(losses + [loss]) == LossUnits(losses) + loss.units
  {
    LossUnitsConcat(losses, [loss]);
    assert [loss][1..] == [];
  }

  lemma OfferIsRight(c: Config, s: State, e: Event, allowSealed: bool)
    requires Sound(c, s) && e.Output?
    ensures var (s', flow) := OfferOutput(c, s, e, allowSealed); OfferedRight(c, s, e, allowSealed, s', flow)
  {
    hide Sound, Roomy, HasCapacity, Discards, Report, Size, Lasting, Discardable, Enqueue, EvictProgress, ReportRight;
    SoundFacts(c, s);
    EvictProgressMakesRoom(c, s, Size(e));
    var given := EvictProgress(c, s, Size(e));
    DiscardsFacts(s, given);
    if HasCapacity(c, given, Size(e)) {
      EnqueueEnters(given, e);
      var s' := Enqueue(given, e);
      LastingConcat(s.delivered, s.values, false);
      LastingConcat(s.delivered, given.values, false);
      LastingConcat(given.delivered + given.values, [e], false);
      LastingOne(e, false);
      OutputLasts(e);
    } else {
      ReportIsRight(c, given, allowSealed, 0, Squeeze(e));
    }
  }

  lemma OutputLasts(e: Event)
    requires e.Output?
    ensures !Discardable(e, false)
  {
  }

  lemma SoundFacts(c: Config, s: State)
    requires Sound(c, s)
    ensures s.bufferedBytes == SizesOf(s.values) && (s.waiting != [] ==> s.values == []) && s.bufferedBytes <= c.maxBytes
  {
    hide SizesOf, ControlsOf, TextOf, Complete, ReportsOk;
  }

  lemma DiscardsFacts(s: State, s': State)
    requires Discards(s, s')
    ensures s'.bufferedBytes == SizesOf(s'.values) && s'.log == s.log && s'.delivered == s.delivered
    ensures s'.waiting == s.waiting && (s.values == [] ==> s'.values == [])
    ensures s'.sealed == s.sealed && s'.closed == s.closed
    ensures s'.pendingItems == s.pendingItems && s'.pendingBytes == s.pendingBytes
  {
    hide SizesOf, Lasting;
  }

  lemma SqueezeIsRight(c: Config, s: State, e: Event, allowSealed: bool, episode: nat)
    requires s.bufferedBytes <= c.maxBytes && (s.waiting != [] ==> s.values == [])
    requires e.Output? && !IngressClosed(s, allowSealed)
    ensures var (s', flow) := SqueezeOutput(c, s, e, allowSealed, episode); SqueezedRight(c, s, e, s', flow)
  {
    hide Truncate, FitText, JsonBytes, CutTo, SqueezedRight, CutKept, SqueezeOutput, Lose, Size, IngressClosed;
    var budget := c.maxBytes - s.bufferedBytes;
    TruncateCuts(e, budget);
    SqueezeIs(c, s, e, allowSealed, episode);
    var cut := Truncate(e, budget);
    if |s.values| < c.maxItems && cut.Some? {
      CutEnters(c, s, e, cut.value.text, episode);
    } else {
      DroppedRight(c, s, e, episode);
    }
  }

  lemma SqueezeIs(c: Config, s: State, e: Event, allowSealed: bool, episode: nat)
    requires !IngressClosed(s, allowSealed) && s.bufferedBytes <= c.maxBytes && e.Output?
    requires var cut := Truncate(e, c.maxBytes - s.bufferedBytes);
      cut.Some? ==> Size(cut.value) <= c.maxBytes - s.bufferedBytes
    ensures var cut := Truncate(e, c.maxBytes - s.bufferedBytes);
      SqueezeOutput(c, s, e, allowSealed, episode) ==
        if |s.values| >= c.maxItems || cut.None? then (Lose(s, |e.text|, episode), Done(false))
        else (CutKept(s, e, cut.value.text, episode), Done(true))
  {
    hide Truncate, Enqueue, Size, FitText;
  }

  /** The state after the cut text has been enqueued. */
  function CutKept(s: State, e: Event, t: Text, episode: nat): State
    requires e.Output?
  {
    var kept := Enqueue(s, Output(t));
    if |t| < |e.text| then Lose(kept, |e.text| - |t|, episode) else kept
  }

  lemma DroppedRight(c: Config, s: State, e: Event, episode: nat)
    requires e.Output? && !(|s.values| < c.maxItems && s.bufferedBytes + Overhead(e) <= c.maxBytes)
    ensures SqueezedRight(c, s, e, Lose(s, |e.text|, episode), Done(false))
  {
    hide LossUnits;
    OneMoreLoss(s.losses, Loss(|e.text|, episode, false));
  }

  lemma CutEnters(c: Config, s: State, e: Event, t: Text, episode: nat)
    requires |s.values| < c.maxItems && (s.waiting != [] ==> s.values == []) && e.Output?
    requires s.bufferedBytes + Overhead(e) <= c.maxBytes && CutTo(e, c.maxBytes - s.bufferedBytes, t)
    ensures SqueezedRight(c, s, e, CutKept(s, e, t, episode), Done(true))
  {
    hide CutTo, LossUnits, Enqueue, Entered, JsonBytes, SizesOf;
    CutIsShorter(e, c.maxBytes - s.bufferedBytes, t);
    var kept := Enqueue(s, Output(t));
    EnqueueEnters(s, Output(t));
    if |t| < |e.text| {
      var loss := Loss(|e.text| - |t|, episode, false);
      OneMoreLoss(kept.losses, loss);
      EnteredLater(s, kept, Lose(kept, |e.text| - |t|, episode), Output(t));
    }
  }

  lemma CutIsShorter(e: Event, budget: int, t: Text)
    requires CutTo(e, budget, t)
    ensures |t| <= |e.text|
  {
  }

  lemma EnteredLater(s: State, a: State, b: State, e: Event)
    requires Entered(s, a, e) && b == a.(losses := b.losses)
    ensures Entered(s, b, e)
  {
  }

  // ---------- Progress ----------

  /** The new progress takes the place of the newest entry. */
  predicate Replaces(c: Config, s: State, e: Event) {
    && s.values != [] && s.values[|s.values| - 1].Progress? && e.Progress?
    && Size(e) <= c.maxBytes && s.bufferedBytes - Size(s.values[|s.values| - 1]) + Size(e) <= c.maxBytes
  }

  /** Entry `i` is the oldest progress, and without it there is room. */
  predicate MakesRoom(c: Config, s: State, i: nat, bytes: nat) {
    && i < |s.values| && s.values[i].Progress? && (forall j | 0 <= j < i :: !s.values[j].Progress?)
    && |s.values| <= c.maxItems && s.bufferedBytes - Size(s.values[i]) + bytes <= c.maxBytes
  }

  /** Progress gets in if there is room, or there is without the oldest one; otherwise it is dropped. */
  ghost predicate ProgressRight(c: Config, s: State, e: Event, s': State, flow: Flow) {
    && s'.losses == s.losses
    && if HasCapacity(c, s, Size(e)) || (exists i: nat :: MakesRoom(c, s, i, Size(e)))
       then flow == Done(true) && s'.log == s.log + [e]
       else flow == Done(false) && s'.log == s.log
  }

  lemma ProgressIsRight(c: Config, s: State, e: Event)
    requires Sound(c, s)
    ensures var (s', flow) := OfferProgress(c, s, e); ProgressRight(c, s, e, s', flow)
  {
    hide Sound, Size, MakesRoom, Enqueue, RemoveAt, HasCapacity, FirstDiscardable;
    var i := FirstDiscardable(s.values, false);
    OldestProgress(c, s, Size(e));
    if i < |s.values| { RemoveLogsNothing(s, i); }
    EnqueueLogs(s, e);
    if i < |s.values| { EnqueueLogs(RemoveAt(s, i, 0), e); }
  }

  lemma EnqueueLogs(s: State, e: Event)
    ensures Enqueue(s, e).log == s.log + [e] && Enqueue(s, e).losses == s.losses
  {
    hide Size;
  }

  lemma RemoveLogsNothing(s: State, i: nat)
    requires i < |s.values| && Discardable(s.values[i], false)
    ensures RemoveAt(s, i, 0).log == s.log && RemoveAt(s, i, 0).losses == s.losses
  {
    hide Size;
  }

  lemma OldestProgress(c: Config, s: State, bytes: nat)
    ensures var i := FirstDiscardable(s.values, false);
      && (forall j: nat | MakesRoom(c, s, j, bytes) :: j == i < |s.values|)
      && (i < |s.values| ==> (MakesRoom(c, s, i, bytes) <==> HasCapacity(c, RemoveAt(s, i, 0), bytes)))
  {
    hide Size, FirstDiscardable;
    var i := FirstDiscardable(s.values, false);
    forall j: nat | MakesRoom(c, s, j, bytes) ensures j == i < |s.values| {
      assert Discardable(s.values[j], false);
    }
  }

  // ---------- Control events ----------

  /** A control event gets in, waits for room, or is thrown out when too much is waiting. */
  ghost predicate AdmittedRight(c: Config, s: State, e: Event, allowSealed: bool, s': State, flow: Flow) {
    if HasCapacity(c, s, Size(e)) && !IngressClosed(s, allowSealed)
    then flow == Done(true) && Entered(s, s', e) && s'.losses == s.losses
    else
      && s'.log == s.log && s'.values == s.values
      && (flow == Threw <==> !HasCapacity(c, s, Size(e))
                             && (s.pendingItems + 1 > c.maxItems || s.pendingBytes + Size(e) > c.maxBytes))
      && (flow.Suspend? ==> flow == Suspend(WaitRoom(e), true)
                            && s'.pendingItems == s.pendingItems + 1 && s'.pendingBytes == s.pendingBytes + Size(e))
      && (flow == Threw || flow == Done(false) || flow.Suspend?)
      && (flow == Done(false) ==> IngressClosed(s, allowSealed))
  }

  /** It gets in if it does once everything is given up that may be; if that took output, pressure is reported first. */
  ghost predicate ControlRight(c: Config, s: State, e: Event, allowSealed: bool, s': State, flow: Flow) {
    exists given: State ::
      && Discards(s, given) && |given.losses| >= |s.losses|
      && (HasCapacity(c, given, Size(e)) <==> Roomy(c, s.values, true, Size(e)))
      && if |given.losses| > |s.losses| then Reports(c, given, allowSealed, s', flow, Admit(e))
         else given.losses == s.losses && AdmittedRight(c, given, e, allowSealed, s', flow)
  }

  lemma AdmitIsRight(c: Config, s: State, e: Event, allowSealed: bool)
    requires s.waiting != [] ==> s.values == []
    ensures var (s', flow) := AdmitControl(c, s, e, allowSealed); AdmittedRight(c, s, e, allowSealed, s', flow)
  {
    hide Size, Enqueue, Entered;
    EnqueueEnters(s, e);
  }

  lemma ControlIsRight(c: Config, s: State, e: Event, allowSealed: bool)
    requires Sound(c, s)
    ensures var (s', flow) := OfferControl(c, s, e, allowSealed); ControlRight(c, s, e, allowSealed, s', flow)
  {
    hide Sound, Roomy, HasCapacity, Discards, Report, Size, AdmitControl, AdmittedRight, Reports, EvictAny;
    SoundFacts(c, s);
    EvictAnyMakesRoom(c, s, Size(e), CurrentEpisode(s), false);
    var given := EvictAny(c, s, Size(e), CurrentEpisode(s), false).0;
    DiscardsFacts(s, given);
    ReportIsRight(c, given, allowSealed, 0, Admit(e));
    AdmitIsRight(c, given, e, allowSealed);
  }

  // ---------- A whole push ----------

  ghost predicate PushRight(c: Config, s: State, e: Event, allowSealed: bool, s': State, flow: Flow) {
    if IngressClosed(s, allowSealed) then
      flow == Done(false) && s'.log == s.log && s'.values == s.values
      && LossUnits(s'.losses) == LossUnits(s.losses) + Units(e)
    else if Joins(c, s, e) || Replaces(c, s, e) then
      var n := |s.values| - 1;
      var newest := if e.Output? then Output(s.values[n].text + e.text) else e;
      flow == Done(true) && s'.values == s.values[..n] + [newest] && s'.log == s.log && s'.losses == s.losses
      && s'.delivered == s.delivered
    else if e.Other? then
      if Size(e) > c.maxBytes then flow == Threw && s' == s else ControlRight(c, s, e, allowSealed, s', flow)
    else if Overhead(e) > c.maxBytes then
      match PriorityOf(e)
      case Droppable => Reports(c, s, allowSealed, s', flow, Refuse)
      case Coalescible => flow == Done(false) && s' == s
      case Nondroppable => flow == Threw && s' == s
    else
      exists t :: CutTo(e, c.maxBytes, t) && CutPushRight(c, s, e, e.(text := t), allowSealed, s', flow)
  }

  /** The push goes on with an event that could fit an empty queue, cut if it had to be. */
  ghost predicate CutPushRight(c: Config, s: State, e: Event, cut: Event, allowSealed: bool, s': State, flow: Flow) {
    match PriorityOf(e)
    case Droppable =>
      if Size(e) > c.maxBytes then Reports(c, s, allowSealed, s', flow, Offer(cut))
      else OfferedRight(c, s, cut, allowSealed, s', flow)
    case Coalescible => ProgressRight(c, s, cut, s', flow)
    case Nondroppable => ControlRight(c, s, cut, allowSealed, s', flow)
  }

  lemma CoalescesIff(c: Config, s: State, e: Event)
    ensures (PriorityOf(e) != Nondroppable && TryCoalesce(c, s, e).Some?) <==> Joins(c, s, e) || Replaces(c, s, e)
    ensures Joins(c, s, e) || Replaces(c, s, e) ==>
      var s', n := TryCoalesce(c, s, e).value, |s.values| - 1;
      && s'.values == s.values[..n] + [if e.Output? then Output(s.values[n].text + e.text) else e]
      && s'.log == s.log && s'.losses == s.losses && s'.delivered == s.delivered
  {
    hide Size;
  }

  lemma PushIsRight(c: Config, s: State, e: Event, allowSealed: bool)
    requires Sound(c, s)
    ensures var (s', flow) := BeginPush(c, s, e, allowSealed); PushRight(c, s, e, allowSealed, s', flow)
  {
    hide Sound, Roomy, HasCapacity, Discards, Report, Size, Truncate, FitText, JsonBytes, Reports, TryCoalesce, Joins, Replaces,
      OfferOutput, OfferProgress, OfferControl, OfferedRight, ProgressRight, ControlRight, CutTo, IngressClosed, LossUnits,
      CutPushRight, Shortened, Overhead;
    SoundFacts(c, s);
    CoalescesIff(c, s, e);
    if IngressClosed(s, allowSealed) {
      OneMoreLoss(s.losses, Loss(Units(e), s.episodes, true));
    } else if !Joins(c, s, e) && !Replaces(c, s, e) {
      ShortenedIs(c, e);
      if e.Other? {
        ControlIsRight(c, s, e, allowSealed);
      } else if Overhead(e) > c.maxBytes {
        ReportIsRight(c, s, allowSealed, Units(e), Refuse);
      } else {
        CutPushIsRight(c, s, e, allowSealed);
      }
    }
  }

  /** What the first truncation does to an event. */
  lemma ShortenedIs(c: Config, e: Event)
    ensures Size(Shortened(c, e)) > c.maxBytes <==> if e.Other? then Size(e) > c.maxBytes else Overhead(e) > c.maxBytes
    ensures e.Other? ==> Shortened(c, e) == e
    ensures !e.Other? && Overhead(e) <= c.maxBytes ==>
      Shortened(c, e) == e.(text := Shortened(c, e).text) && CutTo(e, c.maxBytes, Shortened(c, e).text)
    ensures Size(e) <= c.maxBytes ==> Shortened(c, e) == e
  {
    TruncateCuts(e, c.maxBytes);
    if !e.Other? && Size(e) <= c.maxBytes { WholeIsCut(c, e); }
  }

  lemma WholeIsCut(c: Config, e: Event)
    requires !e.Other? && Size(e) <= c.maxBytes
    ensures CutTo(e, c.maxBytes, e.text)
  {
  }

  lemma CutPushIsRight(c: Config, s: State, e: Event, allowSealed: bool)
    requires Sound(c, s) && !e.Other? && Overhead(e) <= c.maxBytes && !IngressClosed(s, allowSealed)
    requires !Joins(c, s, e) && !Replaces(c, s, e)
    ensures var (s', flow) := BeginPush(c, s, e, allowSealed); CutPushRight(c, s, e, Shortened(c, e), allowSealed, s', flow)
  {
    hide Sound, Roomy, HasCapacity, Discards, Report, Size, Truncate, FitText, JsonBytes, Reports, TryCoalesce, Joins, Replaces,
      OfferOutput, OfferProgress, OfferControl, OfferedRight, ProgressRight, ControlRight, CutTo, IngressClosed, Shortened, Overhead;
    SoundFacts(c, s);
    CoalescesIff(c, s, e);
    ShortenedIs(c, e);
    var cut := Shortened(c, e);
    match e
    case Output(_) =>
      ReportIsRight(c, s, allowSealed, Units(e) - Units(cut), Offer(cut)) by { ShortenedIsShorter(c, e); }
      OfferIsRight(c, s, cut, allowSealed);
    case Progress(_) => ProgressIsRight(c, s, cut);
    case _ => ControlIsRight(c, s, cut, allowSealed);
  }

  lemma ShortenedIsShorter(c: Config, e: Event)
    ensures Units(Shortened(c, e)) <= Units(e)
  {
    if Truncate(e, c.maxBytes).Some? { CutKeepsKind(c, e, c.maxBytes); }
  }

  // ---------- A call that goes on ----------

  ghost predicate StageRight(c: Config, s: State, stage: Stage, allowSealed: bool, s': State, flow: Flow) {
    match stage
    case CloseTick(e) => PushRight(c, s, e, allowSealed, s', flow)
    case CloseSoon(outcome) => s'.closed && s'.waiting == [] && s'.log == s.log && s'.values == s.values && flow == outcome
    case WaitRoom(e) =>
      if IngressClosed(s, allowSealed) then flow == Done(false) && s'.log == s.log && s'.values == s.values
      else if HasCapacity(c, s, Size(e)) then flow == Done(true) && Entered(s, s', e) && s'.losses == s.losses
      else flow == Suspend(stage, true) && s' == s.(capacityWaiters := s'.capacityWaiters)
    case Reporting(episode, Waiting, next) =>
      && flow.Suspend? && flow.stage.Reporting? && flow.stage == Reporting(episode, flow.stage.phase, next)
      && flow.parked == (flow.stage.phase == Waiting)
      && if IngressClosed(s, allowSealed) then s'.log == s.log && flow.stage.phase == Settled
         else NoticeRight(c, s.log, s.values, s', flow.stage.phase)
    case Reporting(_, Rejected, next) => flow == Threw && s'.log == s.log && s'.values == s.values
    case Reporting(_, Settled, Refuse) => flow == Done(false) && s' == s
    case Reporting(_, Settled, Offer(e)) => OfferedRight(c, s, e, allowSealed, s', flow)
    case Reporting(_, Settled, Squeeze(e)) =>
      if IngressClosed(s, allowSealed) then flow == Done(false) && s'.log == s.log && s'.values == s.values
      else SqueezedRight(c, s, e, s', flow)
    case Reporting(_, Settled, Admit(e)) => AdmittedRight(c, s, e, allowSealed, s', flow)
  }

  lemma StageIsRight(c: Config, s: State, stage: Stage, allowSealed: bool)
    requires Sound(c, s) && StageOk(c, s, stage, allowSealed)
    ensures var (s', flow) := ResumeStage(c, s, stage, allowSealed); StageRight(c, s, stage, allowSealed, s', flow)
  {
    hide Sound, Roomy, Size, BeginPush, PushRight, AdmitControl, AdmittedRight, OfferOutput, OfferedRight, SqueezeOutput,
      SqueezedRight, NOTICE, Enqueue, Entered, ReportLoop, ResumeRoom, ResumeReport, IngressClosed, HasCapacity;
    SoundFacts(c, s);
    match stage
    case CloseTick(e) => PushIsRight(c, s, e, allowSealed);
    case CloseSoon(_) => ClosedHasNobodyWaiting(c, s);
    case WaitRoom(e) =>
      hide StageRight;
      RoomIsRight(c, s, e, allowSealed);
    case Reporting(episode, Waiting, next) =>
      hide StageRight;
      WaitingIsRight(c, s, allowSealed, episode, next);
    case Reporting(_, Rejected, next) =>
    case Reporting(_, Settled, Refuse) =>
    case Reporting(_, Settled, Offer(e)) => OfferIsRight(c, s, e, allowSealed);
    case Reporting(episode, Settled, Squeeze(e)) =>
      if !IngressClosed(s, allowSealed) { SqueezeIsRight(c, s, e, allowSealed, episode); }
      else { SqueezeClosed(c, s, e, allowSealed, episode); }
    case Reporting(_, Settled, Admit(e)) => AdmitIsRight(c, s, e, allowSealed);
  }

  lemma WaitingIsRight(c: Config, s: State, allowSealed: bool, episode: nat, next: Next)
    requires s.bufferedBytes == SizesOf(s.values) && Size(NOTICE) <= c.maxBytes
    ensures var stage := Reporting(episode, Waiting, next);
      var (s', flow) := ResumeStage(c, s, stage, allowSealed); StageRight(c, s, stage, allowSealed, s', flow)
  {
    hide Roomy, Size, NOTICE, SizesOf, ReportLoop;
    ReportLoopIsRight(c, s, episode);
  }

  lemma RoomIsRight(c: Config, s: State, e: Event, allowSealed: bool)
    requires s.waiting != [] ==> s.values == []
    ensures var (s', flow) := ResumeRoom(c, s, e, allowSealed); StageRight(c, s, WaitRoom(e), allowSealed, s', flow)
  {
    hide Size, Enqueue, HasCapacity;
    EnqueueEnters(s.(pendingItems := s.pendingItems - 1, pendingBytes := s.pendingBytes - Size(e)), e);
  }

  lemma SqueezeClosed(c: Config, s: State, e: Event, allowSealed: bool, episode: nat)
    requires IngressClosed(s, allowSealed)
    ensures SqueezeOutput(c, s, e, allowSealed, episode) == (LoseSealed(s, Units(e)), Done(false))
  {
  }

  lemma ClosedHasNobodyWaiting(c: Config, s: State)
    requires Sound(c, s)
    ensures s.closed ==> s.waiting == []
  {
    hide SizesOf, ControlsOf, TextOf, Complete, ReportsOk;
  }

  // ---------- The steps of a run ----------

  /** What is left of the call: nothing once it has returned, unless it still has to close the queue. */
  predicate CallLeft(before: seq<Frame>, after: seq<Frame>, id: nat, allowSealed: bool, flow: Flow, closes: bool) {
    if flow.Suspend? then after == before + [Frame(id, flow.stage, allowSealed)]
    else if closes then after == before + [Frame(id, CloseSoon(flow), true)]
    else after == before
  }

  /** Putting the call among those that wait for capacity changes none of this. */
  lemma ParkedReports(c: Config, s: State, allowSealed: bool, s': State, flow: Flow, next: Next, id: nat)
    requires Reports(c, s, allowSealed, s', flow, next)
    ensures Reports(c, s, allowSealed, Park(s', id, flow), flow, next)
  {
    hide Roomy, NOTICE;
  }

  lemma ParkedOffer(c: Config, s: State, e: Event, allowSealed: bool, s': State, flow: Flow, id: nat)
    requires OfferedRight(c, s, e, allowSealed, s', flow)
    ensures OfferedRight(c, s, e, allowSealed, Park(s', id, flow), flow)
  {
    hide Roomy, Discards, Reports, Lasting, Size;
    if !Roomy(c, s.values, false, Size(e)) {
      var given: State :| Discards(s, given) && Reports(c, given, allowSealed, s', flow, Squeeze(e));
      ParkedReports(c, given, allowSealed, s', flow, Squeeze(e), id);
    }
  }

  lemma ParkedControl(c: Config, s: State, e: Event, allowSealed: bool, s': State, flow: Flow, id: nat)
    requires ControlRight(c, s, e, allowSealed, s', flow)
    ensures ControlRight(c, s, e, allowSealed, Park(s', id, flow), flow)
  {
    hide Roomy, Discards, Reports, Size, HasCapacity, Entered;
    var given: State :|
      && Discards(s, given) && |given.losses| >= |s.losses|
      && (HasCapacity(c, given, Size(e)) <==> Roomy(c, s.values, true, Size(e)))
      && if |given.losses| > |s.losses| then Reports(c, given, allowSealed, s', flow, Admit(e))
         else given.losses == s.losses && AdmittedRight(c, given, e, allowSealed, s', flow);
    if |given.losses| > |s.losses| { ParkedReports(c, given, allowSealed, s', flow, Admit(e), id); }
  }

  lemma ParkedPush(c: Config, s: State, e: Event, allowSealed: bool, s': State, flow: Flow, id: nat)
    requires PushRight(c, s, e, allowSealed, s', flow)
    ensures PushRight(c, s, e, allowSealed, Park(s', id, flow), flow)
  {
    hide Reports, OfferedRight, ControlRight, ProgressRight, CutTo, Size, Overhead, Joins, Replaces, IngressClosed, LossUnits;
    var s'' := Park(s', id, flow);
    if !flow.Suspend? || !flow.parked {
    } else if e.Other? {
      if ControlRight(c, s, e, allowSealed, s', flow) { ParkedControl(c, s, e, allowSealed, s', flow, id); }
    } else if Overhead(e) > c.maxBytes {
      if Reports(c, s, allowSealed, s', flow, Refuse) { ParkedReports(c, s, allowSealed, s', flow, Refuse, id); }
    } else if !IngressClosed(s, allowSealed) && !Joins(c, s, e) && !Replaces(c, s, e) {
      var t :| CutTo(e, c.maxBytes, t) && CutPushRight(c, s, e, e.(text := t), allowSealed, s', flow);
      ParkedCutPush(c, s, e, e.(text := t), allowSealed, s', flow, id);
    }
  }

  lemma ParkedCutPush(c: Config, s: State, e: Event, cut: Event, allowSealed: bool, s': State, flow: Flow, id: nat)
    requires CutPushRight(c, s, e, cut, allowSealed, s', flow)
    ensures CutPushRight(c, s, e, cut, allowSealed, Park(s', id, flow), flow)
  {
    hide Reports, OfferedRight, ControlRight, Size;
    match PriorityOf(e)
    case Droppable =>
      if Size(e) > c.maxBytes { ParkedReports(c, s, allowSealed, s', flow, Offer(cut), id); }
      else { ParkedOffer(c, s, cut, allowSealed, s', flow, id); }
    case Coalescible =>
    case Nondroppable => ParkedControl(c, s, cut, allowSealed, s', flow, id);
  }

  lemma ParkedStage(c: Config, s: State, stage: Stage, allowSealed: bool, s': State, flow: Flow, id: nat)
    requires StageRight(c, s, stage, allowSealed, s', flow)
    ensures StageRight(c, s, stage, allowSealed, Park(s', id, flow), flow) || stage.CloseSoon?
  {
    hide PushRight, OfferedRight, SqueezedRight, AdmittedRight, Entered, Size, Roomy, NOTICE, HasCapacity, IngressClosed;
    if !flow.Suspend? || !flow.parked { return; }
    match stage
    case CloseTick(e) => ParkedPush(c, s, e, allowSealed, s', flow, id);
    case Reporting(_, Settled, Offer(e)) => ParkedOffer(c, s, e, allowSealed, s', flow, id);
    case Reporting(_, Settled, Squeeze(e)) => SqueezedReturns(c, s, e, s', flow, IngressClosed(s, allowSealed));
    case Reporting(_, Settled, Admit(e)) => ParkedAdmit(c, s, e, allowSealed, s', flow, id);
    case Reporting(_, Settled, Refuse) =>
    case Reporting(_, Rejected, _) =>
    case Reporting(_, Waiting, _) =>
    case WaitRoom(_) =>
    case CloseSoon(_) =>
  }

  lemma ParkedAdmit(c: Config, s: State, e: Event, allowSealed: bool, s': State, flow: Flow, id: nat)
    requires AdmittedRight(c, s, e, allowSealed, s', flow)
    ensures AdmittedRight(c, s, e, allowSealed, Park(s', id, flow), flow)
  {
    hide Entered, Size, HasCapacity, IngressClosed;
  }

  lemma SqueezedReturns(c: Config, s: State, e: Event, s': State, flow: Flow, closed: bool)
    requires if closed then flow == Done(false) else SqueezedRight(c, s, e, s', flow)
    ensures !flow.Suspend?
  {
  }

  /** A push means what `PushRight` says, and the call is over unless it waits. */
  lemma PushMeans(c: Config, q: Queue, e: Event)
    requires Inv(c, q)
    ensures var (q', flow) := Push(c, q, e);
      && q' == Apply(c, q, DoPush(e))
      && PushRight(c, q.state, e, false, q'.state, flow)
      && CallLeft(q.frames, q'.frames, q.nextId, false, flow, false)
  {
    InvParts(c, q);
    hide Inv, Sound, BeginPush, PushRight, FramesOk, Park;
    PushIsRight(c, q.state, e, false);
    var (s', flow) := BeginPush(c, q.state, e, false);
    ParkedPush(c, q.state, e, false, s', flow, q.nextId);
    assert q.frames + [] == q.frames;
  }

  /** Likewise for any call that goes on. */
  lemma ResumeMeans(c: Config, q: Queue, k: nat)
    requires Inv(c, q) && CanResume(q, k)
    ensures var (q', flow) := Resume(c, q, k);
      var f := q.frames[k];
      && q' == Apply(c, q, DoResume(k))
      && StageRight(c, q.state, f.stage, f.allowSealed, q'.state, flow)
      && exists left :: q'.frames == q.frames[..k] + left + q.frames[k + 1..]
                     && CallLeft([], left, f.id, f.allowSealed && !f.stage.CloseSoon?, flow, f.allowSealed && !f.stage.CloseSoon?)
  {
    hide Inv, Sound, StageOk, ResumeStage, StageRight, Park, Resume;
    InvParts(c, q);
    var f := q.frames[k];
    assert StageOk(c, q.state, f.stage, f.allowSealed);
    hide FramesOk;
    ResumeSplits(c, q, k);
    ParkedIsRight(c, q.state, f.stage, f.allowSealed, f.id);
    hide CallLeft;
    var flow := Resume(c, q, k).1;
    var left := if f.stage.CloseSoon? then [] else Remainder(f.id, f.allowSealed, flow);
    LeftOver(f, flow, left);
  }

  lemma LeftOver(f: Frame, flow: Flow, left: seq<Frame>)
    requires left == if f.stage.CloseSoon? then [] else Remainder(f.id, f.allowSealed, flow)
    requires f.stage.CloseSoon? ==> !flow.Suspend? && f.allowSealed
    ensures CallLeft([], left, f.id, f.allowSealed && !f.stage.CloseSoon?, flow, f.allowSealed && !f.stage.CloseSoon?)
  {
  }

  lemma ParkedIsRight(c: Config, s: State, stage: Stage, allowSealed: bool, id: nat)
    requires Sound(c, s) && StageOk(c, s, stage, allowSealed)
    ensures var (s', flow) := ResumeStage(c, s, stage, allowSealed);
      && StageRight(c, s, stage, allowSealed, Park(s', id, flow), flow)
      && (stage.CloseSoon? ==> !flow.Suspend? && allowSealed)
  {
    hide Sound, StageOk, ResumeStage, StageRight, Park;
    StageIsRight(c, s, stage, allowSealed);
    var (s', flow) := ResumeStage(c, s, stage, allowSealed);
    ParkedStage(c, s, stage, allowSealed, s', flow, id);
    CloseSoonReturns(c, s, stage, allowSealed, s', flow);
    DoneParksNothing(s', id, flow);
  }

  lemma ResumeSplits(c: Config, q: Queue, k: nat)
    requires CanResume(q, k)
    ensures var f, (q', flow) := q.frames[k], Resume(c, q, k);
      && (q'.state, flow) == (var (s, done) := ResumeStage(c, q.state, f.stage, f.allowSealed); (Park(s, f.id, done), done))
      && q'.frames == q.frames[..k] + (if f.stage.CloseSoon? then [] else Remainder(f.id, f.allowSealed, flow)) + q.frames[k + 1..]
  {
    hide ResumeStage, Park, Remainder;
  }

  lemma DoneParksNothing(s: State, id: nat, flow: Flow)
    ensures !flow.Suspend? ==> Park(s, id, flow) == s
  {
  }

  lemma CloseSoonReturns(c: Config, s: State, stage: Stage, allowSealed: bool, s': State, flow: Flow)
    requires StageRight(c, s, stage, allowSealed, s', flow) && StageOk(c, s, stage, allowSealed)
    ensures stage.CloseSoon? ==> !flow.Suspend? && allowSealed
  {
  }

  /** Reading takes the oldest entry and wakes everybody, ends on a closed queue, and waits otherwise. */
  ghost predicate NextRight(c: Config, s: State, consumer: nat, s': State, result: Delivery) {
    && s'.log == s.log && s'.losses == s.losses
    && if s.values != [] then
         && result == Item(s.values[0]) && s'.delivered == s.delivered + [s.values[0]] && s'.values == s.values[1..]
         && s'.capacityWaiters == [] && s'.bufferedBytes == SizesOf(s'.values)
         && (s'.pressureReported <==> s.pressureReported
                                      && (2 * |s'.values| > c.maxItems || 2 * s'.bufferedBytes > c.maxBytes))
       else if s.closed then result == End && s' == s
       else result == Pending && s' == s.(waiting := s.waiting + [consumer])
  }

  lemma NextMeans(c: Config, q: Queue, consumer: nat)
    requires Inv(c, q)
    ensures var (s', result) := TakeNext(c, q.state, consumer);
      && s' == Apply(c, q, DoNext(consumer)).state && NextRight(c, q.state, consumer, s', result)
      && Apply(c, q, DoNext(consumer)).frames == q.frames
  {
    InvParts(c, q);
    SoundFacts(c, q.state);
    hide Inv, Sound, SizesOf, FramesOk;
    TakeIsRight(c, q.state, consumer);
    hide TakeNext, NextRight;
  }

  lemma TakeIsRight(c: Config, s: State, consumer: nat)
    requires s.bufferedBytes == SizesOf(s.values)
    ensures var (s', result) := TakeNext(c, s, consumer); NextRight(c, s, consumer, s', result)
  {
    hide Size;
  }

  /** What any step comes to. */
  ghost predicate StepRight(c: Config, q: Queue, step: Step, q': Queue) {
    match step
    case DoPush(e) =>
      exists flow :: PushRight(c, q.state, e, false, q'.state, flow) && CallLeft(q.frames, q'.frames, q.nextId, false, flow, false)
    case DoPushAndClose(e) =>
      && q'.state.log == q.state.log && q'.state.values == q.state.values && q'.state.sealed
      && (if q.state.sealed then q'.frames == q.frames
          else q'.frames == q.frames + [Frame(q.nextId, CloseTick(e), true)] && q'.state.capacityWaiters == [])
    case DoResume(k) => if CanResume(q, k) then ResumedRight(c, q, k, q') else q' == q
    case DoNext(consumer) => q'.frames == q.frames && exists result :: NextRight(c, q.state, consumer, q'.state, result)
    case DoClose =>
      && q'.frames == q.frames && q'.state.log == q.state.log && q'.state.values == q.state.values
      && q'.state.closed && q'.state.waiting == [] && q'.state.capacityWaiters == []
  }

  ghost predicate ResumedRight(c: Config, q: Queue, k: nat, q': Queue)
    requires k < |q.frames|
  {
    var f := q.frames[k];
    var closes := f.allowSealed && !f.stage.CloseSoon?;
    exists flow, left ::
      && StageRight(c, q.state, f.stage, f.allowSealed, q'.state, flow)
      && q'.frames == q.frames[..k] + left + q.frames[k + 1..] && CallLeft([], left, f.id, closes, flow, closes)
  }

  lemma StepMeans(c: Config, q: Queue, step: Step)
    requires Inv(c, q)
    ensures StepRight(c, q, step, Apply(c, q, step))
  {
    hide Inv, Sound, Push, Resume, TakeNext, PushRight, StageRight, NextRight, CallLeft;
    match step
    case DoPush(e) => PushMeans(c, q, e);
    case DoResume(k) => if CanResume(q, k) { ResumeMeans(c, q, k); }
    case DoNext(consumer) => NextMeans(c, q, consumer);
    case _ =>
      InvParts(c, q);
      CloseFacts(c, q.state);
  }

  lemma CloseFacts(c: Config, s: State)
    requires Sound(c, s)
    ensures s.closed ==> s.sealed && s.waiting == [] && s.capacityWaiters == []
  {
    hide SizesOf, ControlsOf, TextOf, Complete, ReportsOk;
  }

  // ---------- The promises ----------

  /** A call that waits for its report to cut output. */
  predicate Squeezes(q: Queue, k: nat, e: Event) {
    && CanResume(q, k) && q.frames[k].stage.Reporting? && q.frames[k].stage.phase == Settled
    && q.frames[k].stage.next == Squeeze(e)
  }

  /**
   Output that still has no room after its report is not lost: of an open queue it enters cut to the longest prefix
   that fits, and is accepted; it is dropped exactly when there is no slot or not even an empty text would fit.
   */
  lemma SqueezedOutputIsCut(c: Config, q: Queue, k: nat, e: Event)
    requires Inv(c, q) && Squeezes(q, k, e) && !IngressClosed(q.state, q.frames[k].allowSealed)
    ensures var (q', flow) := (Apply(c, q, DoResume(k)), Resume(c, q, k).1);
      && SqueezedRight(c, q.state, e, q'.state, flow)
      && (!q.frames[k].allowSealed ==> q'.frames == q.frames[..k] + q.frames[k + 1..])
  {
    hide Inv, Resume, Apply, StageRight, SqueezedRight, IngressClosed;
    ResumeMeans(c, q, k);
    var (q', flow) := Resume(c, q, k);
    SqueezeStage(c, q.state, q.frames[k].stage, q.frames[k].allowSealed, e, q'.state, flow);
    if !q.frames[k].allowSealed {
      assert q.frames[..k] + [] + q.frames[k + 1..] == q.frames[..k] + q.frames[k + 1..];
    }
  }

  lemma SqueezeStage(c: Config, s: State, stage: Stage, allowSealed: bool, e: Event, s': State, flow: Flow)
    requires stage.Reporting? && stage.phase == Settled && stage.next == Squeeze(e) && !IngressClosed(s, allowSealed)
    requires StageRight(c, s, stage, allowSealed, s', flow)
    ensures SqueezedRight(c, s, e, s', flow) && !flow.Suspend?
  {
    hide IngressClosed;
    SqueezedReturns(c, s, e, s', flow, false);
    hide SqueezedRight;
  }

  /** Reading on delivers everything in the buffer, in order. */
  lemma {:induction false} ReadingDrains(c: Config, q: Queue, consumer: nat)
    requires Inv(c, q)
    ensures var q' := Run(c, q, seq(|q.state.values|, i => DoNext(consumer)));
      q'.state.values == [] && q'.state.delivered == q.state.delivered + q.state.values && q'.state.log == q.state.log
    decreases |q.state.values|
  {
    hide Inv, Apply;
    var steps := seq(|q.state.values|, i => DoNext(consumer));
    if q.state.values == [] {
      assert Run(c, q, steps) == q;
    } else {
      NextMeans(c, q, consumer);
      ApplyKeeps(c, q, DoNext(consumer));
      var next := Apply(c, q, DoNext(consumer));
      ReadingDrains(c, next, consumer);
      assert steps[0] == DoNext(consumer) && steps[1..] == seq(|next.state.values|, i => DoNext(consumer));
      assert q.state.values == [q.state.values[0]] + q.state.values[1..];
    }
  }

  lemma InvParts(c: Config, q: Queue)
    requires Inv(c, q)
    ensures c.Valid() && Sound(c, q.state) && FramesOk(c, q.state, q.frames)
  {
    hide Sound, FramesOk, Covered, Counted, OneCloser, OnlyClosing;
  }

  // ---------- Who is woken ----------

  /** Entries that were logged and have left the buffer without being delivered. */
  function Discarded(s: State): int {
    |s.log| - |s.delivered| - |s.values|
  }

  /** Nothing left the buffer and nobody was woken, or everybody was.  Nobody is served unless somebody waits. */
  ghost predicate Wakes(s: State, s': State) {
    && ((Discarded(s') == Discarded(s) && s'.capacityWaiters == s.capacityWaiters) || s'.capacityWaiters == [])
    && (s.waiting == [] ==> s'.waiting == [] && s'.delivered == s.delivered)
  }

  lemma EnqueueWakes(s: State, e: Event)
    ensures Wakes(s, Enqueue(s, e))
  {
    hide Size;
  }

  lemma {:induction false} EvictProgressWakes(c: Config, s: State, bytes: nat)
    ensures Wakes(s, EvictProgress(c, s, bytes))
    decreases |s.values|
  {
    hide HasCapacity, Size;
    var i := FirstDiscardable(s.values, false);
    if HasCapacity(c, s, bytes) || i == |s.values| {
    } else {
      EvictProgressWakes(c, RemoveAt(s, i, 0), bytes);
    }
  }

  lemma {:induction false} EvictAnyWakes(c: Config, s: State, bytes: nat, episode: nat, discarded: bool)
    ensures Wakes(s, EvictAny(c, s, bytes, episode, discarded).0)
    decreases |s.values|
  {
    hide HasCapacity, Size;
    var i := FirstDiscardable(s.values, true);
    if HasCapacity(c, s, bytes) || i == |s.values| {
    } else {
      EvictAnyWakes(c, RemoveAt(s, i, episode), bytes, episode, discarded || s.values[i].Output?);
    }
  }

  lemma {:induction false} ReportLoopWakes(c: Config, s: State, episode: nat)
    ensures Wakes(s, ReportLoop(c, s, episode).0)
    decreases |s.values|
  {
    hide HasCapacity, Size, NOTICE;
    var i := FirstDiscardable(s.values, true);
    if HasCapacity(c, s, Size(NOTICE)) || i == |s.values| {
    } else {
      ReportLoopWakes(c, RemoveAt(s, i, episode), episode);
    }
  }

  lemma WakesTogether(a: State, b: State, c: State)
    requires Wakes(a, b) && Wakes(b, c)
    ensures Wakes(a, c)
  {
  }

  lemma ReportWakes(c: Config, s: State, allowSealed: bool, lost: nat, next: Next)
    ensures Wakes(s, Report(c, s, allowSealed, lost, next).0)
  {
    hide Size, NOTICE, ReportLoop;
    ReportLoopWakes(c, s.(pressureReported := true, episodes := s.episodes + 1), s.episodes + 1);
  }

  lemma OutputWakes(c: Config, s: State, e: Event, allowSealed: bool, episode: nat)
    ensures Wakes(s, OfferOutput(c, s, e, allowSealed).0) && Wakes(s, SqueezeOutput(c, s, e, allowSealed, episode).0)
  {
    hide Size, HasCapacity, Truncate, EvictProgress, Report, Enqueue;
    EvictProgressWakes(c, s, Size(e));
    var given := EvictProgress(c, s, Size(e));
    EnqueueWakes(given, e);
    ReportWakes(c, given, allowSealed, 0, Squeeze(e));
    if s.bufferedBytes <= c.maxBytes {
      var cut := Truncate(e, c.maxBytes - s.bufferedBytes);
      if cut.Some? { EnqueueWakes(s, cut.value); }
    }
  }

  lemma ProgressWakes(c: Config, s: State, e: Event)
    ensures Wakes(s, OfferProgress(c, s, e).0)
  {
    hide Size, HasCapacity, Enqueue;
    var i := FirstDiscardable(s.values, false);
    EnqueueWakes(s, e);
    if i < |s.values| { EnqueueWakes(RemoveAt(s, i, 0), e); }
  }

  lemma ControlWakes(c: Config, s: State, e: Event, allowSealed: bool)
    ensures Wakes(s, AdmitControl(c, s, e, allowSealed).0) && Wakes(s, ResumeRoom(c, s, e, allowSealed).0)
    ensures Wakes(s, OfferControl(c, s, e, allowSealed).0)
  {
    hide Size, HasCapacity, Enqueue, EvictAny, Report;
    AdmitWakes(c, s, e, allowSealed);
    EvictAnyWakes(c, s, Size(e), CurrentEpisode(s), false);
    var given := EvictAny(c, s, Size(e), CurrentEpisode(s), false).0;
    AdmitWakes(c, given, e, allowSealed);
    ReportWakes(c, given, allowSealed, 0, Admit(e));
    EnqueueWakes(s.(pendingItems := s.pendingItems - 1, pendingBytes := s.pendingBytes - Size(e)), e);
    hide AdmitControl;
  }

  lemma AdmitWakes(c: Config, s: State, e: Event, allowSealed: bool)
    ensures Wakes(s, AdmitControl(c, s, e, allowSealed).0)
  {
    hide Size, HasCapacity, Enqueue;
    EnqueueWakes(s, e);
  }

  lemma PushWakes(c: Config, s: State, e: Event, allowSealed: bool)
    ensures Wakes(s, BeginPush(c, s, e, allowSealed).0)
  {
    hide Size, OfferOutput, OfferProgress, OfferControl, Report, TryCoalesce, Shortened;
    CoalesceWakes(c, s, e);
    var cut := Shortened(c, e);
    assert Units(e) - Units(cut) >= 0 by { ShortenedIsShorter(c, e); }
    ReportWakes(c, s, allowSealed, Units(e), Refuse);
    ReportWakes(c, s, allowSealed, Units(e) - Units(cut), Offer(cut));
    OutputWakes(c, s, cut, allowSealed, 0);
    ProgressWakes(c, s, cut);
    ControlWakes(c, s, cut, allowSealed);
    hide Wakes;
    if IngressClosed(s, allowSealed) { NothingWoken(s, LoseSealed(s, Units(e))); }
    NothingWoken(s, s);
  }

  lemma NothingWoken(s: State, s': State)
    requires s' == s.(losses := s'.losses)
    ensures Wakes(s, s')
  {
  }

  lemma CoalesceWakes(c: Config, s: State, e: Event)
    ensures TryCoalesce(c, s, e).Some? ==> Wakes(s, TryCoalesce(c, s, e).value)
  {
    hide Size, Coalesce;
  }

  lemma StageWakes(c: Config, s: State, stage: Stage, allowSealed: bool)
    ensures Wakes(s, ResumeStage(c, s, stage, allowSealed).0)
  {
    hide Size, BeginPush, ResumeRoom, OfferOutput, SqueezeOutput, AdmitControl, ReportLoop, NOTICE;
    match stage
    case CloseTick(e) => PushWakes(c, s, e, allowSealed);
    case WaitRoom(e) => ControlWakes(c, s, e, allowSealed);
    case Reporting(episode, Waiting, _) => ReportLoopWakes(c, s, episode);
    case Reporting(_, Settled, Offer(e)) => OutputWakes(c, s, e, allowSealed, 0);
    case Reporting(episode, Settled, Squeeze(e)) => OutputWakes(c, s, e, allowSealed, episode);
    case Reporting(_, Settled, Admit(e)) => ControlWakes(c, s, e, allowSealed);
    case _ =>
  }

  /** Parking a call wakes nobody and keeps nobody else waiting. */
  lemma ParkWakes(s: State, s': State, own: nat, flow: Flow, id: nat)
    requires Wakes(s, s') && s.waiting == [] && id != own
    requires |Park(s', own, flow).values| + |s.log| < |s.values| + |Park(s', own, flow).log|
    ensures id !in Park(s', own, flow).capacityWaiters
  {
  }

  /** Calls are numbered as they start, and only calls wait. */
  ghost predicate Numbered(q: Queue) {
    && (forall k | 0 <= k < |q.frames| :: q.frames[k].id < q.nextId)
    && (forall i | 0 <= i < |q.state.capacityWaiters| :: q.state.capacityWaiters[i] < q.nextId)
  }

  lemma StepIsNumbered(c: Config, q: Queue, step: Step)
    requires Numbered(q)
    ensures Numbered(Apply(c, q, step))
  {
    hide BeginPush, ResumeStage;
    match step
    case DoPush(e) => PushWakes(c, q.state, e, false);
    case DoResume(k) =>
      if CanResume(q, k) { StageWakes(c, q.state, q.frames[k].stage, q.frames[k].allowSealed); }
    case _ =>
  }

  lemma {:induction false} RunIsNumbered(c: Config, q: Queue, steps: seq<Step>)
    requires Numbered(q)
    ensures Numbered(Run(c, q, steps))
    decreases |steps|
  {
    hide Numbered, Apply;
    if steps != [] {
      StepIsNumbered(c, q, steps[0]);
      RunIsNumbered(c, Apply(c, q, steps[0]), steps[1..]);
    }
  }

  /** Whenever a step takes an entry out of the buffer, every call that waited for capacity may go on. */
  lemma RoomWakesEverybody(c: Config, steps: seq<Step>, step: Step, id: nat)
    requires c.Valid() && id in Run(c, NEW, steps).state.capacityWaiters
    requires var q := Run(c, NEW, steps);
      var s, s' := q.state, Apply(c, q, step).state; |s'.values| + |s.log| < |s.values| + |s'.log|
    ensures id !in Apply(c, Run(c, NEW, steps), step).state.capacityWaiters
  {
    var q := Run(c, NEW, steps);
    assert Inv(c, q) by { NewQueueIsFine(c); RunKeeps(c, NEW, steps); }
    RunIsNumbered(c, NEW, steps);
    hide Run, BeginPush, ResumeStage, TakeNext, Wakes, Park;
    match step
    case DoPush(e) =>
      PushWakes(c, q.state, e, false);
      var (s', flow) := BeginPush(c, q.state, e, false);
      ParkWakes(q.state, s', q.nextId, flow, id);
    case DoResume(k) =>
      if CanResume(q, k) {
        var f := q.frames[k];
        StageWakes(c, q.state, f.stage, f.allowSealed);
        var (s', flow) := ResumeStage(c, q.state, f.stage, f.allowSealed);
        ParkWakes(q.state, s', f.id, flow, id);
      }
    case DoNext(consumer) =>
      NextMeans(c, q, consumer);
    case _ =>
  }
}
