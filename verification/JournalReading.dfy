/** Reading a journal by cursor while it grows and is truncated at the front. */
module JournalReading {
  import opened Wrappers
  import opened Journal

  /** `log` is every event ever appended; `delivered` and `gaps` are what the reader has been given so far. */
  datatype Reading = Reading(
    record: Record,
    log: seq<Event>,
    cursor: Option<nat>,
    delivered: seq<Event>,
    gaps: seq<Gap>)

  const START: Reading := Reading(Record(0, [], false, None), [], None, [], [])

  datatype Step =
    | DoAppend(at: int, bytes: nat, payload: nat, now: int)
    | DoCompact(now: int)
    | DoRead(maxEvents: nat)

  /** The remote snapshot and what the tool makes of it. */
  function ReadResult(r: Record, cursor: Option<nat>, maxEvents: nat): Option<ToolRead> {
    if cursor.None? then Some(ToToolReadResult(Whole(r), None, maxEvents))
    else
      var slice := SliceOf(r, cursor.value);
      if slice.None? || !PassesSlice(slice.value) then None
      else Some(ToToolReadResult(slice.value, cursor, maxEvents))
  }

  function Apply(s: Reading, step: Step): Reading {
    match step
    case DoAppend(at, bytes, payload, now) =>
      var e := Event(s.record.eventSeq + 1, at, bytes, payload);
      s.(record := Compact(s.record.(eventSeq := s.record.eventSeq + 1, events := s.record.events + [e]), now),
         log := s.log + [e])
    case DoCompact(now) => s.(record := Compact(s.record, now))
    case DoRead(maxEvents) =>
      var result := ReadResult(s.record, s.cursor, maxEvents);
      if result.None? then s
      else
        s.(cursor := Some(result.value.eventCursor), delivered := s.delivered + result.value.events,
           gaps := s.gaps + if result.value.eventGap.Some? then [result.value.eventGap.value] else [])
  }

  function Run(s: Reading, steps: seq<Step>): Reading
    decreases |steps|
  {
    if steps == [] then s else Run(Apply(s, steps[0]), steps[1..])
  }

  // ---------- The invariant ----------

  function Cursor(s: Reading): nat { Or(s.cursor, 0) }

  /** Events no longer in the journal. */
  function Missing(r: Record): int { r.eventSeq - |r.events| }

  predicate JournalOk(r: Record, log: seq<Event>) {
    && PassesFull(r) && r.eventSeq == |log| && |r.events| <= |log|
    && r.events == log[|log| - |r.events|..]
    && (forall i | 0 <= i < |log| :: log[i].eventSeq == i + 1)
  }

  predicate DeliveredOk(delivered: seq<Event>, log: seq<Event>, cursor: nat) {
    && cursor <= |log|
    && (forall i | 0 <= i < |delivered| ::
          1 <= delivered[i].eventSeq <= cursor && delivered[i] == log[delivered[i].eventSeq - 1])
    && (forall i, j | 0 <= i < j < |delivered| :: delivered[i].eventSeq < delivered[j].eventSeq)
  }

  predicate Inside(g: Gap, k: nat) { g.expectedFrom <= k < g.availableFrom }

  predicate GapsOk(gaps: seq<Gap>, missing: int) {
    forall g | g in gaps :: 1 <= g.expectedFrom < g.availableFrom <= missing + 1
  }

  predicate Apart(delivered: seq<Event>, gaps: seq<Gap>) {
    forall e, g | e in delivered && g in gaps :: !Inside(g, e.eventSeq)
  }

  predicate WasDelivered(delivered: seq<Event>, k: nat) {
    exists e :: e in delivered && e.eventSeq == k
  }

  predicate WasMissed(gaps: seq<Gap>, k: nat) {
    exists g :: g in gaps && Inside(g, k)
  }

  ghost predicate Covered(delivered: seq<Event>, gaps: seq<Gap>, cursor: nat) {
    forall k | 1 <= k <= cursor :: WasDelivered(delivered, k) || WasMissed(gaps, k)
  }

  ghost predicate Inv(s: Reading) {
    && JournalOk(s.record, s.log)
    && DeliveredOk(s.delivered, s.log, Cursor(s))
    && GapsOk(s.gaps, Missing(s.record))
    && Apart(s.delivered, s.gaps)
    && Covered(s.delivered, s.gaps, Cursor(s))
  }

  // ---------- What one read returns ----------

  function Taken(r: Record, cursor: nat, maxEvents: nat): nat
    requires |r.events| <= r.eventSeq && cursor <= r.eventSeq
  {
    var unread := |r.events| - Read(r, cursor);
    if unread <= maxEvents then unread else maxEvents
  }

  /**
   A read returns the first unread events in order, moves the cursor to the last of them, and reports a gap
   exactly when the journal no longer holds the event after the cursor.
   */
  lemma ReadMeans(r: Record, cursor: Option<nat>, maxEvents: nat)
    requires PassesFull(r) && Or(cursor, 0) <= r.eventSeq
    ensures |r.events| <= r.eventSeq
    ensures var c, m := Or(cursor, 0), Taken(r, Or(cursor, 0), maxEvents);
      var n := Read(r, c);
      && ReadResult(r, cursor, maxEvents).Some?
      && var result := ReadResult(r, cursor, maxEvents).value;
      && result.events == r.events[n..n + m]
      && result.eventCursor == (if m > 0 then Missing(r) + n + m else c)
      && result.eventGap == (if c < Missing(r) then Some(Gap(c + 1, Missing(r) + 1)) else None)
  {
    hide PassesSlice, PassesFull, SliceOf, ListBytes;
    ValidMeansSuffix(r);
    var c := Or(cursor, 0);
    var n := Read(r, c);
    SlicesAreValid(r, c);
    assert r.events[0..] == r.events;
    var slice := if cursor.None? then Whole(r) else SliceOf(r, c).value;
    SliceShape(r, c);
    SliceReads(r, slice, cursor, maxEvents);
  }

  lemma SliceShape(r: Record, cursor: nat)
    ensures cursor <= r.eventSeq ==>
      var s := SliceOf(r, cursor).value;
      s.eventSeq == r.eventSeq && s.earliest == if r.eventsTruncated then Some(Or(r.earliest, 1)) else None
  {
  }

  lemma SliceReads(r: Record, s: Slice, cursor: Option<nat>, maxEvents: nat)
    requires |r.events| <= r.eventSeq && Or(cursor, 0) <= r.eventSeq
    requires Contiguous(r.events, r.eventSeq - |r.events| + 1)
    requires s.events == r.events[Read(r, Or(cursor, 0))..] && s.eventSeq == r.eventSeq
    requires s.earliest == if |r.events| < r.eventSeq then Some(r.eventSeq - |r.events| + 1) else None
    ensures var c, m := Or(cursor, 0), Taken(r, Or(cursor, 0), maxEvents);
      var n := Read(r, c);
      var result := ToToolReadResult(s, cursor, maxEvents);
      && result.events == r.events[n..n + m]
      && result.eventCursor == (if m > 0 then Missing(r) + n + m else c)
      && result.eventGap == (if c < Missing(r) then Some(Gap(c + 1, Missing(r) + 1)) else None)
  {
    var c := Or(cursor, 0);
    var n := Read(r, c);
    var m := Taken(r, c, maxEvents);
    assert s.events != [] ==> s.events[0] == r.events[n];
    var selected := if |s.events| <= maxEvents then s.events else s.events[..maxEvents];
    assert selected == r.events[n..n + m];
    assert m > 0 ==> selected[m - 1] == r.events[n + m - 1];
  }

  // ---------- Every step keeps the invariant ----------

  lemma CompactKeeps(r: Record, log: seq<Event>, now: int)
    requires r.eventSeq == |log| && |r.events| <= |log| && r.events == log[|log| - |r.events|..]
    requires forall i | 0 <= i < |log| :: log[i].eventSeq == i + 1
    requires r.eventsTruncated <==> |r.events| < r.eventSeq
    requires r.eventsTruncated || r.earliest.None?
    ensures JournalOk(Compact(r, now), log) && Missing(Compact(r, now)) >= Missing(r)
  {
    assert forall i | 0 <= i < |r.events| :: r.events[i] == log[|log| - |r.events| + i];
    CompactionIsValid(r, now);
    hide Compact, PassesFull;
  }

  lemma AppendKeeps(s: Reading, at: int, bytes: nat, payload: nat, now: int)
    requires Inv(s)
    ensures Inv(Apply(s, DoAppend(at, bytes, payload, now)))
  {
    hide Compact, PassesFull, Covered, Apart, DeliveredOk;
    var e := Event(s.record.eventSeq + 1, at, bytes, payload);
    var longer := s.record.(eventSeq := s.record.eventSeq + 1, events := s.record.events + [e]);
    ValidMeansSuffix(s.record);
    AppendIsSuffix(s.record.events, s.log, e);
    CompactKeeps(longer, s.log + [e], now);
    DeliveredLater(s.delivered, s.log, Cursor(s), e);
  }

  lemma AppendIsSuffix(events: seq<Event>, log: seq<Event>, e: Event)
    requires |events| <= |log| && events == log[|log| - |events|..]
    ensures events + [e] == (log + [e])[|log| - |events|..]
  {
  }

  lemma DeliveredLater(delivered: seq<Event>, log: seq<Event>, cursor: nat, e: Event)
    requires DeliveredOk(delivered, log, cursor)
    ensures DeliveredOk(delivered, log + [e], cursor)
  {
  }

  lemma ReadKeeps(s: Reading, maxEvents: nat)
    requires Inv(s)
    ensures Inv(Apply(s, DoRead(maxEvents)))
  {
    hide ReadResult, PassesFull;
    ReadMeans(s.record, s.cursor, maxEvents);
    var result := ReadResult(s.record, s.cursor, maxEvents).value;
    var gaps := s.gaps + if result.eventGap.Some? then [result.eventGap.value] else [];
    TakenFromLog(s.record, s.log, Cursor(s), maxEvents);
    DeliveryKeeps(s.delivered, s.log, Cursor(s), result.events, result.eventCursor);
    ApartKeeps(s, result, gaps);
    CoverageKeeps(s, result, gaps, maxEvents);
  }

  /** The events taken are the log's, in order, all after the cursor and up to the new one. */
  lemma TakenFromLog(r: Record, log: seq<Event>, c: nat, maxEvents: nat)
    requires JournalOk(r, log) && c <= |log|
    ensures var n, m := Read(r, c), Taken(r, c, maxEvents);
      var taken := r.events[n..n + m];
      && (forall i | 0 <= i < m :: taken[i] == log[Missing(r) + n + i] && taken[i].eventSeq == Missing(r) + n + i + 1)
      && Missing(r) + n == (if c < Missing(r) then Missing(r) else c)
      && Missing(r) + n + m <= |log|
  {
    hide PassesFull;
    assert forall i | 0 <= i < |r.events| :: r.events[i] == log[|log| - |r.events| + i];
  }

  lemma DeliveryKeeps(delivered: seq<Event>, log: seq<Event>, c: nat, taken: seq<Event>, c': nat)
    requires DeliveredOk(delivered, log, c) && c <= c' <= |log|
    requires forall i | 0 <= i < |taken| :: c < taken[i].eventSeq <= c' && taken[i] == log[taken[i].eventSeq - 1]
    requires forall i, j | 0 <= i < j < |taken| :: taken[i].eventSeq < taken[j].eventSeq
    ensures DeliveredOk(delivered + taken, log, c')
  {
  }

  lemma ApartKeeps(s: Reading, result: ToolRead, gaps: seq<Gap>)
    requires GapsOk(s.gaps, Missing(s.record)) && Apart(s.delivered, s.gaps)
    requires DeliveredOk(s.delivered, s.log, Cursor(s))
    requires result.eventGap.Some? ==>
      Cursor(s) < Missing(s.record) && result.eventGap.value == Gap(Cursor(s) + 1, Missing(s.record) + 1)
    requires gaps == s.gaps + if result.eventGap.Some? then [result.eventGap.value] else []
    requires forall i | 0 <= i < |result.events| :: result.events[i].eventSeq > Missing(s.record)
    ensures GapsOk(gaps, Missing(s.record)) && Apart(s.delivered + result.events, gaps)
  {
    hide DeliveredOk;
    assert forall e | e in s.delivered :: e.eventSeq <= Cursor(s) by { DeliveredBelow(s); }
  }

  lemma DeliveredBelow(s: Reading)
    requires DeliveredOk(s.delivered, s.log, Cursor(s))
    ensures forall e | e in s.delivered :: e.eventSeq <= Cursor(s)
  {
  }

  lemma CoverageKeeps(s: Reading, result: ToolRead, gaps: seq<Gap>, maxEvents: nat)
    requires Covered(s.delivered, s.gaps, Cursor(s)) && |s.record.events| <= s.record.eventSeq
    requires Cursor(s) <= s.record.eventSeq
    requires var n, m := Read(s.record, Cursor(s)), Taken(s.record, Cursor(s), maxEvents);
      && |result.events| == m
      && (forall i | 0 <= i < m :: result.events[i].eventSeq == Missing(s.record) + n + i + 1)
      && result.eventCursor == (if m > 0 then Missing(s.record) + n + m else Cursor(s))
      && result.eventGap == (if Cursor(s) < Missing(s.record) then Some(Gap(Cursor(s) + 1, Missing(s.record) + 1)) else None)
    requires gaps == s.gaps + if result.eventGap.Some? then [result.eventGap.value] else []
    ensures Covered(s.delivered + result.events, gaps, result.eventCursor)
  {
    forall k | 1 <= k <= result.eventCursor
      ensures WasDelivered(s.delivered + result.events, k) || WasMissed(gaps, k) {
      var n := Read(s.record, Cursor(s));
      if k <= Cursor(s) {
        if WasDelivered(s.delivered, k) {
          var e :| e in s.delivered && e.eventSeq == k;
          assert e in s.delivered + result.events;
        } else {
          var g :| g in s.gaps && Inside(g, k);
          assert g in gaps;
        }
      } else if k <= Missing(s.record) {
        assert result.eventGap.value in gaps && Inside(result.eventGap.value, k);
      } else {
        var e := result.events[k - Missing(s.record) - n - 1];
        assert e in s.delivered + result.events;
      }
    }
  }

  lemma ApplyKeeps(s: Reading, step: Step)
    requires Inv(s)
    ensures Inv(Apply(s, step))
  {
    match step
    case DoAppend(at, bytes, payload, now) => AppendKeeps(s, at, bytes, payload, now);
    case DoRead(maxEvents) => ReadKeeps(s, maxEvents);
    case DoCompact(now) =>
      ValidMeansSuffix(s.record);
      CompactKeeps(s.record, s.log, now);
      hide Compact, PassesFull, Covered, Apart;
  }

  lemma {:induction false} RunKeeps(s: Reading, steps: seq<Step>)
    requires Inv(s)
    ensures Inv(Run(s, steps))
    decreases |steps|
  {
    hide Inv, Apply;
    if steps == [] {
    } else {
      ApplyKeeps(s, steps[0]);
      RunKeeps(Apply(s, steps[0]), steps[1..]);
    }
  }

  lemma ReachableIsFine(steps: seq<Step>)
    ensures Inv(Run(START, steps))
  {
    hide Inv, Run;
    StartIsFine();
    RunKeeps(START, steps);
  }

  lemma StartIsFine()
    ensures Inv(START)
  {
    EmptyIsValid();
    hide PassesFull, ListBytes;
  }

  lemma EmptyIsValid()
    ensures PassesFull(Record(0, [], false, None))
  {
  }

  // ---------- The promises ----------

  /** Each event is delivered at most once, unchanged and in order. */
  lemma DeliveredOnceInOrder(steps: seq<Step>)
    ensures var s := Run(START, steps);
      && (forall i | 0 <= i < |s.delivered| :: s.delivered[i] in s.log)
      && (forall i, j | 0 <= i < j < |s.delivered| :: s.delivered[i].eventSeq < s.delivered[j].eventSeq)
  {
    ReachableIsFine(steps);
    hide Run, PassesFull, Covered, Apart;
  }

  /**
   Every event at or below the cursor was delivered or lies in a reported gap, and not both; every gap ends
   where the journal begins or before.
   */
  lemma NothingIsSkipped(steps: seq<Step>, k: nat)
    ensures var s := Run(START, steps);
      && (1 <= k <= Cursor(s) ==> (WasDelivered(s.delivered, k) <==> !WasMissed(s.gaps, k)))
      && (WasMissed(s.gaps, k) ==> k <= Missing(s.record))
  {
    ReachableIsFine(steps);
    hide Run, PassesFull, JournalOk, DeliveredOk;
    var s := Run(START, steps);
    if WasMissed(s.gaps, k) {
      var g :| g in s.gaps && Inside(g, k);
      assert forall e | e in s.delivered :: !Inside(g, e.eventSeq);
    }
  }

  lemma InvFacts(s: Reading)
    requires Inv(s)
    ensures PassesFull(s.record) && |s.record.events| <= s.record.eventSeq && Cursor(s) <= s.record.eventSeq
  {
  }

  function Unread(s: Reading): int
    requires |s.record.events| <= s.record.eventSeq && Cursor(s) <= s.record.eventSeq
  {
    |s.record.events| - Read(s.record, Cursor(s))
  }

  function Reads(times: nat, maxEvents: nat): seq<Step> { seq(times, i => DoRead(maxEvents)) }

  /**
   A reader that keeps reading a quiet journal gets to its end exactly when the journal still holds an event, or
   the reader is there already.
   */
  lemma ReadersCatchUp(s: Reading, maxEvents: nat, times: nat)
    requires Inv(s) && maxEvents > 0
    ensures |s.record.events| <= s.record.eventSeq && Cursor(s) <= s.record.eventSeq
    ensures times >= Unread(s) ==>
      (Cursor(Run(s, Reads(times, maxEvents))) == s.record.eventSeq
       <==> s.record.events != [] || Cursor(s) == s.record.eventSeq)
  {
    hide Inv, Run, PassesFull;
    InvFacts(s);
    if s.record.events == [] { StuckForever(s, maxEvents, times); }
    else { ReadsOn(s, maxEvents, times); }
  }

  lemma {:induction false} ReadsOn(s: Reading, maxEvents: nat, times: nat)
    requires Inv(s) && maxEvents > 0
    ensures |s.record.events| <= s.record.eventSeq && Cursor(s) <= s.record.eventSeq
    ensures var s' := Run(s, Reads(times, maxEvents));
      && Inv(s') && s'.record == s.record
      && (s.record.events != [] && times >= Unread(s) ==> Cursor(s') == s.record.eventSeq)
    decreases times
  {
    hide Inv, Apply, ReadResult, PassesFull;
    InvFacts(s);
    if times == 0 {
    } else {
      var next := Apply(s, DoRead(maxEvents));
      assert Reads(times, maxEvents)[0] == DoRead(maxEvents) && Reads(times, maxEvents)[1..] == Reads(times - 1, maxEvents);
      ApplyKeeps(s, DoRead(maxEvents));
      ReadMeans(s.record, s.cursor, maxEvents);
      ReadMoves(s, maxEvents);
      ReadsOn(next, maxEvents, times - 1);
    }
  }

  /** A read of a journal that holds nothing any more: no event, the same cursor, and the same gap again. */
  lemma {:induction false} StuckForever(s: Reading, maxEvents: nat, times: nat)
    requires Inv(s) && s.record.events == []
    ensures var s' := Run(s, Reads(times, maxEvents));
      && Inv(s') && s'.record == s.record && Cursor(s') == Cursor(s) && s'.delivered == s.delivered
      && s'.gaps == s.gaps + seq(if Cursor(s) < s.record.eventSeq then times else 0,
                                 i => Gap(Cursor(s) + 1, s.record.eventSeq + 1))
    decreases times
  {
    hide Inv, Apply, ReadResult, PassesFull;
    InvFacts(s);
    var gap := Gap(Cursor(s) + 1, s.record.eventSeq + 1);
    if times == 0 {
    } else {
      var next := Apply(s, DoRead(maxEvents));
      assert Reads(times, maxEvents)[0] == DoRead(maxEvents) && Reads(times, maxEvents)[1..] == Reads(times - 1, maxEvents);
      ApplyKeeps(s, DoRead(maxEvents));
      ReadMeans(s.record, s.cursor, maxEvents);
      ReadAdds(s, maxEvents);
      StuckForever(next, maxEvents, times - 1);
      if Cursor(s) < s.record.eventSeq {
        assert seq(times, i => gap) == [gap] + seq(times - 1, i => gap);
      }
    }
  }

  lemma ReadAdds(s: Reading, maxEvents: nat)
    requires ReadResult(s.record, s.cursor, maxEvents).Some?
    ensures var s', result := Apply(s, DoRead(maxEvents)), ReadResult(s.record, s.cursor, maxEvents).value;
      && s'.record == s.record && Cursor(s') == result.eventCursor && s'.delivered == s.delivered + result.events
      && s'.gaps == s.gaps + (if result.eventGap.Some? then [result.eventGap.value] else [])
  {
    hide ReadResult;
  }

  function Latest(events: seq<Event>): int {
    if events == [] then 0
    else if events[0].at > Latest(events[1..]) then events[0].at
    else Latest(events[1..])
  }

  lemma {:induction false} LatestBounds(events: seq<Event>, i: nat)
    requires i < |events|
    ensures events[i].at <= Latest(events)
    decreases |events|
  {
    if i == 0 {
    } else {
      LatestBounds(events[1..], i - 1);
    }
  }

  /**
   Such journals come about: whatever a reader has not read yet, there is a time at which the journal has lost it,
   and no number of reads then gets to the end.
   */
  lemma ReadersCanGetStuck(s: Reading, maxEvents: nat)
    requires Inv(s) && Cursor(s) < s.record.eventSeq
    ensures exists now :: forall times: nat ::
      Cursor(Run(Apply(s, DoCompact(now)), Reads(times, maxEvents))) == Cursor(s)
  {
    var now := Latest(s.record.events) + RETENTION_MS + 1;
    var emptied := Apply(s, DoCompact(now));
    ApplyKeeps(s, DoCompact(now));
    CompactsAll(s.record, now);
    hide Inv, Run, Apply;
    forall times: nat ensures Cursor(Run(emptied, Reads(times, maxEvents))) == Cursor(s) {
      StuckForever(emptied, maxEvents, times);
    }
  }

  lemma CompactsAll(r: Record, now: int)
    requires now - RETENTION_MS > Latest(r.events)
    ensures Compact(r, now).events == []
  {
    if r.events == [] {
    } else {
      var start := KeptFrom(r.events, now - RETENTION_MS, 0);
      if start < |r.events| {
        LatestBounds(r.events, start);
        assert Stale(r.events[start], now - RETENTION_MS);
      }
    }
  }

  lemma ReadMoves(s: Reading, maxEvents: nat)
    requires ReadResult(s.record, s.cursor, maxEvents).Some?
    ensures var s' := Apply(s, DoRead(maxEvents));
      s'.record == s.record && Cursor(s') == ReadResult(s.record, s.cursor, maxEvents).value.eventCursor
  {
    hide ReadResult;
  }
}
