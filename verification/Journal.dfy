/**
 The event journal of a task: its validator in shared/protocol/models.ts, its compaction in
 src/domain/taskEvents.ts, the slices cut by src/broker/BrokerTaskService.ts and
 src/application/RemoteTaskRunner.ts, and what a tool reads of a slice in src/application/TaskCoordinator.ts.
 */
module Journal {
  import opened Wrappers

  /** `bytes` is the size of the serialised event; it is never empty. */
  datatype Event = Event(eventSeq: nat, at: int, bytes: nat, payload: nat)

  datatype Record = Record(eventSeq: nat, events: seq<Event>, eventsTruncated: bool, earliest: Option<nat>)

  const JOURNAL_BYTES: nat := 640 * 1024
  const RETENTION_MS: int := 24 * 60 * 60 * 1000

  /** Bytes of a serialised list: two brackets, the events, and the commas between them. */
  function ListBytes(events: seq<Event>): nat {
    2 + Content(events)
  }

  function Content(events: seq<Event>): nat {
    if events == [] then 0
    else events[0].bytes + (if |events| == 1 then 0 else 1) + Content(events[1..])
  }

  // ---------- The validator, and what it means ----------

  function FirstSeq(r: Record): nat {
    if r.events != [] then r.events[0].eventSeq else r.eventSeq + 1
  }

  predicate Contiguous(events: seq<Event>, first: nat) {
    forall i | 0 <= i < |events| :: events[i].eventSeq == first + i
  }

  /** `validateFullJournal` reports no issue. */
  predicate PassesFull(r: Record) {
    && (if r.eventsTruncated then r.earliest else Some(1)) == Some(FirstSeq(r))
    && (r.eventsTruncated || r.earliest.None?)
    && (r.eventsTruncated ==> r.earliest.Some? && r.earliest.value > 1)
    && Contiguous(r.events, FirstSeq(r))
    && (r.events != [] ==> r.events[|r.events| - 1].eventSeq == r.eventSeq)
    && ListBytes(r.events) <= JOURNAL_BYTES
  }

  /** A valid journal holds exactly the newest events, and says from where when some are missing. */
  lemma ValidMeansSuffix(r: Record)
    ensures PassesFull(r) <==>
      && |r.events| <= r.eventSeq
      && Contiguous(r.events, r.eventSeq - |r.events| + 1)
      && r.earliest == (if r.eventsTruncated then Some(r.eventSeq - |r.events| + 1) else None)
      && (r.eventsTruncated <==> |r.events| < r.eventSeq)
      && ListBytes(r.events) <= JOURNAL_BYTES
  {
    hide ListBytes;
    if r.events != [] {
      assert r.events[0] == r.events[0] && r.events[|r.events| - 1] == r.events[|r.events| - 1];
    }
  }

  // ---------- Compaction ----------

  predicate Stale(e: Event, cutoff: int) {
    e.at < cutoff || e.bytes + 2 > JOURNAL_BYTES
  }

  /** A suffix that may be kept: nothing stale and within the budget. */
  predicate Keepable(events: seq<Event>, start: nat, cutoff: int) {
    && start <= |events|
    && (forall i | start <= i < |events| :: !Stale(events[i], cutoff))
    && ListBytes(events[start..]) <= JOURNAL_BYTES
  }

  lemma ContentGrows(events: seq<Event>, i: nat)
    requires i < |events|
    ensures Content(events[i..]) == events[i].bytes + (if i + 1 == |events| then 0 else 1) + Content(events[i + 1..])
  {
    assert events[i..][1..] == events[i + 1..];
  }

  lemma {:induction false} LongerCostsMore(events: seq<Event>, i: nat, j: nat)
    requires i <= j <= |events|
    ensures Content(events[j..]) <= Content(events[i..])
    decreases j - i
  {
    if i >= j {
    } else {
      ContentGrows(events, i);
      LongerCostsMore(events, i + 1, j);
    }
  }

  /** The two loops of `compactTaskEventJournal`: the longest suffix that may be kept. */
  method RetainedStart(events: seq<Event>, cutoff: int) returns (start: nat)
    ensures Keepable(events, start, cutoff)
    ensures forall i | 0 <= i < start :: !Keepable(events, i, cutoff)
  {
    hide Content;
    start := 0;
    var index := 0;
    while index < |events|
      invariant 0 <= index <= |events| && start <= index
      invariant start > 0 ==> Stale(events[start - 1], cutoff)
      invariant forall i | start <= i < index :: !Stale(events[i], cutoff)
    {
      if Stale(events[index], cutoff) {
        start := index + 1;
      }
      index := index + 1;
    }
    var byteLimited: nat := |events|;
    var bytes := 2;
    ContentOfNone(events);
    while byteLimited > start
      invariant start <= byteLimited <= |events|
      invariant bytes == ListBytes(events[byteLimited..]) <= JOURNAL_BYTES
    {
      ContentGrows(events, byteLimited - 1);
      var separator := if byteLimited == |events| then 0 else 1;
      if bytes + separator + events[byteLimited - 1].bytes > JOURNAL_BYTES {
        break;
      }
      bytes := bytes + separator + events[byteLimited - 1].bytes;
      byteLimited := byteLimited - 1;
    }
    forall i | 0 <= i < byteLimited ensures !Keepable(events, i, cutoff) {
      LongerCostsMore(events, i, byteLimited - 1);
    }
    start := if start < byteLimited then byteLimited else start;
  }

  lemma ContentOfNone(events: seq<Event>)
    ensures Content(events[|events|..]) == 0
  {
  }

  /** The start of the longest suffix, as a function. */
  function KeptFrom(events: seq<Event>, cutoff: int, from: nat): (start: nat)
    requires from <= |events|
    ensures from <= start <= |events|
    ensures Keepable(events, start, cutoff)
    ensures forall i | from <= i < start :: !Keepable(events, i, cutoff)
    decreases |events| - from
  {
    if from == |events| || Keepable(events, from, cutoff) then from else KeptFrom(events, cutoff, from + 1)
  }

  function Compact(r: Record, now: int): Record {
    if r.events == [] then
      if r.eventsTruncated then r.(earliest := Some(r.eventSeq + 1)) else r
    else
      var start := KeptFrom(r.events, now - RETENTION_MS, 0);
      var kept := r.(events := r.events[start..]);
      if start == 0 && (!r.eventsTruncated || r.earliest == Some(FirstSeq(kept))) then r
      else kept.(eventsTruncated := true, earliest := Some(FirstSeq(kept)))
  }

  method CompactTaskEventJournal(r: Record, now: int) returns (compacted: Record)
    ensures compacted == Compact(r, now)
  {
    if r.events == [] {
      return if r.eventsTruncated then r.(earliest := Some(r.eventSeq + 1)) else r;
    }
    hide Keepable, KeptFrom;
    var start := RetainedStart(r.events, now - RETENTION_MS);
    var events := r.events[start..];
    var truncated := r.eventsTruncated || start > 0;
    var earliest := if events != [] then events[0].eventSeq else r.eventSeq + 1;
    if start == 0 && (!truncated || r.earliest == Some(earliest)) {
      return r;
    }
    return r.(events := events, eventsTruncated := true, earliest := Some(earliest));
  }

  /** Compaction drops from the front only; a contiguous record whose gap is declared becomes valid. */
  lemma CompactionIsValid(r: Record, now: int)
    requires |r.events| <= r.eventSeq && Contiguous(r.events, r.eventSeq - |r.events| + 1)
    requires r.eventsTruncated <==> |r.events| < r.eventSeq
    requires r.eventsTruncated || r.earliest.None?
    ensures var after := Compact(r, now);
      && PassesFull(after) && after.eventSeq == r.eventSeq
      && |after.events| <= |r.events| && after.events == r.events[|r.events| - |after.events|..]
      && (forall e | e in after.events :: !Stale(e, now - RETENTION_MS))
  {
    var after := Compact(r, now);
    if r.events != [] {
      var start := KeptFrom(r.events, now - RETENTION_MS, 0);
      assert after.events == r.events[start..];
      assert Keepable(r.events, start, now - RETENTION_MS);
      hide KeptFrom, Content;
      forall i | 0 <= i < |after.events| ensures after.events[i].eventSeq == r.eventSeq - |after.events| + 1 + i {
        assert after.events[i] == r.events[start + i];
      }
      assert start == 0 ==> after.events == r.events;
    }
    hide Keepable, KeptFrom, Content;
    ValidMeansSuffix(after);
  }

  // ---------- Slices ----------

  datatype Slice = Slice(afterEventSeq: nat, eventSeq: nat, events: seq<Event>, eventsTruncated: bool, earliest: Option<nat>)

  function After(events: seq<Event>, cursor: nat): seq<Event> {
    if events == [] then []
    else (if events[0].eventSeq > cursor then [events[0]] else []) + After(events[1..], cursor)
  }

  function Or(earliest: Option<nat>, default: nat): nat {
    if earliest.Some? then earliest.value else default
  }

  /** `snapshot` with a cursor; None when the cursor is ahead of the journal. */
  function SliceOf(r: Record, cursor: nat): Option<Slice> {
    if cursor > r.eventSeq then None
    else
      var earliest := Or(r.earliest, 1);
      Some(Slice(cursor, r.eventSeq, After(r.events, cursor), cursor + 1 < earliest,
                 if r.eventsTruncated then Some(earliest) else None))
  }

  /** The refinements of `taskSnapshotAfterEventSeqSchema` that concern the journal report no issue. */
  predicate PassesSlice(s: Slice) {
    var earliest := Or(s.earliest, 1);
    var expected := if s.afterEventSeq + 1 > earliest then s.afterEventSeq + 1 else earliest;
    var actual := if s.events != [] then s.events[0].eventSeq else s.eventSeq + 1;
    && s.afterEventSeq <= s.eventSeq
    && (s.eventsTruncated <==> s.afterEventSeq + 1 < earliest)
    && (s.earliest.Some? ==> earliest <= s.eventSeq + 1)
    && actual == expected
    && Contiguous(s.events, actual)
    && (s.events != [] ==> s.events[|s.events| - 1].eventSeq == s.eventSeq)
    && ListBytes(s.events) <= JOURNAL_BYTES
  }

  /** Of a contiguous journal, the events after the cursor are a suffix. */
  lemma {:induction false} AfterIsSuffix(events: seq<Event>, first: nat, cursor: nat)
    requires Contiguous(events, first)
    ensures var drop := if cursor < first then 0 else if cursor + 1 - first < |events| then cursor + 1 - first else |events|;
      After(events, cursor) == events[drop..]
    decreases |events|
  {
    if events == [] {
    } else {
      assert events[0].eventSeq == first;
      assert forall i | 0 <= i < |events[1..]| :: events[1..][i] == events[i + 1];
      AfterIsSuffix(events[1..], first + 1, cursor);
      if cursor < first {
        assert [events[0]] + events[1..] == events;
      }
    }
  }

  /** The number of journal events at or below the cursor. */
  function Read(r: Record, cursor: nat): (n: nat)
    requires |r.events| <= r.eventSeq && cursor <= r.eventSeq
    ensures n <= |r.events|
  {
    var missing := r.eventSeq - |r.events|;
    if cursor < missing then 0 else cursor - missing
  }

  /** Every slice cut from a valid journal passes the slice validator, and holds exactly the unread suffix. */
  lemma SlicesAreValid(r: Record, cursor: nat)
    requires PassesFull(r)
    ensures SliceOf(r, cursor).Some? <==> cursor <= r.eventSeq
    ensures cursor <= r.eventSeq ==>
      && |r.events| <= r.eventSeq
      && PassesSlice(SliceOf(r, cursor).value)
      && SliceOf(r, cursor).value.events == r.events[Read(r, cursor)..]
  {
    hide ListBytes, After, PassesFull, PassesSlice, Contiguous;
    ValidMeansSuffix(r);
    if cursor <= r.eventSeq {
      AfterIsSuffix(r.events, r.eventSeq - |r.events| + 1, cursor);
      SuffixFits(r.events, Read(r, cursor));
      SuffixPasses(r, cursor, r.events[Read(r, cursor)..]);
    }
  }

  lemma SuffixPasses(r: Record, cursor: nat, events: seq<Event>)
    requires |r.events| <= r.eventSeq && cursor <= r.eventSeq
    requires Contiguous(r.events, r.eventSeq - |r.events| + 1)
    requires r.earliest == (if r.eventsTruncated then Some(r.eventSeq - |r.events| + 1) else None)
    requires r.eventsTruncated <==> |r.events| < r.eventSeq
    requires events == r.events[Read(r, cursor)..] && ListBytes(events) <= JOURNAL_BYTES
    ensures var earliest := Or(r.earliest, 1);
      PassesSlice(Slice(cursor, r.eventSeq, events, cursor + 1 < earliest, if r.eventsTruncated then Some(earliest) else None))
  {
    hide ListBytes;
    assert forall i | 0 <= i < |events| :: events[i] == r.events[Read(r, cursor) + i];
  }

  lemma SuffixFits(events: seq<Event>, n: nat)
    requires n <= |events|
    ensures ListBytes(events[n..]) <= ListBytes(events)
  {
    hide Content;
    assert events[0..] == events;
    LongerCostsMore(events, 0, n);
  }

  // ---------- What a tool reads ----------

  /** A gap runs from `expectedFrom` up to but not including `availableFrom`. */
  datatype Gap = Gap(expectedFrom: nat, availableFrom: nat)

  datatype ToolRead = ToolRead(eventCursor: nat, events: seq<Event>, eventGap: Option<Gap>, truncated: bool)

  /** `toToolReadResult`; without a cursor the whole journal is read from 0. */
  function ToToolReadResult(s: Slice, requested: Option<nat>, maxEvents: nat): ToolRead {
    var after := Or(requested, 0);
    var available := if s.events != [] then s.events[0].eventSeq else Or(s.earliest, s.eventSeq + 1);
    var selected := if |s.events| <= maxEvents then s.events else s.events[..maxEvents];
    var gap := if available > after + 1 then Some(Gap(after + 1, available)) else None;
    ToolRead(if selected != [] then selected[|selected| - 1].eventSeq else after, selected, gap,
             gap.Some? || s.eventsTruncated || |selected| < |s.events|)
  }

  /** The snapshot a read without a cursor receives. */
  function Whole(r: Record): Slice {
    Slice(0, r.eventSeq, r.events, r.eventsTruncated, r.earliest)
  }
}
