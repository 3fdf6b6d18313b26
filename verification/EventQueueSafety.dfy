/**
 What every interleaving of the event queue keeps: byte accounting, bounds, freedom from deadlock,
 order, and an account of every unit of output text.
 */
module EventQueueSafety {
  import opened Wrappers
  import opened Utf16
  import opened RuntimeText
  import opened EventQueue

  // ---------- Sums ----------

  function SizesOf(events: seq<Event>): nat {
    if events == [] then 0 else Size(events[0]) + SizesOf(events[1..])
  }

  function UnitsOf(events: seq<Event>): nat {
    if events == [] then 0 else Units(events[0]) + UnitsOf(events[1..])
  }

  function ControlsOf(events: seq<Event>): seq<Event> {
    if events == [] then []
    else (if PriorityOf(events[0]) == Nondroppable then [events[0]] else []) + ControlsOf(events[1..])
  }

  function TextOf(events: seq<Event>): Text {
    if events == [] then [] else OutputText(events[0]) + TextOf(events[1..])
  }

  lemma Assoc<T>(a: seq<T>, b: seq<T>, c: seq<T>)
    ensures a + b + c == a + (b + c)
  {
  }

  lemma {:induction false} TextOfConcat(a: seq<Event>, b: seq<Event>)
    ensures TextOf(a + b) == TextOf(a) + TextOf(b)
  {
    if a == [] {
      assert a + b == b;
    } else {
      TextOfConcat(a[1..], b);
      assert (a + b)[1..] == a[1..] + b;
      Assoc(OutputText(a[0]), TextOf(a[1..]), TextOf(b));
    }
  }

  lemma TextOfOne(e: Event)
    ensures TextOf([e]) == OutputText(e)
  {
    assert [e][1..] == [];
  }

  lemma TextOfEmpty()
    ensures TextOf([]) == [] && ControlsOf([]) == [] && UnitsOf([]) == 0 && SizesOf([]) == 0
  {
  }

  function LossUnits(losses: seq<Loss>): nat {
    if losses == [] then 0 else losses[0].units + LossUnits(losses[1..])
  }

  lemma {:induction false} EventSumsConcat(a: seq<Event>, b: seq<Event>)
    ensures SizesOf(a + b) == SizesOf(a) + SizesOf(b)
    ensures UnitsOf(a + b) == UnitsOf(a) + UnitsOf(b)
    ensures ControlsOf(a + b) == ControlsOf(a) + ControlsOf(b)
  {
    if a == [] {
      assert a + b == b;
    } else {
      EventSumsConcat(a[1..], b);
      assert (a + b)[1..] == a[1..] + b;
      var first := if PriorityOf(a[0]) == Nondroppable then [a[0]] else [];
      assert first + (ControlsOf(a[1..]) + ControlsOf(b)) == first + ControlsOf(a[1..]) + ControlsOf(b);
    }
  }

  lemma EventSumsOne(e: Event)
    ensures SizesOf([e]) == Size(e) && UnitsOf([e]) == Units(e)
    ensures ControlsOf([e]) == if PriorityOf(e) == Nondroppable then [e] else []
  {
    assert [e][1..] == [];
  }

  lemma {:induction false} LossUnitsConcat(a: seq<Loss>, b: seq<Loss>)
    ensures LossUnits(a + b) == LossUnits(a) + LossUnits(b)
  {
    if a == [] {
      assert a + b == b;
    } else {
      LossUnitsConcat(a[1..], b);
      assert (a + b)[1..] == a[1..] + b;
    }
  }

  function NoticesIn(events: seq<Event>): nat {
    if events == [] then 0 else NoticesIn(events[..|events| - 1]) + if events[|events| - 1] == NOTICE then 1 else 0
  }

  lemma NoticesInMore(events: seq<Event>, e: Event)
    ensures NoticesIn(events + [e]) == NoticesIn(events) + if e == NOTICE then 1 else 0
  {
    hide NOTICE;
    assert (events + [e])[..|events|] == events;
  }

  // ---------- State invariants ----------

  ghost predicate Sound(c: Config, s: State) {
    && s.bufferedBytes == SizesOf(s.values)
    && |s.values| <= c.maxItems && s.bufferedBytes <= c.maxBytes
    && s.pendingItems <= c.maxItems && s.pendingBytes <= c.maxBytes
    && (s.waiting != [] ==> s.values == [])
    && (s.capacityWaiters != [] ==> s.values != [])
    && (s.closed ==> s.sealed && s.waiting == [] && s.capacityWaiters == [])
    && (s.pressureReported ==> s.episodes >= 1)
    && ControlsOf(s.log) == ControlsOf(s.delivered) + ControlsOf(s.values)
    && TextComplete(s) && ReportsOk(s.log, s.reports, s.sealed, s.closed)
  }

  /**
   Every episode noticed has a notice in the log; a reporter gives up only once the queue is closed, or sealed and its
   episode had begun before the seal.
   */
  ghost predicate ReportsOk(log: seq<Event>, reports: Reports, sealed: bool, closed: bool) {
    && |reports.noticed| <= NoticesIn(log)
    && forall k | k in reports.cutOff :: closed || (sealed && k <= reports.sealEpisodes)
  }

  /** The accepted text is what is delivered or buffered, in order, and the text evicted in between. */
  ghost predicate TextComplete(s: State) {
    Complete(TextOf(s.delivered) + TextOf(s.values), s.evicted, s.accepted)
  }

  /** The units of `part` lie at these places in `whole`. */
  ghost predicate Picks(part: Text, whole: Text, at: seq<nat>) {
    && |at| == |part|
    && (forall i, j | 0 <= i < j < |at| :: at[i] < at[j])
    && (forall i | 0 <= i < |at| :: at[i] < |whole| && part[i] == whole[at[i]])
  }

  /** `kept` is left of `whole`, in order, when exactly the units of `gone` are taken out. */
  ghost predicate Complete(kept: Text, gone: Text, whole: Text) {
    (exists at :: Picks(kept, whole, at)) && multiset(whole) == multiset(kept) + multiset(gone)
  }

  lemma CompleteGrows(kept: Text, gone: Text, whole: Text, more: Text)
    requires Complete(kept, gone, whole)
    ensures Complete(kept + more, gone, whole + more)
  {
    var at :| Picks(kept, whole, at);
    assert Picks(kept + more, whole + more, at + seq(|more|, i => |whole| + i));
  }

  lemma CompleteLoses(before: Text, lost: Text, after: Text, gone: Text, whole: Text)
    requires Complete(before + (lost + after), gone, whole)
    ensures Complete(before + after, gone + lost, whole)
  {
    var kept := before + (lost + after);
    var at :| Picks(kept, whole, at);
    var n, m := |before|, |before| + |lost|;
    PicksLess(before, lost, after, whole, at, at[..n] + at[m..]);
    hide Picks;
    assert multiset(kept) == multiset(before) + multiset(lost) + multiset(after);
  }

  lemma PicksLess(before: Text, lost: Text, after: Text, whole: Text, at: seq<nat>, left: seq<nat>)
    requires Picks(before + (lost + after), whole, at) && left == at[..|before|] + at[|before| + |lost|..]
    ensures Picks(before + after, whole, left)
  {
    var kept := before + (lost + after);
    var n, m := |before|, |before| + |lost|;
    assert forall i | 0 <= i < n :: left[i] == at[i] && kept[i] == before[i];
    assert forall i | n <= i < |left| :: left[i] == at[i + |lost|] && kept[i + |lost|] == after[i - n];
  }

  lemma CompleteKeepsAll(kept: Text, whole: Text)
    requires Complete(kept, [], whole)
    ensures kept == whole
  {
    var at :| Picks(kept, whole, at);
    assert multiset(whole) == multiset(kept) + multiset([]);
    assert |multiset(whole)| == |whole| && |multiset(kept)| == |kept|;
    PlacesGrow(at, |whole|);
  }

  /** As many increasing places as there are, are all of them. */
  lemma {:induction false} PlacesGrow(at: seq<nat>, n: nat)
    requires |at| == n && (forall i, j | 0 <= i < j < |at| :: at[i] < at[j]) && forall i | 0 <= i < |at| :: at[i] < n
    ensures forall i | 0 <= i < n :: at[i] == i
    decreases n
  {
    if n == 0 {
    } else {
      var rest := at[..n - 1];
      forall i | 0 <= i < |rest| ensures rest[i] < n - 1 {
        assert at[i] < at[n - 1];
      }
      PlacesGrow(rest, n - 1);
      forall i | 0 <= i < n - 1 ensures at[i] == i {
        assert rest[i] == i;
      }
      assert n > 1 ==> at[n - 2] < at[n - 1];
    }
  }

  /** Output units that are delivered, buffered or on record as lost. */
  ghost function Balance(s: State): nat {
    UnitsOf(s.delivered) + UnitsOf(s.values) + LossUnits(s.losses)
  }

  ghost predicate AccountedUpTo(s: State, limit: nat) {
    forall i | 0 <= i < |s.losses| ::
      if s.losses[i].afterSeal then s.sealed else 1 <= s.losses[i].episode <= limit
  }

  ghost predicate Accounted(s: State) { AccountedUpTo(s, s.episodes) }

  ghost predicate Later(s: State, s': State) {
    && (s.sealed ==> s'.sealed) && (s.closed ==> s'.closed)
    && s.episodes <= s'.episodes && s.reports.noticed <= s'.reports.noticed && s.reports.cutOff <= s'.reports.cutOff
    && (if s.sealed then s'.reports.sealEpisodes == s.reports.sealEpisodes
        else s'.sealed ==> s'.reports.sealEpisodes >= s.episodes)
  }

  /** A helper that neither seals nor reserves. */
  ghost predicate Local(s: State, s': State) {
    && s'.sealed == s.sealed && s'.closed == s.closed
    && s'.pendingItems == s.pendingItems && s'.pendingBytes == s.pendingBytes
    && s.reports.noticed <= s'.reports.noticed && s.reports.cutOff <= s'.reports.cutOff
    && s'.reports.sealEpisodes == s.reports.sealEpisodes
  }

  lemma EnqueueKeepsText(s: State, e: Event)
    requires TextComplete(s) && (s.waiting != [] ==> s.values == [])
    ensures TextComplete(Enqueue(s, e))
  {
    hide TextOf, Complete;
    TextOfOne(e);
    CompleteGrows(TextOf(s.delivered) + TextOf(s.values), s.evicted, s.accepted, OutputText(e));
    if s.waiting != [] {
      TextOfEmpty();
      TextOfConcat(s.delivered, [e]);
      assert TextOf(s.delivered) + [] + OutputText(e) == TextOf(s.delivered) + OutputText(e) + [];
    } else {
      TextOfConcat(s.values, [e]);
      Assoc(TextOf(s.delivered), TextOf(s.values), OutputText(e));
    }
  }

  lemma EnqueueKeepsControls(s: State, e: Event)
    requires ControlsOf(s.log) == ControlsOf(s.delivered) + ControlsOf(s.values)
    requires s.waiting != [] ==> s.values == []
    ensures var s' := Enqueue(s, e);
      ControlsOf(s'.log) == ControlsOf(s'.delivered) + ControlsOf(s'.values)
  {
    hide ControlsOf, SizesOf, UnitsOf;
    EventSumsConcat(s.log, [e]);
    if s.waiting != [] {
      TextOfEmpty();
      EventSumsConcat(s.delivered, [e]);
    } else {
      EventSumsConcat(s.values, [e]);
      Assoc(ControlsOf(s.delivered), ControlsOf(s.values), ControlsOf([e]));
    }
  }

  lemma EnqueueKeeps(c: Config, s: State, e: Event)
    requires Sound(c, s) && HasCapacity(c, s, Size(e))
    ensures var s' := Enqueue(s, e);
      && Sound(c, s') && Local(s, s') && Balance(s') == Balance(s) + Units(e)
      && s'.losses == s.losses && s'.episodes == s.episodes && s'.pressureReported == s.pressureReported
      && s'.reports == s.reports && s'.log == s.log + [e]
      && (Accounted(s) ==> Accounted(s'))
  {
    hide ControlsOf, SizesOf, UnitsOf, TextOf, TextComplete, NoticesIn, NOTICE;
    NoticesInMore(s.log, e);
    EventSumsOne(e);
    EnqueueKeepsText(s, e);
    EnqueueKeepsControls(s, e);
    if s.waiting != [] {
      EventSumsConcat(s.delivered, [e]);
    } else {
      EventSumsConcat(s.values, [e]);
    }
  }

  lemma LoseKeeps(c: Config, s: State, loss: Loss, limit: nat)
    requires AccountedUpTo(s, limit)
    requires if loss.afterSeal then s.sealed else 1 <= loss.episode <= limit
    ensures var s' := s.(losses := s.losses + [loss]);
      && AccountedUpTo(s', limit) && Balance(s') == Balance(s) + loss.units
      && (Sound(c, s) ==> Sound(c, s'))
  {
    LossUnitsConcat(s.losses, [loss]);
    assert [loss][1..] == [];
  }

  lemma RemoveSums(values: seq<Event>, i: nat)
    requires i < |values| && Discardable(values[i], true)
    ensures var left := values[..i] + values[i + 1..];
      && SizesOf(left) == SizesOf(values) - Size(values[i])
      && UnitsOf(left) == UnitsOf(values) - Units(values[i])
      && ControlsOf(left) == ControlsOf(values)
  {
    hide ControlsOf, SizesOf, UnitsOf;
    var one, rest := [values[i]], values[i + 1..];
    assert values == values[..i] + (one + rest);
    EventSumsConcat(values[..i], one + rest);
    EventSumsConcat(one, rest);
    EventSumsConcat(values[..i], rest);
    EventSumsOne(values[i]);
    assert [] + ControlsOf(rest) == ControlsOf(rest);
  }

  /** The text removed with an entry is the text that is gone from the buffer. */
  lemma RemoveKeepsText(s: State, i: nat, evicted: Text)
    requires TextComplete(s) && i < |s.values| && evicted == s.evicted + OutputText(s.values[i])
    ensures Complete(TextOf(s.delivered) + TextOf(s.values[..i] + s.values[i + 1..]), evicted, s.accepted)
  {
    hide TextOf, Complete;
    var one, front, rest := [s.values[i]], s.values[..i], s.values[i + 1..];
    assert s.values == front + (one + rest);
    TextOfConcat(front, one + rest);
    TextOfConcat(one, rest);
    TextOfConcat(front, rest);
    TextOfOne(s.values[i]);
    Assoc(TextOf(s.delivered), TextOf(front), OutputText(s.values[i]) + TextOf(rest));
    Assoc(TextOf(s.delivered), TextOf(front), TextOf(rest));
    CompleteLoses(TextOf(s.delivered) + TextOf(front), OutputText(s.values[i]), TextOf(rest), s.evicted, s.accepted);
  }

  lemma RemoveKeeps(c: Config, s: State, i: nat, episode: nat, limit: nat)
    requires Sound(c, s) && i < |s.values| && Discardable(s.values[i], true)
    requires AccountedUpTo(s, limit) && (s.values[i].Output? ==> 1 <= episode <= limit)
    ensures var s' := RemoveAt(s, i, episode);
      && Sound(c, s') && Local(s, s') && Balance(s') == Balance(s) && AccountedUpTo(s', limit)
      && s'.episodes == s.episodes && s'.pressureReported == s.pressureReported
      && s'.reports == s.reports && s'.log == s.log
      && (!s.values[i].Output? ==> s'.losses == s.losses)
  {
    hide ControlsOf, SizesOf, UnitsOf, TextOf;
    RemoveSums(s.values, i);
    var evicted := s.evicted + OutputText(s.values[i]);
    RemoveKeepsText(s, i, evicted);
    assert s.evicted + [] == s.evicted;
    hide Complete;
    var next := s.(values := s.values[..i] + s.values[i + 1..],
                   bufferedBytes := s.bufferedBytes - Size(s.values[i]), capacityWaiters := [],
                   evicted := evicted);
    assert Sound(c, next) && AccountedUpTo(next, limit);
    if s.values[i].Output? {
      LoseKeeps(c, next, Loss(Units(s.values[i]), episode, false), limit);
    }
  }

  lemma {:induction false} EvictProgressKeeps(c: Config, s: State, bytes: nat, limit: nat)
    requires Sound(c, s) && AccountedUpTo(s, limit)
    ensures var s' := EvictProgress(c, s, bytes);
      && Sound(c, s') && Local(s, s') && Balance(s') == Balance(s) && AccountedUpTo(s', limit)
      && s'.episodes == s.episodes && s'.pressureReported == s.pressureReported
      && s'.reports == s.reports && s'.losses == s.losses && s'.log == s.log
    decreases |s.values|
  {
    hide Sound, AccountedUpTo, Balance, HasCapacity;
    var i := FirstDiscardable(s.values, false);
    if HasCapacity(c, s, bytes) || i == |s.values| {
    } else {
      RemoveKeeps(c, s, i, 0, limit);
      EvictProgressKeeps(c, RemoveAt(s, i, 0), bytes, limit);
    }
  }

  lemma {:induction false} EvictAnyKeeps(c: Config, s: State, bytes: nat, episode: nat, discarded: bool, limit: nat)
    requires Sound(c, s) && AccountedUpTo(s, limit) && 1 <= episode <= limit
    ensures var (s', discarded') := EvictAny(c, s, bytes, episode, discarded);
      && Sound(c, s') && Local(s, s') && Balance(s') == Balance(s) && AccountedUpTo(s', limit)
      && s'.episodes == s.episodes && s'.pressureReported == s.pressureReported
      && s'.reports == s.reports && s'.log == s.log
      && (discarded ==> discarded') && (!discarded' ==> s'.losses == s.losses)
      && (HasCapacity(c, s', bytes) || forall e | e in s'.values :: PriorityOf(e) == Nondroppable)
    decreases |s.values|
  {
    hide Sound, AccountedUpTo, Balance, HasCapacity;
    var i := FirstDiscardable(s.values, true);
    if HasCapacity(c, s, bytes) {
    } else if i < |s.values| {
      RemoveKeeps(c, s, i, episode, limit);
      EvictAnyKeeps(c, RemoveAt(s, i, episode), bytes, episode, discarded || s.values[i].Output?, limit);
    } else {
      forall e | e in s.values ensures PriorityOf(e) == Nondroppable {
        var j :| 0 <= j < |s.values| && s.values[j] == e;
        assert !Discardable(s.values[j], true);
      }
    }
  }

  // ---------- Reports ----------

  lemma {:induction false} ReportLoopKeeps(c: Config, s: State, episode: nat)
    requires c.Valid() && Sound(c, s) && Accounted(s) && 1 <= episode <= s.episodes && Size(NOTICE) <= c.maxBytes
    ensures var (s', phase) := ReportLoop(c, s, episode);
      && Sound(c, s') && Local(s, s') && Balance(s') == Balance(s) && Accounted(s')
      && s'.episodes == s.episodes && s'.pressureReported == s.pressureReported
      && s'.reports == (if phase == Settled then Noted(s, episode).reports else s.reports)
      && phase != Rejected && (phase == Waiting ==> s'.values != [])
    decreases |s.values|
  {
    hide Sound, AccountedUpTo, Balance, NOTICE;
    var i := FirstDiscardable(s.values, true);
    if HasCapacity(c, s, Size(NOTICE)) {
      EnqueueKeeps(c, s, NOTICE);
      NoticeIsLogged(c, s, episode);
      NoticedKeeps(c, Enqueue(s, NOTICE), episode);
    } else if i < |s.values| {
      RemoveKeeps(c, s, i, episode, s.episodes);
      ReportLoopKeeps(c, RemoveAt(s, i, episode), episode);
    } else {
      NoCapacityNotEmpty(c, s, Size(NOTICE));
    }
  }

  lemma NoticeIsLogged(c: Config, s: State, episode: nat)
    requires Sound(c, s)
    ensures |s.reports.noticed + {episode}| <= NoticesIn(s.log + [NOTICE])
  {
    hide NOTICE, NoticesIn;
    NoticesInMore(s.log, NOTICE);
    assert |s.reports.noticed + {episode}| <= |s.reports.noticed| + 1;
  }

  lemma NoticedKeeps(c: Config, s: State, episode: nat)
    requires Sound(c, s) && |s.reports.noticed + {episode}| <= NoticesIn(s.log)
    ensures var s' := Noted(s, episode);
      Sound(c, s') && (Accounted(s) <==> Accounted(s')) && Balance(s') == Balance(s)
    ensures Units(NOTICE) == 0
  {
    hide NoticesIn;
  }

  lemma NoCapacityNotEmpty(c: Config, s: State, bytes: nat)
    requires c.Valid() && Sound(c, s) && bytes <= c.maxBytes && !HasCapacity(c, s, bytes)
    ensures s.values != []
  {
  }

  /** The notice of an episode is enqueued, its reporter was cut off, or the notice is too big for any queue. */
  ghost predicate EpisodeClosed(c: Config, s: State, episode: nat) {
    episode in s.reports.noticed || episode in s.reports.cutOff || Size(NOTICE) > c.maxBytes
  }

  lemma BeginReportKeeps(c: Config, s: State, allowSealed: bool)
    requires c.Valid() && Sound(c, s) && AccountedUpTo(s, CurrentEpisode(s))
    requires !Accounted(s) ==> !IngressClosed(s, allowSealed)
    ensures var (s', phase) := BeginReport(c, s, allowSealed);
      && Sound(c, s') && Local(s, s') && Balance(s') == Balance(s) && Accounted(s')
      && s.episodes <= s'.episodes <= s.episodes + 1
      && (s'.episodes >= 1 || IngressClosed(s', allowSealed))
      && (phase != Settled ==> s'.episodes >= 1)
      && (phase == Waiting ==> s'.values != [] && !IngressClosed(s', allowSealed) && Size(NOTICE) <= c.maxBytes)
      && (s'.episodes > s.episodes ==> EpisodeClosed(c, s', s'.episodes) || phase == Waiting)
      && (!IngressClosed(s, allowSealed) ==> s'.episodes == CurrentEpisode(s))
  {
    hide Balance, NOTICE, SizesOf, ControlsOf, TextOf, ReportLoop, ReportsOk;
    if s.pressureReported || IngressClosed(s, allowSealed) {
    } else {
      var begun := s.(pressureReported := true, episodes := s.episodes + 1);
      assert Sound(c, begun) && Accounted(begun);
      EpisodeFieldsDoNotCount(s, begun);
      if Size(NOTICE) <= c.maxBytes {
        ReportLoopKeeps(c, begun, begun.episodes);
      }
    }
  }

  lemma EpisodeFieldsDoNotCount(s: State, s': State)
    requires s'.delivered == s.delivered && s'.values == s.values && s'.losses == s.losses
    ensures Balance(s') == Balance(s)
  {
  }

  // ---------- Flows ----------

  function StageUnits(stage: Stage): nat {
    match stage
    case CloseTick(e) => Units(e)
    case WaitRoom(e) => Units(e)
    case Reporting(_, _, next) => NextUnits(next)
    case CloseSoon(_) => 0
  }

  function RoomItems(stage: Stage): nat { if stage.WaitRoom? then 1 else 0 }

  function RoomBytes(stage: Stage): nat { if stage.WaitRoom? then Size(stage.event) else 0 }

  function FlowUnits(flow: Flow): nat { if flow.Suspend? then StageUnits(flow.stage) else 0 }

  function FlowRoomItems(flow: Flow): nat { if flow.Suspend? then RoomItems(flow.stage) else 0 }

  function FlowRoomBytes(flow: Flow): nat { if flow.Suspend? then RoomBytes(flow.stage) else 0 }

  ghost predicate NextOk(c: Config, next: Next) {
    match next
    case Refuse => true
    case Offer(e) => e.Output? && Size(e) <= c.maxBytes
    case Squeeze(e) => e.Output? && Size(e) <= c.maxBytes
    case Admit(e) => PriorityOf(e) == Nondroppable && Size(e) <= c.maxBytes
  }

  ghost predicate StageOk(c: Config, s: State, stage: Stage, allowSealed: bool) {
    match stage
    case CloseTick(_) => allowSealed
    case CloseSoon(outcome) => allowSealed && !outcome.Suspend?
    case WaitRoom(e) => PriorityOf(e) == Nondroppable && Size(e) <= c.maxBytes
    case Reporting(episode, phase, next) =>
      && NextOk(c, next)
      && (IngressClosed(s, allowSealed) || 1 <= episode <= s.episodes)
      && (phase != Settled ==> 1 <= episode <= s.episodes)
      && (phase == Waiting ==> Size(NOTICE) <= c.maxBytes && (s.sealed && !allowSealed ==> episode <= s.reports.sealEpisodes))
  }

  ghost predicate ReportsOn(stage: Stage, episode: nat) {
    stage.Reporting? && stage.episode == episode && stage.phase == Waiting
  }

  ghost predicate FlowReports(flow: Flow, episode: nat) {
    flow.Suspend? && ReportsOn(flow.stage, episode)
  }

  /**
   The effect of one step of one call: `s` is the state before it, `units` the output units the call
   brings along and `items`, `bytes` the room it had reserved.
   */
  ghost predicate FlowOk(c: Config, s: State, result: (State, Flow), allowSealed: bool,
                         units: nat, items: nat, bytes: nat)
  {
    var (s', flow) := result;
    && Sound(c, s') && Accounted(s') && Later(s, s')
    && s'.sealed == s.sealed && s'.closed == s.closed && s'.reports.sealEpisodes == s.reports.sealEpisodes
    && Balance(s') + FlowUnits(flow) == Balance(s) + units
    && s'.pendingItems == s.pendingItems + FlowRoomItems(flow) - items
    && s'.pendingBytes == s.pendingBytes + FlowRoomBytes(flow) - bytes
    && (forall k | s.episodes < k <= s'.episodes ::
          EpisodeClosed(c, s', k) || FlowReports(flow, k))
    && (flow.Suspend? ==> StageOk(c, s', flow.stage, allowSealed))
    && (flow.Suspend? && flow.parked ==> s'.values != [] && !s'.closed)
  }

  lemma ReportWithoutLoss(c: Config, s: State, allowSealed: bool, next: Next)
    requires c.Valid() && Sound(c, s) && AccountedUpTo(s, CurrentEpisode(s)) && NextOk(c, next)
    requires !Accounted(s) ==> !IngressClosed(s, allowSealed)
    ensures FlowOk(c, s, Report(c, s, allowSealed, 0, next), allowSealed, NextUnits(next), 0, 0)
  {
    hide Sound, Balance, HasCapacity, NOTICE, BeginReport, AccountedUpTo, Size, NextOk, EpisodeClosed;
    BeginReportKeeps(c, s, allowSealed);
    var (s', phase) := BeginReport(c, s, allowSealed);
    var flow := Suspend(Reporting(s'.episodes, phase, next), phase.Waiting?);
    forall k | s.episodes < k <= s'.episodes ensures EpisodeClosed(c, s', k) || FlowReports(flow, k) {
      assert k == s'.episodes;
    }
  }

  lemma ReportBegins(c: Config, s: State, allowSealed: bool, next: Next)
    requires c.Valid() && Sound(c, s) && AccountedUpTo(s, CurrentEpisode(s)) && !IngressClosed(s, allowSealed)
    ensures Report(c, s, allowSealed, 0, next).0.episodes >= 1
  {
    hide Sound, Balance, NOTICE, BeginReport, AccountedUpTo, Local, EpisodeClosed;
    BeginReportKeeps(c, s, allowSealed);
    FirstEpisode(c, s);
  }

  lemma LoseAfterFlow(c: Config, s: State, s': State, flow: Flow, allowSealed: bool, units: nat, lost: nat)
    requires FlowOk(c, s, (s', flow), allowSealed, units, 0, 0) && s'.episodes >= 1
    ensures FlowOk(c, s, (Lose(s', lost, s'.episodes), flow), allowSealed, units + lost, 0, 0)
  {
    hide Sound, Balance, AccountedUpTo, NOTICE, Size;
    LoseKeeps(c, s', Loss(lost, s'.episodes, false), s'.episodes);
    var s'' := Lose(s', lost, s'.episodes);
    forall k | s.episodes < k <= s''.episodes ensures EpisodeClosed(c, s'', k) || FlowReports(flow, k) {
      assert EpisodeClosed(c, s', k) || FlowReports(flow, k);
    }
  }

  lemma ReportKeeps(c: Config, s: State, allowSealed: bool, lost: nat, next: Next)
    requires c.Valid() && Sound(c, s) && AccountedUpTo(s, CurrentEpisode(s)) && NextOk(c, next)
    requires !Accounted(s) || lost > 0 ==> !IngressClosed(s, allowSealed)
    ensures FlowOk(c, s, Report(c, s, allowSealed, lost, next), allowSealed, NextUnits(next) + lost, 0, 0)
  {
    hide Sound, BeginReport, AccountedUpTo, NextOk, FlowOk, CurrentEpisode, IngressClosed, NextUnits;
    ReportWithoutLoss(c, s, allowSealed, next);
    var (s', flow) := Report(c, s, allowSealed, 0, next);
    if lost > 0 {
      ReportBegins(c, s, allowSealed, next);
      LoseAfterFlow(c, s, s', flow, allowSealed, NextUnits(next), lost);
    }
  }

  lemma CutKeepsKind(c: Config, e: Event, maxBytes: nat)
    requires Truncate(e, maxBytes).Some?
    ensures var cut := Truncate(e, maxBytes).value;
      && PriorityOf(cut) == PriorityOf(e) && cut.Output? == e.Output?
      && Size(cut) <= maxBytes && Units(cut) <= Units(e) && (Size(e) <= maxBytes ==> cut == e)
  {
    FitTextFits(e.text, Overhead(e), maxBytes);
  }

  lemma OfferOutputKeeps(c: Config, s: State, e: Event, allowSealed: bool)
    requires c.Valid() && Sound(c, s) && Accounted(s) && e.Output? && Size(e) <= c.maxBytes
    ensures FlowOk(c, s, OfferOutput(c, s, e, allowSealed), allowSealed, Units(e), 0, 0)
  {
    hide Sound, Balance, HasCapacity, NOTICE, Enqueue, BeginReport, AccountedUpTo, EvictProgress;
    EvictProgressKeeps(c, s, Size(e), s.episodes);
    var s' := EvictProgress(c, s, Size(e));
    if HasCapacity(c, s', Size(e)) {
      EnqueueKeeps(c, s', e);
    } else {
      AccountedWidens(s', CurrentEpisode(s'));
      ReportKeeps(c, s', allowSealed, 0, Squeeze(e));
    }
  }

  lemma AccountedWidens(s: State, limit: nat)
    requires Accounted(s) && limit >= s.episodes
    ensures AccountedUpTo(s, limit)
  {
  }

  lemma SqueezeOutputKeeps(c: Config, s: State, e: Event, allowSealed: bool, episode: nat)
    requires c.Valid() && Sound(c, s) && Accounted(s) && e.Output? && Size(e) <= c.maxBytes
    requires IngressClosed(s, allowSealed) || 1 <= episode <= s.episodes
    ensures FlowOk(c, s, SqueezeOutput(c, s, e, allowSealed, episode), allowSealed, Units(e), 0, 0)
  {
    hide Sound, Balance, HasCapacity, Enqueue, AccountedUpTo, Truncate;
    if IngressClosed(s, allowSealed) {
      assert s.closed ==> s.sealed by { ClosedIsSealed(c, s); }
      LoseKeeps(c, s, Loss(Units(e), s.episodes, true), s.episodes);
    } else {
      var available := c.maxBytes - s.bufferedBytes;
      var cut := if |s.values| < c.maxItems && available >= 0 then Truncate(e, available) else None;
      if cut.None? || !HasCapacity(c, s, Size(cut.value)) {
        LoseKeeps(c, s, Loss(Units(e), episode, false), s.episodes);
      } else {
        CutKeepsKind(c, e, available);
        EnqueueKeeps(c, s, cut.value);
        if Units(cut.value) < Units(e) {
          LoseKeeps(c, Enqueue(s, cut.value), Loss(Units(e) - Units(cut.value), episode, false), s.episodes);
        }
      }
    }
  }

  lemma ClosedIsSealed(c: Config, s: State)
    requires Sound(c, s)
    ensures s.closed ==> s.sealed
  {
  }

  lemma OfferProgressKeeps(c: Config, s: State, e: Event, allowSealed: bool)
    requires c.Valid() && Sound(c, s) && Accounted(s) && e.Progress?
    ensures FlowOk(c, s, OfferProgress(c, s, e), allowSealed, 0, 0, 0)
  {
    hide Sound, Balance, HasCapacity, Enqueue, AccountedUpTo;
    var i := FirstDiscardable(s.values, false);
    var evicts := !HasCapacity(c, s, Size(e)) && i < |s.values|;
    if evicts {
      RemoveKeeps(c, s, i, 0, s.episodes);
    }
    var s' := if evicts then RemoveAt(s, i, 0) else s;
    if HasCapacity(c, s', Size(e)) {
      EnqueueKeeps(c, s', e);
    }
  }

  lemma AdmitControlKeeps(c: Config, s: State, e: Event, allowSealed: bool)
    requires c.Valid() && Sound(c, s) && Accounted(s)
    requires PriorityOf(e) == Nondroppable && Size(e) <= c.maxBytes
    ensures FlowOk(c, s, AdmitControl(c, s, e, allowSealed), allowSealed, 0, 0, 0)
  {
    hide Balance, HasCapacity, Enqueue, AccountedUpTo, SizesOf, ControlsOf, TextOf, NOTICE, ReportsOk, Complete;
    if HasCapacity(c, s, Size(e)) {
      EnqueueKeeps(c, s, e);
    } else {
      NoCapacityNotEmpty(c, s, Size(e));
      var reserved := s.(pendingItems := s.pendingItems + 1, pendingBytes := s.pendingBytes + Size(e));
      EpisodeFieldsDoNotCount(s, reserved);
      SameLosses(s, reserved);
    }
  }

  lemma SameLosses(s: State, s': State)
    requires s'.losses == s.losses && s'.sealed == s.sealed && s'.episodes == s.episodes
    ensures Accounted(s') <==> Accounted(s)
  {
  }

  lemma ResumeRoomKeeps(c: Config, s: State, e: Event, allowSealed: bool)
    requires c.Valid() && Sound(c, s) && Accounted(s)
    requires PriorityOf(e) == Nondroppable && Size(e) <= c.maxBytes
    ensures FlowOk(c, s, ResumeRoom(c, s, e, allowSealed), allowSealed, 0, 1, Size(e))
  {
    hide Balance, Enqueue, AccountedUpTo, SizesOf, ControlsOf, TextOf, NOTICE, ReportsOk, Complete;
    var freed := s.(pendingItems := s.pendingItems - 1, pendingBytes := s.pendingBytes - Size(e));
    EpisodeFieldsDoNotCount(s, freed);
    SameLosses(s, freed);
    if !IngressClosed(s, allowSealed) && !HasCapacity(c, s, Size(e)) {
      NoCapacityNotEmpty(c, s, Size(e));
    } else if !IngressClosed(s, allowSealed) {
      EnqueueKeeps(c, freed, e);
    }
  }

  /** A flow that starts after a local change is a flow of the state before that change. */
  lemma FlowOkAfter(c: Config, s: State, s': State, result: (State, Flow), allowSealed: bool,
                    units: nat, items: nat, bytes: nat)
    requires Local(s, s') && Balance(s') == Balance(s) && s'.episodes == s.episodes
    requires FlowOk(c, s', result, allowSealed, units, items, bytes)
    ensures FlowOk(c, s, result, allowSealed, units, items, bytes)
  {
    hide Balance, Sound, AccountedUpTo;
  }

  lemma OfferControlKeeps(c: Config, s: State, e: Event, allowSealed: bool)
    requires c.Valid() && Sound(c, s) && Accounted(s) && !IngressClosed(s, allowSealed)
    requires PriorityOf(e) == Nondroppable && Size(e) <= c.maxBytes
    ensures FlowOk(c, s, OfferControl(c, s, e, allowSealed), allowSealed, 0, 0, 0)
  {
    hide Balance, HasCapacity, AccountedUpTo, EvictAny, AdmitControl, Report, NOTICE, FlowOk, Sound;
    var episode := CurrentEpisode(s);
    assert episode >= s.episodes && episode >= 1 by { CurrentIsAhead(s); FirstEpisode(c, s); }
    AccountedWidens(s, episode);
    EvictAnyKeeps(c, s, Size(e), episode, false, episode);
    var (s', discarded) := EvictAny(c, s, Size(e), episode, false);
    if discarded {
      ReportKeeps(c, s', allowSealed, 0, Admit(e));
    } else {
      SameLosses(s, s');
      AdmitControlKeeps(c, s', e, allowSealed);
    }
    FlowOkAfter(c, s, s', OfferControl(c, s, e, allowSealed), allowSealed, 0, 0, 0);
  }

  lemma CoalesceKeeps(c: Config, s: State, e: Event)
    requires Sound(c, s) && Accounted(s) && PriorityOf(e) != Nondroppable && TryCoalesce(c, s, e).Some?
    ensures var s' := TryCoalesce(c, s, e).value;
      && Sound(c, s') && Accounted(s') && Local(s, s') && Balance(s') == Balance(s) + Units(e)
      && s'.episodes == s.episodes && s'.reports == s.reports
  {
    hide ControlsOf, SizesOf, UnitsOf, TextOf;
    var last := s.values[|s.values| - 1];
    var merged := Coalesce(last, e).value;
    var front := s.values[..|s.values| - 1];
    assert s.values == front + [last];
    assert s.values[|s.values| - 1 := merged] == front + [merged];
    EventSumsConcat(front, [last]);
    EventSumsConcat(front, [merged]);
    EventSumsOne(last);
    EventSumsOne(merged);
    CoalesceKeepsText(s, front, last, merged, e);
  }

  /** Merged output is the concatenation, so merging loses nothing and reorders nothing. */
  lemma CoalesceKeepsText(s: State, front: seq<Event>, last: Event, merged: Event, e: Event)
    requires TextComplete(s) && s.values == front + [last] && Coalesce(last, e) == Some(merged)
    ensures TextComplete(s.(values := front + [merged], accepted := s.accepted + OutputText(e)))
  {
    hide TextOf, Complete;
    CompleteGrows(TextOf(s.delivered) + TextOf(s.values), s.evicted, s.accepted, OutputText(e));
    TextOfConcat(front, [last]);
    TextOfConcat(front, [merged]);
    TextOfOne(last);
    TextOfOne(merged);
    Assoc(TextOf(front), OutputText(last), OutputText(e));
    Assoc(TextOf(s.delivered), TextOf(s.values), OutputText(e));
  }

  lemma BeginPushKeeps(c: Config, s: State, e: Event, allowSealed: bool)
    requires c.Valid() && Sound(c, s) && Accounted(s)
    ensures FlowOk(c, s, BeginPush(c, s, e, allowSealed), allowSealed, Units(e), 0, 0)
  {
    hide Balance, HasCapacity, AccountedUpTo, TryCoalesce, OfferOutput, OfferProgress, OfferControl, Report,
      NOTICE, Truncate, Sound, CurrentEpisode;
    if IngressClosed(s, allowSealed) {
      ClosedIsSealed(c, s);
      LoseKeeps(c, s, Loss(Units(e), s.episodes, true), s.episodes);
    } else if PriorityOf(e) != Nondroppable && TryCoalesce(c, s, e).Some? {
      CoalesceKeeps(c, s, e);
    } else {
      if Truncate(e, c.maxBytes).Some? { CutKeepsKind(c, e, c.maxBytes); }
      var e' := Shortened(c, e);
      AccountedWidens(s, CurrentEpisode(s)) by { CurrentIsAhead(s); }
      if Size(e') > c.maxBytes {
        if e.Output? { ReportKeeps(c, s, allowSealed, Units(e), Refuse); }
      } else if e.Output? && Size(e) > c.maxBytes {
        ReportKeeps(c, s, allowSealed, Units(e) - Units(e'), Offer(e'));
      } else if e.Output? {
        OfferOutputKeeps(c, s, e', allowSealed);
      } else if e.Progress? {
        OfferProgressKeeps(c, s, e', allowSealed);
      } else {
        OfferControlKeeps(c, s, e', allowSealed);
      }
    }
  }

  lemma FirstEpisode(c: Config, s: State)
    requires Sound(c, s)
    ensures CurrentEpisode(s) >= 1
  {
    hide ReportsOk;
  }

  lemma CurrentIsAhead(s: State)
    ensures CurrentEpisode(s) >= s.episodes
  {
  }

  lemma CutOffKeeps(c: Config, s: State, episode: nat)
    requires Sound(c, s) && (s.closed || (s.sealed && episode <= s.reports.sealEpisodes))
    ensures var s' := CutOff(s, episode);
      Sound(c, s') && (Accounted(s) <==> Accounted(s')) && Balance(s') == Balance(s)
  {
    hide NoticesIn, ControlsOf, SizesOf, TextOf;
  }

  lemma ResumeReportKeeps(c: Config, s: State, allowSealed: bool, episode: nat, next: Next)
    requires c.Valid() && Sound(c, s) && Accounted(s) && StageOk(c, s, Reporting(episode, Waiting, next), allowSealed)
    ensures var (s', phase) := ResumeReport(c, s, allowSealed, episode);
      && FlowOk(c, s, (s', Suspend(Reporting(episode, phase, next), phase.Waiting?)), allowSealed, NextUnits(next), 0, 0)
      && (EpisodeClosed(c, s', episode) || phase == Waiting)
  {
    hide Balance, AccountedUpTo, NOTICE, ReportLoop, Sound;
    if IngressClosed(s, allowSealed) {
      ClosedIsSealed(c, s);
      CutOffKeeps(c, s, episode);
    } else {
      ReportLoopKeeps(c, s, episode);
    }
  }
}
