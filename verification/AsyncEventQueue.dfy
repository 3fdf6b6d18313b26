/**
 The queue object itself: the fields of `AsyncEventQueue` in src/agentHost/AgentRuntime.ts, updated in
 place, with the loops the source has.  Each method is proved to have exactly the effect of one step of
 module EventQueue; `Calls.Perform` takes any step of a run and keeps the promises of the queue.  A suspended call is
 returned as a `Flow`; the caller passes its stage back to `Continue`.
 */
module AsyncEventQueues {
  import opened Wrappers
  import opened Utf16
  import opened RuntimeText
  import opened EventQueue
  import opened EventQueueSafety
  import opened EventQueueRuns
  import EventQueueOutcomes

  datatype QueuedEvent = QueuedEvent(value: Event, bytes: nat)

  function ValuesOf(queued: seq<QueuedEvent>): seq<Event> {
    seq(|queued|, i requires 0 <= i < |queued| => queued[i].value)
  }

  lemma ValuesOfConcat(a: seq<QueuedEvent>, b: seq<QueuedEvent>)
    ensures ValuesOf(a + b) == ValuesOf(a) + ValuesOf(b)
  {
  }

  lemma ValuesOfOne(queued: QueuedEvent)
    ensures ValuesOf([queued]) == [queued.value]
  {
  }

  lemma ValuesOfLength(queued: seq<QueuedEvent>)
    ensures |ValuesOf(queued)| == |queued|
    ensures forall i | 0 <= i < |queued| :: ValuesOf(queued)[i] == queued[i].value
  {
  }

  lemma ValuesOfParts(queued: seq<QueuedEvent>, i: nat)
    requires i <= |queued|
    ensures ValuesOf(queued[..i]) == ValuesOf(queued)[..i]
    ensures ValuesOf(queued[i..]) == ValuesOf(queued)[i..]
  {
  }

  /** `truncateRuntimeEvent`: a binary search over the text of the events that have one. */
  method TruncateRuntimeEvent(e: Event, maxBytes: nat) returns (cut: Option<Event>)
    ensures cut == Truncate(e, maxBytes)
  {
    if e.Other? {
      return None;
    }
    var kept := FitRuntimeText(e.text, Overhead(e), maxBytes);
    cut := if kept.Some? then Some(e.(text := kept.value)) else None;
  }

  class AsyncEventQueue {
    const config: Config
    var values: seq<QueuedEvent>
    var waiting: seq<nat>
    var capacityWaiters: seq<nat>
    var bufferedByteCount: int
    var pendingByteCount: int
    var pendingItemCount: int
    var pressureReported: bool
    var sealed: bool
    var closed: bool
    /** Numbers the reports begun; the source keeps no such number. */
    var episodes: nat
    ghost var log: seq<Event>
    ghost var delivered: seq<Event>
    ghost var losses: seq<Loss>
    ghost var reports: Reports
    ghost var accepted: Text
    ghost var evicted: Text

    ghost predicate Valid()
      reads this
    {
      config.Valid() && forall i | 0 <= i < |values| :: values[i].bytes == Size(values[i].value)
    }

    ghost function View(): State
      reads this
    {
      State(ValuesOf(values), waiting, capacityWaiters, bufferedByteCount, pendingByteCount, pendingItemCount,
            pressureReported, sealed, closed, log, delivered, losses, episodes, reports,
            accepted, evicted)
    }

    constructor (config: Config)
      requires config.Valid()
      ensures Valid() && View() == EMPTY && this.config == config
    {
      this.config := config;
      values, waiting, capacityWaiters := [], [], [];
      bufferedByteCount, pendingByteCount, pendingItemCount := 0, 0, 0;
      pressureReported, sealed, closed := false, false, false;
      log, delivered, losses, episodes, accepted, evicted := [], [], [], 0, [], [];
      reports := Reports({}, {}, 0);
    }

    predicate IngressIsClosed(allowSealed: bool)
      reads this
      ensures IngressIsClosed(allowSealed) == IngressClosed(View(), allowSealed)
    {
      closed || (sealed && !allowSealed)
    }

    predicate HasRoom(bytes: nat)
      reads this
      ensures HasRoom(bytes) == HasCapacity(config, View(), bytes)
    {
      |values| < config.maxItems && bufferedByteCount + bytes <= config.maxBytes
    }

    method Put(value: Event, bytes: nat)
      requires Valid() && bytes == Size(value)
      modifies this
      ensures Valid() && View() == Enqueue(old(View()), value)
    {
      hide ValuesOf, Size, OutputText;
      log, accepted := log + [value], accepted + OutputText(value);
      if |waiting| > 0 {
        waiting := waiting[1..];
        delivered := delivered + [value];
        return;
      }
      values := values + [QueuedEvent(value, bytes)];
      bufferedByteCount := bufferedByteCount + bytes;
      ValuesOfConcat(old(values), [QueuedEvent(value, bytes)]);
      ValuesOfOne(QueuedEvent(value, bytes));
    }

    method NotifyCapacity()
      modifies this`capacityWaiters
      ensures capacityWaiters == []
    {
      capacityWaiters := [];
    }

    method IndexOfDiscardable(includeOutput: bool) returns (index: nat)
      requires Valid()
      ensures index == FirstDiscardable(View().values, includeOutput)
    {
      hide FirstDiscardable, Discardable, Size;
      index := 0;
      while index < |values| && !Discardable(values[index].value, includeOutput)
        invariant index <= |values|
        invariant forall j | 0 <= j < index :: !Discardable(ValuesOf(values)[j], includeOutput)
      {
        index := index + 1;
      }
      FirstIsUnique(ValuesOf(values), includeOutput, index);
    }

    /** Removes the oldest replaceable entry; output counts only when `includeOutput` is set. */
    method RemoveOldestDiscardable(includeOutput: bool, ghost episode: nat) returns (removed: Option<Priority>)
      requires Valid()
      modifies this
      ensures Valid()
      ensures var i := FirstDiscardable(old(View()).values, includeOutput);
        if i == |old(View()).values| then removed == None && View() == old(View())
        else && removed == Some(PriorityOf(old(View()).values[i]))
             && View() == RemoveAt(old(View()), i, episode)
      ensures removed.Some? ==> |values| < old(|values|)
    {
      hide FirstDiscardable, Discardable, Size, ValuesOf;
      ValuesOfLength(values);
      var index := IndexOfDiscardable(includeOutput);
      if index == |values| {
        return None;
      }
      var found := values[index];
      values := values[..index] + values[index + 1..];
      bufferedByteCount := bufferedByteCount - found.bytes;
      NotifyCapacity();
      if found.value.Output? {
        evicted, losses := evicted + found.value.text, losses + [Loss(Units(found.value), episode, false)];
      }
      ValuesOfConcat(old(values)[..index], old(values)[index + 1..]);
      ValuesOfParts(old(values), index);
      ValuesOfParts(old(values), index + 1);
      return Some(PriorityOf(found.value));
    }

    method EvictProgressUntil(bytes: nat)
      requires Valid()
      modifies this
      ensures Valid() && View() == EvictProgress(config, old(View()), bytes)
    {
      hide FirstDiscardable, Discardable, RemoveAt, EvictProgress, Valid;
      while !HasRoom(bytes)
        invariant Valid() && EvictProgress(config, View(), bytes) == EvictProgress(config, old(View()), bytes)
        decreases |values|
      {
        EvictProgressStep(config, View(), bytes);
        var removed := RemoveOldestDiscardable(false, 0);
        if removed.None? {
          return;
        }
      }
      EvictProgressStep(config, View(), bytes);
    }

    method EvictAnyUntil(bytes: nat, ghost episode: nat) returns (discardedOutput: bool)
      requires Valid()
      modifies this
      ensures Valid() && (View(), discardedOutput) == EvictAny(config, old(View()), bytes, episode, false)
    {
      hide FirstDiscardable, Discardable, RemoveAt, EvictAny, Valid;
      discardedOutput := false;
      while !HasRoom(bytes)
        invariant Valid()
        invariant EvictAny(config, View(), bytes, episode, discardedOutput)
               == EvictAny(config, old(View()), bytes, episode, false)
        decreases |values|
      {
        EvictAnyStep(config, View(), bytes, episode, discardedOutput);
        var removed := RemoveOldestDiscardable(true, episode);
        if removed.None? {
          return;
        }
        discardedOutput := discardedOutput || removed == Some(Droppable);
      }
      EvictAnyStep(config, View(), bytes, episode, discardedOutput);
    }

    /** The loop of `reportPressure`: make room for the notice, or park until there is some. */
    method ReportUntilRoom(ghost episode: nat) returns (phase: Phase)
      requires Valid()
      modifies this
      ensures Valid() && (View(), phase) == ReportLoop(config, old(View()), episode)
    {
      hide FirstDiscardable, Discardable, RemoveAt, ReportLoop, Size, NOTICE, Enqueue;
      var bytes := Size(NOTICE);
      while !HasRoom(bytes)
        invariant Valid() && ReportLoop(config, View(), episode) == ReportLoop(config, old(View()), episode)
        decreases |values|
      {
        ReportLoopStep(config, View(), episode);
        var removed := RemoveOldestDiscardable(true, episode);
        if removed.None? {
          return Waiting;
        }
      }
      ReportLoopStep(config, View(), episode);
      EnqueueNotesNothing(View(), NOTICE);
      Put(NOTICE, bytes);
      reports := reports.(noticed := reports.noticed + {episode});
      return Settled;
    }

    method ReportPressure(allowSealed: bool) returns (phase: Phase)
      requires Valid()
      modifies this
      ensures Valid() && (View(), phase) == BeginReport(config, old(View()), allowSealed)
    {
      hide ReportLoop, Size, NOTICE;
      if pressureReported || IngressIsClosed(allowSealed) {
        return Settled;
      }
      pressureReported := true;
      episodes := episodes + 1;
      if Size(NOTICE) > config.maxBytes {
        return Rejected;
      }
      phase := ReportUntilRoom(episodes);
    }

    /** `await this.reportPressure(...)`; `lost` output units are charged to the episode joined. */
    method AwaitReport(allowSealed: bool, lost: nat, next: Next) returns (flow: Flow)
      requires Valid()
      modifies this
      ensures Valid() && (View(), flow) == Report(config, old(View()), allowSealed, lost, next)
    {
      hide BeginReport, Size, NOTICE;
      var phase := ReportPressure(allowSealed);
      if lost > 0 {
        losses := losses + [Loss(lost, episodes, false)];
      }
      flow := Suspend(Reporting(episodes, phase, next), phase.Waiting?);
    }

    method Coalesced(value: Event) returns (done: bool)
      requires Valid()
      modifies this
      ensures Valid() && done == TryCoalesce(config, old(View()), value).Some?
      ensures View() == if done then TryCoalesce(config, old(View()), value).value else old(View())
    {
      hide Coalesce, Size, OutputText;
      if |values| == 0 {
        return false;
      }
      var queued := values[|values| - 1];
      assert View().values[|values| - 1] == queued.value;
      var replacement := Coalesce(queued.value, value);
      if replacement.None? {
        return false;
      }
      var bytes := Size(replacement.value);
      if bytes > config.maxBytes || bufferedByteCount - queued.bytes + bytes > config.maxBytes {
        return false;
      }
      values := values[|values| - 1 := QueuedEvent(replacement.value, bytes)];
      bufferedByteCount := bufferedByteCount + bytes - queued.bytes;
      accepted := accepted + OutputText(value);
      assert ValuesOf(values) == old(ValuesOf(values))[|values| - 1 := replacement.value];
      return true;
    }

    method SettleOutput(value: Event, allowSealed: bool) returns (flow: Flow)
      requires Valid()
      modifies this
      ensures Valid() && (View(), flow) == OfferOutput(config, old(View()), value, allowSealed)
    {
      hide EvictProgress, Report, Size, Enqueue;
      var bytes := Size(value);
      EvictProgressUntil(bytes);
      if !HasRoom(bytes) {
        flow := AwaitReport(allowSealed, 0, Squeeze(value));
        return;
      }
      Put(value, bytes);
      flow := Done(true);
    }

    method CutOutput(value: Event, allowSealed: bool, ghost episode: nat) returns (flow: Flow)
      requires Valid()
      modifies this
      ensures Valid() && (View(), flow) == SqueezeOutput(config, old(View()), value, allowSealed, episode)
      ensures value.Output? && !old(IngressIsClosed(allowSealed)) && old(bufferedByteCount) <= config.maxBytes
              && (old(waiting) != [] ==> old(values) == []) ==>
        EventQueueOutcomes.SqueezedRight(config, old(View()), value, View(), flow)
    {
      hide EventQueueOutcomes.SqueezedRight;
      if value.Output? && !IngressIsClosed(allowSealed) && bufferedByteCount <= config.maxBytes && (waiting != [] ==> values == []) {
        EventQueueOutcomes.SqueezeIsRight(config, View(), value, allowSealed, episode);
      }
      hide Size, Truncate, Enqueue, ValuesOf;
      ValuesOfLength(values);
      if IngressIsClosed(allowSealed) {
        losses := losses + [Loss(Units(value), episodes, true)];
        return Done(false);
      }
      var availableBytes := config.maxBytes - bufferedByteCount;
      var cut: Option<Event> := None;
      if |values| < config.maxItems && availableBytes >= 0 {
        cut := TruncateRuntimeEvent(value, availableBytes);
      }
      if cut.None? || !HasRoom(Size(cut.value)) {
        losses := losses + [Loss(Units(value), episode, false)];
        return Done(false);
      }
      Put(cut.value, Size(cut.value));
      if Units(cut.value) < Units(value) {
        losses := losses + [Loss(Units(value) - Units(cut.value), episode, false)];
      }
      return Done(true);
    }

    method SettleProgress(value: Event) returns (flow: Flow)
      requires Valid()
      modifies this
      ensures Valid() && (View(), flow) == OfferProgress(config, old(View()), value)
    {
      hide Size, FirstDiscardable, RemoveAt, Enqueue;
      var bytes := Size(value);
      if !HasRoom(bytes) {
        var removed := RemoveOldestDiscardable(false, 0);
      }
      if !HasRoom(bytes) {
        return Done(false);
      }
      Put(value, bytes);
      return Done(true);
    }

    method ReservePending(bytes: nat) returns (ok: bool)
      modifies this`pendingItemCount, this`pendingByteCount
      ensures ok == !(old(pendingItemCount) + 1 > config.maxItems || old(pendingByteCount) + bytes > config.maxBytes)
      ensures pendingItemCount == old(pendingItemCount) + (if ok then 1 else 0)
      ensures pendingByteCount == old(pendingByteCount) + (if ok then bytes else 0)
    {
      if pendingItemCount + 1 > config.maxItems || pendingByteCount + bytes > config.maxBytes {
        return false;
      }
      pendingItemCount := pendingItemCount + 1;
      pendingByteCount := pendingByteCount + bytes;
      return true;
    }

    method ReleasePending(bytes: nat)
      modifies this`pendingItemCount, this`pendingByteCount
      ensures pendingItemCount == old(pendingItemCount) - 1 && pendingByteCount == old(pendingByteCount) - bytes
    {
      pendingItemCount := pendingItemCount - 1;
      pendingByteCount := pendingByteCount - bytes;
    }

    /** A call that finds no room reserves its size first; the reservation fails by throwing. */
    method Enter(value: Event, allowSealed: bool) returns (flow: Flow)
      requires Valid()
      modifies this
      ensures Valid() && (View(), flow) == AdmitControl(config, old(View()), value, allowSealed)
    {
      hide Size, Enqueue;
      var bytes := Size(value);
      if !HasRoom(bytes) {
        var reserved := ReservePending(bytes);
        if !reserved {
          return Threw;
        }
        if !IngressIsClosed(allowSealed) {
          return Suspend(WaitRoom(value), true);
        }
        ReleasePending(bytes);
      }
      if IngressIsClosed(allowSealed) {
        return Done(false);
      }
      Put(value, bytes);
      return Done(true);
    }

    /** One turn of the loop around `waitForCapacity`. */
    method WakeForRoom(value: Event, allowSealed: bool) returns (flow: Flow)
      requires Valid()
      modifies this
      ensures Valid() && (View(), flow) == ResumeRoom(config, old(View()), value, allowSealed)
    {
      hide Size, Enqueue;
      var bytes := Size(value);
      if !IngressIsClosed(allowSealed) && !HasRoom(bytes) {
        return Suspend(WaitRoom(value), true);
      }
      ReleasePending(bytes);
      if IngressIsClosed(allowSealed) {
        return Done(false);
      }
      Put(value, bytes);
      return Done(true);
    }

    method SettleControl(value: Event, allowSealed: bool) returns (flow: Flow)
      requires Valid()
      modifies this
      ensures Valid() && (View(), flow) == OfferControl(config, old(View()), value, allowSealed)
    {
      hide EvictAny, Report, AdmitControl, Size;
      var discardedOutput := EvictAnyUntil(Size(value), CurrentEpisode(View()));
      if discardedOutput {
        flow := AwaitReport(allowSealed, 0, Admit(value));
      } else {
        flow := Enter(value, allowSealed);
      }
    }

    /** `pushInternal` up to its first suspension. */
    method PushInternal(value: Event, allowSealed: bool) returns (flow: Flow)
      requires Valid()
      modifies this
      ensures Valid() && (View(), flow) == BeginPush(config, old(View()), value, allowSealed)
    {
      hide TryCoalesce, Size, Truncate, OfferOutput, OfferProgress, OfferControl, Report;
      if IngressIsClosed(allowSealed) {
        losses := losses + [Loss(Units(value), episodes, true)];
        return Done(false);
      }
      var priority := PriorityOf(value);
      if priority != Nondroppable {
        var coalesced := Coalesced(value);
        if coalesced {
          return Done(true);
        }
      }
      var kept := value;
      var outputTruncated := false;
      if Size(value) > config.maxBytes {
        var truncated := TruncateRuntimeEvent(value, config.maxBytes);
        if truncated.Some? {
          kept := truncated.value;
          outputTruncated := priority == Droppable;
        }
      }
      assert kept == Shortened(config, value);
      if Size(kept) > config.maxBytes {
        match priority {
          case Droppable => flow := AwaitReport(allowSealed, Units(value), Refuse);
          case Coalescible => flow := Done(false);
          case Nondroppable => flow := Threw;
        }
        return;
      }
      match priority {
        case Droppable =>
          if outputTruncated {
            ShortenedIsShorter(config, value);
            flow := AwaitReport(allowSealed, Units(value) - Units(kept), Offer(kept));
          } else {
            flow := SettleOutput(kept, allowSealed);
          }
        case Coalescible => flow := SettleProgress(kept);
        case Nondroppable => flow := SettleControl(kept, allowSealed);
      }
    }

    method CloseQueue()
      requires Valid()
      modifies this
      ensures Valid() && View() == CloseNow(old(View()))
    {
      hide ValuesOf;
      if closed {
        return;
      }
      if !sealed { reports := reports.(sealEpisodes := episodes); }
      sealed := true;
      closed := true;
      waiting := [];
      NotifyCapacity();
    }

    /** The first lines of `pushAndClose`; `units` are lost when the queue takes nothing more. */
    method Seal(ghost units: nat) returns (open: bool)
      requires Valid()
      modifies this
      ensures Valid() && open == !(old(closed) || old(sealed))
      ensures View() == if open then EventQueue.Seal(old(View())).(capacityWaiters := []) else LoseSealed(old(View()), units)
    {
      if closed || sealed {
        losses := losses + [Loss(units, episodes, true)];
        return false;
      }
      sealed, reports := true, reports.(sealEpisodes := episodes);
      NotifyCapacity();
      return true;
    }

    /** What a call does when its promise has been resolved. */
    method Continue(stage: Stage, allowSealed: bool) returns (flow: Flow)
      requires Valid()
      modifies this
      ensures Valid() && (View(), flow) == ResumeStage(config, old(View()), stage, allowSealed)
    {
      hide BeginPush, ResumeRoom, CloseNow, ReportLoop, OfferOutput, SqueezeOutput, AdmitControl, Size, NOTICE;
      match stage {
        case CloseTick(e) => flow := PushInternal(e, allowSealed);
        case WaitRoom(e) => flow := WakeForRoom(e, allowSealed);
        case CloseSoon(outcome) =>
          CloseQueue();
          flow := outcome;
        case Reporting(episode, phase, next) =>
          match phase {
            case Waiting =>
              var again := Settled;
              if IngressIsClosed(allowSealed) {
                reports := reports.(cutOff := reports.cutOff + {episode});
              } else {
                again := ReportUntilRoom(episode);
              }
              flow := Suspend(Reporting(episode, again, next), again.Waiting?);
            case Rejected =>
              if NextUnits(next) > 0 {
                losses := losses + [Loss(NextUnits(next), episode, false)];
              }
              flow := Threw;
            case Settled =>
              match next {
                case Refuse => flow := Done(false);
                case Offer(e) => flow := SettleOutput(e, allowSealed);
                case Squeeze(e) => flow := CutOutput(e, allowSealed, episode);
                case Admit(e) => flow := Enter(e, allowSealed);
              }
          }
      }
    }

    method WaitForCapacity(id: nat, flow: Flow)
      requires Valid()
      modifies this`capacityWaiters
      ensures Valid() && View() == Park(old(View()), id, flow)
    {
      if flow.Suspend? && flow.parked {
        capacityWaiters := capacityWaiters + [id];
      }
    }

    method Next(consumer: nat) returns (result: Delivery)
      requires Valid()
      modifies this
      ensures Valid() && (View(), result) == TakeNext(config, old(View()), consumer)
    {
      hide Size, ValuesOf;
      ValuesOfLength(values);
      if |values| > 0 {
        var queued := values[0];
        ValuesOfParts(values, 1);
        values := values[1..];
        bufferedByteCount := bufferedByteCount - queued.bytes;
        NotifyCapacity();
        delivered := delivered + [queued.value];
        if |values| <= config.maxItems / 2 && bufferedByteCount <= config.maxBytes / 2 {
          pressureReported := false;
        }
        return Item(queued.value);
      }
      if closed {
        return End;
      }
      waiting := waiting + [consumer];
      return Pending;
    }
  }

  /** The calls in flight on a queue, which the JavaScript runtime keeps; it may resume any that is awake. */
  class Calls {
    const queue: AsyncEventQueue
    var frames: seq<Frame>
    var nextId: nat
    ghost var offered: nat
    ghost var final: bool

    ghost predicate Valid()
      reads this, queue
    {
      queue.Valid() && Inv(queue.config, Whole())
    }

    ghost function Whole(): Queue
      reads this, queue
    {
      Queue(queue.View(), frames, nextId, offered, final)
    }

    constructor (config: Config)
      requires config.Valid()
      ensures Valid() && Whole() == NEW && queue.config == config && fresh(queue)
    {
      hide Inv;
      NewQueueIsFine(config);
      queue := new AsyncEventQueue(config);
      frames, nextId, offered, final := [], 0, 0, false;
    }

    method Push(value: Event) returns (flow: Flow)
      requires queue.Valid()
      modifies this, queue
      ensures queue.Valid() && (Whole(), flow) == EventQueue.Push(queue.config, old(Whole()), value)
    {
      hide BeginPush, Park, Remainder;
      flow := queue.PushInternal(value, false);
      queue.WaitForCapacity(nextId, flow);
      frames := frames + Remainder(nextId, false, flow);
      nextId := nextId + 1;
      offered := offered + Units(value);
    }

    method PushAndClose(value: Event) returns (flow: Flow)
      requires queue.Valid()
      modifies this, queue
      ensures queue.Valid() && (Whole(), flow) == EventQueue.PushAndClose(old(Whole()), value)
    {
      offered := offered + Units(value);
      var open := queue.Seal(Units(value));
      if !open {
        return Done(false);
      }
      frames := frames + [Frame(nextId, CloseTick(value), true)];
      nextId := nextId + 1;
      return Suspend(CloseTick(value), false);
    }

    method ResumeCall(k: nat) returns (flow: Flow)
      requires queue.Valid() && CanResume(Whole(), k)
      modifies this, queue
      ensures queue.Valid() && (Whole(), flow) == Resume(queue.config, old(Whole()), k)
    {
      hide ResumeStage, Park, Remainder;
      var f := frames[k];
      flow := queue.Continue(f.stage, f.allowSealed);
      queue.WaitForCapacity(f.id, flow);
      var rest := if f.stage.CloseSoon? then [] else Remainder(f.id, f.allowSealed, flow);
      frames := frames[..k] + rest + frames[k + 1..];
      final := final || (f.allowSealed && !f.stage.CloseSoon? && flow == Done(true));
    }

    /**
     Whatever happens next: both limits hold; a producer waits only while there is something to consume, and never on
     an empty or closed queue; controls are delivered in order, and so is all accepted text but what was evicted; and every
     unit offered is delivered, buffered, under way or on record as lost.
     */
    method Perform(step: Step)
      requires Valid()
      modifies this, queue
      ensures Valid() && Whole() == Apply(queue.config, old(Whole()), step)
      ensures EventQueueOutcomes.StepRight(queue.config, old(Whole()), step, Whole())
      ensures |queue.values| <= queue.config.maxItems && queue.bufferedByteCount <= queue.config.maxBytes
      ensures queue.pendingItemCount <= queue.config.maxItems && queue.pendingByteCount <= queue.config.maxBytes
      ensures queue.capacityWaiters != [] ==> queue.values != [] && queue.waiting == []
      ensures queue.values == [] || queue.closed ==> forall k: nat | k < |frames| :: CanResume(Whole(), k)
      ensures ControlsOf(queue.delivered) + ControlsOf(ValuesOf(queue.values)) == ControlsOf(queue.log)
      ensures Complete(TextOf(queue.delivered) + TextOf(ValuesOf(queue.values)), queue.evicted, queue.accepted)
      ensures offered == UnitsOf(queue.delivered) + UnitsOf(ValuesOf(queue.values)) + LossUnits(queue.losses)
                       + FrameUnits(frames)
    {
      hide EventQueue.Push, EventQueue.PushAndClose, Resume, TakeNext, CloseNow, Inv, EventQueueOutcomes.StepRight;
      ApplyKeeps(queue.config, Whole(), step);
      EventQueueOutcomes.StepMeans(queue.config, Whole(), step);
      match step {
        case DoPush(e) => var _ := Push(e);
        case DoPushAndClose(e) => var _ := PushAndClose(e);
        case DoResume(k) =>
          if k < |frames| && frames[k].id !in queue.capacityWaiters {
            var _ := ResumeCall(k);
          }
        case DoNext(consumer) => var _ := queue.Next(consumer);
        case DoClose => queue.CloseQueue();
      }
      hide Apply;
      ValuesOfLength(queue.values);
      InvMeans(queue.config, Whole());
    }
  }

  lemma InvMeans(c: Config, q: Queue)
    requires Inv(c, q)
    ensures |q.state.values| <= c.maxItems && q.state.bufferedBytes <= c.maxBytes
    ensures q.state.pendingItems <= c.maxItems && q.state.pendingBytes <= c.maxBytes
    ensures q.state.capacityWaiters != [] ==> q.state.values != [] && q.state.waiting == []
    ensures q.state.values == [] || q.state.closed ==> forall k: nat | k < |q.frames| :: CanResume(q, k)
    ensures ControlsOf(q.state.delivered) + ControlsOf(q.state.values) == ControlsOf(q.state.log)
    ensures Complete(TextOf(q.state.delivered) + TextOf(q.state.values), q.state.evicted, q.state.accepted)
    ensures q.offered == UnitsOf(q.state.delivered) + UnitsOf(q.state.values) + LossUnits(q.state.losses)
                       + FrameUnits(q.frames)
  {
  }

  /** Only one position satisfies what `FirstDiscardable` promises. */
  lemma FirstIsUnique(values: seq<Event>, includeOutput: bool, i: nat)
    requires i <= |values| && (i < |values| ==> Discardable(values[i], includeOutput))
    requires forall j | 0 <= j < i :: !Discardable(values[j], includeOutput)
    ensures FirstDiscardable(values, includeOutput) == i
  {
    hide FirstDiscardable, Discardable;
    var first := FirstDiscardable(values, includeOutput);
  }

  lemma EvictProgressStep(c: Config, s: State, bytes: nat)
    ensures var i := FirstDiscardable(s.values, false);
      EvictProgress(c, s, bytes) == if HasCapacity(c, s, bytes) || i == |s.values| then s
                                    else EvictProgress(c, RemoveAt(s, i, 0), bytes)
  {
    hide FirstDiscardable, RemoveAt, HasCapacity;
  }

  lemma EvictAnyStep(c: Config, s: State, bytes: nat, episode: nat, discarded: bool)
    ensures var i := FirstDiscardable(s.values, true);
      EvictAny(c, s, bytes, episode, discarded)
        == if HasCapacity(c, s, bytes) || i == |s.values| then (s, discarded)
           else EvictAny(c, RemoveAt(s, i, episode), bytes, episode, discarded || s.values[i].Output?)
  {
    hide FirstDiscardable, RemoveAt, HasCapacity;
  }

  lemma EnqueueNotesNothing(s: State, e: Event)
    ensures Enqueue(s, e).reports == s.reports
  {
  }

  lemma ReportLoopStep(c: Config, s: State, episode: nat)
    ensures var i := FirstDiscardable(s.values, true);
      ReportLoop(c, s, episode)
        == if HasCapacity(c, s, Size(NOTICE))
           then (Noted(Enqueue(s, NOTICE), episode), Settled)
           else if i == |s.values| then (s, Waiting)
           else ReportLoop(c, RemoveAt(s, i, episode), episode)
  {
    hide FirstDiscardable, RemoveAt, HasCapacity, Size, NOTICE, Enqueue;
  }

  lemma ShortenedIsShorter(c: Config, e: Event)
    ensures Units(Shortened(c, e)) <= Units(e)
  {
    if !e.Other? {
      FitTextFits(e.text, Overhead(e), c.maxBytes);
    }
  }
}
