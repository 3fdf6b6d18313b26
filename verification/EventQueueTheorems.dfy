/** The promises of the event queue, for every run from a new queue. */
module EventQueueTheorems {
  import opened Wrappers
  import opened Utf16
  import opened RuntimeText
  import opened EventQueue
  import opened EventQueueSafety
  import opened EventQueueRuns

  lemma ReachableIsFine(c: Config, steps: seq<Step>)
    requires c.Valid()
    ensures Inv(c, Run(c, NEW, steps))
  {
    hide Inv;
    NewQueueIsFine(c);
    RunKeeps(c, NEW, steps);
  }

  /** Both the buffer and the reservations of blocked producers respect the limits. */
  lemma StaysBounded(c: Config, steps: seq<Step>)
    requires c.Valid()
    ensures var q := Run(c, NEW, steps);
      && |q.state.values| <= c.maxItems
      && q.state.bufferedBytes == SizesOf(q.state.values) <= c.maxBytes
      && q.state.pendingItems == FrameItems(q.frames) <= c.maxItems
      && q.state.pendingBytes == FrameBytes(q.frames) <= c.maxBytes
  {
    ReachableIsFine(c, steps);
  }

  /** A producer that nobody has woken implies something to consume, so the two sides never both wait. */
  lemma NeverDeadlocks(c: Config, steps: seq<Step>)
    requires c.Valid()
    ensures var q := Run(c, NEW, steps);
      && (q.state.capacityWaiters != [] ==> q.state.values != [] && q.state.waiting == [])
      && (q.state.values == [] ==> forall k: nat | k < |q.frames| :: CanResume(q, k))
      && (q.state.closed ==> q.state.waiting == [] && forall k: nat | k < |q.frames| :: CanResume(q, k))
  {
    ReachableIsFine(c, steps);
  }

  /** Control events reach the consumer exactly once and in the order they were enqueued. */
  lemma ControlsKeepOrder(c: Config, steps: seq<Step>)
    requires c.Valid()
    ensures var s := Run(c, NEW, steps).state;
      ControlsOf(s.delivered) + ControlsOf(s.values) == ControlsOf(s.log)
  {
    ReachableIsFine(c, steps);
  }

  /**
   The output text delivered and buffered is the accepted text, joined but never reordered, without exactly the units
   that were evicted; so without an eviction it is all of it.
   */
  lemma TextIsComplete(c: Config, steps: seq<Step>)
    requires c.Valid()
    ensures var s := Run(c, NEW, steps).state;
      var kept := TextOf(s.delivered) + TextOf(s.values);
      && (exists at :: Picks(kept, s.accepted, at))
      && multiset(s.accepted) == multiset(kept) + multiset(s.evicted)
      && (s.evicted == [] ==> kept == s.accepted)
  {
    hide Inv, Run, TextOf, Picks;
    ReachableIsFine(c, steps);
    var s := Run(c, NEW, steps).state;
    InvIsComplete(c, Run(c, NEW, steps));
    if s.evicted == [] { CompleteKeepsAll(TextOf(s.delivered) + TextOf(s.values), s.accepted); }
  }

  lemma InvIsComplete(c: Config, q: Queue)
    requires Inv(c, q)
    ensures Complete(TextOf(q.state.delivered) + TextOf(q.state.values), q.state.evicted, q.state.accepted)
  {
    hide Complete;
  }

  /**
   Every output unit ever pushed is delivered, buffered, in a call under way, or on record as lost;
   every loss belongs to the seal or to an episode; and every episode has its notice in the log or in preparation,
   or its reporter was cut off, unless the notice alone exceeds the queue.  The log holds a notice for each episode
   noticed.  Only closing the queue cuts off a reporter, or sealing it, if the episode had begun before.
   */
  lemma NoSilentLoss(c: Config, steps: seq<Step>)
    requires c.Valid()
    ensures var q := Run(c, NEW, steps);
      && q.offered == UnitsOf(q.state.delivered) + UnitsOf(q.state.values) + LossUnits(q.state.losses)
                    + FrameUnits(q.frames)
      && (forall loss | loss in q.state.losses ::
            if loss.afterSeal then q.state.sealed else 1 <= loss.episode <= q.state.episodes)
      && (forall k | 1 <= k <= q.state.episodes ::
            k in q.state.reports.noticed || k in q.state.reports.cutOff || AnyReports(q.frames, k) || Size(NOTICE) > c.maxBytes)
      && |q.state.reports.noticed| <= NoticesIn(q.state.log)
      && (forall k | k in q.state.reports.cutOff :: q.state.closed || (q.state.sealed && k <= q.state.reports.sealEpisodes))
  {
    ReachableIsFine(c, steps);
    assert forall k | 1 <= k <= Run(c, NEW, steps).state.episodes ::
      EpisodeClosed(c, Run(c, NEW, steps).state, k) || AnyReports(Run(c, NEW, steps).frames, k);
    hide NoticesIn, SizesOf, UnitsOf, ControlsOf, TextOf, LossUnits, FrameUnits, StageOk, NOTICE;
  }

  // ---------- pushAndClose comes last ----------

  predicate OfferPending(f: Frame) {
    f.stage.Reporting? && f.stage.next.Offer? && f.stage.phase != Rejected
  }

  ghost predicate NoOffers(frames: seq<Frame>) {
    forall i | 0 <= i < |frames| :: !OfferPending(frames[i])
  }

  ghost predicate Frozen(c: Config, q: Queue) {
    Inv(c, q) && q.final && NoOffers(q.frames)
  }

  lemma SealedStageAddsNothing(c: Config, s: State, stage: Stage)
    requires s.sealed && StageOk(c, s, stage, false) && !OfferPending(Frame(0, stage, false))
    ensures var (s', flow) := ResumeStage(c, s, stage, false);
      s'.log == s.log && (flow.Suspend? ==> !OfferPending(Frame(0, flow.stage, false)))
  {
  }

  lemma FrozenResume(c: Config, q: Queue, k: nat)
    requires Frozen(c, q) && CanResume(q, k)
    ensures var q' := Resume(c, q, k).0; q'.state.log == q.state.log && NoOffers(q'.frames) && q'.final
  {
    FrozenFacts(c, q);
    var f := q.frames[k];
    assert !OfferPending(f) && StageOk(c, q.state, f.stage, f.allowSealed);
    if f.allowSealed {
      assert f.stage.CloseSoon?;
      CloseSoonStep(c, q.state, f.stage);
    } else {
      SealedStageAddsNothing(c, q.state, f.stage);
      CloseSoonIsCloser(c, q.state, f.stage, f.allowSealed);
    }
    hide Inv, ResumeStage, StageOk, FramesOk, OnlyClosing;
    var (s, flow) := ResumeStage(c, q.state, f.stage, f.allowSealed);
    assert Park(s, f.id, flow).log == s.log;
  }

  lemma FrozenPush(c: Config, q: Queue, e: Event)
    requires Frozen(c, q)
    ensures Push(c, q, e).0 == q.(state := LoseSealed(q.state, Units(e)), nextId := q.nextId + 1,
                                 offered := q.offered + Units(e))
  {
    FrozenFacts(c, q);
    hide Inv, TryCoalesce, OfferOutput, OfferProgress, OfferControl, Report, Shortened;
    assert q.frames + [] == q.frames;
  }

  lemma FrozenStep(c: Config, q: Queue, step: Step)
    requires Frozen(c, q)
    ensures Frozen(c, Apply(c, q, step)) && Apply(c, q, step).state.log == q.state.log
  {
    ApplyKeeps(c, q, step);
    FrozenFacts(c, q);
    hide Inv, Push, Resume, FramesOk, OnlyClosing, OfferPending, TakeNext, CloseNow;
    match step
    case DoPush(e) => FrozenPush(c, q, e);
    case DoResume(k) => if CanResume(q, k) { FrozenResume(c, q, k); }
    case DoNext(consumer) => ReadingLogsNothing(c, q.state, consumer);
    case DoClose => ReadingLogsNothing(c, q.state, 0);
    case DoPushAndClose(_) =>
  }

  lemma ReadingLogsNothing(c: Config, s: State, consumer: nat)
    ensures TakeNext(c, s, consumer).0.log == s.log && CloseNow(s).log == s.log
  {
  }

  lemma FrozenFacts(c: Config, q: Queue)
    requires Frozen(c, q)
    ensures q.state.sealed && OnlyClosing(q.frames) && FramesOk(c, q.state, q.frames)
  {
  }

  lemma CloseSoonStep(c: Config, s: State, stage: Stage)
    requires stage.CloseSoon?
    ensures ResumeStage(c, s, stage, true) == (CloseNow(s), stage.outcome)
  {
  }

  lemma CloseSoonIsCloser(c: Config, s: State, stage: Stage, allowSealed: bool)
    requires StageOk(c, s, stage, allowSealed)
    ensures stage.CloseSoon? ==> allowSealed
  {
  }

  lemma {:induction false} FrozenRun(c: Config, q: Queue, steps: seq<Step>)
    requires Frozen(c, q)
    ensures Frozen(c, Run(c, q, steps)) && Run(c, q, steps).state.log == q.state.log
    decreases |steps|
  {
    hide Frozen, Apply;
    if steps == [] {
    } else {
      FrozenStep(c, q, steps[0]);
      FrozenRun(c, Apply(c, q, steps[0]), steps[1..]);
    }
  }

  // ---------- The condition a caller can check ----------

  /** Output that can fit an empty queue as it is. */
  predicate Modest(c: Config, e: Event) {
    e.Output? ==> Size(e) <= c.maxBytes
  }

  predicate ModestStep(c: Config, step: Step) {
    match step
    case DoPush(e) => Modest(c, e)
    case DoPushAndClose(e) => Modest(c, e)
    case _ => true
  }

  predicate ModestStage(c: Config, stage: Stage) {
    match stage
    case CloseTick(e) => Modest(c, e)
    case Reporting(_, _, next) => !next.Offer?
    case _ => true
  }

  ghost predicate ModestFrames(c: Config, frames: seq<Frame>) {
    forall i | 0 <= i < |frames| :: ModestStage(c, frames[i].stage)
  }

  lemma ModestPush(c: Config, s: State, e: Event, allowSealed: bool)
    requires Modest(c, e)
    ensures var flow := BeginPush(c, s, e, allowSealed).1; flow.Suspend? ==> ModestStage(c, flow.stage)
  {
    hide TryCoalesce, BeginReport, EvictProgress, EvictAny, Size, Truncate;
    if Size(e) <= c.maxBytes { assert Shortened(c, e) == e; }
  }

  lemma ModestResume(c: Config, s: State, stage: Stage, allowSealed: bool)
    requires ModestStage(c, stage) && !stage.CloseSoon?
    ensures var flow := ResumeStage(c, s, stage, allowSealed).1; flow.Suspend? ==> ModestStage(c, flow.stage)
  {
    hide BeginPush, ResumeReport, EvictProgress, Size, Truncate, BeginReport;
    if stage.CloseTick? { ModestPush(c, s, stage.event, allowSealed); }
  }

  lemma ModestApply(c: Config, q: Queue, step: Step)
    requires ModestFrames(c, q.frames) && ModestStep(c, step)
    ensures ModestFrames(c, Apply(c, q, step).frames)
  {
    hide BeginPush, ResumeStage, Park, TakeNext;
    match step
    case DoPush(e) => ModestPush(c, q.state, e, false);
    case DoResume(k) =>
      if CanResume(q, k) && !q.frames[k].stage.CloseSoon? {
        ModestResume(c, q.state, q.frames[k].stage, q.frames[k].allowSealed);
      }
    case _ =>
  }

  lemma {:induction false} ModestRun(c: Config, q: Queue, steps: seq<Step>)
    requires ModestFrames(c, q.frames) && forall i | 0 <= i < |steps| :: ModestStep(c, steps[i])
    ensures ModestFrames(c, Run(c, q, steps).frames)
    decreases |steps|
  {
    hide ModestFrames, Apply, ModestStep;
    if steps == [] {
    } else {
      ModestApply(c, q, steps[0]);
      ModestRun(c, Apply(c, q, steps[0]), steps[1..]);
    }
  }

  /** If no single output event exceeds the queue, nothing ever follows the pushAndClose event. */
  lemma CloseComesLast(c: Config, steps: seq<Step>, more: seq<Step>)
    requires c.Valid() && forall i | 0 <= i < |steps| :: ModestStep(c, steps[i])
    requires Run(c, NEW, steps).final
    ensures Run(c, Run(c, NEW, steps), more).state.log == Run(c, NEW, steps).state.log
  {
    ReachableIsFine(c, steps);
    ModestRun(c, NEW, steps);
    FrozenRun(c, Run(c, NEW, steps), more);
  }

  lemma InvParts(c: Config, q: Queue)
    requires Inv(c, q)
    ensures c.Valid() && Sound(c, q.state) && Accounted(q.state) && FramesOk(c, q.state, q.frames)
  {
  }

  /** The control event a stage still has to enqueue. */
  function Outstanding(c: Config, stage: Stage): Option<Event> {
    match stage
    case CloseTick(e) => if PriorityOf(e) == Nondroppable then Some(Shortened(c, e)) else None
    case WaitRoom(e) => Some(e)
    case Reporting(_, _, Admit(e)) => Some(e)
    case _ => None
  }

  /** The step that makes a closing call final appends exactly its event to the log. */
  lemma ClosingEventIsLogged(c: Config, q: Queue, k: nat)
    requires Inv(c, q) && CanResume(q, k) && q.frames[k].allowSealed
    requires Outstanding(c, q.frames[k].stage).Some? && !q.final && Resume(c, q, k).0.final
    ensures Resume(c, q, k).0.state.log == q.state.log + [Outstanding(c, q.frames[k].stage).value]
  {
    hide Inv, Accounted, TryCoalesce, HasCapacity, EvictAny, BeginReport, Truncate, Shortened, Balance, SizesOf, ControlsOf, TextOf;
    var f := q.frames[k];
    var s := q.state;
    InvParts(c, q);
    if f.stage.CloseTick? {
      var e := Shortened(c, f.stage.event);
      assert PriorityOf(e) == Nondroppable by { ShortenedKeepsKind(c, f.stage.event); }
      AccountedWidens(s, CurrentEpisode(s));
      EvictAnyKeeps(c, s, Size(e), CurrentEpisode(s), false, CurrentEpisode(s));
    }
  }

  lemma ShortenedKeepsKind(c: Config, e: Event)
    ensures PriorityOf(Shortened(c, e)) == PriorityOf(e)
  {
    if Truncate(e, c.maxBytes).Some? { CutKeepsKind(c, e, c.maxBytes); }
  }
}
