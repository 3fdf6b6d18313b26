/**
 The event queue under the scheduling of JavaScript: calls may come at any time, but the suspended calls that have
 been woken go on in the order in which their promises were resolved.

 `ready` lists them, oldest job first.  Every such schedule is a run of module EventQueue, so the theorems about
 runs hold here as well; what needs the order is which calls can still come after `pushAndClose`.
 */
module EventQueueOrder {
  import opened Wrappers
  import opened Utf16
  import opened RuntimeText
  import opened EventQueue
  import opened EventQueueSafety
  import opened EventQueueRuns
  import opened EventQueueTheorems

  datatype Schedule = Schedule(queue: Queue, ready: seq<nat>)

  const START: Schedule := Schedule(NEW, [])

  /** The calls a step woke: all that waited for capacity, if it notified any. */
  function Woken(before: seq<nat>, after: seq<nat>): seq<nat> {
    if before <= after then [] else before
  }

  ghost predicate HasFrame(frames: seq<Frame>, id: nat) {
    exists k :: 0 <= k < |frames| && frames[k].id == id
  }

  /** The call whose code a step runs. */
  function Runner(q: Queue, step: Step): Option<nat> {
    match step
    case DoPush(_) => Some(q.nextId)
    case DoPushAndClose(_) => Some(q.nextId)
    case DoResume(k) => if k < |q.frames| then Some(q.frames[k].id) else None
    case _ => None
  }

  /** A call that stops at a resolved promise queues its own job behind those it woke. */
  ghost function OwnJob(q: Queue, runner: Option<nat>): seq<nat> {
    if runner.Some? && HasFrame(q.frames, runner.value) && runner.value !in q.state.capacityWaiters then [runner.value] else []
  }

  ghost function Advance(c: Config, s: Schedule, step: Step): Schedule {
    var q := Apply(c, s.queue, step);
    var left := if step.DoResume? && s.ready != [] then s.ready[1..] else s.ready;
    Schedule(q, left + Woken(s.queue.state.capacityWaiters, q.state.capacityWaiters) + OwnJob(q, Runner(s.queue, step)))
  }

  /** Only the oldest job may go on. */
  predicate MayRun(s: Schedule, step: Step) {
    step.DoResume? ==> step.k < |s.queue.frames| && s.ready != [] && s.queue.frames[step.k].id == s.ready[0]
  }

  ghost predicate InOrder(c: Config, s: Schedule, steps: seq<Step>)
    decreases |steps|
  {
    steps == [] || (MayRun(s, steps[0]) && InOrder(c, Advance(c, s, steps[0]), steps[1..]))
  }

  ghost function Follow(c: Config, s: Schedule, steps: seq<Step>): Schedule
    decreases |steps|
  {
    if steps == [] then s else Follow(c, Advance(c, s, steps[0]), steps[1..])
  }

  lemma {:induction false} FollowIsRun(c: Config, s: Schedule, steps: seq<Step>)
    ensures Follow(c, s, steps).queue == Run(c, s.queue, steps)
    decreases |steps|
  {
    hide Apply;
    if steps == [] {
    } else {
      FollowIsRun(c, Advance(c, s, steps[0]), steps[1..]);
    }
  }

  lemma {:induction false} OrderConcat(c: Config, s: Schedule, a: seq<Step>, b: seq<Step>)
    requires InOrder(c, s, a) && InOrder(c, Follow(c, s, a), b)
    ensures InOrder(c, s, a + b) && Follow(c, s, a + b) == Follow(c, Follow(c, s, a), b)
    decreases |a|
  {
    hide Apply, Advance;
    if a == [] {
      assert a + b == b;
    } else {
      assert (a + b)[1..] == a[1..] + b;
      OrderConcat(c, Advance(c, s, a[0]), a[1..], b);
    }
  }

  // ---------- Who waits and who is ready ----------

  ghost predicate IdsDiffer(frames: seq<Frame>) {
    forall i, j | 0 <= i < j < |frames| :: frames[i].id != frames[j].id
  }

  /** The jobs are those of the calls that do not wait for capacity. */
  ghost predicate JobsOk(frames: seq<Frame>, waiters: seq<nat>, ready: seq<nat>) {
    && (forall id | id in waiters :: HasFrame(frames, id))
    && (forall id :: id in ready <==> HasFrame(frames, id) && id !in waiters)
    && Distinct(ready)
  }

  ghost predicate Distinct(ids: seq<nat>) {
    forall i, j | 0 <= i < j < |ids| :: ids[i] != ids[j]
  }

  ghost predicate Ordered(s: Schedule) {
    && IdsDiffer(s.queue.frames)
    && (forall k | 0 <= k < |s.queue.frames| :: s.queue.frames[k].id < s.queue.nextId)
    && JobsOk(s.queue.frames, s.queue.state.capacityWaiters, s.ready)
    && Distinct(s.queue.state.capacityWaiters)
  }

  ghost predicate OrderInv(c: Config, s: Schedule) {
    Inv(c, s.queue) && Ordered(s)
  }

  /** A step leaves the list of waiters alone or notifies them all, and then may add its own call. */
  ghost predicate WaitersKept(s: State, s': State) {
    s'.capacityWaiters == s.capacityWaiters || s'.capacityWaiters == []
  }

  lemma {:induction false} EvictProgressWakes(c: Config, s: State, bytes: nat)
    ensures WaitersKept(s, EvictProgress(c, s, bytes))
    decreases |s.values|
  {
    hide HasCapacity;
    var i := FirstDiscardable(s.values, false);
    if HasCapacity(c, s, bytes) || i == |s.values| {
    } else {
      EvictProgressWakes(c, RemoveAt(s, i, 0), bytes);
    }
  }

  lemma {:induction false} EvictAnyWakes(c: Config, s: State, bytes: nat, episode: nat, discarded: bool)
    ensures WaitersKept(s, EvictAny(c, s, bytes, episode, discarded).0)
    decreases |s.values|
  {
    hide HasCapacity;
    var i := FirstDiscardable(s.values, true);
    if HasCapacity(c, s, bytes) || i == |s.values| {
    } else {
      EvictAnyWakes(c, RemoveAt(s, i, episode), bytes, episode, discarded || s.values[i].Output?);
    }
  }

  lemma {:induction false} ReportLoopWakes(c: Config, s: State, episode: nat)
    ensures WaitersKept(s, ReportLoop(c, s, episode).0)
    decreases |s.values|
  {
    hide HasCapacity, NOTICE;
    var i := FirstDiscardable(s.values, true);
    if HasCapacity(c, s, Size(NOTICE)) || i == |s.values| {
    } else {
      ReportLoopWakes(c, RemoveAt(s, i, episode), episode);
    }
  }

  lemma ReportWakes(c: Config, s: State, allowSealed: bool, lost: nat, next: Next)
    ensures WaitersKept(s, Report(c, s, allowSealed, lost, next).0)
  {
    hide ReportLoop, NOTICE;
    var begun := s.(pressureReported := true, episodes := s.episodes + 1);
    ReportLoopWakes(c, begun, begun.episodes);
  }

  lemma OfferOutputWakes(c: Config, s: State, e: Event, allowSealed: bool)
    ensures WaitersKept(s, OfferOutput(c, s, e, allowSealed).0)
  {
    hide EvictProgress, Report, HasCapacity;
    EvictProgressWakes(c, s, Size(e));
    ReportWakes(c, EvictProgress(c, s, Size(e)), allowSealed, 0, Squeeze(e));
  }

  lemma OfferControlWakes(c: Config, s: State, e: Event, allowSealed: bool)
    ensures WaitersKept(s, OfferControl(c, s, e, allowSealed).0)
  {
    hide EvictAny, Report, HasCapacity;
    EvictAnyWakes(c, s, Size(e), CurrentEpisode(s), false);
    var s' := EvictAny(c, s, Size(e), CurrentEpisode(s), false).0;
    ReportWakes(c, s', allowSealed, 0, Admit(e));
  }

  lemma BeginPushWakes(c: Config, s: State, e: Event, allowSealed: bool)
    ensures WaitersKept(s, BeginPush(c, s, e, allowSealed).0)
  {
    hide Report, OfferOutput, OfferControl, HasCapacity, Coalesce, Size, Truncate, RemoveAt;
    var e' := Shortened(c, e);
    ReportWakes(c, s, allowSealed, Units(e), Refuse);
    if Units(e) >= Units(e') { ReportWakes(c, s, allowSealed, Units(e) - Units(e'), Offer(e')); }
    OfferOutputWakes(c, s, e', allowSealed);
    OfferControlWakes(c, s, e', allowSealed);
    OfferProgressWakes(c, s, e');
  }

  lemma OfferProgressWakes(c: Config, s: State, e: Event)
    ensures WaitersKept(s, OfferProgress(c, s, e).0)
  {
    hide HasCapacity, Size, Enqueue;
    var i := FirstDiscardable(s.values, false);
    EnqueueWakes(s, e);
    if i < |s.values| { EnqueueWakes(RemoveAt(s, i, 0), e); }
  }

  lemma EnqueueWakes(s: State, e: Event)
    ensures Enqueue(s, e).capacityWaiters == s.capacityWaiters
  {
  }

  lemma AdmissionWakes(c: Config, s: State, e: Event, allowSealed: bool, episode: nat)
    ensures WaitersKept(s, ResumeRoom(c, s, e, allowSealed).0) && WaitersKept(s, AdmitControl(c, s, e, allowSealed).0)
    ensures WaitersKept(s, SqueezeOutput(c, s, e, allowSealed, episode).0)
  {
    hide HasCapacity, Size, Enqueue, Truncate;
    EnqueueWakes(s.(pendingItems := s.pendingItems - 1, pendingBytes := s.pendingBytes - Size(e)), e);
    EnqueueWakes(s, e);
    var cut := Truncate(e, if c.maxBytes >= s.bufferedBytes then c.maxBytes - s.bufferedBytes else 0);
    if cut.Some? { EnqueueWakes(s, cut.value); }
  }

  lemma ResumeStageWakes(c: Config, s: State, stage: Stage, allowSealed: bool)
    ensures WaitersKept(s, ResumeStage(c, s, stage, allowSealed).0)
  {
    hide BeginPush, OfferOutput, ReportLoop, ResumeRoom, AdmitControl, SqueezeOutput;
    match stage
    case CloseTick(e) => BeginPushWakes(c, s, e, allowSealed);
    case WaitRoom(e) => AdmissionWakes(c, s, e, allowSealed, 0);
    case CloseSoon(_) =>
    case Reporting(episode, phase, next) =>
      ReportLoopWakes(c, s, episode);
      if !next.Refuse? {
        OfferOutputWakes(c, s, next.event, allowSealed);
        AdmissionWakes(c, s, next.event, allowSealed, episode);
      }
  }

  // ---------- Every step keeps the jobs in order ----------

  /** One step of call `r`, which was not waiting: `left` are the other jobs, `kept` the waiters it did not wake. */
  lemma JobsStep(frames: seq<Frame>, waiters: seq<nat>, ready: seq<nat>, r: nat, frames': seq<Frame>, kept: seq<nat>,
                 parked: bool, left: seq<nat>)
    requires JobsOk(frames, waiters, ready) && Distinct(waiters) && r !in waiters
    requires forall id | id != r :: HasFrame(frames', id) <==> HasFrame(frames, id)
    requires kept == waiters || kept == []
    requires parked ==> HasFrame(frames', r)
    requires Distinct(left) && forall id :: id in left <==> id in ready && id != r
    ensures var waiters' := kept + if parked then [r] else [];
      && Distinct(waiters')
      && JobsOk(frames', waiters',
                left + Woken(waiters, waiters') + if HasFrame(frames', r) && r !in waiters' then [r] else [])
  {
    hide HasFrame;
    var waiters' := kept + if parked then [r] else [];
    var woken := Woken(waiters, waiters');
    assert woken == if kept == waiters then [] else waiters by { WokenMeans(waiters, kept, r, parked); }
    var own := if HasFrame(frames', r) && r !in waiters' then [r] else [];
    forall id ensures id in left + woken + own <==> HasFrame(frames', id) && id !in waiters' {
      if id == r {
      } else {
        assert id in waiters' <==> id in kept;
      }
    }
    forall id | id in waiters' ensures HasFrame(frames', id) {
    }
    DistinctParts(left, woken);
    DistinctParts(left + woken, own);
  }

  lemma WokenMeans(waiters: seq<nat>, kept: seq<nat>, r: nat, parked: bool)
    requires r !in waiters && (kept == waiters || kept == [])
    ensures Woken(waiters, kept + if parked then [r] else []) == if kept == waiters then [] else waiters
  {
    if waiters != [] && kept == [] && parked { assert waiters[0] in waiters; }
  }

  lemma DistinctParts(a: seq<nat>, b: seq<nat>)
    requires Distinct(a) && Distinct(b) && forall id | id in a :: id !in b
    ensures Distinct(a + b)
  {
    forall i, j | 0 <= i < j < |a + b| ensures (a + b)[i] != (a + b)[j] {
      if i < |a| <= j { assert a[i] in a && b[j - |a|] in b; }
    }
  }

  lemma OrderKeeps(c: Config, s: Schedule, step: Step)
    requires OrderInv(c, s) && MayRun(s, step)
    ensures OrderInv(c, Advance(c, s, step))
  {
    ApplyKeeps(c, s.queue, step);
    if step.DoResume? { CloserIsDone(c, s.queue, step.k); }
    hide Inv, JobsOk, Apply, Ordered, Advance;
    match step
    case DoPush(e) => PushOrders(c, s, e);
    case DoPushAndClose(e) => PushAndCloseOrders(c, s, e);
    case DoResume(k) => ResumeOrders(c, s, k);
    case DoNext(consumer) => OutsideOrders(c, s, step);
    case DoClose => OutsideOrders(c, s, step);
  }

  lemma NextIdIsNew(s: Schedule)
    requires Ordered(s)
    ensures !HasFrame(s.queue.frames, s.queue.nextId)
    ensures s.queue.nextId !in s.queue.state.capacityWaiters && s.queue.nextId !in s.ready
    ensures Distinct(s.ready)
  {
  }

  lemma OutsideOrders(c: Config, s: Schedule, step: Step)
    requires Ordered(s) && (step.DoNext? || step.DoClose?)
    ensures Ordered(Advance(c, s, step))
  {
    hide HasFrame, JobsOk, Woken;
    NextIdIsNew(s);
    var q, q' := s.queue, Apply(c, s.queue, step);
    var kept := q'.state.capacityWaiters;
    JobsStep(q.frames, q.state.capacityWaiters, s.ready, q.nextId, q.frames, kept, false, s.ready);
    assert kept + [] == kept;
    assert s.ready + Woken(q.state.capacityWaiters, kept) + [] == s.ready + Woken(q.state.capacityWaiters, kept);
  }

  lemma FramesAppend(frames: seq<Frame>, rest: seq<Frame>, r: nat)
    requires |rest| <= 1 && (rest != [] ==> rest[0].id == r)
    ensures forall id :: HasFrame(frames + rest, id) <==> HasFrame(frames, id) || (id == r && rest != [])
  {
    var more := frames + rest;
    forall id ensures HasFrame(more, id) <==> HasFrame(frames, id) || (id == r && rest != []) {
      if HasFrame(frames, id) {
        var k :| 0 <= k < |frames| && frames[k].id == id;
        assert more[k].id == id;
      }
      if id == r && rest != [] { assert more[|frames|].id == id; }
    }
  }

  lemma PushOrders(c: Config, s: Schedule, e: Event)
    requires Ordered(s)
    ensures Ordered(Advance(c, s, DoPush(e)))
  {
    hide HasFrame, JobsOk, Woken, BeginPush;
    NextIdIsNew(s);
    BeginPushWakes(c, s.queue.state, e, false);
    var q, q' := s.queue, Apply(c, s.queue, DoPush(e));
    var (st, flow) := BeginPush(c, q.state, e, false);
    var rest := Remainder(q.nextId, false, flow);
    FramesAppend(q.frames, rest, q.nextId);
    var parked := flow.Suspend? && flow.parked;
    JobsStep(q.frames, q.state.capacityWaiters, s.ready, q.nextId, q'.frames, st.capacityWaiters, parked, s.ready);
    assert q'.state.capacityWaiters == st.capacityWaiters + if parked then [q.nextId] else [];
  }

  lemma PushAndCloseOrders(c: Config, s: Schedule, e: Event)
    requires Ordered(s)
    ensures Ordered(Advance(c, s, DoPushAndClose(e)))
  {
    hide HasFrame, JobsOk, Woken;
    NextIdIsNew(s);
    var q, q' := s.queue, Apply(c, s.queue, DoPushAndClose(e));
    var kept := q'.state.capacityWaiters;
    var rest := if q.state.closed || q.state.sealed then [] else [Frame(q.nextId, CloseTick(e), true)];
    assert q'.frames == q.frames + rest;
    FramesAppend(q.frames, rest, q.nextId);
    JobsStep(q.frames, q.state.capacityWaiters, s.ready, q.nextId, q'.frames, kept, false, s.ready);
    assert kept + [] == kept;
  }

  lemma FramesReplace(frames: seq<Frame>, k: nat, rest: seq<Frame>)
    requires k < |frames| && IdsDiffer(frames) && |rest| <= 1 && (rest != [] ==> rest[0].id == frames[k].id)
    ensures var frames' := frames[..k] + rest + frames[k + 1..];
      && IdsDiffer(frames')
      && (forall id | id != frames[k].id :: HasFrame(frames', id) <==> HasFrame(frames, id))
      && (rest != [] ==> HasFrame(frames', frames[k].id))
  {
    var frames' := frames[..k] + rest + frames[k + 1..];
    forall id | id != frames[k].id ensures HasFrame(frames', id) <==> HasFrame(frames, id) {
      if HasFrame(frames, id) {
        var i :| 0 <= i < |frames| && frames[i].id == id;
        assert frames'[if i < k then i else i + |rest| - 1].id == id;
      }
      if HasFrame(frames', id) {
        var i :| 0 <= i < |frames'| && frames'[i].id == id;
        assert frames[if i < k then i else i + 1 - |rest|].id == id;
      }
    }
    if rest != [] { assert frames'[k].id == frames[k].id; }
  }

  lemma ResumeOrders(c: Config, s: Schedule, k: nat)
    requires Ordered(s) && MayRun(s, DoResume(k))
    requires var stage := s.queue.frames[k].stage; stage.CloseSoon? ==> !stage.outcome.Suspend?
    ensures Ordered(Advance(c, s, DoResume(k)))
  {
    hide HasFrame, JobsOk, Woken, ResumeStage, Remainder;
    var q := s.queue;
    var r := q.frames[k].id;
    ReadyMayResume(s, k);
    var q' := Apply(c, q, DoResume(k));
    ResumeStageWakes(c, q.state, q.frames[k].stage, q.frames[k].allowSealed);
    var (st, flow) := ResumeStage(c, q.state, q.frames[k].stage, q.frames[k].allowSealed);
    var rest := if q.frames[k].stage.CloseSoon? then [] else Remainder(r, q.frames[k].allowSealed, flow);
    RemainderIs(c, q.state, q.frames[k], flow, rest);
    FramesReplace(q.frames, k, rest);
    var parked := flow.Suspend? && flow.parked;
    JobsStep(q.frames, q.state.capacityWaiters, s.ready, r, q'.frames, st.capacityWaiters, parked, s.ready[1..]);
    assert flow.Suspend? ==> rest != [];
    assert q'.state.capacityWaiters == st.capacityWaiters + if parked then [r] else [];
    assert forall i | 0 <= i < |q'.frames| :: q'.frames[i].id < q'.nextId;
  }

  lemma CloserIsDone(c: Config, q: Queue, k: nat)
    requires Inv(c, q) && k < |q.frames|
    ensures q.frames[k].stage.CloseSoon? ==> !q.frames[k].stage.outcome.Suspend?
  {
    assert StageOk(c, q.state, q.frames[k].stage, q.frames[k].allowSealed);
  }

  lemma ReadyMayResume(s: Schedule, k: nat)
    requires Ordered(s) && MayRun(s, DoResume(k))
    ensures CanResume(s.queue, k) && Distinct(s.ready[1..])
    ensures forall id :: id in s.ready[1..] <==> id in s.ready && id != s.queue.frames[k].id
  {
    assert s.ready[0] in s.ready;
    assert s.ready == [s.ready[0]] + s.ready[1..];
  }

  lemma RemainderIs(c: Config, s: State, f: Frame, flow: Flow, rest: seq<Frame>)
    requires flow == ResumeStage(c, s, f.stage, f.allowSealed).1
    requires rest == if f.stage.CloseSoon? then [] else Remainder(f.id, f.allowSealed, flow)
    ensures |rest| <= 1 && (rest != [] ==> rest[0].id == f.id)
    ensures f.stage.CloseSoon? ==> flow == f.stage.outcome
    ensures flow.Suspend? && !f.stage.CloseSoon? ==> rest != []
  {
  }

  lemma {:induction false} FollowKeeps(c: Config, s: Schedule, steps: seq<Step>)
    requires OrderInv(c, s) && InOrder(c, s, steps)
    ensures OrderInv(c, Follow(c, s, steps))
    decreases |steps|
  {
    hide OrderInv, Advance, MayRun;
    if steps == [] {
    } else {
      OrderKeeps(c, s, steps[0]);
      FollowKeeps(c, Advance(c, s, steps[0]), steps[1..]);
    }
  }

  lemma StartIsOrdered(c: Config)
    requires c.Valid()
    ensures OrderInv(c, START)
  {
    hide Inv;
    NewQueueIsFine(c);
    assert Ordered(START);
  }

  // ---------- What can follow pushAndClose ----------

  function Drain(n: nat): seq<Step> { seq(n, i => DoNext(0)) }

  lemma {:induction false} DrainEmpties(c: Config, s: Schedule)
    requires OrderInv(c, s)
    ensures var n := |s.queue.state.values|;
      && InOrder(c, s, Drain(n))
      && var s' := Follow(c, s, Drain(n));
         && OrderInv(c, s') && s'.queue.state.values == [] && s'.queue.frames == s.queue.frames
         && s'.queue.final == s.queue.final && s'.queue.state.log == s.queue.state.log
    decreases |s.queue.state.values|
  {
    hide OrderInv;
    var n := |s.queue.state.values|;
    if n == 0 {
    } else {
      assert Drain(n)[0] == DoNext(0) && Drain(n)[1..] == Drain(n - 1);
      OrderKeeps(c, s, DoNext(0));
      DrainEmpties(c, Advance(c, s, DoNext(0)));
    }
  }

  lemma EmptyQueueFacts(c: Config, q: Queue)
    requires Inv(c, q) && q.state.values == []
    ensures q.state.capacityWaiters == [] && q.state.bufferedBytes == 0
  {
  }

  /** A settled offer enqueues into an empty queue even though the queue has been sealed. */
  lemma SettledOfferEnqueues(c: Config, q: Queue, k: nat)
    requires Inv(c, q) && q.state.values == [] && CanResume(q, k)
    requires q.frames[k].stage.Reporting? && q.frames[k].stage.next.Offer? && q.frames[k].stage.phase == Settled
    ensures Apply(c, q, DoResume(k)).state.log == q.state.log + [q.frames[k].stage.next.event]
  {
    hide Inv, NOTICE, Report, Sound, Accounted;
    EmptyQueueFacts(c, q);
    InvParts(c, q);
    var f := q.frames[k];
    assert StageOk(c, q.state, f.stage, f.allowSealed);
    var e := f.stage.next.event;
    assert HasCapacity(c, q.state, Size(e));
    assert EvictProgress(c, q.state, Size(e)) == q.state;
  }

  /** A reporter that was waiting when the queue was sealed gives up; its call then goes on behind all other jobs. */
  lemma WaitingOfferSettles(c: Config, s: Schedule, k: nat)
    requires OrderInv(c, s) && s.queue.state.values == [] && MayRun(s, DoResume(k)) && s.queue.state.sealed
    requires OfferPending(s.queue.frames[k]) && s.queue.frames[k].stage.phase == Waiting && !s.queue.frames[k].allowSealed
    ensures var s', f := Advance(c, s, DoResume(k)), s.queue.frames[k];
      && s'.queue.state.values == [] && s'.queue.state.log == s.queue.state.log && s'.queue.final == s.queue.final
      && k < |s'.queue.frames| && s'.queue.frames[k] == f.(stage := f.stage.(phase := Settled))
      && OfferPending(s'.queue.frames[k])
      && s'.ready == s.ready[1..] + [f.id]
  {
    hide Inv, Ordered, Resume, OfferPending, HasFrame;
    assert CanResume(s.queue, k) by { ReadyMayResume(s, k); }
    assert s.queue.state.capacityWaiters == [] by { EmptyQueueFacts(c, s.queue); }
    var f := s.queue.frames[k];
    OffersReport(f);
    ResumeSettles(c, s.queue, k);
    CutOffOnly(s.queue.state, f.stage.episode);
    var q' := Resume(c, s.queue, k).0;
    assert HasFrame(q'.frames, f.id) by { FrameAt(q'.frames, k); }
  }

  lemma ResumeSettles(c: Config, q: Queue, k: nat)
    requires CanResume(q, k) && q.state.sealed && !q.frames[k].allowSealed
    requires q.frames[k].stage.Reporting? && q.frames[k].stage.phase == Waiting
    ensures var stage := q.frames[k].stage;
      Resume(c, q, k).0 == q.(state := CutOff(q.state, stage.episode),
                              frames := q.frames[k := q.frames[k].(stage := stage.(phase := Settled))])
  {
    hide ResumeStage;
    SealedReportSettles(c, q.state, q.frames[k].stage);
    assert q.frames[..k] + [q.frames[k].(stage := q.frames[k].stage.(phase := Settled))] + q.frames[k + 1..]
        == q.frames[k := q.frames[k].(stage := q.frames[k].stage.(phase := Settled))];
  }

  lemma CutOffOnly(s: State, episode: nat)
    ensures var s' := CutOff(s, episode);
      s'.values == s.values && s'.log == s.log && s'.capacityWaiters == s.capacityWaiters
  {
  }

  lemma OffersReport(f: Frame)
    requires OfferPending(f)
    ensures f.stage.Reporting? && OfferPending(f.(stage := f.stage.(phase := Settled)))
  {
  }

  lemma FrameAt(frames: seq<Frame>, k: nat)
    requires k < |frames|
    ensures HasFrame(frames, frames[k].id)
  {
  }

  lemma SealedReportSettles(c: Config, s: State, stage: Stage)
    requires s.sealed && stage.Reporting? && stage.phase == Waiting
    ensures ResumeStage(c, s, stage, false)
         == (CutOff(s, stage.episode), Suspend(stage.(phase := Settled), false))
  {
  }

  /** Nothing was enqueued that is still buffered. */
  ghost predicate Quiet(s: State, s': State) {
    s'.values == [] || s'.log != s.log
  }

  lemma EnqueueIsLogged(s: State, e: Event)
    ensures Enqueue(s, e).log != s.log
  {
    assert |Enqueue(s, e).log| == |s.log| + 1;
  }

  lemma ReportIsQuiet(c: Config, s: State, allowSealed: bool, lost: nat, next: Next)
    requires s.values == []
    ensures Quiet(s, Report(c, s, allowSealed, lost, next).0)
  {
    hide HasCapacity, NOTICE, Enqueue;
    var begun := s.(pressureReported := true, episodes := s.episodes + 1);
    EnqueueIsLogged(begun, NOTICE);
  }

  lemma OfferIsQuiet(c: Config, s: State, e: Event, allowSealed: bool)
    requires s.values == []
    ensures Quiet(s, OfferOutput(c, s, e, allowSealed).0) && Quiet(s, OfferControl(c, s, e, allowSealed).0)
    ensures Quiet(s, AdmitControl(c, s, e, allowSealed).0) && Quiet(s, OfferProgress(c, s, e).0)
  {
    hide HasCapacity, Report, Enqueue, Size;
    EnqueueIsLogged(s, e);
    ReportIsQuiet(c, s, allowSealed, 0, Squeeze(e));
  }

  lemma SqueezeIsQuiet(c: Config, s: State, e: Event, allowSealed: bool, episode: nat)
    requires s.values == []
    ensures Quiet(s, SqueezeOutput(c, s, e, allowSealed, episode).0)
  {
    hide HasCapacity, Enqueue, Size, Truncate;
    var cut := Truncate(e, if c.maxBytes >= s.bufferedBytes then c.maxBytes - s.bufferedBytes else 0);
    if cut.Some? { EnqueueIsLogged(s, cut.value); }
  }

  lemma PushIsQuiet(c: Config, s: State, e: Event, allowSealed: bool)
    requires s.values == []
    ensures Quiet(s, BeginPush(c, s, e, allowSealed).0)
  {
    hide Report, OfferOutput, OfferControl, OfferProgress, Size, Truncate;
    var e' := Shortened(c, e);
    OfferIsQuiet(c, s, e', allowSealed);
    ReportIsQuiet(c, s, allowSealed, Units(e), Refuse);
    if Units(e) >= Units(e') { ReportIsQuiet(c, s, allowSealed, Units(e) - Units(e'), Offer(e')); }
  }

  lemma RoomIsQuiet(c: Config, s: State, e: Event, allowSealed: bool)
    requires s.values == []
    ensures Quiet(s, ResumeRoom(c, s, e, allowSealed).0)
  {
    hide HasCapacity, Enqueue, Size;
    EnqueueIsLogged(s.(pendingItems := s.pendingItems - 1, pendingBytes := s.pendingBytes - Size(e)), e);
  }

  lemma ResumedReportIsQuiet(c: Config, s: State, allowSealed: bool, episode: nat)
    requires s.values == []
    ensures Quiet(s, ResumeReport(c, s, allowSealed, episode).0)
  {
    hide HasCapacity, NOTICE, Enqueue;
    EnqueueIsLogged(s, NOTICE);
  }

  /** A step of some other call that logs nothing leaves an empty queue empty. */
  lemma StaysEmpty(c: Config, s: State, stage: Stage, allowSealed: bool)
    requires s.values == []
    ensures Quiet(s, ResumeStage(c, s, stage, allowSealed).0)
  {
    hide BeginPush, ResumeRoom, ResumeReport, OfferOutput, SqueezeOutput, AdmitControl;
    match stage
    case CloseTick(e) => PushIsQuiet(c, s, e, allowSealed);
    case WaitRoom(e) => RoomIsQuiet(c, s, e, allowSealed);
    case CloseSoon(_) =>
    case Reporting(episode, phase, next) =>
      ResumedReportIsQuiet(c, s, allowSealed, episode);
      if !next.Refuse? {
        OfferIsQuiet(c, s, next.event, allowSealed);
        SqueezeIsQuiet(c, s, next.event, allowSealed, episode);
      }
  }

  /** The job of another call: the offer moves one place forward. */
  lemma OtherJobRuns(c: Config, s: Schedule, k: nat, j: nat) returns (j': nat)
    requires OrderInv(c, s) && s.queue.state.values == [] && MayRun(s, DoResume(k)) && s.queue.final
    requires j < |s.queue.frames| && j != k
    ensures var s' := Advance(c, s, DoResume(k));
      s'.queue.state.log == s.queue.state.log ==>
        && s'.queue.state.values == [] && s'.queue.final && s.ready[1..] <= s'.ready
        && j' < |s'.queue.frames| && s'.queue.frames[j'] == s.queue.frames[j]
  {
    ReadyMayResume(s, k);
    EmptyQueueFacts(c, s.queue);
    hide Inv, Ordered;
    j' := OtherFrameStays(c, s.queue, k, j);
    hide Resume;
    JobsMoveUp(c, s, k);
  }

  lemma JobsMoveUp(c: Config, s: Schedule, k: nat)
    requires MayRun(s, DoResume(k)) && s.queue.state.capacityWaiters == []
    ensures s.ready[1..] <= Advance(c, s, DoResume(k)).ready
  {
    hide Apply, HasFrame;
  }

  lemma OtherFrameStays(c: Config, q: Queue, k: nat, j: nat) returns (j': nat)
    requires q.state.values == [] && CanResume(q, k) && j < |q.frames| && j != k && q.final
    ensures var q' := Resume(c, q, k).0;
      && (q'.state.values == [] || q'.state.log != q.state.log) && q'.final
      && j' < |q'.frames| && q'.frames[j'] == q.frames[j]
  {
    hide ResumeStage, Remainder;
    var f := q.frames[k];
    StaysEmpty(c, q.state, f.stage, f.allowSealed);
    var (st, flow) := ResumeStage(c, q.state, f.stage, f.allowSealed);
    var rest := if f.stage.CloseSoon? then [] else Remainder(f.id, f.allowSealed, flow);
    j' := if j < k then j else j + |rest| - 1;
    assert (q.frames[..k] + rest + q.frames[k + 1..])[j'] == q.frames[j];
  }

  /** The frame of the oldest job. */
  lemma OldestHasFrame(s: Schedule) returns (k: nat)
    requires Ordered(s) && s.ready != []
    ensures k < |s.queue.frames| && MayRun(s, DoResume(k))
  {
    assert s.ready[0] in s.ready;
    k :| k < |s.queue.frames| && s.queue.frames[k].id == s.ready[0];
  }

  /** The oldest job is that of the call at place `j` exactly if that call is first in line. */
  lemma OldestIs(s: Schedule, k: nat, j: nat, p: nat)
    requires Ordered(s) && MayRun(s, DoResume(k)) && j < |s.queue.frames|
    requires p < |s.ready| && s.queue.frames[j].id == s.ready[p]
    ensures k == j <==> p == 0
  {
    hide JobsOk;
    assert Distinct(s.ready) by { NextIdIsNew(s); }
  }

  /** Once the queue is empty, a pending offer gets its turn and enqueues, unless another call enqueues before it. */
  lemma {:induction false} OfferGetsItsTurn(c: Config, s: Schedule, p: nat, j: nat) returns (more: seq<Step>)
    requires OrderInv(c, s) && s.queue.state.values == [] && s.queue.final
    requires p < |s.ready| && j < |s.queue.frames| && s.queue.frames[j].id == s.ready[p] && OfferPending(s.queue.frames[j])
    ensures InOrder(c, s, more) && Follow(c, s, more).queue.state.log != s.queue.state.log
    decreases if s.queue.frames[j].stage.phase == Waiting then 1 else 0, p
  {
    hide Inv, Ordered, Advance, MayRun, InOrder, Follow, OfferPending, CanResume;
    var k := OldestHasFrame(s);
    var step := DoResume(k);
    var s' := Advance(c, s, step);
    OrderKeeps(c, s, step);
    FinalFacts(c, s.queue, s.queue.frames[j]);
    OldestIs(s, k, j, p);
    var tail: seq<Step> := [];
    if s'.queue.state.log != s.queue.state.log {
    } else if p > 0 {
      var j' := OtherJobRuns(c, s, k, j);
      assert s'.ready[p - 1] == s.ready[1..][p - 1];
      tail := OfferGetsItsTurn(c, s', p - 1, j');
    } else if s.queue.frames[j].stage.phase == Waiting {
      WaitingOfferSettles(c, s, k);
      tail := OfferGetsItsTurn(c, s', |s'.ready| - 1, k);
    } else {
      SettledJobEnqueues(c, s, k);
      assert false;
    }
    more := [step] + tail;
    OneStepFirst(c, s, step, tail);
    NoSteps(c, s');
  }

  lemma NoSteps(c: Config, s: Schedule)
    ensures InOrder(c, s, []) && Follow(c, s, []) == s
  {
  }

  lemma SettledJobEnqueues(c: Config, s: Schedule, k: nat)
    requires OrderInv(c, s) && s.queue.state.values == [] && MayRun(s, DoResume(k))
    requires OfferPending(s.queue.frames[k]) && s.queue.frames[k].stage.phase == Settled
    ensures Advance(c, s, DoResume(k)).queue.state.log != s.queue.state.log
  {
    ReadyMayResume(s, k);
    hide Inv, Ordered, Apply;
    SettledOfferEnqueues(c, s.queue, k);
  }

  lemma FinalFacts(c: Config, q: Queue, f: Frame)
    requires Inv(c, q) && q.final && f in q.frames && OfferPending(f)
    ensures q.state.sealed && !f.allowSealed && f.stage.Reporting? && f.stage.phase in {Waiting, Settled}
  {
    hide Sound, Accounted, FramesOk, Covered, Counted;
  }

  lemma OneStepFirst(c: Config, s: Schedule, step: Step, tail: seq<Step>)
    ensures InOrder(c, s, [step] + tail) <==> MayRun(s, step) && InOrder(c, Advance(c, s, step), tail)
    ensures Follow(c, s, [step] + tail) == Follow(c, Advance(c, s, step), tail)
  {
    hide Advance, MayRun;
    assert ([step] + tail)[1..] == tail;
  }

  lemma EveryoneIsReady(s: Schedule, k: nat)
    requires Ordered(s) && s.queue.state.capacityWaiters == [] && k < |s.queue.frames|
    ensures s.queue.frames[k].id in s.ready
  {
    assert HasFrame(s.queue.frames, s.queue.frames[k].id);
  }

  lemma OfferOvertakes(c: Config, s: Schedule, k: nat) returns (more: seq<Step>)
    requires OrderInv(c, s) && s.queue.final && k < |s.queue.frames| && OfferPending(s.queue.frames[k])
    ensures InOrder(c, s, more) && Follow(c, s, more).queue.state.log != s.queue.state.log
  {
    hide Inv, Ordered, OfferPending, Follow, InOrder;
    var drain := Drain(|s.queue.state.values|);
    DrainEmpties(c, s);
    var drained := Follow(c, s, drain);
    EmptyQueueFacts(c, drained.queue);
    var f := s.queue.frames[k];
    EveryoneIsReady(drained, k);
    var p: nat :| p < |drained.ready| && drained.ready[p] == f.id;
    var tail := OfferGetsItsTurn(c, drained, p, k);
    more := drain + tail;
    OrderConcat(c, s, drain, tail);
  }

  /**
   Once pushAndClose has enqueued its event, nothing can be enqueued after it exactly when no oversized output push
   is still waiting for its report.
   */
  lemma CloseIsLastIff(c: Config, s: Schedule)
    requires OrderInv(c, s) && s.queue.final
    ensures (forall more | InOrder(c, s, more) :: Follow(c, s, more).queue.state.log == s.queue.state.log)
       <==> NoOffers(s.queue.frames)
  {
    hide Inv, Run, Ordered, Follow, InOrder;
    if NoOffers(s.queue.frames) {
      forall more | InOrder(c, s, more) ensures Follow(c, s, more).queue.state.log == s.queue.state.log {
        FollowIsRun(c, s, more);
        FrozenRun(c, s.queue, more);
      }
    } else {
      var k :| 0 <= k < |s.queue.frames| && OfferPending(s.queue.frames[k]);
      var more := OfferOvertakes(c, s, k);
    }
  }

  // ---------- The failing family ----------

  lemma NoticeIsLongerThanAnEmptyOutput()
    ensures Size(NOTICE) >= 39 && NOTICE.OutputTruncated?
  {
  }

  const LAST: Event := Other(0, 2)

  function Full(c: Config): Event { Other(1, c.maxBytes) }

  /** A full queue, an oversized push that waits to report it, a consumer that empties the queue and waits, and the close. */
  function Overtaking(c: Config, e: Event): seq<Step> {
    [DoPush(Full(c)), DoPush(e), DoNext(0), DoNext(1), DoPushAndClose(LAST), DoResume(0), DoResume(1)]
  }

  ghost predicate Oversized(c: Config, e: Event) {
    c.Valid() && e.Output? && Size(e) > c.maxBytes && Size(NOTICE) <= c.maxBytes
  }

  function Filled(c: Config): Queue {
    Queue(EMPTY.(values := [Full(c)], bufferedBytes := c.maxBytes, log := [Full(c)]), [], 1, 0, false)
  }

  lemma Fills(c: Config)
    requires c.Valid()
    ensures Apply(c, NEW, DoPush(Full(c))) == Filled(c)
  {
    hide NOTICE;
  }

  /** What the oversized push leaves: its offer, waiting to report the pressure. */
  ghost predicate Parks(c: Config, e: Event, q: Queue) {
    && q == Queue(q.state, q.frames, 2, q.offered, false) && |q.frames| == 1
    && q.frames[0] == Frame(1, Reporting(1, Waiting, Offer(Shortened(c, e))), false)
    && q.state.values == [Full(c)] && q.state.bufferedBytes == c.maxBytes && q.state.capacityWaiters == [1]
    && q.state.waiting == [] && !q.state.sealed && !q.state.closed && q.state.log == [Full(c)]
    && q.state.pendingItems == 0 && q.state.pendingBytes == 0
  }

  lemma OversizedWaits(c: Config, e: Event)
    requires Oversized(c, e)
    ensures Parks(c, e, Apply(c, Filled(c), DoPush(e)))
  {
    NoticeIsLongerThanAnEmptyOutput();
    hide NOTICE;
    FitTextFits(e.text, Overhead(e), c.maxBytes);
    CutKeepsKind(c, e, c.maxBytes);
    var s := Filled(c).state;
    assert TryCoalesce(c, s, e).None?;
    var begun := s.(pressureReported := true, episodes := 1);
    assert FirstDiscardable(begun.values, true) == 1 by { assert begun.values[1..] == []; }
    assert ReportLoop(c, begun, 1) == (begun, Waiting);
  }

  /** The consumer has taken everything and waits; the oversized push has been woken. */
  ghost predicate Drained(c: Config, e: Event, s: Schedule) {
    var q := s.queue;
    && s.ready == [1] && q.nextId == 2 && !q.final && |q.frames| == 1
    && q.frames[0] == Frame(1, Reporting(1, Waiting, Offer(Shortened(c, e))), false)
    && q.state.values == [] && q.state.bufferedBytes == 0 && q.state.capacityWaiters == []
    && q.state.waiting == [1] && !q.state.sealed && !q.state.closed
    && q.state.pendingItems == 0 && q.state.pendingBytes == 0
  }

  lemma ConsumerDrains(c: Config, e: Event, q: Queue)
    requires c.Valid() && Parks(c, e, q)
    ensures Drained(c, e, Advance(c, Advance(c, Schedule(q, []), DoNext(0)), DoNext(1)))
  {
    hide Shortened, HasFrame;
    assert q.state.values[1..] == [];
    assert Size(Full(c)) == c.maxBytes;
    var s1 := Advance(c, Schedule(q, []), DoNext(0));
    assert s1.ready == [1];
  }

  /** The close has been asked for, the push has given up its report, and the closing call is next. */
  ghost predicate Closing(c: Config, e: Event, s: Schedule) {
    var q := s.queue;
    && s.ready == [2, 1] && !q.final && |q.frames| == 2
    && q.frames[0] == Frame(1, Reporting(1, Settled, Offer(Shortened(c, e))), false)
    && q.frames[1] == Frame(2, CloseTick(LAST), true)
    && q.state.values == [] && q.state.bufferedBytes == 0 && q.state.waiting == [1] && !q.state.closed
    && q.state.capacityWaiters == []
    && q.state.pendingItems == 0 && q.state.pendingBytes == 0
  }

  lemma CloseBegins(c: Config, e: Event, s: Schedule)
    requires c.Valid() && Drained(c, e, s)
    ensures var s1 := Advance(c, s, DoPushAndClose(LAST));
      MayRun(s1, DoResume(0)) && Closing(c, e, Advance(c, s1, DoResume(0)))
  {
    hide Shortened, HasFrame, NOTICE, BeginPush;
    var s1 := Advance(c, s, DoPushAndClose(LAST));
    assert HasFrame(s1.queue.frames, 2) by { FramesAppend(s.queue.frames, [Frame(2, CloseTick(LAST), true)], 2); }
    assert s1.ready == [1, 2];
    SealedReportSettles(c, s1.queue.state, s.queue.frames[0].stage);
    var s2 := Advance(c, s1, DoResume(0));
    FramesReplace(s1.queue.frames, 0, [Frame(1, Reporting(1, Settled, Offer(Shortened(c, e))), false)]);
    assert s2.queue.frames == [Frame(1, Reporting(1, Settled, Offer(Shortened(c, e))), false)] + s1.queue.frames[1..];
  }

  lemma CloserFinishes(c: Config, e: Event, s: Schedule)
    requires c.Valid() && c.maxBytes >= 2 && Closing(c, e, s)
    ensures MayRun(s, DoResume(1))
    ensures var q := Advance(c, s, DoResume(1)).queue;
      q.final && |q.frames| == 2 && q.frames[0] == s.queue.frames[0]
  {
    hide Shortened, HasFrame, BeginPush, NOTICE;
    ControlEntersEmptyQueue(c, s.queue.state, LAST);
  }

  lemma ControlEntersEmptyQueue(c: Config, s: State, e: Event)
    requires c.Valid() && s.values == [] && s.bufferedBytes == 0 && !s.closed
    requires PriorityOf(e) == Nondroppable && Size(e) <= c.maxBytes
    ensures BeginPush(c, s, e, true).1 == Done(true)
  {
  }

  ghost predicate Overtakes(c: Config, steps: seq<Step>, more: seq<Step>) {
    && InOrder(c, START, steps + more) && Follow(c, START, steps).queue.final
    && Follow(c, START, steps + more).queue.state.log != Follow(c, START, steps).queue.state.log
  }

  /** Every oversized output event has a schedule in which it follows the pushAndClose event. */
  lemma OversizedOutputCanOvertake(c: Config, e: Event)
    requires Oversized(c, e)
    ensures exists more :: Overtakes(c, Overtaking(c, e), more)
  {
    hide Overtaking, OrderInv, Follow, InOrder, Oversized, OfferPending;
    var steps := Overtaking(c, e);
    assert c.Valid() by { OversizedIsValid(c, e); }
    OvertakingRuns(c, e);
    var s := Follow(c, START, steps);
    StartIsOrdered(c);
    FollowKeeps(c, START, steps);
    var more := OfferOvertakes(c, s, 0);
    OrderConcat(c, START, steps, more);
    assert Overtakes(c, steps, more);
  }

  lemma OversizedIsValid(c: Config, e: Event)
    requires Oversized(c, e)
    ensures c.Valid()
  {
  }

  lemma OvertakingRuns(c: Config, e: Event)
    requires Oversized(c, e)
    ensures var steps := Overtaking(c, e);
      && InOrder(c, START, steps)
      && var q := Follow(c, START, steps).queue; q.final && |q.frames| >= 1 && OfferPending(q.frames[0])
  {
    hide NOTICE, Apply, Shortened, HasFrame, Advance, Parks, Drained, Closing, OfferPending, Size, MayRun, Follow, InOrder;
    assert c.maxBytes >= 2 by { NoticeIsLongerThanAnEmptyOutput(); }
    var steps := Overtaking(c, e);
    Fills(c);
    OversizedWaits(c, e);
    var q := Apply(c, Filled(c), DoPush(e));
    FirstJobs(c, e);
    var s1, s2 := Schedule(Filled(c), []), Schedule(q, []);
    var s3 := Advance(c, s2, DoNext(0));
    var s4 := Advance(c, s3, DoNext(1));
    ConsumerDrains(c, e, q);
    var s5 := Advance(c, s4, DoPushAndClose(LAST));
    var s6 := Advance(c, s5, DoResume(0));
    CloseBegins(c, e, s4);
    CloserFinishes(c, e, s6);
    WaitingNext(s2);
    assert OfferPending(s6.queue.frames[0]) by { ClosingOffers(c, e, s6); }
    NoSteps(c, Advance(c, s6, DoResume(1)));
    var t6 := [DoResume(1)] + [];
    var t5 := [DoResume(0)] + t6;
    var t4 := [DoPushAndClose(LAST)] + t5;
    var t3 := [DoNext(1)] + t4;
    var t2 := [DoNext(0)] + t3;
    var t1 := [DoPush(e)] + t2;
    OneStepFirst(c, s6, DoResume(1), []);
    OneStepFirst(c, s5, DoResume(0), t6);
    OneStepFirst(c, s4, DoPushAndClose(LAST), t5);
    OneStepFirst(c, s3, DoNext(1), t4);
    OneStepFirst(c, s2, DoNext(0), t3);
    OneStepFirst(c, s1, DoPush(e), t2);
    OneStepFirst(c, START, DoPush(Full(c)), t1);
    assert steps == [DoPush(Full(c))] + t1;
  }

  lemma FirstJobs(c: Config, e: Event)
    requires Apply(c, NEW, DoPush(Full(c))) == Filled(c) && Parks(c, e, Apply(c, Filled(c), DoPush(e)))
    ensures Advance(c, START, DoPush(Full(c))) == Schedule(Filled(c), [])
    ensures Advance(c, Schedule(Filled(c), []), DoPush(e)) == Schedule(Apply(c, Filled(c), DoPush(e)), [])
    ensures MayRun(START, DoPush(Full(c)))
  {
    hide Apply, Shortened;
  }

  /** Only jobs have to wait for their turn. */
  lemma WaitingNext(s: Schedule)
    ensures forall t: Schedule, step: Step | !step.DoResume? :: MayRun(t, step)
  {
  }

  lemma ClosingOffers(c: Config, e: Event, s: Schedule)
    requires Closing(c, e, s)
    ensures |s.queue.frames| == 2 && OfferPending(s.queue.frames[0])
  {
  }
}
