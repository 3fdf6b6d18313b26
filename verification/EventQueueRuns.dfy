/** Theorems about every run of the event queue: any calls, resumed in any order. */
module EventQueueRuns {
  import opened Wrappers
  import opened Utf16
  import opened RuntimeText
  import opened EventQueue
  import opened EventQueueSafety

  // ---------- Sums over suspended calls ----------

  function FrameUnits(frames: seq<Frame>): nat {
    if frames == [] then 0 else StageUnits(frames[0].stage) + FrameUnits(frames[1..])
  }

  function FrameItems(frames: seq<Frame>): nat {
    if frames == [] then 0 else RoomItems(frames[0].stage) + FrameItems(frames[1..])
  }

  function FrameBytes(frames: seq<Frame>): nat {
    if frames == [] then 0 else RoomBytes(frames[0].stage) + FrameBytes(frames[1..])
  }

  lemma {:induction false} FrameSumsConcat(a: seq<Frame>, b: seq<Frame>)
    ensures FrameUnits(a + b) == FrameUnits(a) + FrameUnits(b)
    ensures FrameItems(a + b) == FrameItems(a) + FrameItems(b)
    ensures FrameBytes(a + b) == FrameBytes(a) + FrameBytes(b)
  {
    if a == [] {
      assert a + b == b;
    } else {
      FrameSumsConcat(a[1..], b);
      assert (a + b)[1..] == a[1..] + b;
    }
  }

  lemma FrameSumsOne(f: Frame)
    ensures FrameUnits([f]) == StageUnits(f.stage)
    ensures FrameItems([f]) == RoomItems(f.stage) && FrameBytes([f]) == RoomBytes(f.stage)
  {
    assert [f][1..] == [];
  }

  lemma FrameSumsReplace(frames: seq<Frame>, k: nat, rest: seq<Frame>)
    requires k < |frames|
    ensures var next := frames[..k] + rest + frames[k + 1..];
      && FrameUnits(next) == FrameUnits(frames) - StageUnits(frames[k].stage) + FrameUnits(rest)
      && FrameItems(next) == FrameItems(frames) - RoomItems(frames[k].stage) + FrameItems(rest)
      && FrameBytes(next) == FrameBytes(frames) - RoomBytes(frames[k].stage) + FrameBytes(rest)
  {
    hide FrameUnits, FrameItems, FrameBytes;
    var front, one, back := frames[..k], [frames[k]], frames[k + 1..];
    assert frames == front + one + back;
    FrameSumsConcat(front + one, back);
    FrameSumsConcat(front, one);
    FrameSumsOne(frames[k]);
    FrameSumsConcat(front + rest, back);
    FrameSumsConcat(front, rest);
  }

  // ---------- The invariant of a whole queue ----------

  ghost predicate FramesOk(c: Config, s: State, frames: seq<Frame>) {
    forall i | 0 <= i < |frames| ::
      StageOk(c, s, frames[i].stage, frames[i].allowSealed) && (frames[i].allowSealed ==> s.sealed)
  }

  ghost predicate AnyReports(frames: seq<Frame>, episode: nat) {
    exists i :: 0 <= i < |frames| && ReportsOn(frames[i].stage, episode)
  }

  /** Every episode of pressure has its notice enqueued or in preparation, or its reporter was cut off. */
  ghost predicate Covered(c: Config, s: State, frames: seq<Frame>) {
    forall k | 1 <= k <= s.episodes :: EpisodeClosed(c, s, k) || AnyReports(frames, k)
  }

  ghost predicate OneCloser(frames: seq<Frame>) {
    forall i, j | 0 <= i < j < |frames| :: !(frames[i].allowSealed && frames[j].allowSealed)
  }

  ghost predicate OnlyClosing(frames: seq<Frame>) {
    forall i | 0 <= i < |frames| && frames[i].allowSealed :: frames[i].stage.CloseSoon?
  }

  ghost predicate Counted(q: Queue) {
    && q.state.pendingItems == FrameItems(q.frames)
    && q.state.pendingBytes == FrameBytes(q.frames)
    && q.offered == Balance(q.state) + FrameUnits(q.frames)
  }

  ghost predicate Inv(c: Config, q: Queue) {
    && c.Valid() && Sound(c, q.state) && Accounted(q.state)
    && FramesOk(c, q.state, q.frames)
    && Covered(c, q.state, q.frames)
    && Counted(q)
    && OneCloser(q.frames)
    && (q.final ==> q.state.sealed && OnlyClosing(q.frames))
    && (!q.state.sealed ==> !q.final)
  }

  lemma StageOkLater(c: Config, s: State, s': State, stage: Stage, allowSealed: bool)
    requires StageOk(c, s, stage, allowSealed) && Later(s, s')
    ensures StageOk(c, s', stage, allowSealed)
  {
  }

  lemma FramesOkLater(c: Config, s: State, s': State, frames: seq<Frame>)
    requires FramesOk(c, s, frames) && Later(s, s')
    ensures FramesOk(c, s', frames)
  {
    hide StageOk, Later;
    forall i | 0 <= i < |frames|
      ensures StageOk(c, s', frames[i].stage, frames[i].allowSealed) && (frames[i].allowSealed ==> s'.sealed)
    {
      StageOkLater(c, s, s', frames[i].stage, frames[i].allowSealed);
      assert s.sealed ==> s'.sealed by { LaterSealed(s, s'); }
    }
  }

  lemma LaterSealed(s: State, s': State)
    requires Later(s, s')
    ensures s.sealed ==> s'.sealed
    ensures s.episodes <= s'.episodes && s.reports.noticed <= s'.reports.noticed && s.reports.cutOff <= s'.reports.cutOff
  {
  }

  lemma EpisodeClosedLater(c: Config, s: State, s': State, k: nat)
    requires EpisodeClosed(c, s, k) && Later(s, s')
    ensures EpisodeClosed(c, s', k)
  {
    hide NOTICE;
  }

  /** Parking changes only the list of waiters. */
  lemma ParkKeeps(c: Config, s: State, id: nat, flow: Flow)
    requires Sound(c, s) && Accounted(s) && (flow.Suspend? && flow.parked ==> s.values != [] && !s.closed)
    ensures var s' := Park(s, id, flow);
      && Sound(c, s') && Accounted(s') && Later(s, s') && Later(s', s) && Balance(s') == Balance(s)
      && s'.pendingItems == s.pendingItems && s'.pendingBytes == s.pendingBytes
  {
  }

  // ---------- Steps ----------

  lemma ResumeStageKeeps(c: Config, s: State, stage: Stage, allowSealed: bool)
    requires c.Valid() && Sound(c, s) && Accounted(s) && StageOk(c, s, stage, allowSealed)
    requires !stage.CloseSoon?
    ensures FlowOk(c, s, ResumeStage(c, s, stage, allowSealed), allowSealed,
                   StageUnits(stage), RoomItems(stage), RoomBytes(stage))
    ensures forall k | ReportsOn(stage, k) ::
      var (s', flow) := ResumeStage(c, s, stage, allowSealed); EpisodeClosed(c, s', k) || FlowReports(flow, k)
  {
    hide Sound, AccountedUpTo, BeginPush, ResumeRoom, OfferOutput, SqueezeOutput, AdmitControl, Balance, NOTICE,
      ResumeReport, Size;
    match stage
    case CloseTick(e) => BeginPushKeeps(c, s, e, allowSealed);
    case WaitRoom(e) => ResumeRoomKeeps(c, s, e, allowSealed);
    case Reporting(episode, phase, next) =>
      match phase
      case Waiting => ResumeReportKeeps(c, s, allowSealed, episode, next);
      case Rejected => RejectedKeeps(c, s, episode, next, allowSealed);
      case Settled =>
        match next
        case Refuse =>
        case Offer(e) => OfferOutputKeeps(c, s, e, allowSealed);
        case Squeeze(e) => SqueezeOutputKeeps(c, s, e, allowSealed, episode);
        case Admit(e) => AdmitControlKeeps(c, s, e, allowSealed);
  }

  lemma RejectedKeeps(c: Config, s: State, episode: nat, next: Next, allowSealed: bool)
    requires c.Valid() && Sound(c, s) && Accounted(s)
    requires StageOk(c, s, Reporting(episode, Rejected, next), allowSealed)
    ensures FlowOk(c, s, ResumeStage(c, s, Reporting(episode, Rejected, next), allowSealed), allowSealed,
                   NextUnits(next), 0, 0)
  {
    hide Sound, AccountedUpTo, Balance, NOTICE, Size;
    if NextUnits(next) > 0 {
      LoseKeeps(c, s, Loss(NextUnits(next), episode, false), s.episodes);
    }
  }

  lemma RemainderSums(id: nat, allowSealed: bool, flow: Flow)
    ensures var rest := Remainder(id, allowSealed, flow);
      && FrameUnits(rest) == FlowUnits(flow) && FrameItems(rest) == FlowRoomItems(flow)
      && FrameBytes(rest) == FlowRoomBytes(flow)
  {
    if flow.Suspend? {
      FrameSumsOne(Frame(id, flow.stage, allowSealed));
    } else if allowSealed {
      FrameSumsOne(Frame(id, CloseSoon(flow), true));
    }
  }

  lemma RemainderOk(c: Config, s: State, id: nat, allowSealed: bool, flow: Flow)
    requires flow.Suspend? ==> StageOk(c, s, flow.stage, allowSealed)
    requires allowSealed ==> s.sealed
    ensures FramesOk(c, s, Remainder(id, allowSealed, flow))
    ensures forall k | FlowReports(flow, k) :: AnyReports(Remainder(id, allowSealed, flow), k)
  {
    forall k | FlowReports(flow, k) ensures AnyReports(Remainder(id, allowSealed, flow), k) {
      assert ReportsOn(Remainder(id, allowSealed, flow)[0].stage, k);
    }
  }

  lemma AnyReportsIn(frames: seq<Frame>, more: seq<Frame>, k: nat)
    requires AnyReports(frames, k) && forall f | f in frames :: f in more
    ensures AnyReports(more, k)
  {
    var i :| 0 <= i < |frames| && ReportsOn(frames[i].stage, k);
    assert frames[i] in frames;
    var j :| 0 <= j < |more| && more[j] == frames[i];
  }

  /** Coverage after a step that replaced the frames `gone` by `rest`. */
  lemma CoveredAfter(c: Config, s: State, s': State, kept: seq<Frame>, gone: seq<Frame>, rest: seq<Frame>,
                     frames: seq<Frame>, frames': seq<Frame>, flow: Flow)
    requires Covered(c, s, frames) && Later(s, s')
    requires forall f | f in frames :: f in kept || f in gone
    requires (forall f | f in kept :: f in frames') && (forall f | f in rest :: f in frames')
    requires forall k | FlowReports(flow, k) :: AnyReports(rest, k)
    requires forall k | s.episodes < k <= s'.episodes :: EpisodeClosed(c, s', k) || FlowReports(flow, k)
    requires forall k | AnyReports(gone, k) :: EpisodeClosed(c, s', k) || FlowReports(flow, k)
    ensures Covered(c, s', frames')
  {
    hide Later, FlowReports, ReportsOn, EpisodeClosed;
    forall k | 1 <= k <= s'.episodes ensures EpisodeClosed(c, s', k) || AnyReports(frames', k) {
      if k <= s.episodes && EpisodeClosed(c, s, k) {
        EpisodeClosedLater(c, s, s', k);
      } else if k <= s.episodes {
        var i :| 0 <= i < |frames| && ReportsOn(frames[i].stage, k);
        if frames[i] in kept {
          AnyReportsIn([frames[i]], frames', k) by { assert ReportsOn([frames[i]][0].stage, k); }
        } else {
          AnyReportsIn([frames[i]], gone, k) by { assert ReportsOn([frames[i]][0].stage, k); }
        }
      }
      if FlowReports(flow, k) {
        AnyReportsIn(rest, frames', k);
      }
    }
  }

  lemma PushKeeps(c: Config, q: Queue, e: Event)
    requires Inv(c, q)
    ensures Inv(c, Push(c, q, e).0)
  {
    hide Sound, Accounted, BeginPush, Balance, FrameUnits, FrameItems, FrameBytes, StageOk, Park, Covered;
    var (s, flow) := BeginPush(c, q.state, e, false);
    BeginPushKeeps(c, q.state, e, false);
    var rest := Remainder(q.nextId, false, flow);
    var s' := Park(s, q.nextId, flow);
    ParkKeeps(c, s, q.nextId, flow);
    RemainderSums(q.nextId, false, flow);
    RemainderOk(c, s, q.nextId, false, flow);
    FrameSumsConcat(q.frames, rest);
    FramesOkLater(c, q.state, s, q.frames);
    FramesOkLater(c, s, s', q.frames + rest);
    CoveredAfter(c, q.state, s, q.frames, [], rest, q.frames, q.frames + rest, flow);
    CoveredAfter(c, s, s', q.frames + rest, [], [], q.frames + rest, q.frames + rest, Done(true));
  }

  lemma PushAndCloseKeeps(c: Config, q: Queue, e: Event)
    requires Inv(c, q)
    ensures Inv(c, PushAndClose(q, e).0)
  {
    hide FrameUnits, FrameItems, FrameBytes, Sound, Balance, StageOk, AccountedUpTo, Covered;
    if q.state.closed || q.state.sealed {
      ClosedIsSealed(c, q.state);
      LoseKeeps(c, q.state, Loss(Units(e), q.state.episodes, true), q.state.episodes);
      FramesOkLater(c, q.state, PushAndClose(q, e).0.state, q.frames);
      CoveredAfter(c, q.state, PushAndClose(q, e).0.state, q.frames, [], [], q.frames, q.frames, Done(true));
    } else {
      var f := Frame(q.nextId, CloseTick(e), true);
      var s' := Seal(q.state).(capacityWaiters := []);
      FrameSumsConcat(q.frames, [f]);
      FrameSumsOne(f);
      SealKeeps(c, q.state, s');
      FramesOkLater(c, q.state, s', q.frames);
      assert StageOk(c, s', f.stage, true) by { CloseTickOk(c, s', e); }
      CoveredAfter(c, q.state, s', q.frames, [], [], q.frames, q.frames + [f], Done(true));
    }
  }

  lemma CloseTickOk(c: Config, s: State, e: Event)
    ensures StageOk(c, s, CloseTick(e), true)
  {
  }

  lemma SealKeeps(c: Config, s: State, s': State)
    requires Sound(c, s) && Accounted(s) && !s.sealed
    requires s' == Seal(s).(capacityWaiters := []) || s' == Seal(s).(closed := true, waiting := [], capacityWaiters := [])
    ensures Sound(c, s') && Accounted(s') && Later(s, s') && Balance(s') == Balance(s)
  {
  }

  lemma ResumeKeeps(c: Config, q: Queue, k: nat)
    requires Inv(c, q) && CanResume(q, k) && !q.frames[k].stage.CloseSoon?
    ensures Inv(c, Resume(c, q, k).0)
  {
    hide Sound, Accounted, ResumeStage, Balance, FrameUnits, FrameItems, FrameBytes, StageOk, Park, Covered, OneCloser;
    var f := q.frames[k];
    var (s, flow) := ResumeStage(c, q.state, f.stage, f.allowSealed);
    ResumeStageKeeps(c, q.state, f.stage, f.allowSealed);
    var rest := Remainder(f.id, f.allowSealed, flow);
    var s' := Park(s, f.id, flow);
    var others := q.frames[..k] + q.frames[k + 1..];
    var frames' := q.frames[..k] + rest + q.frames[k + 1..];
    ParkKeeps(c, s, f.id, flow);
    RemainderSums(f.id, f.allowSealed, flow);
    RemainderOk(c, s, f.id, f.allowSealed, flow);
    FrameSumsReplace(q.frames, k, rest);
    FramesOkLater(c, q.state, s, q.frames);
    FramesOkLater(c, s, s', frames');
    forall n | AnyReports([f], n) ensures EpisodeClosed(c, s, n) || FlowReports(flow, n) {
      assert ReportsOn(f.stage, n);
    }
    CoveredAfter(c, q.state, s, others, [f], rest, q.frames, frames', flow);
    CoveredAfter(c, s, s', frames', [], [], frames', frames', Done(true));
    CloserKept(q.frames, k, rest);
  }

  lemma CloserKept(frames: seq<Frame>, k: nat, rest: seq<Frame>)
    requires OneCloser(frames) && k < |frames| && |rest| <= 1
    requires rest != [] ==> rest[0].allowSealed == frames[k].allowSealed
    ensures var frames' := frames[..k] + rest + frames[k + 1..];
      && OneCloser(frames')
      && (OnlyClosing(frames) && OnlyClosing(rest) ==> OnlyClosing(frames'))
      && (frames[k].allowSealed && OnlyClosing(rest) ==> OnlyClosing(frames'))
  {
  }

  ghost predicate CloserRemoved(frames: seq<Frame>, k: nat, frames': seq<Frame>) {
    k < |frames| && frames[k].stage.CloseSoon? && frames' == frames[..k] + frames[k + 1..]
  }

  lemma CloseKeeps(c: Config, q: Queue, frames: seq<Frame>)
    requires Inv(c, q)
    requires frames == q.frames || exists k :: CloserRemoved(q.frames, k, frames)
    ensures Inv(c, q.(state := CloseNow(q.state), frames := frames))
  {
    hide FrameUnits, FrameItems, FrameBytes, StageOk, AccountedUpTo, Covered, Sound, Balance, OneCloser;
    var s' := CloseNow(q.state);
    assert Sound(c, s') && Accounted(s') && Later(q.state, s') && Balance(s') == Balance(q.state)
      by { CloseNowKeeps(c, q.state); }
    FramesOkLater(c, q.state, s', q.frames);
    ClosedIsSealed(c, s');
    if frames == q.frames {
      CoveredAfter(c, q.state, s', q.frames, [], [], q.frames, frames, Done(true));
    } else {
      var k: nat :| CloserRemoved(q.frames, k, frames);
      CoveredAfter(c, q.state, s', frames, [q.frames[k]], [], q.frames, frames, Done(true)) by {
        assert !exists n :: ReportsOn(q.frames[k].stage, n);
      }
      assert frames == q.frames[..k] + [] + q.frames[k + 1..];
      FrameSumsReplace(q.frames, k, []);
      assert FrameUnits([]) == 0 && FrameItems([]) == 0 && FrameBytes([]) == 0 by { EmptyFrameSums(); }
      CloserKept(q.frames, k, []);
    }
  }

  lemma EmptyFrameSums()
    ensures FrameUnits([]) == 0 && FrameItems([]) == 0 && FrameBytes([]) == 0
  {
  }

  lemma CloseNowKeeps(c: Config, s: State)
    requires Sound(c, s) && Accounted(s)
    ensures var s' := CloseNow(s);
      Sound(c, s') && Accounted(s') && Later(s, s') && Balance(s') == Balance(s) && s'.closed
  {
    hide ControlsOf, SizesOf, UnitsOf, TextOf, LossUnits;
  }

  lemma TakeKeeps(c: Config, s: State, consumer: nat)
    requires c.Valid() && Sound(c, s) && Accounted(s)
    ensures var s' := TakeNext(c, s, consumer).0;
      && Sound(c, s') && Accounted(s') && Later(s, s') && Balance(s') == Balance(s)
      && s'.pendingItems == s.pendingItems && s'.pendingBytes == s.pendingBytes
      && s'.episodes == s.episodes && s'.sealed == s.sealed && s'.closed == s.closed
  {
    hide ControlsOf, SizesOf, UnitsOf, TextOf, LossUnits, Complete, ReportsOk, Size;
    if s.values != [] {
      var e, rest := s.values[0], s.values[1..];
      assert s.values == [e] + rest;
      EventSumsConcat([e], rest);
      EventSumsConcat(s.delivered, [e]);
      EventSumsOne(e);
      TextOfConcat([e], rest);
      TextOfConcat(s.delivered, [e]);
      Assoc(ControlsOf(s.delivered), ControlsOf([e]), ControlsOf(rest));
      Assoc(TextOf(s.delivered), TextOf([e]), TextOf(rest));
    }
  }

  lemma ApplyKeeps(c: Config, q: Queue, step: Step)
    requires Inv(c, q)
    ensures Inv(c, Apply(c, q, step))
  {
    hide Inv, Push, PushAndClose, Resume;
    match step
    case DoPush(e) => PushKeeps(c, q, e);
    case DoPushAndClose(e) => PushAndCloseKeeps(c, q, e);
    case DoResume(k) => if CanResume(q, k) { AnyResumeKeeps(c, q, k); }
    case DoNext(consumer) => NextKeeps(c, q, consumer);
    case DoClose => CloseKeeps(c, q, q.frames);
  }

  lemma AnyResumeKeeps(c: Config, q: Queue, k: nat)
    requires Inv(c, q) && CanResume(q, k)
    ensures Inv(c, Resume(c, q, k).0)
  {
    if q.frames[k].stage.CloseSoon? {
      assert q.frames[..k] + [] + q.frames[k + 1..] == q.frames[..k] + q.frames[k + 1..];
      assert CloserRemoved(q.frames, k, q.frames[..k] + q.frames[k + 1..]);
      CloseKeeps(c, q, q.frames[..k] + q.frames[k + 1..]);
    } else {
      ResumeKeeps(c, q, k);
    }
  }

  lemma NextKeeps(c: Config, q: Queue, consumer: nat)
    requires Inv(c, q)
    ensures Inv(c, q.(state := TakeNext(c, q.state, consumer).0))
  {
    hide Sound, AccountedUpTo, Balance, TakeNext, StageOk, Covered, FrameUnits, FrameItems, FrameBytes;
    TakeKeeps(c, q.state, consumer);
    var s' := TakeNext(c, q.state, consumer).0;
    FramesOkLater(c, q.state, s', q.frames);
    CoveredAfter(c, q.state, s', q.frames, [], [], q.frames, q.frames, Done(true));
  }

  /** The invariant holds in every state reachable from a new queue. */
  lemma {:induction false} RunKeeps(c: Config, q: Queue, steps: seq<Step>)
    requires Inv(c, q)
    ensures Inv(c, Run(c, q, steps))
    decreases |steps|
  {
    hide Inv, Apply;
    if steps == [] {
    } else {
      ApplyKeeps(c, q, steps[0]);
      RunKeeps(c, Apply(c, q, steps[0]), steps[1..]);
    }
  }

  lemma NewQueueIsFine(c: Config)
    requires c.Valid()
    ensures Inv(c, NEW)
  {
    hide Sound, Balance, EpisodeClosed, StageOk, NOTICE, Size, SizesOf, UnitsOf, ControlsOf, TextOf, LossUnits;
    EmptyIsSound(c);
    EmptyFrameSums();
  }

  lemma EmptyIsSound(c: Config)
    requires c.Valid()
    ensures Sound(c, EMPTY) && Balance(EMPTY) == 0
  {
    hide NOTICE, Size;
    assert Picks([], [], []);
  }
}
