/**
 The bounded event queue between an Agent and a slow consumer, `AsyncEventQueue` with the options
 of `createAgentRuntimeEventQueue`: src/agentHost/AgentRuntime.ts.

 Every function below is one atomic step: the code that runs between two awaits.  A suspended
 call is a `Frame` that says where it will continue.  Any frame whose capacity promise has been
 resolved may continue next, so a run of these steps covers every interleaving.

 The fields of `State` from `log` on are history: what was enqueued, delivered and lost, the episodes of pressure,
 and the output text accepted and evicted so far.  No step reads them to decide anything.
 */
module EventQueue {
  import opened Wrappers
  import opened Utf16
  import opened RuntimeText

  /** `Other` stands for tool, inputRequired, completed and cancelled events. */
  datatype Event =
    | Progress(text: Text)
    | Output(text: Text)
    | OutputTruncated(text: Text)
    | Terminal(text: Text)
    | Failed(detailBytes: nat, text: Text)
    | Other(tag: nat, bytes: nat)

  datatype Priority = Coalescible | Droppable | Nondroppable

  function PriorityOf(e: Event): Priority {
    match e
    case Progress(_) => Coalescible
    case Output(_) => Droppable
    case _ => Nondroppable
  }

  /** Size of the serialised event with an empty text. */
  function Overhead(e: Event): nat {
    match e
    case Progress(_) => 32
    case Output(_) => 27
    case OutputTruncated(_) => 39
    case Terminal(_) => 32
    case Failed(detailBytes, _) => detailBytes
    case Other(_, bytes) => bytes
  }

  function Size(e: Event): nat {
    if e.Other? then e.bytes else Overhead(e) + JsonBytes(e.text)
  }

  function Truncate(e: Event, maxBytes: nat): (cut: Option<Event>)
    ensures cut.Some? ==> !e.Other? && !cut.value.Other? && cut.value == e.(text := cut.value.text)
    ensures cut.Some? ==> FitText(e.text, Overhead(e), maxBytes) == Some(cut.value.text)
  {
    if e.Other? then None
    else
      match FitText(e.text, Overhead(e), maxBytes)
      case Some(kept) => Some(e.(text := kept))
      case None => None
  }

  const OUTPUT_BATCH_BYTES: nat := 8 * 1024

  function Coalesce(queued: Event, incoming: Event): Option<Event> {
    if queued.Progress? && incoming.Progress? then Some(incoming)
    else if queued.Output? && incoming.Output?
         && Utf8Bytes(queued.text) + Utf8Bytes(incoming.text) <= OUTPUT_BATCH_BYTES
      then Some(Output(queued.text + incoming.text))
    else None
  }

  function AsciiText(s: string): Text {
    seq(|s|, i requires 0 <= i < |s| => if s[i] < 128 as char then s[i] as int else 63)
  }

  const NOTICE: Event :=
    OutputTruncated(AsciiText("Agent output was truncated while the consumer was catching up."))

  datatype Config = Config(maxItems: nat, maxBytes: nat) {
    predicate Valid() { maxItems > 0 && maxBytes > 0 }
  }

  /** Output units lost in an episode of pressure, or refused because the queue was sealed. */
  datatype Loss = Loss(units: nat, episode: nat, afterSeal: bool)

  /** Episodes whose notice was enqueued, those whose reporter gave up, and how many had begun at the seal. */
  datatype Reports = Reports(noticed: set<nat>, cutOff: set<nat>, sealEpisodes: nat)

  datatype State = State(
    values: seq<Event>,
    waiting: seq<nat>,
    capacityWaiters: seq<nat>,
    bufferedBytes: int,
    pendingBytes: int,
    pendingItems: int,
    pressureReported: bool,
    sealed: bool,
    closed: bool,
    log: seq<Event>,
    delivered: seq<Event>,
    losses: seq<Loss>,
    episodes: nat,
    reports: Reports,
    accepted: Text,
    evicted: Text)

  const EMPTY: State := State([], [], [], 0, 0, 0, false, false, false, [], [], [], 0, Reports({}, {}, 0), [], [])

  // ---------- Helpers shared by the steps ----------

  predicate IngressClosed(s: State, allowSealed: bool) {
    s.closed || (s.sealed && !allowSealed)
  }

  predicate HasCapacity(c: Config, s: State, bytes: nat) {
    |s.values| < c.maxItems && s.bufferedBytes + bytes <= c.maxBytes
  }

  /** Units of output text; every other event carries none. */
  function Units(e: Event): nat {
    if e.Output? then |e.text| else 0
  }

  function OutputText(e: Event): Text {
    if e.Output? then e.text else []
  }

  function Enqueue(s: State, e: Event): State {
    var logged := s.(log := s.log + [e], accepted := s.accepted + OutputText(e));
    if s.waiting != [] then logged.(waiting := s.waiting[1..], delivered := s.delivered + [e])
    else logged.(values := s.values + [e], bufferedBytes := s.bufferedBytes + Size(e))
  }

  predicate Discardable(e: Event, includeOutput: bool) {
    PriorityOf(e) == Coalescible || (includeOutput && PriorityOf(e) == Droppable)
  }

  /** The index `findIndex` returns, or the length when there is none. */
  function FirstDiscardable(values: seq<Event>, includeOutput: bool): (i: nat)
    ensures i <= |values|
    ensures i < |values| ==> Discardable(values[i], includeOutput)
    ensures forall j | 0 <= j < i :: !Discardable(values[j], includeOutput)
  {
    if values == [] || Discardable(values[0], includeOutput) then 0
    else 1 + FirstDiscardable(values[1..], includeOutput)
  }

  function Lose(s: State, units: nat, episode: nat): State {
    s.(losses := s.losses + [Loss(units, episode, false)])
  }

  function LoseSealed(s: State, units: nat): State {
    s.(losses := s.losses + [Loss(units, s.episodes, true)])
  }

  /** Removes entry `i` and wakes every blocked producer. */
  function RemoveAt(s: State, i: nat, episode: nat): State
    requires i < |s.values|
  {
    var removed := s.values[i];
    var next := s.(values := s.values[..i] + s.values[i + 1..],
                   bufferedBytes := s.bufferedBytes - Size(removed),
                   capacityWaiters := []);
    if removed.Output? then Lose(next.(evicted := next.evicted + removed.text), Units(removed), episode) else next
  }

  function EvictProgress(c: Config, s: State, bytes: nat): State
    decreases |s.values|
  {
    var i := FirstDiscardable(s.values, false);
    if HasCapacity(c, s, bytes) || i == |s.values| then s
    else EvictProgress(c, RemoveAt(s, i, 0), bytes)
  }

  /** The flag says whether output was among the evicted events. */
  function EvictAny(c: Config, s: State, bytes: nat, episode: nat, discarded: bool): (State, bool)
    decreases |s.values|
  {
    var i := FirstDiscardable(s.values, true);
    if HasCapacity(c, s, bytes) || i == |s.values| then (s, discarded)
    else EvictAny(c, RemoveAt(s, i, episode), bytes, episode, discarded || s.values[i].Output?)
  }

  // ---------- Pressure notices ----------

  datatype Phase = Settled | Waiting | Rejected

  function Noted(s: State, episode: nat): State {
    s.(reports := s.reports.(noticed := s.reports.noticed + {episode}))
  }

  function CutOff(s: State, episode: nat): State {
    s.(reports := s.reports.(cutOff := s.reports.cutOff + {episode}))
  }

  /** Makes room for the notice of an episode, or parks the reporter. */
  function ReportLoop(c: Config, s: State, episode: nat): (State, Phase)
    decreases |s.values|
  {
    var i := FirstDiscardable(s.values, true);
    if HasCapacity(c, s, Size(NOTICE)) then (Noted(Enqueue(s, NOTICE), episode), Settled)
    else if i == |s.values| then (s, Waiting)
    else ReportLoop(c, RemoveAt(s, i, episode), episode)
  }

  function BeginReport(c: Config, s: State, allowSealed: bool): (State, Phase) {
    if s.pressureReported || IngressClosed(s, allowSealed) then (s, Settled)
    else
      var begun := s.(pressureReported := true, episodes := s.episodes + 1);
      if Size(NOTICE) > c.maxBytes then (begun, Rejected) else ReportLoop(c, begun, begun.episodes)
  }

  function ResumeReport(c: Config, s: State, allowSealed: bool, episode: nat): (State, Phase) {
    if IngressClosed(s, allowSealed) then (CutOff(s, episode), Settled) else ReportLoop(c, s, episode)
  }

  /** The episode whose report a step started now would join. */
  function CurrentEpisode(s: State): nat {
    if s.pressureReported then s.episodes else s.episodes + 1
  }

  // ---------- One push, from await to await ----------

  /** What follows the awaited report. */
  datatype Next = Refuse | Offer(event: Event) | Squeeze(event: Event) | Admit(event: Event)

  datatype Stage =
    | CloseTick(event: Event)
    | Reporting(episode: nat, phase: Phase, next: Next)
    | WaitRoom(event: Event)
    | CloseSoon(outcome: Flow)

  datatype Flow =
    | Done(accepted: bool)
    | Threw
    | Suspend(stage: Stage, parked: bool)

  function Report(c: Config, s: State, allowSealed: bool, lost: nat, next: Next): (State, Flow) {
    var (s', phase) := BeginReport(c, s, allowSealed);
    (if lost > 0 then Lose(s', lost, s'.episodes) else s',
     Suspend(Reporting(s'.episodes, phase, next), phase.Waiting?))
  }

  function TryCoalesce(c: Config, s: State, e: Event): Option<State> {
    if s.values == [] then None
    else
      var last := s.values[|s.values| - 1];
      match Coalesce(last, e)
      case None => None
      case Some(merged) =>
        if Size(merged) > c.maxBytes || s.bufferedBytes - Size(last) + Size(merged) > c.maxBytes then None
        else Some(s.(values := s.values[|s.values| - 1 := merged],
                     bufferedBytes := s.bufferedBytes + Size(merged) - Size(last),
                     accepted := s.accepted + OutputText(e)))
  }

  function OfferOutput(c: Config, s: State, e: Event, allowSealed: bool): (State, Flow) {
    var s' := EvictProgress(c, s, Size(e));
    if HasCapacity(c, s', Size(e)) then (Enqueue(s', e), Done(true))
    else Report(c, s', allowSealed, 0, Squeeze(e))
  }

  function SqueezeOutput(c: Config, s: State, e: Event, allowSealed: bool, episode: nat): (State, Flow) {
    if IngressClosed(s, allowSealed) then (LoseSealed(s, Units(e)), Done(false))
    else
      var available := c.maxBytes - s.bufferedBytes;
      var cut := if |s.values| < c.maxItems && available >= 0 then Truncate(e, available) else None;
      if cut.None? || !HasCapacity(c, s, Size(cut.value)) then (Lose(s, Units(e), episode), Done(false))
      else
        var kept := Enqueue(s, cut.value);
        (if Units(cut.value) < Units(e) then Lose(kept, Units(e) - Units(cut.value), episode) else kept,
         Done(true))
  }

  function OfferProgress(c: Config, s: State, e: Event): (State, Flow) {
    var i := FirstDiscardable(s.values, false);
    var s' := if HasCapacity(c, s, Size(e)) || i == |s.values| then s else RemoveAt(s, i, 0);
    if HasCapacity(c, s', Size(e)) then (Enqueue(s', e), Done(true)) else (s', Done(false))
  }

  function AdmitControl(c: Config, s: State, e: Event, allowSealed: bool): (State, Flow) {
    if HasCapacity(c, s, Size(e)) then
      if IngressClosed(s, allowSealed) then (s, Done(false)) else (Enqueue(s, e), Done(true))
    else if s.pendingItems + 1 > c.maxItems || s.pendingBytes + Size(e) > c.maxBytes then (s, Threw)
    else if IngressClosed(s, allowSealed) then (s, Done(false))
    else (s.(pendingItems := s.pendingItems + 1, pendingBytes := s.pendingBytes + Size(e)),
          Suspend(WaitRoom(e), true))
  }

  function ResumeRoom(c: Config, s: State, e: Event, allowSealed: bool): (State, Flow) {
    if !IngressClosed(s, allowSealed) && !HasCapacity(c, s, Size(e)) then (s, Suspend(WaitRoom(e), true))
    else
      var freed := s.(pendingItems := s.pendingItems - 1, pendingBytes := s.pendingBytes - Size(e));
      if IngressClosed(s, allowSealed) then (freed, Done(false)) else (Enqueue(freed, e), Done(true))
  }

  function OfferControl(c: Config, s: State, e: Event, allowSealed: bool): (State, Flow) {
    var (s', discarded) := EvictAny(c, s, Size(e), CurrentEpisode(s), false);
    if discarded then Report(c, s', allowSealed, 0, Admit(e)) else AdmitControl(c, s', e, allowSealed)
  }

  /** The event after the first truncation, which happens only when it could never fit. */
  function Shortened(c: Config, e: Event): Event {
    if Size(e) > c.maxBytes && Truncate(e, c.maxBytes).Some? then Truncate(e, c.maxBytes).value else e
  }

  function BeginPush(c: Config, s: State, e: Event, allowSealed: bool): (State, Flow) {
    if IngressClosed(s, allowSealed) then (LoseSealed(s, Units(e)), Done(false))
    else if PriorityOf(e) != Nondroppable && TryCoalesce(c, s, e).Some? then
      (TryCoalesce(c, s, e).value, Done(true))
    else
      var e' := Shortened(c, e);
      if Size(e') > c.maxBytes then
        match PriorityOf(e)
        case Droppable => Report(c, s, allowSealed, Units(e), Refuse)
        case Coalescible => (s, Done(false))
        case Nondroppable => (s, Threw)
      else
        match PriorityOf(e)
        case Droppable =>
          if Size(e) > c.maxBytes then Report(c, s, allowSealed, Units(e) - Units(e'), Offer(e'))
          else OfferOutput(c, s, e', allowSealed)
        case Coalescible => OfferProgress(c, s, e')
        case Nondroppable => OfferControl(c, s, e', allowSealed)
  }

  function Seal(s: State): State {
    if s.sealed then s else s.(sealed := true, reports := s.reports.(sealEpisodes := s.episodes))
  }

  function CloseNow(s: State): State {
    if s.closed then s else Seal(s).(closed := true, waiting := [], capacityWaiters := [])
  }

  function NextUnits(next: Next): nat {
    if next.Refuse? then 0 else Units(next.event)
  }

  function ResumeStage(c: Config, s: State, stage: Stage, allowSealed: bool): (State, Flow) {
    match stage
    case CloseTick(e) => BeginPush(c, s, e, allowSealed)
    case WaitRoom(e) => ResumeRoom(c, s, e, allowSealed)
    case CloseSoon(outcome) => (CloseNow(s), outcome)
    case Reporting(episode, phase, next) =>
      match phase
      case Waiting =>
        var (s', phase') := ResumeReport(c, s, allowSealed, episode);
        (s', Suspend(Reporting(episode, phase', next), phase'.Waiting?))
      case Rejected =>
        (if NextUnits(next) > 0 then Lose(s, NextUnits(next), episode) else s, Threw)
      case Settled =>
        match next
        case Refuse => (s, Done(false))
        case Offer(e) => OfferOutput(c, s, e, allowSealed)
        case Squeeze(e) => SqueezeOutput(c, s, e, allowSealed, episode)
        case Admit(e) => AdmitControl(c, s, e, allowSealed)
  }

  // ---------- The whole queue with its suspended calls ----------

  /** `allowSealed` marks the one call made by `pushAndClose`. */
  datatype Frame = Frame(id: nat, stage: Stage, allowSealed: bool)

  /** `offered` counts the output units ever pushed; `final` is set once pushAndClose enqueued. */
  datatype Queue = Queue(state: State, frames: seq<Frame>, nextId: nat, offered: nat, final: bool)

  const NEW: Queue := Queue(EMPTY, [], 0, 0, false)

  function Park(s: State, id: nat, flow: Flow): State {
    if flow.Suspend? && flow.parked then s.(capacityWaiters := s.capacityWaiters + [id]) else s
  }

  /** What is left of a call after a step; the closing call still has to close the queue. */
  function Remainder(id: nat, allowSealed: bool, flow: Flow): seq<Frame> {
    if flow.Suspend? then [Frame(id, flow.stage, allowSealed)]
    else if allowSealed then [Frame(id, CloseSoon(flow), true)]
    else []
  }

  function Push(c: Config, q: Queue, e: Event): (Queue, Flow) {
    var (s, flow) := BeginPush(c, q.state, e, false);
    (Queue(Park(s, q.nextId, flow), q.frames + Remainder(q.nextId, false, flow), q.nextId + 1,
           q.offered + Units(e), q.final), flow)
  }

  function PushAndClose(q: Queue, e: Event): (Queue, Flow) {
    if q.state.closed || q.state.sealed then
      (q.(state := LoseSealed(q.state, Units(e)), offered := q.offered + Units(e)), Done(false))
    else
      (Queue(Seal(q.state).(capacityWaiters := []),
             q.frames + [Frame(q.nextId, CloseTick(e), true)], q.nextId + 1, q.offered + Units(e), q.final),
       Suspend(CloseTick(e), false))
  }

  predicate CanResume(q: Queue, k: nat) {
    k < |q.frames| && q.frames[k].id !in q.state.capacityWaiters
  }

  function Resume(c: Config, q: Queue, k: nat): (Queue, Flow)
    requires CanResume(q, k)
  {
    var f := q.frames[k];
    var (s, flow) := ResumeStage(c, q.state, f.stage, f.allowSealed);
    var rest := if f.stage.CloseSoon? then [] else Remainder(f.id, f.allowSealed, flow);
    (q.(state := Park(s, f.id, flow), frames := q.frames[..k] + rest + q.frames[k + 1..],
        final := q.final || (f.allowSealed && !f.stage.CloseSoon? && flow == Done(true))), flow)
  }

  datatype Delivery = Item(event: Event) | End | Pending

  /** One call of the iterator's `next`. */
  function TakeNext(c: Config, s: State, consumer: nat): (State, Delivery) {
    if s.values != [] then
      var e := s.values[0];
      var taken := s.(values := s.values[1..], bufferedBytes := s.bufferedBytes - Size(e),
                      capacityWaiters := [], delivered := s.delivered + [e]);
      (if |taken.values| <= c.maxItems / 2 && taken.bufferedBytes <= c.maxBytes / 2
       then taken.(pressureReported := false) else taken, Item(e))
    else if s.closed then (s, End)
    else (s.(waiting := s.waiting + [consumer]), Pending)
  }

  datatype Step =
    | DoPush(event: Event)
    | DoPushAndClose(event: Event)
    | DoResume(k: nat)
    | DoNext(consumer: nat)
    | DoClose

  function Apply(c: Config, q: Queue, step: Step): Queue {
    match step
    case DoPush(e) => Push(c, q, e).0
    case DoPushAndClose(e) => PushAndClose(q, e).0
    case DoResume(k) => if CanResume(q, k) then Resume(c, q, k).0 else q
    case DoNext(consumer) => q.(state := TakeNext(c, q.state, consumer).0)
    case DoClose => q.(state := CloseNow(q.state))
  }

  function Run(c: Config, q: Queue, steps: seq<Step>): Queue
    decreases |steps|
  {
    if steps == [] then q else Run(c, Apply(c, q, steps[0]), steps[1..])
  }
}
