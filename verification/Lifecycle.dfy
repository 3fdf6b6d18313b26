/**
 Who runs the Device Broker: src/broker/BrokerLifecycle.ts.  Its operations run one at a time through
 `enqueue`; `pc` says at which await the one under way is suspended, and `queue` holds those that wait.
 The owner lock, the runtimes and the timers are the environment: they answer in any way and at any time.

 `live` holds the runtimes that were created and not yet disposed; `delays` the retry delays asked for since the
 attempt counter was last reset; `released` is set when the ownership is handed back.
 */
module Lifecycle {
  import opened Wrappers

  datatype Config = Config(contentionInterval: nat, retryBase: nat, retryMax: nat) {
    predicate Valid() {
      0 < contentionInterval <= MAX_TIMER && 0 < retryBase <= retryMax <= MAX_TIMER
    }
  }

  const MAX_TIMER: nat := 2147483647
  const MAX_ATTEMPT: nat := 31

  datatype Status = Starting | Running | Contending | TakingOver | Stopping | Errored | Disposed

  datatype Kind = StartOp | LossOp | ContendOp | DisposeOp(timerFailed: bool)

  /** What the caller of `startRuntime` does with its outcome: only `startCore` reports a failure to its caller. */
  datatype Pc =
    | Idle
    | Creating(generation: nat)
    | StartingRuntime(generation: nat)
    | StoppingStarted(startFailed: bool)
    | StoppingLost
    | StoppingStale
    | AwaitingLock
    | StoppingFinal(timerFailed: bool)
    | ReleasingLock

  datatype State = State(
    pc: Pc,
    queue: seq<Kind>,
    status: Status,
    runtime: Option<nat>,
    generation: Option<nat>,
    timer: Option<nat>,
    retryAttempt: nat,
    begun: bool,
    subscribed: bool,
    startCalled: bool,
    disposeRequested: bool,
    disposing: bool,
    owner: Option<nat>,
    live: set<nat>,
    nextRuntime: nat,
    delays: seq<nat>,
    released: bool)

  /** A new lifecycle; the window may or may not hold the owner lock already. */
  function New(owner: Option<nat>): State {
    State(Idle, [], Contending, None, None, None, 0, false, false, false, false, false, owner, {}, 0, [], false)
  }

  // ---------- Helpers ----------

  predicate IsCurrentOwner(s: State, generation: Option<nat>) {
    generation.Some? && s.owner == generation
  }

  function Schedule(s: State, delay: nat): State {
    if s.disposeRequested || s.timer.Some? then s
    else s.(timer := Some(if delay < MAX_TIMER then delay else MAX_TIMER))
  }

  function Pow2(n: nat): (p: nat)
    ensures p >= 1
  {
    if n == 0 then 1 else 2 * Pow2(n - 1)
  }

  function RetryDelay(c: Config, attempt: nat): nat
    requires attempt > 0
  {
    var delay := c.retryBase * Pow2(attempt - 1);
    if delay < c.retryMax then delay else c.retryMax
  }

  function NextAttempt(attempt: nat): (next: nat)
    ensures next > 0
  {
    if attempt + 1 < MAX_ATTEMPT then attempt + 1 else MAX_ATTEMPT
  }

  function ScheduleRetry(c: Config, s: State): State {
    var attempt := NextAttempt(s.retryAttempt);
    var delay := RetryDelay(c, attempt);
    Schedule(s.(retryAttempt := attempt, delays := s.delays + [delay]), delay)
  }

  function ResetRetries(s: State): State {
    s.(retryAttempt := 0, delays := [])
  }

  /** The operation ends waiting for the next contention. */
  function Contend(c: Config, s: State): State {
    Schedule(s.(pc := Idle, status := Contending), c.contentionInterval)
  }

  function Fail(c: Config, s: State): State {
    ScheduleRetry(c, s.(pc := Idle, status := Errored))
  }

  // ---------- Calls from outside ----------

  function CallStart(s: State): State {
    if s.disposeRequested || s.startCalled then s
    else s.(startCalled := true, queue := s.queue + [StartOp])
  }

  function CallDispose(s: State, timerFails: bool): State {
    if s.disposing || s.status == Disposed then s
    else s.(disposeRequested := true, disposing := true, timer := None,
            queue := s.queue + [DisposeOp(s.timer.Some? && timerFails)])
  }

  function TimerFires(s: State): State {
    if s.timer.None? then s else s.(timer := None, queue := s.queue + [ContendOp])
  }

  /** The lock is lost, and tells its listener if there is one; the listener queues an operation. */
  function LoseLock(s: State): State {
    if s.owner.None? then s
    else
      s.(owner := None,
         queue := if s.subscribed && !s.disposeRequested then s.queue + [LossOp] else s.queue)
  }

  // ---------- Operations, from await to await ----------

  /** `startRuntime` up to the factory; without ownership it returns false at once. */
  function BeginRuntime(c: Config, s: State, generation: nat): State {
    if !IsCurrentOwner(s, Some(generation)) || s.disposeRequested then Contend(c, s)
    else s.(pc := Creating(generation), status := Starting)
  }

  function BeginStart(c: Config, s: State): State {
    if s.disposeRequested then s.(pc := Idle)
    else
      var listening := s.(begun := true, subscribed := true);
      if s.owner.None? then Contend(c, listening) else BeginRuntime(c, listening, s.owner.value)
  }

  function BeginLoss(c: Config, s: State): State {
    if s.disposeRequested then s.(pc := Idle)
    else if s.runtime.Some? then s.(pc := StoppingLost, status := Stopping)
    else Contend(c, ResetRetries(s))
  }

  function BeginContention(s: State): State {
    if s.disposeRequested then s.(pc := Idle)
    else if s.runtime.Some? && !IsCurrentOwner(s, s.generation) then s.(pc := StoppingStale, status := Stopping)
    else if s.runtime.Some? then ResetRetries(s).(pc := Idle, status := Running)
    else s.(pc := AwaitingLock, status := Contending)
  }

  /** A disposal that fails leaves `disposing` clear, so that it can be called again. */
  function FailDispose(s: State): State {
    s.(pc := Idle, status := Errored, disposing := false)
  }

  /** Unsubscribing may fail too. */
  function Unsubscribe(s: State, ok: bool): State {
    if ok then s.(pc := ReleasingLock, subscribed := false, released := true) else FailDispose(s)
  }

  function BeginDispose(s: State, timerFailed: bool, unsubscribes: bool): State {
    var stopping := s.(status := Stopping);
    if s.runtime.Some? then stopping.(pc := StoppingFinal(timerFailed))
    else if timerFailed then FailDispose(stopping)
    else Unsubscribe(stopping, unsubscribes)
  }

  function Begin(c: Config, s: State, unsubscribes: bool): State {
    if s.pc != Idle || s.queue == [] then s
    else
      var next := s.(queue := s.queue[1..]);
      match s.queue[0]
      case StartOp => BeginStart(c, next)
      case LossOp => BeginLoss(c, next)
      case ContendOp => BeginContention(next)
      case DisposeOp(timerFailed) => BeginDispose(next, timerFailed, unsubscribes)
  }

  /** The runtime's `dispose` has succeeded. */
  function Stopped(s: State): State {
    s.(live := if s.runtime.Some? then s.live - {s.runtime.value} else s.live, runtime := None, generation := None)
  }

  /** The factory answers. */
  function Created(c: Config, s: State, ok: bool): State {
    if !s.pc.Creating? then s
    else if !ok then Fail(c, s)
    else
      var made := s.(runtime := Some(s.nextRuntime), generation := Some(s.pc.generation),
                     live := s.live + {s.nextRuntime}, nextRuntime := s.nextRuntime + 1);
      if !IsCurrentOwner(s, Some(s.pc.generation)) || s.disposeRequested then made.(pc := StoppingStarted(false))
      else made.(pc := StartingRuntime(s.pc.generation))
  }

  /** `runtime.start()` answers. */
  function Started(c: Config, s: State, ok: bool): State {
    if !s.pc.StartingRuntime? then s
    else if !ok then s.(pc := StoppingStarted(true))
    else if !IsCurrentOwner(s, Some(s.pc.generation)) || s.disposeRequested then s.(pc := StoppingStarted(false))
    else ResetRetries(s).(pc := Idle, status := Running)
  }

  /** `runtime.dispose()` answers, in whichever operation waits for it. */
  function Stop(c: Config, s: State, ok: bool, unsubscribes: bool): State {
    match s.pc
    case StoppingStarted(startFailed) =>
      if !ok then Fail(c, s) else if startFailed then Fail(c, Stopped(s)) else Contend(c, Stopped(s))
    case StoppingLost => if ok then Contend(c, ResetRetries(Stopped(s))) else Fail(c, s)
    case StoppingStale => if ok then Stopped(s).(pc := AwaitingLock, status := Contending) else Fail(c, s)
    case StoppingFinal(timerFailed) =>
      var after := if ok then Stopped(s) else s;
      if !ok || timerFailed then FailDispose(after) else Unsubscribe(after, unsubscribes)
    case _ => s
  }

  datatype Answer = Yes | No | Throws

  /** `ownership.contend()` answers; it may have acquired the lock under a new generation. */
  function Contended(c: Config, s: State, acquired: Option<nat>, answer: Answer): State {
    if s.pc != AwaitingLock then s
    else
      var now := if s.owner.None? then s.(owner := acquired) else s;
      match answer
      case Throws => Fail(c, now)
      case No => Contend(c, ResetRetries(now))
      case Yes => if now.owner.None? then Fail(c, now) else BeginRuntime(c, now.(status := TakingOver), now.owner.value)
  }

  /** `ownership.dispose()` answers. */
  function Released(s: State, ok: bool): State {
    if s.pc != ReleasingLock then s
    else if ok then s.(pc := Idle, status := Disposed, owner := None)
    else FailDispose(s)
  }

  datatype Step =
    | DoStart
    | DoDispose(timerFails: bool)
    | DoTimer
    | DoLose
    | DoBegin(unsubscribes: bool)
    | DoCreated(ok: bool)
    | DoStarted(ok: bool)
    | DoStop(ok: bool, unsubscribes: bool)
    | DoContended(acquired: Option<nat>, answer: Answer)
    | DoReleased(ok: bool)

  function Apply(c: Config, s: State, step: Step): State {
    match step
    case DoStart => CallStart(s)
    case DoDispose(timerFails) => CallDispose(s, timerFails)
    case DoTimer => TimerFires(s)
    case DoLose => LoseLock(s)
    case DoBegin(unsubscribes) => Begin(c, s, unsubscribes)
    case DoCreated(ok) => Created(c, s, ok)
    case DoStarted(ok) => Started(c, s, ok)
    case DoStop(ok, unsubscribes) => Stop(c, s, ok, unsubscribes)
    case DoContended(acquired, answer) => Contended(c, s, acquired, answer)
    case DoReleased(ok) => Released(s, ok)
  }

  function Run(c: Config, s: State, steps: seq<Step>): State
    decreases |steps|
  {
    if steps == [] then s else Run(c, Apply(c, s, steps[0]), steps[1..])
  }

  // ---------- The invariant ----------

  /** At most one runtime is live, and it is the one the lifecycle holds. */
  predicate RuntimeOk(s: State) {
    && (s.runtime.Some? <==> s.generation.Some?)
    && s.live == (if s.runtime.Some? then {s.runtime.value} else {})
    && (s.runtime.Some? ==> s.runtime.value < s.nextRuntime)
    && (s.pc.Creating? || s.pc == AwaitingLock || s.pc == ReleasingLock ==> s.runtime.None?)
    && (s.pc.StartingRuntime? ==> s.generation == Some(s.pc.generation) && s.runtime.Some?)
  }

  /** The lock is handed back only after the runtime is gone, and then nothing is created any more. */
  predicate ReleaseOk(s: State) {
    && (s.released ==> s.runtime.None? && s.disposeRequested && !s.pc.Creating? && !s.pc.StartingRuntime?)
    && (s.pc.StoppingFinal? || s.pc == ReleasingLock ==> s.disposeRequested)
    && (s.status == Disposed || s.pc == ReleasingLock ==> s.released)
    && (!s.disposeRequested ==> forall op | op in s.queue :: !op.DisposeOp?)
  }

  predicate Sorted(delays: seq<nat>) {
    forall i, j | 0 <= i < j < |delays| :: delays[i] <= delays[j]
  }

  predicate DelaysOk(c: Config, s: State) {
    && s.retryAttempt <= MAX_ATTEMPT
    && (s.retryAttempt == 0 <==> s.delays == [])
    && (s.retryAttempt > 0 ==> s.delays[|s.delays| - 1] == RetryDelay(c, s.retryAttempt))
    && Sorted(s.delays)
    && (forall d | d in s.delays :: c.retryBase <= d <= c.retryMax)
    && (s.timer.Some? ==>
          s.timer.value == c.contentionInterval || c.retryBase <= s.timer.value <= c.retryMax)
  }

  /** Nothing more to do: the runtime runs and belongs to the current generation. */
  predicate Healthy(s: State) {
    s.status == Running && s.runtime.Some? && IsCurrentOwner(s, s.generation)
  }

  predicate ProgressOk(s: State) {
    && (s.disposeRequested ==> s.timer.None?)
    && (s.begun && !s.disposeRequested ==> s.subscribed)
    && (s.pc != Idle && !s.pc.StoppingFinal? && s.pc != ReleasingLock ==> s.begun)
    && (s.runtime.Some? || s.timer.Some? || s.subscribed ==> s.begun)
    && (s.begun ==> s.startCalled && StartOp !in s.queue)
    && (!s.begun && !s.disposeRequested ==> s.queue == if s.startCalled then [StartOp] else [])
    && (s.startCalled && s.pc == Idle && s.queue == [] && !s.disposeRequested ==> s.timer.Some? || Healthy(s))
  }

  ghost predicate Inv(c: Config, s: State) {
    c.Valid() && RuntimeOk(s) && ReleaseOk(s) && DelaysOk(c, s) && ProgressOk(s)
  }
}
