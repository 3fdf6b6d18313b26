/** What the broker lifecycle gets done when nothing fails: it runs under its lock, comes back, and ends when asked. */
module LifecycleOutcomes {
  import opened Wrappers
  import opened Lifecycle
  import opened LifecycleTheorems

  /** The lock as an answer of the contention leaves it. */
  function OwnerAfter(s: State, acquired: Option<nat>): Option<nat> {
    if s.owner.None? then acquired else s.owner
  }

  /** Back to waiting, with a timer armed unless the disposal has begun. */
  predicate WaitsForLock(c: Config, s: State, s': State) {
    && s'.pc == Idle && s'.status == Contending
    && s'.timer == (if s.disposeRequested || s.timer.Some? then s.timer
                    else Some(if c.contentionInterval < MAX_TIMER then c.contentionInterval else MAX_TIMER))
  }

  /** Another attempt later. */
  predicate RetriesLater(c: Config, s: State, s': State) {
    && s'.pc == Idle && s'.status == Errored && 0 < s'.retryAttempt
    && s'.retryAttempt == (if s.retryAttempt + 1 < MAX_ATTEMPT then s.retryAttempt + 1 else MAX_ATTEMPT)
    && (!s.disposeRequested ==> s'.timer.Some?)
  }

  /** The runtime that was held is gone, and nothing else is. */
  predicate RuntimeGone(s: State, s': State) {
    s'.runtime.None? && s'.generation.None? && s'.live == (if s.runtime.Some? then s.live - {s.runtime.value} else s.live)
  }

  /** Taking up the next operation. */
  predicate BeginRight(c: Config, s: State, op: Kind, unsubscribes: bool, s': State) {
    match op
    case DisposeOp(timerFailed) =>
      if s.runtime.Some? then s'.pc == StoppingFinal(timerFailed)
      else if timerFailed || !unsubscribes then s'.pc == Idle && s'.status == Errored && !s'.disposing
      else s'.pc == ReleasingLock && !s'.subscribed
    case StartOp =>
      if s.disposeRequested then s'.pc == Idle && s'.status == s.status
      else
        && s'.subscribed
        && if s.owner.Some? then s'.pc == Creating(s.owner.value) && s'.status == Starting else WaitsForLock(c, s, s')
    case LossOp =>
      if s.disposeRequested then s'.pc == Idle && s'.status == s.status
      else if s.runtime.Some? then s'.pc == StoppingLost
      else WaitsForLock(c, s, s') && s'.retryAttempt == 0
    case ContendOp =>
      if s.disposeRequested then s'.pc == Idle && s'.status == s.status
      else if s.runtime.None? then s'.pc == AwaitingLock
      else if IsCurrentOwner(s, s.generation) then s'.pc == Idle && s'.status == Running && s'.retryAttempt == 0
      else s'.pc == StoppingStale
  }

  /** The runtime has been disposed, or its disposal has failed. */
  predicate StopRight(c: Config, s: State, ok: bool, unsubscribes: bool, s': State) {
    match s.pc
    case StoppingStarted(startFailed) =>
      if !ok then RetriesLater(c, s, s') && s'.runtime == s.runtime
      else RuntimeGone(s, s') && if startFailed then RetriesLater(c, s, s') else WaitsForLock(c, s, s')
    case StoppingLost =>
      if !ok then RetriesLater(c, s, s') && s'.runtime == s.runtime
      else RuntimeGone(s, s') && WaitsForLock(c, s, s') && s'.retryAttempt == 0
    case StoppingStale =>
      if !ok then RetriesLater(c, s, s') && s'.runtime == s.runtime else RuntimeGone(s, s') && s'.pc == AwaitingLock
    case StoppingFinal(timerFailed) =>
      && (if ok then RuntimeGone(s, s') else s'.runtime == s.runtime)
      && (if ok && !timerFailed && unsubscribes then s'.pc == ReleasingLock && !s'.subscribed
          else s'.pc == Idle && s'.status == Errored && !s'.disposing)
    case _ => s' == s
  }

  /** What each step comes to. */
  predicate StepRight(c: Config, s: State, step: Step, s': State) {
    match step
    case DoStart =>
      s' == if s.disposeRequested || s.startCalled then s else s.(startCalled := true, queue := s.queue + [StartOp])
    case DoDispose(timerFails) =>
      if s.disposing || s.status == Disposed then s' == s
      else s'.disposeRequested && s'.disposing && s'.timer.None? && s'.queue == s.queue + [DisposeOp(s.timer.Some? && timerFails)]
    case DoTimer => s' == if s.timer.None? then s else s.(timer := None, queue := s.queue + [ContendOp])
    case DoLose =>
      && s'.owner.None?
      && s'.queue == if s.owner.Some? && s.subscribed && !s.disposeRequested then s.queue + [LossOp] else s.queue
    case DoBegin(unsubscribes) =>
      if s.pc != Idle || s.queue == [] then s' == s
      else s'.queue == s.queue[1..] && s'.runtime == s.runtime && BeginRight(c, s, s.queue[0], unsubscribes, s')
    case DoCreated(ok) =>
      if !s.pc.Creating? then s' == s
      else if !ok then RetriesLater(c, s, s') && s'.runtime == s.runtime
      else
        && s'.runtime == Some(s.nextRuntime) && s'.generation == Some(s.pc.generation) && s'.live == s.live + {s.nextRuntime}
        && s'.pc == if s.owner == Some(s.pc.generation) && !s.disposeRequested then StartingRuntime(s.pc.generation)
                    else StoppingStarted(false)
    case DoStarted(ok) =>
      if !s.pc.StartingRuntime? then s' == s
      else
        && s'.runtime == s.runtime && s'.generation == s.generation
        && if ok && s.owner == Some(s.pc.generation) && !s.disposeRequested
           then s'.pc == Idle && s'.status == Running && s'.retryAttempt == 0
           else s'.pc == StoppingStarted(!ok)
    case DoStop(ok, unsubscribes) => StopRight(c, s, ok, unsubscribes, s')
    case DoContended(acquired, answer) =>
      if s.pc != AwaitingLock then s' == s
      else
        && s'.owner == OwnerAfter(s, acquired) && s'.runtime == s.runtime
        && (answer == No ==> s'.retryAttempt == 0)
        && if answer == No || (answer == Yes && s.disposeRequested && s'.owner.Some?) then WaitsForLock(c, s, s')
           else if answer == Yes && s'.owner.Some? then s'.pc == Creating(s'.owner.value) && s'.status == Starting
           else RetriesLater(c, s, s')
    case DoReleased(ok) =>
      if s.pc != ReleasingLock then s' == s
      else if ok then s'.pc == Idle && s'.status == Disposed && s'.owner.None?
      else s'.pc == Idle && s'.status == Errored && !s'.disposing
  }

  lemma WaitingArms(c: Config, s: State, s0: State)
    requires s0.disposeRequested == s.disposeRequested && s0.timer == s.timer
    ensures WaitsForLock(c, s0, Contend(c, s)) && Contend(c, s) == s.(pc := Idle, status := Contending, timer := Contend(c, s).timer)
  {
  }

  lemma RetryingArms(c: Config, s: State, s0: State)
    requires s0.disposeRequested == s.disposeRequested && s0.retryAttempt == s.retryAttempt
    ensures RetriesLater(c, s0, Fail(c, s))
    ensures Fail(c, s).runtime == s.runtime && Fail(c, s).owner == s.owner && Fail(c, s).queue == s.queue
    ensures Fail(c, s).generation == s.generation && Fail(c, s).live == s.live
  {
    hide RetryDelay;
  }

  lemma StepMeans(c: Config, s: State, step: Step)
    ensures StepRight(c, s, step, Apply(c, s, step))
  {
    hide StepRight, CallStart, CallDispose, TimerFires, LoseLock, Begin, Created, Started, Stop, Contended, Released;
    match step
    case DoBegin(unsubscribes) => BeginMeans(c, s, unsubscribes);
    case DoStop(ok, unsubscribes) =>
      StopMeans(c, s, ok, unsubscribes);
      StopStep(c, s, ok, unsubscribes, Stop(c, s, ok, unsubscribes));
    case DoCreated(ok) => CreatedMeans(c, s, ok);
    case DoStarted(ok) => StartedMeans(c, s, ok);
    case DoContended(acquired, answer) => ContendedMeans(c, s, acquired, answer);
    case DoReleased(ok) => ReleasedMeans(c, s, ok);
    case DoDispose(timerFails) => CallsMean(c, s, timerFails);
    case _ => CallsMean(c, s, false);
  }

  lemma CallsMean(c: Config, s: State, timerFails: bool)
    ensures StepRight(c, s, DoStart, CallStart(s)) && StepRight(c, s, DoDispose(timerFails), CallDispose(s, timerFails))
    ensures StepRight(c, s, DoTimer, TimerFires(s)) && StepRight(c, s, DoLose, LoseLock(s))
  {
  }

  lemma CreatedMeans(c: Config, s: State, ok: bool)
    ensures StepRight(c, s, DoCreated(ok), Created(c, s, ok))
  {
    RetryingArms(c, s, s);
    hide Fail, RetriesLater;
  }

  lemma StartedMeans(c: Config, s: State, ok: bool)
    ensures StepRight(c, s, DoStarted(ok), Started(c, s, ok))
  {
  }

  lemma ReleasedMeans(c: Config, s: State, ok: bool)
    ensures StepRight(c, s, DoReleased(ok), Released(s, ok))
  {
  }

  lemma ContendedMeans(c: Config, s: State, acquired: Option<nat>, answer: Answer)
    ensures StepRight(c, s, DoContended(acquired, answer), Contended(c, s, acquired, answer))
  {
    hide Contend, Fail, WaitsForLock, RetriesLater;
    var now := if s.owner.None? then s.(owner := acquired) else s;
    WaitingArms(c, ResetRetries(now), s);
    RetryingArms(c, now, s);
    WaitingArms(c, now.(status := TakingOver), s);
  }

  lemma StopStep(c: Config, s: State, ok: bool, unsubscribes: bool, s': State)
    ensures StepRight(c, s, DoStop(ok, unsubscribes), s') == StopRight(c, s, ok, unsubscribes, s')
  {
    hide StopRight;
  }

  lemma BeginMeans(c: Config, s: State, unsubscribes: bool)
    ensures StepRight(c, s, DoBegin(unsubscribes), Begin(c, s, unsubscribes))
  {
    hide BeginStart, BeginLoss, BeginContention, BeginDispose, BeginRight;
    if s.pc == Idle && s.queue != [] {
      var next := s.(queue := s.queue[1..]);
      match s.queue[0]
      case StartOp => StartMeans(c, s, next, unsubscribes);
      case LossOp => LossMeans(c, s, next, unsubscribes);
      case ContendOp => ContentionMeans(c, s, next, unsubscribes);
      case DisposeOp(timerFailed) => DisposeMeans(c, s, next, timerFailed, unsubscribes);
    }
  }

  /** Only the queue has changed. */
  predicate Dequeued(s: State, next: State) {
    next == s.(queue := next.queue)
  }

  lemma StartMeans(c: Config, s: State, next: State, unsubscribes: bool)
    requires Dequeued(s, next)
    ensures var s' := BeginStart(c, next);
      s'.queue == next.queue && s'.runtime == s.runtime && BeginRight(c, s, StartOp, unsubscribes, s')
  {
    hide Contend, WaitsForLock;
    WaitingArms(c, next.(begun := true, subscribed := true), s);
  }

  lemma LossMeans(c: Config, s: State, next: State, unsubscribes: bool)
    requires Dequeued(s, next)
    ensures var s' := BeginLoss(c, next);
      s'.queue == next.queue && s'.runtime == s.runtime && BeginRight(c, s, LossOp, unsubscribes, s')
  {
    hide Contend, WaitsForLock;
    WaitingArms(c, ResetRetries(next), s);
  }

  lemma ContentionMeans(c: Config, s: State, next: State, unsubscribes: bool)
    requires Dequeued(s, next)
    ensures var s' := BeginContention(next);
      s'.queue == next.queue && s'.runtime == s.runtime && BeginRight(c, s, ContendOp, unsubscribes, s')
  {
  }

  lemma DisposeMeans(c: Config, s: State, next: State, timerFailed: bool, unsubscribes: bool)
    requires Dequeued(s, next)
    ensures var s' := BeginDispose(next, timerFailed, unsubscribes);
      s'.queue == next.queue && s'.runtime == s.runtime && BeginRight(c, s, DisposeOp(timerFailed), unsubscribes, s')
  {
    hide Unsubscribe, FailDispose;
    UnsubscribeMeans(next.(status := Stopping), unsubscribes);
  }

  lemma UnsubscribeMeans(s: State, ok: bool)
    ensures Unsubscribe(s, true).pc == ReleasingLock && !Unsubscribe(s, true).subscribed
    ensures Unsubscribe(s, false) == FailDispose(s) == s.(pc := Idle, status := Errored, disposing := false)
    ensures Unsubscribe(s, ok).queue == s.queue && Unsubscribe(s, ok).runtime == s.runtime
  {
  }

  lemma StopMeans(c: Config, s: State, ok: bool, unsubscribes: bool)
    ensures StopRight(c, s, ok, unsubscribes, Stop(c, s, ok, unsubscribes))
  {
    if s.pc.StoppingStarted? || s.pc.StoppingLost? || s.pc.StoppingStale? {
      StopOwnMeans(c, s, ok, unsubscribes);
      hide Stop, StopRight;
    } else {
      StopFinalMeans(c, s, ok, unsubscribes);
      hide Stop, StopRight;
    }
  }

  lemma StopOwnMeans(c: Config, s: State, ok: bool, unsubscribes: bool)
    requires s.pc.StoppingStarted? || s.pc.StoppingLost? || s.pc.StoppingStale?
    ensures StopRight(c, s, ok, unsubscribes, Stop(c, s, ok, unsubscribes))
  {
    hide Contend, Fail, WaitsForLock, RetriesLater, RuntimeGone, Stopped, FailDispose, Unsubscribe;
    var gone := Stopped(s);
    StoppedMeans(s);
    RetryingArms(c, s, s);
    RetryingArms(c, gone, s);
    WaitingArms(c, gone, s);
    WaitingArms(c, ResetRetries(gone), s);
    StillGone(s, gone, Fail(c, gone));
    StillGone(s, gone, Contend(c, gone));
    StillGone(s, gone, Contend(c, ResetRetries(gone)));
    StillGone(s, gone, gone.(pc := AwaitingLock, status := Contending));
  }

  lemma StopFinalMeans(c: Config, s: State, ok: bool, unsubscribes: bool)
    requires !s.pc.StoppingStarted? && !s.pc.StoppingLost? && !s.pc.StoppingStale?
    ensures StopRight(c, s, ok, unsubscribes, Stop(c, s, ok, unsubscribes))
  {
    hide Contend, Fail, WaitsForLock, RetriesLater, RuntimeGone, Stopped;
    StoppedMeans(s);
    StillGone(s, Stopped(s), FailDispose(Stopped(s)));
    StillGone(s, Stopped(s), Unsubscribe(Stopped(s), unsubscribes));
  }

  lemma StoppedMeans(s: State)
    ensures RuntimeGone(s, Stopped(s)) && Stopped(s) == s.(live := Stopped(s).live, runtime := None, generation := None)
  {
  }

  lemma StillGone(s: State, a: State, b: State)
    requires RuntimeGone(s, a) && b.runtime == a.runtime && b.generation == a.generation && b.live == a.live
    ensures RuntimeGone(s, b)
  {
  }

  // ---------- Running ----------

  /** The broker runs under the lock it holds. */
  predicate RunsUnder(s: State, g: nat) {
    s.pc == Idle && s.status == Running && s.runtime.Some? && s.generation == Some(g) && s.owner == Some(g) && s.retryAttempt == 0
  }

  const COMES_UP: seq<Step> := [DoCreated(true), DoStarted(true)]

  /** A runtime that was asked for under the current owner comes up. */
  lemma RuntimeComesUp(c: Config, s: State, g: nat)
    requires s.pc == Creating(g) && s.owner == Some(g) && !s.disposeRequested
    ensures RunsUnder(Run(c, s, COMES_UP), g)
  {
    assert COMES_UP[1..] == [DoStarted(true)] && [DoStarted(true)][1..] == [];
    var s1 := Apply(c, s, DoCreated(true));
    assert Run(c, s1, [DoStarted(true)]) == Run(c, Apply(c, s1, DoStarted(true)), []);
  }

  /**
   Whoever wins the lock runs: from every reachable state that waits for the answer of the contention, a broker that
   is not to be disposed asks for a runtime under its generation at once, and with that it runs.
   */
  lemma TakeOverRuns(c: Config, owner: Option<nat>, steps: seq<Step>, acquired: Option<nat>, g: nat)
    requires c.Valid()
    requires var s := Run(c, New(owner), steps);
      s.pc == AwaitingLock && !s.disposeRequested && OwnerAfter(s, acquired) == Some(g)
    ensures var s := Run(c, New(owner), steps); var won := Apply(c, s, DoContended(acquired, Yes));
      && won.pc == Creating(g) && won.status == Starting && won.owner == Some(g)
      && RunsUnder(Run(c, won, COMES_UP), g)
  {
    var s := Run(c, New(owner), steps);
    hide Run, Apply;
    WonMeansAsked(c, s, acquired);
    RuntimeComesUp(c, Apply(c, s, DoContended(acquired, Yes)), g);
  }

  /** A broker that starts with the lock in hand does the same. */
  lemma StartRuns(c: Config, owner: Option<nat>, steps: seq<Step>, g: nat, unsubscribes: bool)
    requires c.Valid()
    requires var s := Run(c, New(owner), steps);
      s.pc == Idle && s.queue != [] && s.queue[0] == StartOp && !s.disposeRequested && s.owner == Some(g)
    ensures var s := Run(c, New(owner), steps); var begun := Apply(c, s, DoBegin(unsubscribes));
      && begun.pc == Creating(g) && begun.status == Starting && RunsUnder(Run(c, begun, COMES_UP), g)
  {
    var s := Run(c, New(owner), steps);
    hide Run;
    var begun := Apply(c, s, DoBegin(unsubscribes));
    assert begun.pc == Creating(g) && begun.owner == Some(g) && !begun.disposeRequested;
    hide Apply;
    RuntimeComesUp(c, begun, g);
  }

  /** A won contention never goes back to contending without having asked for a runtime. */
  lemma WonMeansAsked(c: Config, s: State, acquired: Option<nat>)
    requires s.pc == AwaitingLock && !s.disposeRequested && OwnerAfter(s, acquired).Some?
    ensures var won := Apply(c, s, DoContended(acquired, Yes));
      && won.pc == Creating(OwnerAfter(s, acquired).value) && won.status == Starting
      && won.owner == OwnerAfter(s, acquired) && !won.disposeRequested
  {
    hide Contend, Fail, ResetRetries, FailDispose, CallStart, CallDispose;
  }

  // ---------- Coming back ----------

  function ToContention(s: State): seq<Step> {
    [DoTimer, DoBegin(true)] + if s.runtime.Some? && !IsCurrentOwner(s, s.generation) then [DoStop(true, true)] else []
  }

  /**
   Whatever happened before, a started lifecycle with nothing left to do and no disposal runs, or its timer brings it
   to a contention, after it has stopped a runtime that is no longer its own; and once that is won it runs.
   */
  lemma ComesBack(c: Config, owner: Option<nat>, steps: seq<Step>)
    requires c.Valid()
    requires var s := Run(c, New(owner), steps);
      s.startCalled && s.pc == Idle && s.queue == [] && !s.disposeRequested
    ensures var s := Run(c, New(owner), steps); var s' := Run(c, s, ToContention(s));
      Healthy(s) || (s'.pc == AwaitingLock && !s'.disposeRequested && s'.runtime.None?)
                 || (s'.pc == Idle && s'.status == Running && s'.runtime.Some? && IsCurrentOwner(s', s'.generation))
  {
    ReachableIsFine(c, owner, steps);
    var s := Run(c, New(owner), steps);
    InvArms(c, s);
    hide Inv, Run;
    if !Healthy(s) {
      TimerContends(c, s);
    }
  }

  lemma InvArms(c: Config, s: State)
    requires Inv(c, s) && s.startCalled && s.pc == Idle && s.queue == [] && !s.disposeRequested
    ensures s.timer.Some? || Healthy(s)
  {
    hide RuntimeOk, ReleaseOk, DelaysOk, Healthy;
  }

  lemma TimerContends(c: Config, s: State)
    requires s.pc == Idle && s.queue == [] && !s.disposeRequested && s.timer.Some?
    ensures var s' := Run(c, s, ToContention(s));
      (s'.pc == AwaitingLock && !s'.disposeRequested && s'.runtime.None?)
      || (s'.pc == Idle && s'.status == Running && s'.runtime.Some? && IsCurrentOwner(s', s'.generation))
  {
    var fired := s.(timer := None, queue := [ContendOp]);
    assert s.queue + [ContendOp] == [ContendOp] && [ContendOp][1..] == [];
    assert Apply(c, s, DoTimer) == fired;
    var s2 := Apply(c, fired, DoBegin(true));
    assert s2 == BeginContention(fired.(queue := []));
    hide Apply;
    if s.runtime.Some? && !IsCurrentOwner(s, s.generation) {
      assert ToContention(s) == [DoTimer, DoBegin(true), DoStop(true, true)];
      StaleIsStopped(c, s2);
      ThreeSteps(c, s, DoTimer, DoBegin(true), DoStop(true, true));
    } else {
      assert ToContention(s) == [DoTimer, DoBegin(true)];
      TwoSteps(c, s, DoTimer, DoBegin(true));
    }
  }

  lemma StaleIsStopped(c: Config, s: State)
    requires s.pc == StoppingStale && !s.disposeRequested
    ensures var s' := Apply(c, s, DoStop(true, true));
      s'.pc == AwaitingLock && !s'.disposeRequested && s'.runtime.None?
  {
    hide Contend, Fail;
  }

  lemma TwoSteps(c: Config, s: State, a: Step, b: Step)
    ensures Run(c, s, [a, b]) == Apply(c, Apply(c, s, a), b)
  {
    hide Apply;
    assert [a, b][1..] == [b];
    OneStep(c, Apply(c, s, a), b);
  }

  lemma ThreeSteps(c: Config, s: State, a: Step, b: Step, d: Step)
    ensures Run(c, s, [a, b, d]) == Apply(c, Apply(c, Apply(c, s, a), b), d)
  {
    hide Apply;
    assert [a, b, d][1..] == [b, d];
    TwoSteps(c, Apply(c, s, a), b, d);
  }

  // ---------- Ending ----------

  function EndSteps(s: State): seq<Step> {
    [DoDispose(false), DoBegin(true)] + (if s.runtime.Some? then [DoStop(true, true)] else []) + [DoReleased(true)]
  }

  /** A disposal that nothing hinders ends the runtime, then gives back the lock, and is then complete. */
  lemma DisposalCompletes(c: Config, owner: Option<nat>, steps: seq<Step>)
    requires c.Valid()
    requires var s := Run(c, New(owner), steps); s.pc == Idle && s.queue == [] && !s.disposing && s.status != Disposed
    ensures var s := Run(c, New(owner), steps); var s' := Run(c, s, EndSteps(s));
      s'.status == Disposed && s'.live == {} && s'.runtime.None? && s'.owner.None? && s'.released
  {
    ReachableIsFine(c, owner, steps);
    var s := Run(c, New(owner), steps);
    InvHolds(c, s);
    hide Inv, Run;
    DisposalRuns(c, s);
  }

  lemma InvHolds(c: Config, s: State)
    requires Inv(c, s)
    ensures s.live == if s.runtime.Some? then {s.runtime.value} else {}
  {
    hide ReleaseOk, DelaysOk, ProgressOk;
  }

  lemma DisposalRuns(c: Config, s: State)
    requires s.pc == Idle && s.queue == [] && !s.disposing && s.status != Disposed
    requires s.live == if s.runtime.Some? then {s.runtime.value} else {}
    ensures var s' := Run(c, s, EndSteps(s));
      s'.status == Disposed && s'.live == {} && s'.runtime.None? && s'.owner.None? && s'.released
  {
    var asked := s.(disposeRequested := true, disposing := true, timer := None, queue := [DisposeOp(false)]);
    assert s.queue + [DisposeOp(false)] == [DisposeOp(false)] && [DisposeOp(false)][1..] == [];
    assert Apply(c, s, DoDispose(false)) == asked;
    var s2 := Apply(c, asked, DoBegin(true));
    assert s2 == BeginDispose(asked.(queue := []), false, true);
    hide Apply;
    if s.runtime.Some? {
      assert EndSteps(s) == [DoDispose(false)] + [DoBegin(true), DoStop(true, true), DoReleased(true)];
      FinalStop(c, s2);
      ThreeSteps(c, asked, DoBegin(true), DoStop(true, true), DoReleased(true));
      assert EndSteps(s)[1..] == [DoBegin(true), DoStop(true, true), DoReleased(true)];
    } else {
      assert EndSteps(s) == [DoDispose(false), DoBegin(true), DoReleased(true)];
      FinalRelease(c, s2);
      ThreeSteps(c, s, DoDispose(false), DoBegin(true), DoReleased(true));
    }
  }

  lemma FinalStop(c: Config, s: State)
    requires s.pc == StoppingFinal(false) && s.runtime.Some? && s.live == {s.runtime.value}
    ensures var s' := Apply(c, Apply(c, s, DoStop(true, true)), DoReleased(true));
      s'.status == Disposed && s'.live == {} && s'.runtime.None? && s'.owner.None? && s'.released
  {
    hide Contend, Fail;
  }

  lemma FinalRelease(c: Config, s: State)
    requires s.pc == ReleasingLock && s.runtime.None? && s.live == {} && s.released
    ensures var s' := Apply(c, s, DoReleased(true));
      s'.status == Disposed && s'.live == {} && s'.runtime.None? && s'.owner.None? && s'.released
  {
  }

  lemma OneStep(c: Config, s: State, step: Step)
    ensures Run(c, s, [step]) == Apply(c, s, step)
  {
    hide Apply;
    assert [step][1..] == [];
    assert Run(c, Apply(c, s, step), []) == Apply(c, s, step);
  }
}
