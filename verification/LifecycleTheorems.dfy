/** What every run of the broker lifecycle keeps, and what it promises. */
module LifecycleTheorems {
  import opened Wrappers
  import opened Lifecycle

  // ---------- Delays ----------

  lemma {:induction false} PowersGrow(m: nat, n: nat)
    requires m <= n
    ensures Pow2(m) <= Pow2(n)
    decreases n
  {
    if m >= n {
    } else {
      PowersGrow(m, n - 1);
    }
  }

  lemma MulGrows(a: nat, x: nat, y: nat)
    requires x <= y
    ensures a * x <= a * y
  {
  }

  /** The delay doubles up to its cap. */
  lemma RetryDelayGrows(c: Config, m: nat, n: nat)
    requires c.Valid() && 0 < m <= n
    ensures c.retryBase <= RetryDelay(c, m) <= RetryDelay(c, n) <= c.retryMax
  {
    hide Pow2;
    PowersGrow(m - 1, n - 1);
    MulGrows(c.retryBase, Pow2(m - 1), Pow2(n - 1));
    MulGrows(c.retryBase, 1, Pow2(m - 1));
  }

  /** The delay clause depends on four fields only. */
  /** The first delay is the base, and each next one is twice the one before it, up to the maximum. */
  lemma RetryDelayDoubles(c: Config, attempt: nat)
    requires c.Valid() && attempt > 0
    ensures RetryDelay(c, 1) == c.retryBase
    ensures RetryDelay(c, attempt + 1) == if 2 * RetryDelay(c, attempt) < c.retryMax then 2 * RetryDelay(c, attempt) else c.retryMax
  {
    assert Pow2(attempt) == 2 * Pow2(attempt - 1);
    var x := Pow2(attempt - 1);
    assert c.retryBase * (2 * x) == 2 * (c.retryBase * x);
    assert c.retryBase * Pow2(0) == c.retryBase;
  }

  lemma SameDelays(c: Config, s: State, s': State)
    requires c.Valid() && DelaysOk(c, s)
    requires (s'.retryAttempt == s.retryAttempt && s'.delays == s.delays) || (s'.retryAttempt == 0 && s'.delays == [])
    requires s'.timer == s.timer || s'.timer == None || s'.timer == Some(c.contentionInterval)
    ensures DelaysOk(c, s')
  {
  }

  // ---------- Every step keeps the invariant ----------

  /** The invariant without the delays. */
  predicate Rest(s: State) {
    RuntimeOk(s) && ReleaseOk(s) && ProgressOk(s)
  }

  lemma CallsKeepRest(s: State, timerFails: bool)
    requires Rest(s)
    ensures Rest(CallStart(s)) && Rest(CallDispose(s, timerFails)) && Rest(TimerFires(s)) && Rest(LoseLock(s))
  {
  }

  /** An operation may end here, whatever its status becomes. */
  predicate MayEnd(s: State) {
    && RuntimeOk(s.(pc := Idle)) && s.begun && s.startCalled && StartOp !in s.queue
    && (s.released ==> s.runtime.None? && s.disposeRequested)
    && (!s.disposeRequested ==> s.subscribed && forall op | op in s.queue :: !op.DisposeOp?)
    && (s.disposeRequested ==> s.timer.None?)
  }

  lemma EndsKeepRest(c: Config, s: State)
    requires MayEnd(s)
    ensures Rest(Fail(c, s)) && Rest(Contend(c, s))
  {
    hide RetryDelay;
  }

  /** Ending again with the counters reset makes no difference. */
  lemma ResetMayEnd(s: State)
    requires MayEnd(s)
    ensures MayEnd(ResetRetries(s))
  {
  }

  lemma RestMayEnd(s: State)
    requires Rest(s) && s.pc != Idle && !s.pc.StoppingFinal? && s.pc != ReleasingLock
    ensures MayEnd(s) && MayEnd(Stopped(s))
  {
  }

  lemma BeginRuntimeKeepsRest(c: Config, s: State, generation: nat)
    requires MayEnd(s) && s.runtime.None?
    ensures Rest(BeginRuntime(c, s, generation))
  {
    EndsKeepRest(c, s);
    hide Contend;
  }

  lemma StartKeepsRest(c: Config, s: State)
    requires Rest(s) && s.pc == Idle && s.queue != [] && s.queue[0] == StartOp
    ensures Rest(BeginStart(c, s.(queue := s.queue[1..])))
  {
    assert s.queue[0] in s.queue;
    if !s.disposeRequested {
      var listening := s.(queue := s.queue[1..], begun := true, subscribed := true);
      assert MayEnd(listening);
      EndsKeepRest(c, listening);
      if s.owner.Some? {
        BeginRuntimeKeepsRest(c, listening, s.owner.value);
      }
      hide Contend, BeginRuntime, MayEnd;
    }
  }

  lemma LossKeepsRest(c: Config, s: State)
    requires Rest(s) && s.pc == Idle && s.queue != [] && s.queue[0] == LossOp
    ensures Rest(BeginLoss(c, s.(queue := s.queue[1..])))
  {
    assert s.queue[0] in s.queue;
    if !s.disposeRequested {
      var next := s.(queue := s.queue[1..]);
      assert MayEnd(next);
      ResetMayEnd(next);
      EndsKeepRest(c, ResetRetries(next));
      hide Contend, MayEnd;
    }
  }

  lemma ContentionKeepsRest(s: State)
    requires Rest(s) && s.pc == Idle && s.queue != [] && s.queue[0] == ContendOp
    ensures Rest(BeginContention(s.(queue := s.queue[1..])))
  {
    assert s.queue[0] in s.queue;
  }

  lemma DisposeKeepsRest(s: State, unsubscribes: bool)
    requires Rest(s) && s.pc == Idle && s.queue != [] && s.queue[0].DisposeOp?
    ensures Rest(BeginDispose(s.(queue := s.queue[1..]), s.queue[0].timerFailed, unsubscribes))
  {
    assert s.queue[0] in s.queue;
  }

  lemma BeginKeepsRest(c: Config, s: State, unsubscribes: bool)
    requires Rest(s)
    ensures Rest(Begin(c, s, unsubscribes))
  {
    hide Rest, BeginStart, BeginLoss, BeginContention, BeginDispose;
    if s.pc == Idle && s.queue != [] {
      match s.queue[0]
      case StartOp => StartKeepsRest(c, s);
      case LossOp => LossKeepsRest(c, s);
      case ContendOp => ContentionKeepsRest(s);
      case DisposeOp(_) => DisposeKeepsRest(s, unsubscribes);
    }
  }

  lemma CreatedKeepsRest(c: Config, s: State, ok: bool)
    requires Rest(s)
    ensures Rest(Created(c, s, ok))
  {
    if s.pc.Creating? {
      RestMayEnd(s);
      EndsKeepRest(c, s);
      hide Fail, MayEnd;
    }
  }

  lemma StartedKeepsRest(s: State, c: Config, ok: bool)
    requires Rest(s)
    ensures Rest(Started(c, s, ok)) && Rest(Released(s, ok))
  {
  }

  lemma StopKeepsRest(c: Config, s: State, ok: bool, unsubscribes: bool)
    requires Rest(s)
    ensures Rest(Stop(c, s, ok, unsubscribes))
  {
    if s.pc.StoppingStarted? || s.pc.StoppingLost? || s.pc.StoppingStale? {
      RestMayEnd(s);
      ResetMayEnd(Stopped(s));
      EndsKeepRest(c, s);
      EndsKeepRest(c, Stopped(s));
      EndsKeepRest(c, ResetRetries(Stopped(s)));
      if s.pc.StoppingStale? && ok {
        StaleStopKeepsRest(s);
      }
      hide Fail, Contend, MayEnd, Stopped, ResetRetries, Rest;
    } else if s.pc.StoppingFinal? {
      FinalStopKeepsRest(s, ok, s.pc.timerFailed, unsubscribes);
      hide Rest, Stopped, Unsubscribe, FailDispose;
    }
  }

  lemma StaleStopKeepsRest(s: State)
    requires Rest(s) && s.pc.StoppingStale?
    ensures Rest(Stopped(s).(pc := AwaitingLock, status := Contending))
  {
  }

  lemma FinalStopKeepsRest(s: State, ok: bool, timerFailed: bool, unsubscribes: bool)
    requires Rest(s) && s.pc == StoppingFinal(timerFailed)
    ensures var after := if ok then Stopped(s) else s;
      Rest(if !ok || timerFailed then FailDispose(after) else Unsubscribe(after, unsubscribes))
  {
  }

  lemma ContendedKeepsRest(c: Config, s: State, acquired: Option<nat>, answer: Answer)
    requires Rest(s)
    ensures Rest(Contended(c, s, acquired, answer))
  {
    if s.pc == AwaitingLock {
      RestMayEnd(s);
      var now := if s.owner.None? then s.(owner := acquired) else s;
      assert MayEnd(now) && MayEnd(now.(status := TakingOver)) && now.runtime.None?;
      EndsKeepRest(c, now);
      ResetMayEnd(now);
      EndsKeepRest(c, ResetRetries(now));
      if now.owner.Some? {
        BeginRuntimeKeepsRest(c, now.(status := TakingOver), now.owner.value);
      }
      hide Fail, Contend, MayEnd, ResetRetries, Rest, BeginRuntime;
    }
  }

  lemma StepKeepsDelays(c: Config, s: State, step: Step)
    requires c.Valid() && DelaysOk(c, s)
    ensures DelaysOk(c, Apply(c, s, step))
  {
    var s' := Apply(c, s, step);
    StepMovesDelays(c, s, step);
    if DelaysRetried(c, s, s') {
      RetriedIsFine(c, s, s');
    } else {
      hide Apply, RetryDelay;
      SameDelays(c, s, s');
    }
  }

  /** A step asks for one more retry, or leaves the delays alone, or resets them. */
  predicate DelaysRetried(c: Config, s: State, s': State) {
    var attempt := NextAttempt(s.retryAttempt);
    var delay := RetryDelay(c, attempt);
    && s'.retryAttempt == attempt && s'.delays == s.delays + [delay]
    && (s'.timer == s.timer || s'.timer == Some(if delay < MAX_TIMER then delay else MAX_TIMER))
  }

  predicate DelaysSettled(c: Config, s: State, s': State) {
    && ((s'.retryAttempt == s.retryAttempt && s'.delays == s.delays) || (s'.retryAttempt == 0 && s'.delays == []))
    && (s'.timer == s.timer || s'.timer == None || s'.timer == Some(c.contentionInterval))
  }

  /** Only the answer of the factory counts a new runtime. */
  predicate Moves(c: Config, s: State, s': State) {
    && (DelaysRetried(c, s, s') || DelaysSettled(c, s, s'))
    && (s'.nextRuntime == s.nextRuntime || s.pc.Creating?)
  }

  lemma SettledMoves(c: Config, s: State, s': State)
    requires DelaysSettled(c, s, s') && (s'.nextRuntime == s.nextRuntime || s.pc.Creating?)
    ensures Moves(c, s, s')
  {
  }

  lemma FailMoves(c: Config, s: State, s0: State)
    requires c.Valid() && s.retryAttempt == s0.retryAttempt && s.delays == s0.delays && s.timer == s0.timer
    requires s.disposeRequested == s0.disposeRequested && s.nextRuntime == s0.nextRuntime
    ensures Moves(c, s0, Fail(c, s))
  {
    hide RetryDelay, DelaysSettled, NextAttempt;
  }

  lemma ContendMoves(c: Config, s: State, s0: State)
    requires c.Valid() && s.retryAttempt == s0.retryAttempt && s.delays == s0.delays && s.timer == s0.timer
    requires s.nextRuntime == s0.nextRuntime
    ensures Moves(c, s0, Contend(c, s)) && Moves(c, s0, Contend(c, ResetRetries(s)))
  {
    hide DelaysRetried;
  }

  lemma EndsMove(c: Config, s: State, s0: State)
    requires c.Valid() && s.retryAttempt == s0.retryAttempt && s.delays == s0.delays && s.timer == s0.timer
    requires s.disposeRequested == s0.disposeRequested && s.nextRuntime == s0.nextRuntime
    ensures Moves(c, s0, Fail(c, s)) && Moves(c, s0, Contend(c, s)) && Moves(c, s0, Contend(c, ResetRetries(s)))
  {
    hide Moves, Fail, Contend, ResetRetries;
    FailMoves(c, s, s0);
    ContendMoves(c, s, s0);
  }

  lemma StepMovesDelays(c: Config, s: State, step: Step)
    requires c.Valid()
    ensures Moves(c, s, Apply(c, s, step))
  {
    hide CallStart, CallDispose, TimerFires, LoseLock, Begin, Created, Started, Stop, Contended, Released, Moves;
    match step
    case DoBegin(unsubscribes) => BeginMoves(c, s, unsubscribes);
    case DoCreated(ok) => CreatedMoves(c, s, ok);
    case DoStop(ok, unsubscribes) => StopMoves(c, s, ok, unsubscribes);
    case DoContended(acquired, answer) => ContendedMoves(c, s, acquired, answer);
    case DoStart => CallsMove(c, s, false);
    case DoDispose(timerFails) => CallsMove(c, s, timerFails);
    case DoTimer => CallsMove(c, s, false);
    case DoLose => CallsMove(c, s, false);
    case DoStarted(ok) => StartedMoves(c, s, ok);
    case DoReleased(ok) => ReleasedMoves(c, s, ok);
  }

  lemma CallsMove(c: Config, s: State, timerFails: bool)
    ensures Moves(c, s, CallStart(s)) && Moves(c, s, CallDispose(s, timerFails))
    ensures Moves(c, s, TimerFires(s)) && Moves(c, s, LoseLock(s))
  {
    hide Moves;
    SettledMoves(c, s, CallStart(s));
    SettledMoves(c, s, CallDispose(s, timerFails));
    SettledMoves(c, s, TimerFires(s));
    SettledMoves(c, s, LoseLock(s));
  }

  lemma StartedMoves(c: Config, s: State, ok: bool)
    ensures Moves(c, s, Started(c, s, ok))
  {
    hide Moves;
    SettledMoves(c, s, Started(c, s, ok));
  }

  lemma ReleasedMoves(c: Config, s: State, ok: bool)
    ensures Moves(c, s, Released(s, ok))
  {
    hide Moves;
    SettledMoves(c, s, Released(s, ok));
  }

  lemma CreatedMoves(c: Config, s: State, ok: bool)
    requires c.Valid()
    ensures Moves(c, s, Created(c, s, ok))
  {
    hide Fail, Moves;
    if s.pc.Creating? && !ok {
      EndsMove(c, s, s);
    } else {
      SettledMoves(c, s, Created(c, s, ok));
    }
  }

  lemma StopMoves(c: Config, s: State, ok: bool, unsubscribes: bool)
    requires c.Valid()
    ensures Moves(c, s, Stop(c, s, ok, unsubscribes))
  {
    hide Fail, Contend, Moves;
    EndsMove(c, s, s);
    EndsMove(c, Stopped(s), s);
    match s.pc
    case StoppingStarted(_) =>
    case StoppingLost =>
    case _ => if !s.pc.StoppingStale? || ok { SettledMoves(c, s, Stop(c, s, ok, unsubscribes)); }
  }

  lemma BeginMoves(c: Config, s: State, unsubscribes: bool)
    requires c.Valid()
    ensures Moves(c, s, Begin(c, s, unsubscribes))
  {
    hide BeginStart, BeginLoss, BeginContention, BeginDispose, Moves;
    if s.pc == Idle && s.queue != [] {
      var next := s.(queue := s.queue[1..]);
      match s.queue[0]
      case StartOp => BeginStartMoves(c, s, next);
      case LossOp => BeginLossMoves(c, s, next);
      case ContendOp => BeginContentionMoves(c, s, next);
      case DisposeOp(timerFailed) => BeginDisposeMoves(c, s, next, timerFailed, unsubscribes);
    } else {
      SettledMoves(c, s, s);
    }
  }

  lemma BeginStartMoves(c: Config, s: State, next: State)
    requires c.Valid() && next == s.(queue := next.queue)
    ensures Moves(c, s, BeginStart(c, next))
  {
    hide Contend, Moves;
    var listening := next.(begun := true, subscribed := true);
    EndsMove(c, listening, s);
    if next.disposeRequested {
      SettledMoves(c, s, BeginStart(c, next));
    } else if next.owner.Some? {
      SettledMoves(c, s, listening.(pc := Creating(next.owner.value), status := Starting));
    }
  }

  lemma BeginLossMoves(c: Config, s: State, next: State)
    requires c.Valid() && next == s.(queue := next.queue)
    ensures Moves(c, s, BeginLoss(c, next))
  {
    hide Contend, Moves;
    EndsMove(c, next, s);
    if next.disposeRequested || next.runtime.Some? {
      SettledMoves(c, s, BeginLoss(c, next));
    }
  }

  lemma BeginContentionMoves(c: Config, s: State, next: State)
    requires next == s.(queue := next.queue)
    ensures Moves(c, s, BeginContention(next))
  {
    BeginContentionSettles(next);
    var s' := BeginContention(next);
    hide Moves, BeginContention;
    SettledMoves(c, s, s');
  }

  lemma BeginContentionSettles(s: State)
    ensures var s' := BeginContention(s);
      && s'.timer == s.timer && s'.nextRuntime == s.nextRuntime
      && ((s'.retryAttempt == s.retryAttempt && s'.delays == s.delays) || (s'.retryAttempt == 0 && s'.delays == []))
  {
  }

  lemma BeginDisposeMoves(c: Config, s: State, next: State, timerFailed: bool, unsubscribes: bool)
    requires next == s.(queue := next.queue)
    ensures Moves(c, s, BeginDispose(next, timerFailed, unsubscribes))
  {
    BeginDisposeSettles(next, timerFailed, unsubscribes);
    var s' := BeginDispose(next, timerFailed, unsubscribes);
    hide Moves, BeginDispose;
    SettledMoves(c, s, s');
  }

  predicate SameTiming(s: State, s': State) {
    s'.timer == s.timer && s'.nextRuntime == s.nextRuntime && s'.retryAttempt == s.retryAttempt && s'.delays == s.delays
  }

  lemma FailDisposeSettles(s: State)
    ensures SameTiming(s, FailDispose(s))
  {
  }

  lemma UnsubscribeSettles(s: State, ok: bool)
    ensures SameTiming(s, Unsubscribe(s, ok))
  {
    hide FailDispose;
    FailDisposeSettles(s);
  }

  lemma BeginDisposeSettles(s: State, timerFailed: bool, unsubscribes: bool)
    ensures SameTiming(s, BeginDispose(s, timerFailed, unsubscribes))
  {
    hide FailDispose, Unsubscribe;
    FailDisposeSettles(s.(status := Stopping));
    UnsubscribeSettles(s.(status := Stopping), unsubscribes);
  }

  lemma ContendedMoves(c: Config, s: State, acquired: Option<nat>, answer: Answer)
    requires c.Valid()
    ensures Moves(c, s, Contended(c, s, acquired, answer))
  {
    hide Contend, Fail, Moves;
    var now := if s.owner.None? then s.(owner := acquired) else s;
    EndsMove(c, now, s);
    EndsMove(c, now.(status := TakingOver), s);
    if s.pc != AwaitingLock {
      SettledMoves(c, s, s);
    } else if answer == Yes && now.owner.Some? {
      SettledMoves(c, s, now.(pc := Creating(now.owner.value), status := Starting));
    }
  }

  lemma RetriedIsFine(c: Config, s: State, s': State)
    requires c.Valid() && DelaysOk(c, s) && DelaysRetried(c, s, s')
    ensures DelaysOk(c, s')
  {
    hide RetryDelay;
    var attempt := NextAttempt(s.retryAttempt);
    RetryDelayGrows(c, attempt, attempt);
    if s.retryAttempt > 0 {
      RetryDelayGrows(c, s.retryAttempt, attempt);
    }
    SortedAppend(s.delays, RetryDelay(c, attempt));
    hide Sorted;
  }

  lemma SortedAppend(delays: seq<nat>, delay: nat)
    requires Sorted(delays) && (delays != [] ==> delays[|delays| - 1] <= delay)
    ensures Sorted(delays + [delay])
  {
  }

  lemma ApplyKeeps(c: Config, s: State, step: Step)
    requires Inv(c, s)
    ensures Inv(c, Apply(c, s, step))
  {
    hide RuntimeOk, ReleaseOk, ProgressOk, DelaysOk, CallStart, CallDispose, TimerFires, LoseLock, Begin, Created,
      Started, Stop, Contended, Released;
    StepKeepsDelays(c, s, step);
    match step
    case DoStart => CallsKeepRest(s, false);
    case DoDispose(timerFails) => CallsKeepRest(s, timerFails);
    case DoTimer => CallsKeepRest(s, false);
    case DoLose => CallsKeepRest(s, false);
    case DoBegin(unsubscribes) => BeginKeepsRest(c, s, unsubscribes);
    case DoCreated(ok) => CreatedKeepsRest(c, s, ok);
    case DoStarted(ok) => StartedKeepsRest(s, c, ok);
    case DoStop(ok, unsubscribes) => StopKeepsRest(c, s, ok, unsubscribes);
    case DoContended(acquired, answer) => ContendedKeepsRest(c, s, acquired, answer);
    case DoReleased(ok) => StartedKeepsRest(s, c, ok);
  }

  lemma {:induction false} RunKeeps(c: Config, s: State, steps: seq<Step>)
    requires Inv(c, s)
    ensures Inv(c, Run(c, s, steps))
    decreases |steps|
  {
    hide Inv, Apply;
    if steps == [] {
    } else {
      ApplyKeeps(c, s, steps[0]);
      RunKeeps(c, Apply(c, s, steps[0]), steps[1..]);
    }
  }

  lemma ReachableIsFine(c: Config, owner: Option<nat>, steps: seq<Step>)
    requires c.Valid()
    ensures Inv(c, Run(c, New(owner), steps))
  {
    hide Run;
    RunKeeps(c, New(owner), steps);
  }

  // ---------- The promises ----------

  /** At most one runtime is ever live, and the factory is asked for one only when none is. */
  lemma AtMostOneRuntime(c: Config, owner: Option<nat>, steps: seq<Step>, step: Step)
    requires c.Valid()
    ensures var s := Run(c, New(owner), steps);
      && |s.live| <= 1
      && (s.live != {} ==> s.runtime.Some? && s.live == {s.runtime.value})
      && (Apply(c, s, step).pc.Creating? && !s.pc.Creating? ==> Apply(c, s, step).live == {})
      && (Apply(c, s, step).nextRuntime != s.nextRuntime ==> s.live == {})
  {
    var s := Run(c, New(owner), steps);
    ReachableIsFine(c, owner, steps);
    ApplyKeeps(c, s, step);
    hide ReleaseOk, DelaysOk, ProgressOk, Run;
    OnlyCreatedCounts(c, s, step);
    hide Apply;
  }

  lemma OnlyCreatedCounts(c: Config, s: State, step: Step)
    requires c.Valid()
    ensures Apply(c, s, step).nextRuntime != s.nextRuntime ==> s.pc.Creating?
  {
    StepMovesDelays(c, s, step);
    hide Apply, DelaysRetried, DelaysSettled;
  }

  /** The ownership is handed back only when no runtime is left, and no runtime is ever created after that. */
  lemma ReleasedOnlyWhenStopped(c: Config, owner: Option<nat>, steps: seq<Step>)
    requires c.Valid()
    ensures var s := Run(c, New(owner), steps);
      s.released ==> s.live == {} && s.disposeRequested && !s.pc.Creating? && !s.pc.StartingRuntime?
  {
    ReachableIsFine(c, owner, steps);
    hide DelaysOk, ProgressOk, Run;
  }

  /** Once started, whenever no operation is left to run, the broker runs under its own lock, or a timer is armed. */
  lemma NeverStuck(c: Config, owner: Option<nat>, steps: seq<Step>)
    requires c.Valid()
    ensures var s := Run(c, New(owner), steps);
      s.startCalled && s.pc == Idle && s.queue == [] && !s.disposeRequested ==>
        s.timer.Some? || (s.status == Running && s.runtime.Some? && s.owner.Some? && s.owner == s.generation)
  {
    ReachableIsFine(c, owner, steps);
    hide DelaysOk, RuntimeOk, ReleaseOk, Run;
  }

  /** Every retry delay lies between base and maximum, and none is shorter than the one before it. */
  lemma RetriesBackOff(c: Config, owner: Option<nat>, steps: seq<Step>)
    requires c.Valid()
    ensures var s := Run(c, New(owner), steps);
      && (forall d | d in s.delays :: c.retryBase <= d <= c.retryMax)
      && (forall i, j | 0 <= i < j < |s.delays| :: s.delays[i] <= s.delays[j])
      && (s.timer.Some? ==> s.timer.value == c.contentionInterval || c.retryBase <= s.timer.value <= c.retryMax)
  {
    ReachableIsFine(c, owner, steps);
    hide ProgressOk, RuntimeOk, ReleaseOk, Run, RetryDelay;
  }
}
