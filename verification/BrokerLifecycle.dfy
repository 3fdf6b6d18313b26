/**
 The lifecycle object: the fields of `BrokerLifecycle` in src/broker/BrokerLifecycle.ts, updated in place.
 Each method runs from one await to the next; `Perform` takes any step of a run, keeps the invariant of module
 Lifecycle and with it the promises of the object.
 */
module BrokerLifecycles {
  import opened Wrappers
  import opened Lifecycle
  import LifecycleTheorems
  import LifecycleOutcomes

  class BrokerLifecycle {
    const config: Config
    /** The await at which the operation under way is suspended, and the operations chained behind it. */
    var pc: Pc
    var operationTail: seq<Kind>
    var status: Status
    var runtime: Option<nat>
    var runtimeGeneration: Option<nat>
    var timer: Option<nat>
    var retryAttempt: nat
    var subscribed: bool
    var startCalled: bool
    var disposeRequested: bool
    var disposing: bool
    /** What the owner lock answers. */
    var owner: Option<nat>
    var nextRuntime: nat
    ghost var begun: bool
    ghost var live: set<nat>
    ghost var delays: seq<nat>
    ghost var released: bool

    ghost function View(): State
      reads this
    {
      State(pc, operationTail, status, runtime, runtimeGeneration, timer, retryAttempt, begun, subscribed, startCalled,
            disposeRequested, disposing, owner, live, nextRuntime, delays, released)
    }

    ghost predicate Valid()
      reads this
    {
      Inv(config, View())
    }

    /** The source refuses other delays. */
    constructor (config: Config, owner: Option<nat>)
      requires config.Valid()
      ensures Valid() && View() == New(owner) && this.config == config
    {
      this.config := config;
      pc, operationTail, status := Idle, [], Contending;
      runtime, runtimeGeneration, timer, retryAttempt := None, None, None, 0;
      subscribed, startCalled, disposeRequested, disposing := false, false, false, false;
      this.owner, nextRuntime := owner, 0;
      begun, live, delays, released := false, {}, [], false;
    }

    predicate IsOwnerOf(generation: Option<nat>)
      reads this
      ensures IsOwnerOf(generation) == IsCurrentOwner(View(), generation)
    {
      generation.Some? && owner == generation
    }

    /**
     Whatever happens next: one runtime at most is live and held, none is made beside another, the lock goes only
     after the runtime, an idle lifecycle runs or has a timer armed, and retries back off within their bounds.  What a
     step is for happens as well: `StepRight`.
     */
    method Perform(step: Step)
      requires Valid()
      modifies this
      ensures Valid() && View() == Apply(config, old(View()), step)
      ensures LifecycleOutcomes.StepRight(config, old(View()), step, View())
      ensures live == (if runtime.Some? then {runtime.value} else {})
      ensures nextRuntime != old(nextRuntime) ==> old(live) == {}
      ensures released ==> live == {} && disposeRequested && !pc.Creating? && !pc.StartingRuntime?
      ensures startCalled && pc == Idle && operationTail == [] && !disposeRequested ==> timer.Some? || Healthy(View())
      ensures forall d | d in delays :: config.retryBase <= d <= config.retryMax
      ensures forall i, j | 0 <= i < j < |delays| :: delays[i] <= delays[j]
    {
      hide CallStart, CallDispose, TimerFires, LoseLock, Begin, Created, Started, Stop, Contended, Released, Healthy,
        LifecycleOutcomes.StepRight;
      LifecycleTheorems.ApplyKeeps(config, View(), step);
      LifecycleOutcomes.StepMeans(config, View(), step);
      LifecycleTheorems.OnlyCreatedCounts(config, View(), step);
      match step {
        case DoStart => StartLifecycle();
        case DoDispose(timerFails) => DisposeLifecycle(timerFails);
        case DoTimer => OnTimer();
        case DoLose => OnOwnershipLost();
        case DoBegin(unsubscribes) => RunNext(unsubscribes);
        case DoCreated(ok) => OnRuntimeCreated(ok);
        case DoStarted(ok) => OnRuntimeStarted(ok);
        case DoStop(ok, unsubscribes) => OnRuntimeStopped(ok, unsubscribes);
        case DoContended(acquired, answer) => OnContended(acquired, answer);
        case DoReleased(ok) => OnReleased(ok);
      }
    }

    // ---------- Timers ----------

    method Arm(delay: nat)
      modifies this`timer
      ensures View() == Schedule(old(View()), delay)
    {
      if disposeRequested || timer.Some? {
        return;
      }
      timer := Some(if delay < MAX_TIMER then delay else MAX_TIMER);
    }

    method ArmRetry()
      modifies this`timer, this`retryAttempt, this`delays
      ensures View() == ScheduleRetry(config, old(View()))
    {
      hide RetryDelay;
      retryAttempt := if retryAttempt + 1 < MAX_ATTEMPT then retryAttempt + 1 else MAX_ATTEMPT;
      var delay := RetryDelay(config, retryAttempt);
      delays := delays + [delay];
      Arm(delay);
    }

    method ReturnToContention()
      modifies this`pc, this`status, this`timer
      ensures View() == Contend(config, old(View()))
    {
      pc, status := Idle, Contending;
      Arm(config.contentionInterval);
    }

    method FailAndRetry()
      modifies this`pc, this`status, this`timer, this`retryAttempt, this`delays
      ensures View() == Fail(config, old(View()))
    {
      hide ScheduleRetry;
      pc, status := Idle, Errored;
      ArmRetry();
    }

    method ClearRetries()
      modifies this`retryAttempt, this`delays
      ensures View() == ResetRetries(old(View()))
    {
      retryAttempt, delays := 0, [];
    }

    // ---------- Calls and events ----------

    method StartLifecycle()
      modifies this
      ensures View() == CallStart(old(View()))
    {
      if disposeRequested || startCalled {
        return;
      }
      startCalled := true;
      operationTail := operationTail + [StartOp];
    }

    /** `timerFails`: cancelling the armed timer throws. */
    method DisposeLifecycle(timerFails: bool)
      modifies this
      ensures View() == CallDispose(old(View()), timerFails)
    {
      if disposing || status == Disposed {
        return;
      }
      disposeRequested, disposing := true, true;
      var timerFailure := timer.Some? && timerFails;
      timer := None;
      operationTail := operationTail + [DisposeOp(timerFailure)];
    }

    method OnTimer()
      modifies this
      ensures View() == TimerFires(old(View()))
    {
      if timer.None? {
        return;
      }
      timer := None;
      operationTail := operationTail + [ContendOp];
    }

    method OnOwnershipLost()
      modifies this
      ensures View() == LoseLock(old(View()))
    {
      if owner.None? {
        return;
      }
      owner := None;
      if subscribed && !disposeRequested {
        operationTail := operationTail + [LossOp];
      }
    }

    // ---------- Operations ----------

    /** `startRuntime` up to the factory. */
    method EnterRuntime(generation: nat)
      modifies this
      ensures View() == BeginRuntime(config, old(View()), generation)
    {
      if !IsOwnerOf(Some(generation)) || disposeRequested {
        ReturnToContention();
        return;
      }
      pc, status := Creating(generation), Starting;
    }

    method StartCore()
      modifies this
      ensures View() == BeginStart(config, old(View()))
    {
      hide Contend, BeginRuntime;
      if disposeRequested {
        pc := Idle;
        return;
      }
      begun, subscribed := true, true;
      if owner.None? {
        ReturnToContention();
      } else {
        EnterRuntime(owner.value);
      }
    }

    method HandleOwnershipLoss()
      modifies this
      ensures View() == BeginLoss(config, old(View()))
    {
      hide Contend;
      if disposeRequested {
        pc := Idle;
        return;
      }
      if runtime.Some? {
        pc, status := StoppingLost, Stopping;
        return;
      }
      ClearRetries();
      ReturnToContention();
    }

    method RunScheduledContention()
      modifies this
      ensures View() == BeginContention(old(View()))
    {
      if disposeRequested {
        pc := Idle;
        return;
      }
      if runtime.Some? && !IsOwnerOf(runtimeGeneration) {
        pc, status := StoppingStale, Stopping;
        return;
      }
      if runtime.Some? {
        ClearRetries();
        pc, status := Idle, Running;
        return;
      }
      pc, status := AwaitingLock, Contending;
    }

    method AbandonDispose()
      modifies this
      ensures View() == FailDispose(old(View()))
    {
      pc, status, disposing := Idle, Errored, false;
    }

    /** Drops the loss listener and asks the lock to release itself. */
    method ReleaseLock(unsubscribes: bool)
      modifies this
      ensures View() == Unsubscribe(old(View()), unsubscribes)
    {
      if !unsubscribes {
        AbandonDispose();
        return;
      }
      subscribed, released := false, true;
      pc := ReleasingLock;
    }

    method DisposeCore(timerFailed: bool, unsubscribes: bool)
      modifies this
      ensures View() == BeginDispose(old(View()), timerFailed, unsubscribes)
    {
      hide Unsubscribe, FailDispose;
      status := Stopping;
      if runtime.Some? {
        pc := StoppingFinal(timerFailed);
      } else if timerFailed {
        AbandonDispose();
      } else {
        ReleaseLock(unsubscribes);
      }
    }

    method RunNext(unsubscribes: bool)
      modifies this
      ensures View() == Begin(config, old(View()), unsubscribes)
    {
      hide BeginStart, BeginLoss, BeginContention, BeginDispose;
      if pc != Idle || operationTail == [] {
        return;
      }
      var next := operationTail[0];
      operationTail := operationTail[1..];
      match next {
        case StartOp => StartCore();
        case LossOp => HandleOwnershipLoss();
        case ContendOp => RunScheduledContention();
        case DisposeOp(timerFailed) => DisposeCore(timerFailed, unsubscribes);
      }
    }

    // ---------- Answers ----------

    method OnRuntimeCreated(ok: bool)
      modifies this
      ensures View() == Created(config, old(View()), ok)
    {
      hide Fail;
      if !pc.Creating? {
        return;
      }
      if !ok {
        FailAndRetry();
        return;
      }
      var generation := pc.generation;
      runtime, runtimeGeneration := Some(nextRuntime), Some(generation);
      live, nextRuntime := live + {nextRuntime}, nextRuntime + 1;
      if !IsOwnerOf(Some(generation)) || disposeRequested {
        pc := StoppingStarted(false);
      } else {
        pc := StartingRuntime(generation);
      }
    }

    method OnRuntimeStarted(ok: bool)
      modifies this
      ensures View() == Started(config, old(View()), ok)
    {
      if !pc.StartingRuntime? {
        return;
      }
      if !ok {
        pc := StoppingStarted(true);
      } else if !IsOwnerOf(Some(pc.generation)) || disposeRequested {
        pc := StoppingStarted(false);
      } else {
        ClearRetries();
        pc, status := Idle, Running;
      }
    }

    method ForgetRuntime()
      modifies this
      ensures View() == Stopped(old(View()))
    {
      if runtime.Some? {
        live := live - {runtime.value};
      }
      runtime, runtimeGeneration := None, None;
    }

    method OnRuntimeStopped(ok: bool, unsubscribes: bool)
      modifies this
      ensures View() == Stop(config, old(View()), ok, unsubscribes)
    {
      hide Fail, Contend, Unsubscribe, Stopped, ResetRetries, FailDispose;
      var at := pc;
      if !(at.StoppingStarted? || at.StoppingLost? || at.StoppingStale? || at.StoppingFinal?) {
        return;
      }
      if !ok {
        if at.StoppingFinal? {
          AbandonDispose();
        } else {
          FailAndRetry();
        }
        return;
      }
      ForgetRuntime();
      match at {
        case StoppingStarted(startFailed) =>
          if startFailed { FailAndRetry(); } else { ReturnToContention(); }
        case StoppingLost =>
          ClearRetries();
          ReturnToContention();
        case StoppingStale =>
          pc, status := AwaitingLock, Contending;
        case StoppingFinal(timerFailed) =>
          if timerFailed { AbandonDispose(); } else { ReleaseLock(unsubscribes); }
      }
    }

    method OnContended(acquired: Option<nat>, answer: Answer)
      modifies this
      ensures View() == Contended(config, old(View()), acquired, answer)
    {
      hide Fail, Contend, BeginRuntime, ResetRetries;
      if pc != AwaitingLock {
        return;
      }
      if owner.None? {
        owner := acquired;
      }
      match answer {
        case Throws => FailAndRetry();
        case No =>
          ClearRetries();
          ReturnToContention();
        case Yes =>
          if owner.None? {
            FailAndRetry();
          } else {
            status := TakingOver;
            EnterRuntime(owner.value);
          }
      }
    }

    method OnReleased(ok: bool)
      modifies this
      ensures View() == Released(old(View()), ok)
    {
      hide FailDispose;
      if pc != ReleasingLock {
        return;
      }
      if ok {
        pc, status, owner := Idle, Disposed, None;
      } else {
        AbandonDispose();
      }
    }
  }
}
