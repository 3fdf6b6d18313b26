/**
 One Agent Host for the life of a Codespace: src/agentHost/RetainedOwnedAgentHostLauncher.ts, and the
 sessions that may be continued on it, from src/agentHost/AhpAgentRuntime.ts.

 Every function is the code between two awaits.  `launches` counts the calls of the wrapped launcher's `launch`;
 `issued` records the fingerprint of every lease ever handed out.
 */
module RetainedHost {
  import opened Wrappers

  type Id = nat

  /** The shared start: queued, waiting for the wrapped launcher, failed but not yet caught, or settled. */
  datatype Launch = Queued | Wrapped | Throwing | Settling(ok: bool)

  datatype Host = Host(fingerprint: Id, subscribed: bool)

  datatype Disposal = NotDisposing | AwaitingLaunch | ReleasingLeases | DisposingWrapped(failed: bool)

  datatype State = State(
    retained: Option<Host>,
    launching: Option<Launch>,
    failed: bool,
    stopping: bool,
    wrappedDisposed: bool,
    disposal: Disposal,
    disposed: bool,
    leases: set<Id>,
    waiters: set<Id>,
    nextId: nat,
    launches: nat,
    issued: seq<Id>)

  const NEW: State := State(None, None, false, false, false, NotDisposing, false, {}, {}, 0, 0, [])

  predicate Available(s: State) {
    !s.stopping && !s.failed
  }

  datatype Reply = Lease(id: Id) | Waits(id: Id) | Refused

  function CreateLease(s: State): State
    requires s.retained.Some?
  {
    s.(leases := s.leases + {s.nextId}, nextId := s.nextId + 1, issued := s.issued + [s.retained.value.fingerprint])
  }

  /** `launch`: a lease at once, or a place among those that wait for the one shared start. */
  function Request(s: State, aborted: bool): (State, Reply) {
    if !Available(s) || aborted then (s, Refused)
    else if s.retained.Some? then (CreateLease(s), Lease(s.nextId))
    else
      (s.(launching := if s.launching.Some? then s.launching else Some(Queued),
          waiters := s.waiters + {s.nextId}, nextId := s.nextId + 1), Waits(s.nextId))
  }

  /** A task that gives up cancels its place only. */
  function CancelWaiter(s: State, waiter: Id): State {
    s.(waiters := s.waiters - {waiter})
  }

  function FailGeneration(s: State): State {
    if s.failed || s.stopping then s else s.(failed := true)
  }

  /** The first microtask of the shared start. */
  function BeginLaunch(s: State): State {
    if s.launching != Some(Queued) then s
    else if !Available(s) then s.(launching := Some(Throwing))
    else s.(launching := Some(Wrapped), launches := s.launches + 1)
  }

  /** The wrapped launcher answers; an editor Host, or one that arrives too late, is an error after all. */
  function Launched(s: State, ok: bool, fingerprint: Id, fromEditor: bool): State {
    if s.launching != Some(Wrapped) then s
    else if !ok then s.(launching := Some(Throwing))
    else
      var held := s.(retained := Some(Host(fingerprint, true)));
      held.(launching := Some(if fromEditor || !Available(s) then Throwing else Settling(true)))
  }

  /** The catch handler marks the generation as failed. */
  function Caught(s: State): State {
    if s.launching != Some(Throwing) then s else FailGeneration(s).(launching := Some(Settling(false)))
  }

  function Settled(s: State): State {
    if s.launching.Some? && s.launching.value.Settling? then s.(launching := None) else s
  }

  /** A waiter learns the outcome; a Host that is no longer current gives no lease. */
  function Notify(s: State, waiter: Id): (State, Reply) {
    if waiter !in s.waiters || s.launching.Some? then (s, Refused)
    else
      var rest := s.(waiters := s.waiters - {waiter});
      if Available(s) && s.retained.Some? then (CreateLease(rest), Lease(s.nextId)) else (rest, Refused)
  }

  function HostExits(s: State): State {
    if s.retained.Some? && s.retained.value.subscribed then FailGeneration(s) else s
  }

  /** A task releases its own lease. */
  function ReleaseLease(s: State, lease: Id): State {
    s.(leases := s.leases - {lease})
  }

  /** `dispose`, up to waiting for the start under way; calls join a disposal that is under way or done. */
  function Dispose(s: State): State {
    if s.disposal != NotDisposing || s.disposed then s else s.(stopping := true, disposal := AwaitingLaunch)
  }

  function LaunchOver(s: State): State {
    if s.disposal == AwaitingLaunch && s.launching.None? then s.(disposal := ReleasingLeases) else s
  }

  /** All leases have been disposed, except those whose clean-up threw. */
  function LeasesReleased(s: State, kept: set<Id>): State {
    if s.disposal != ReleasingLeases then s
    else s.(leases := s.leases * kept, disposal := DisposingWrapped(s.leases * kept != {}))
  }

  /** The wrapped launcher is disposed unless it was before; then the exit subscription. */
  function WrappedAnswers(s: State, ok: bool, unsubscribes: bool): State {
    if !s.disposal.DisposingWrapped? then s
    else
      var wrapped := s.wrappedDisposed || ok;
      var drops := wrapped && s.retained.Some? && s.retained.value.subscribed;
      var left := s.(wrappedDisposed := wrapped,
                     retained := if drops && unsubscribes then Some(s.retained.value.(subscribed := false)) else s.retained);
      if s.disposal.failed || !wrapped || (drops && !unsubscribes) then left.(disposal := NotDisposing)
      else left.(disposal := NotDisposing, disposed := true, retained := None)
  }

  datatype Step =
    | DoRequest(aborted: bool)
    | DoCancelWaiter(waiter: Id)
    | DoBeginLaunch
    | DoLaunched(ok: bool, fingerprint: Id, fromEditor: bool)
    | DoCaught
    | DoSettled
    | DoNotify(waiter: Id)
    | DoHostExits
    | DoReleaseLease(lease: Id)
    | DoDispose
    | DoLaunchOver
    | DoLeasesReleased(kept: set<Id>)
    | DoWrappedAnswers(ok: bool, unsubscribes: bool)

  function Apply(s: State, step: Step): State {
    match step
    case DoRequest(aborted) => Request(s, aborted).0
    case DoCancelWaiter(waiter) => CancelWaiter(s, waiter)
    case DoBeginLaunch => BeginLaunch(s)
    case DoLaunched(ok, fingerprint, fromEditor) => Launched(s, ok, fingerprint, fromEditor)
    case DoCaught => Caught(s)
    case DoSettled => Settled(s)
    case DoNotify(waiter) => Notify(s, waiter).0
    case DoHostExits => HostExits(s)
    case DoReleaseLease(lease) => ReleaseLease(s, lease)
    case DoDispose => Dispose(s)
    case DoLaunchOver => LaunchOver(s)
    case DoLeasesReleased(kept) => LeasesReleased(s, kept)
    case DoWrappedAnswers(ok, unsubscribes) => WrappedAnswers(s, ok, unsubscribes)
  }

  function Run(s: State, steps: seq<Step>): State
    decreases |steps|
  {
    if steps == [] then s else Run(Apply(s, steps[0]), steps[1..])
  }

  // ---------- The invariant ----------

  predicate LaunchOk(s: State) {
    && s.launches <= 1
    && (s.launching == Some(Queued) ==> s.launches == 0)
    && (s.launching == Some(Wrapped) ==> s.launches == 1 && s.retained.None?)
    && (s.retained.Some? ==> s.launches == 1)
    && (s.launches == 1 && s.launching.None? ==> s.retained.Some? || s.failed || s.stopping)
    && (s.launches == 1 && s.launching.Some? && s.launching.value.Settling? ==> s.retained.Some? || s.failed || s.stopping)
  }

  predicate FingerprintsOk(s: State) {
    && (forall i | 0 <= i < |s.issued| :: s.issued[i] == s.issued[0])
    && (s.issued != [] ==> s.launches == 1)
    && (s.issued != [] && s.launching == Some(Wrapped) ==> false)
    && (s.issued != [] && s.retained.Some? ==> s.retained.value.fingerprint == s.issued[0])
  }

  predicate DisposalOk(s: State) {
    && (s.disposal != NotDisposing ==> s.stopping)
    && (s.disposal == ReleasingLeases || s.disposal.DisposingWrapped? ==> s.launching.None?)
    && (s.disposal == DisposingWrapped(false) ==> s.leases == {})
    && (s.wrappedDisposed ==> s.stopping && s.launching.None?)
    && (s.disposed ==> s.wrappedDisposed && s.stopping && s.leases == {} && s.retained.None? && s.launching.None?)
    && (s.stopping && s.disposal == NotDisposing ==> s.launching.None?)
  }

  predicate Inv(s: State) {
    LaunchOk(s) && FingerprintsOk(s) && DisposalOk(s)
  }

  lemma RequestsKeep(s: State, aborted: bool, id: Id)
    requires Inv(s)
    ensures Inv(Request(s, aborted).0) && Inv(Notify(s, id).0) && Inv(CancelWaiter(s, id)) && Inv(ReleaseLease(s, id))
  {
  }

  lemma StartKeeps(s: State, ok: bool, fingerprint: Id, fromEditor: bool)
    requires Inv(s)
    ensures Inv(BeginLaunch(s)) && Inv(Launched(s, ok, fingerprint, fromEditor)) && Inv(Caught(s)) && Inv(Settled(s))
    ensures Inv(HostExits(s))
  {
  }

  lemma DisposalKeeps(s: State, kept: set<Id>, ok: bool, unsubscribes: bool)
    requires Inv(s)
    ensures Inv(Dispose(s)) && Inv(LaunchOver(s)) && Inv(LeasesReleased(s, kept))
    ensures Inv(WrappedAnswers(s, ok, unsubscribes))
  {
  }

  lemma ApplyKeeps(s: State, step: Step)
    requires Inv(s)
    ensures Inv(Apply(s, step))
  {
    hide Inv, Request, Notify, CancelWaiter, ReleaseLease, BeginLaunch, Launched, Caught, Settled, HostExits, Dispose,
      LaunchOver, LeasesReleased, WrappedAnswers;
    match step
    case DoRequest(aborted) => RequestsKeep(s, aborted, 0);
    case DoCancelWaiter(waiter) => RequestsKeep(s, false, waiter);
    case DoNotify(waiter) => RequestsKeep(s, false, waiter);
    case DoReleaseLease(lease) => RequestsKeep(s, false, lease);
    case DoLaunched(ok, fingerprint, fromEditor) => StartKeeps(s, ok, fingerprint, fromEditor);
    case DoLeasesReleased(kept) => DisposalKeeps(s, kept, false, false);
    case DoWrappedAnswers(ok, unsubscribes) => DisposalKeeps(s, {}, ok, unsubscribes);
    case _ =>
      StartKeeps(s, false, 0, false);
      DisposalKeeps(s, {}, false, false);
  }

  lemma ApplyIsPermanent(s: State, step: Step)
    ensures s.failed ==> Apply(s, step).failed
    ensures s.stopping ==> Apply(s, step).stopping
    ensures s.wrappedDisposed ==> Apply(s, step).wrappedDisposed
    ensures s.failed || s.stopping ==> Apply(s, step).issued == s.issued && Apply(s, step).launches == s.launches
  {
  }

  lemma {:induction false} RunKeeps(s: State, steps: seq<Step>)
    requires Inv(s)
    ensures Inv(Run(s, steps))
    ensures s.failed ==> Run(s, steps).failed
    ensures s.stopping ==> Run(s, steps).stopping
    ensures s.failed || s.stopping ==> Run(s, steps).issued == s.issued && Run(s, steps).launches == s.launches
    decreases |steps|
  {
    hide Inv, Apply;
    if steps == [] {
    } else {
      ApplyKeeps(s, steps[0]);
      ApplyIsPermanent(s, steps[0]);
      RunKeeps(Apply(s, steps[0]), steps[1..]);
    }
  }

  // ---------- The promises ----------

  /** The wrapped launcher starts a Host at most once in the object's whole life. */
  lemma LaunchesOnce(steps: seq<Step>)
    ensures Run(NEW, steps).launches <= 1
  {
    RunKeeps(NEW, steps);
    hide Run;
  }

  /** Failure and stopping are permanent: afterwards no lease is handed out and no Host is started. */
  lemma FailureIsPermanent(steps: seq<Step>, more: seq<Step>)
    requires Run(NEW, steps).failed || Run(NEW, steps).stopping
    ensures var s, s' := Run(NEW, steps), Run(Run(NEW, steps), more);
      && (s.failed ==> s'.failed) && (s.stopping ==> s'.stopping)
      && s'.issued == s.issued && s'.launches == s.launches && !Available(s')
  {
    RunKeeps(NEW, steps);
    hide Inv, Run;
    RunKeeps(Run(NEW, steps), more);
  }

  /** All leases ever handed out name the same Host generation. */
  lemma LeasesShareOneFingerprint(steps: seq<Step>, i: nat, j: nat)
    requires i < |Run(NEW, steps).issued| && j < |Run(NEW, steps).issued|
    ensures Run(NEW, steps).issued[i] == Run(NEW, steps).issued[j]
  {
    RunKeeps(NEW, steps);
    hide Run;
  }

  /** Disposal reports success only when everything owned is gone; no start is under way once the launcher is disposed. */
  lemma DisposedMeansClean(steps: seq<Step>)
    ensures var s := Run(NEW, steps);
      && (s.disposed ==> s.wrappedDisposed && s.leases == {} && s.retained.None? && s.launching.None?)
      && (s.wrappedDisposed ==> s.launching.None? && s.stopping)
  {
    RunKeeps(NEW, steps);
    hide Run;
  }

  /**
   The order of a disposal: first the start under way ends, then all leases are released, then the wrapped launcher is
   disposed, also when a lease could not be released, and only then the exit subscription is dropped.  Success takes
   all of them.
   */
  lemma DisposalOrder(steps: seq<Step>, step: Step)
    ensures var s := Run(NEW, steps); var s' := Apply(s, step);
      && (s'.disposal == ReleasingLeases && s.disposal != ReleasingLeases ==>
            s.disposal == AwaitingLaunch && s.launching.None?)
      && (s'.disposal.DisposingWrapped? && !s.disposal.DisposingWrapped? ==>
            s.disposal == ReleasingLeases && step.DoLeasesReleased? && s'.leases == s.leases * step.kept)
      && (s'.wrappedDisposed && !s.wrappedDisposed ==>
            s.disposal.DisposingWrapped? && s.launching.None? && (s.leases != {} ==> s.disposal.failed))
      && (s.retained.Some? && s.retained.value.subscribed && (s'.retained.None? || !s'.retained.value.subscribed) ==>
            s.disposal.DisposingWrapped? && s'.wrappedDisposed)
      && (s'.disposed && !s.disposed ==>
            s.disposal == DisposingWrapped(false) && s'.wrappedDisposed && s'.retained.None? && s'.leases == {})
  {
    RunKeeps(NEW, steps);
    hide Run, FingerprintsOk;
  }

  /** A lease is handed out: it is held, and carries the fingerprint of the Host. */
  predicate LeaseGiven(s: State, s': State, id: Id) {
    && s.retained.Some? && id == s.nextId && s'.leases == s.leases + {id} && s'.nextId == s.nextId + 1
    && s'.issued == s.issued + [s.retained.value.fingerprint]
  }

  /** What each step comes to while the object is of use. */
  ghost predicate StepRight(s: State, step: Step, s': State) {
    match step
    case DoRequest(aborted) =>
      if !Available(s) || aborted then s' == s
      else if s.retained.Some? then LeaseGiven(s, s', s.nextId)
      else s'.waiters == s.waiters + {s.nextId} && s'.launching == (if s.launching.Some? then s.launching else Some(Queued))
    case DoNotify(waiter) =>
      if waiter !in s.waiters || s.launching.Some? then s' == s
      else
        && s'.waiters == s.waiters - {waiter}
        && (if Available(s) && s.retained.Some? then LeaseGiven(s, s', s.nextId) else s'.leases == s.leases && s'.issued == s.issued)
    case DoBeginLaunch =>
      if s.launching != Some(Queued) then s' == s
      else if Available(s) then s'.launching == Some(Wrapped) && s'.launches == s.launches + 1
      else s'.launching == Some(Throwing) && s'.launches == s.launches
    case DoLaunched(ok, fingerprint, fromEditor) =>
      if s.launching != Some(Wrapped) then s' == s
      else
        && (ok ==> s'.retained == Some(Host(fingerprint, true)))
        && s'.launching == Some(if ok && !fromEditor && Available(s) then Settling(true) else Throwing)
    case DoCaught =>
      if s.launching != Some(Throwing) then s' == s
      else s'.launching == Some(Settling(false)) && (s'.failed || s.stopping)
    case DoSettled => if s.launching.Some? && s.launching.value.Settling? then s'.launching.None? && s'.retained == s.retained else s' == s
    case DoHostExits => if s.retained.Some? && s.retained.value.subscribed then s'.failed || s.stopping else s' == s
    case DoCancelWaiter(waiter) => s' == s.(waiters := s.waiters - {waiter})
    case DoReleaseLease(lease) => s' == s.(leases := s.leases - {lease})
    case DoDispose => if s.disposal != NotDisposing || s.disposed then s' == s else s'.stopping && s'.disposal == AwaitingLaunch
    case DoLaunchOver =>
      s'.disposal == if s.disposal == AwaitingLaunch && s.launching.None? then ReleasingLeases else s.disposal
    case DoLeasesReleased(_) => s.disposal == ReleasingLeases ==> s'.disposal.DisposingWrapped?
    case DoWrappedAnswers(ok, unsubscribes) =>
      && (s.disposal.DisposingWrapped? ==> s'.disposal == NotDisposing && (ok ==> s'.wrappedDisposed))
      && (s.disposal == DisposingWrapped(false) && ok && unsubscribes ==> s'.disposed)
  }

  lemma StepMeans(s: State, step: Step)
    ensures StepRight(s, step, Apply(s, step))
  {
  }

  /** Whoever asks while a Host is retained and the object is of use gets a lease, at once or when notified. */
  lemma AvailableGivesLeases(steps: seq<Step>, waiter: Id)
    requires var s := Run(NEW, steps); Available(s) && s.retained.Some? && s.launching.None?
    ensures var s := Run(NEW, steps);
      && Request(s, false).1 == Lease(s.nextId) && LeaseGiven(s, Request(s, false).0, s.nextId)
      && (waiter in s.waiters ==> Notify(s, waiter).1 == Lease(s.nextId) && LeaseGiven(s, Notify(s, waiter).0, s.nextId))
  {
    hide Run;
  }

  /** The first request starts the Host, and once that has come up everyone who waited gets a lease. */
  lemma FirstRequestIsServed(fingerprint: Id)
    ensures var up := Run(NEW, [DoRequest(false), DoBeginLaunch, DoLaunched(true, fingerprint, false), DoSettled]);
      && Available(up) && up.retained == Some(Host(fingerprint, true)) && up.launching.None? && up.launches == 1
      && up.waiters == {0} && Notify(up, 0).1 == Lease(up.nextId) && Notify(up, 0).0.issued == [fingerprint]
  {
    FourSteps(NEW, DoRequest(false), DoBeginLaunch, DoLaunched(true, fingerprint, false), DoSettled);
    var s1 := Apply(NEW, DoRequest(false));
    assert s1 == NEW.(launching := Some(Queued), waiters := {0}, nextId := 1);
    var s2 := Apply(s1, DoBeginLaunch);
    assert s2 == s1.(launching := Some(Wrapped), launches := 1);
  }

  /** A failed disposal can be called again, and succeeds when nothing throws any more. */
  lemma DisposalCanBeRetried(steps: seq<Step>)
    requires Run(NEW, steps).stopping && Run(NEW, steps).disposal == NotDisposing && !Run(NEW, steps).disposed
    ensures var s := Run(NEW, steps);
      Run(s, [DoDispose, DoLaunchOver, DoLeasesReleased({}), DoWrappedAnswers(true, true)]).disposed
  {
    RunKeeps(NEW, steps);
    hide Run, LaunchOk, FingerprintsOk;
    DisposalSucceeds(Run(NEW, steps));
    hide Inv, Apply;
    FourSteps(Run(NEW, steps), DoDispose, DoLaunchOver, DoLeasesReleased({}), DoWrappedAnswers(true, true));
  }

  lemma DisposalSucceeds(s: State)
    requires s.stopping && s.disposal == NotDisposing && !s.disposed && s.launching.None?
    ensures Apply(Apply(Apply(Apply(s, DoDispose), DoLaunchOver), DoLeasesReleased({})), DoWrappedAnswers(true, true)).disposed
  {
    assert s.leases * {} == {};
  }

  lemma FourSteps(s: State, a: Step, b: Step, c: Step, d: Step)
    ensures Run(s, [a, b, c, d]) == Apply(Apply(Apply(Apply(s, a), b), c), d)
  {
    hide Apply;
    assert [a, b, c, d][1..] == [b, c, d] && [b, c, d][1..] == [c, d] && [c, d][1..] == [d] && [d][1..] == [];
    var s1 := Apply(s, a);
    var s2 := Apply(s1, b);
    var s3 := Apply(s2, c);
    assert Run(s3, [d]) == Run(Apply(s3, d), []);
    assert Run(s2, [c, d]) == Run(s3, [d]);
    assert Run(s1, [b, c, d]) == Run(s2, [c, d]);
  }

  // ---------- The launcher object ----------

  /** The fields of `RetainedOwnedAgentHostLauncher`; its promises are the explicit phases of module state. */
  class RetainedOwnedAgentHostLauncher {
    var retained: Option<Host>
    var launching: Option<Launch>
    var generationFailed: bool
    var stopping: bool
    var wrappedDisposed: bool
    var disposal: Disposal
    var disposed: bool
    var leases: set<Id>
    var waiters: set<Id>
    var nextId: nat
    ghost var launches: nat
    ghost var issued: seq<Id>

    ghost function View(): State
      reads this
    {
      State(retained, launching, generationFailed, stopping, wrappedDisposed, disposal, disposed, leases, waiters, nextId,
            launches, issued)
    }

    ghost predicate Valid()
      reads this
    {
      Inv(View())
    }

    constructor ()
      ensures Valid() && View() == NEW
    {
      retained, launching, generationFailed, stopping, wrappedDisposed := None, None, false, false, false;
      disposal, disposed, leases, waiters, nextId, launches, issued := NotDisposing, false, {}, {}, 0, 0, [];
    }

    /**
     Whatever happens next: one launch at most, failing and stopping for good with no lease after either, one
     fingerprint for all leases, and disposal only of an object that owns nothing more.
     */
    method Perform(step: Step)
      requires Valid()
      modifies this
      ensures Valid() && View() == Apply(old(View()), step)
      ensures StepRight(old(View()), step, View())
      ensures launches <= 1
      ensures old(generationFailed) ==> generationFailed
      ensures old(stopping) ==> stopping
      ensures old(generationFailed) || old(stopping) ==> issued == old(issued) && launches == old(launches)
      ensures forall i, j | 0 <= i < |issued| && 0 <= j < |issued| :: issued[i] == issued[j]
      ensures disposed ==> wrappedDisposed && leases == {} && retained.None? && launching.None?
    {
      hide Request, Notify, CancelWaiter, ReleaseLease, BeginLaunch, Launched, Caught, Settled,
        HostExits, Dispose, LaunchOver, LeasesReleased, WrappedAnswers;
      ApplyKeeps(View(), step);
      ApplyIsPermanent(View(), step);
      StepMeans(View(), step);
      match step {
        case DoRequest(aborted) => var _ := LaunchHost(aborted);
        case DoCancelWaiter(waiter) => AbandonPlace(waiter);
        case DoBeginLaunch => StartHost();
        case DoLaunched(ok, fingerprint, fromEditor) => OnLaunched(ok, fingerprint, fromEditor);
        case DoCaught => OnLaunchFailed();
        case DoSettled => OnLaunchSettled();
        case DoNotify(waiter) => var _ := NotifyWaiter(waiter);
        case DoHostExits => OnHostExit();
        case DoReleaseLease(lease) => DropLease(lease);
        case DoDispose => BeginDispose();
        case DoLaunchOver => OnLaunchOver();
        case DoLeasesReleased(kept) => OnLeasesReleased(kept);
        case DoWrappedAnswers(ok, unsubscribes) => OnWrappedDisposed(ok, unsubscribes);
      }
    }

    method AbandonPlace(waiter: Id)
      modifies this`waiters
      ensures View() == CancelWaiter(old(View()), waiter)
    {
      waiters := waiters - {waiter};
    }

    method DropLease(lease: Id)
      modifies this`leases
      ensures View() == ReleaseLease(old(View()), lease)
    {
      leases := leases - {lease};
    }

    method AddLease() returns (id: Id)
      requires retained.Some?
      modifies this
      ensures id == old(nextId) && View() == CreateLease(old(View()))
    {
      id := nextId;
      leases, nextId, issued := leases + {id}, nextId + 1, issued + [retained.value.fingerprint];
    }

    method LaunchHost(aborted: bool) returns (reply: Reply)
      modifies this
      ensures (View(), reply) == Request(old(View()), aborted)
    {
      if stopping || generationFailed || aborted {
        return Refused;
      }
      if retained.Some? {
        var id := AddLease();
        return Lease(id);
      }
      if launching.None? {
        launching := Some(Queued);
      }
      waiters, nextId := waiters + {nextId}, nextId + 1;
      return Waits(nextId - 1);
    }

    method FailTheGeneration()
      modifies this
      ensures View() == FailGeneration(old(View()))
    {
      if generationFailed || stopping {
        return;
      }
      generationFailed := true;
    }

    method StartHost()
      modifies this
      ensures View() == BeginLaunch(old(View()))
    {
      if launching != Some(Queued) {
        return;
      }
      if stopping || generationFailed {
        launching := Some(Throwing);
        return;
      }
      launching, launches := Some(Wrapped), launches + 1;
    }

    method OnLaunched(ok: bool, fingerprint: Id, fromEditor: bool)
      modifies this
      ensures View() == Launched(old(View()), ok, fingerprint, fromEditor)
    {
      if launching != Some(Wrapped) {
        return;
      }
      if !ok {
        launching := Some(Throwing);
        return;
      }
      retained := Some(Host(fingerprint, true));
      if fromEditor || stopping || generationFailed {
        launching := Some(Throwing);
      } else {
        launching := Some(Settling(true));
      }
    }

    method OnLaunchFailed()
      modifies this
      ensures View() == Caught(old(View()))
    {
      if launching != Some(Throwing) {
        return;
      }
      FailTheGeneration();
      launching := Some(Settling(false));
    }

    method OnLaunchSettled()
      modifies this
      ensures View() == Settled(old(View()))
    {
      if launching.Some? && launching.value.Settling? {
        launching := None;
      }
    }

    method NotifyWaiter(waiter: Id) returns (reply: Reply)
      modifies this
      ensures (View(), reply) == Notify(old(View()), waiter)
    {
      if waiter !in waiters || launching.Some? {
        return Refused;
      }
      waiters := waiters - {waiter};
      if stopping || generationFailed || retained.None? {
        return Refused;
      }
      var id := AddLease();
      return Lease(id);
    }

    method OnHostExit()
      modifies this
      ensures View() == HostExits(old(View()))
    {
      if retained.Some? && retained.value.subscribed {
        FailTheGeneration();
      }
    }

    method BeginDispose()
      modifies this
      ensures View() == Dispose(old(View()))
    {
      if disposal != NotDisposing || disposed {
        return;
      }
      stopping, disposal := true, AwaitingLaunch;
    }

    /** Disposal goes on once no start is under way. */
    method OnLaunchOver()
      modifies this`disposal
      ensures View() == LaunchOver(old(View()))
    {
      if disposal == AwaitingLaunch && launching.None? {
        disposal := ReleasingLeases;
      }
    }

    method OnLeasesReleased(kept: set<Id>)
      modifies this
      ensures View() == LeasesReleased(old(View()), kept)
    {
      if disposal != ReleasingLeases {
        return;
      }
      leases := leases * kept;
      disposal := DisposingWrapped(leases != {});
    }

    method OnWrappedDisposed(ok: bool, unsubscribes: bool)
      modifies this
      ensures View() == WrappedAnswers(old(View()), ok, unsubscribes)
    {
      if !disposal.DisposingWrapped? {
        return;
      }
      var cleanupFailed := disposal.failed;
      if !wrappedDisposed {
        if ok { wrappedDisposed := true; } else { cleanupFailed := true; }
      }
      if wrappedDisposed && retained.Some? && retained.value.subscribed {
        if unsubscribes { retained := Some(retained.value.(subscribed := false)); } else { cleanupFailed := true; }
      }
      disposal := NotDisposing;
      if cleanupFailed {
        return;
      }
      disposed, retained := true, None;
    }
  }
}
