/** What every run of the task service keeps, and what it promises. */
module TaskServiceSafety {
  import opened Wrappers
  import Registry
  import RegistrySafety
  import RegistryTheorems
  import opened TaskReducer
  import opened TaskService

  function BindingOf(reg: Registry.State, t: Id): Option<Registry.Binding> {
    if t in reg.bindings then Some(reg.bindings[t]) else None
  }

  predicate Routed(b: Option<Registry.Binding>, owner: Id, leaseKey: Id) {
    b.Some? && b.value.owner == owner && b.value.leaseKey == leaseKey
  }

  predicate ReleasePending(op: Op) {
    op.Written? && op.changed && op.terminal
  }

  /** A write that found or made the task ended is not yet followed up. */
  predicate Ending(task: Task) {
    ReleasePending(task.op) || ReleasePending(task.foreign)
  }

  /** The one way in which a task that has ended still holds its route. */
  predicate KeepsRoute(task: Task) {
    task.tornEnd && !Loose(task) && !task.cleared
  }

  // ---------- The invariant of one task ----------

  predicate NotYetCreated(task: Task, t: Id) {
    && task == FRESH.(op := task.op)
    && (task.op == Idle || ((task.op.Acquiring? || task.op.Creating?) && task.op.request.task == t))
  }

  predicate StartsOk(task: Task) {
    && task.starts <= 1
    && (task.dispatch in {NotLaunched, Checking} ==> task.starts == 0)
    && (task.op.Publishing? || task.launch ==> task.dispatch == NotLaunched)
    && (task.op.Publishing? ==> !task.launch)
    && (task.admission.Some? ==> (task.admission.value.dispatched <==> task.starts == 1))
  }

  predicate BarredOk(task: Task) {
    task.barred ==>
      && task.starts == 0
      && (task.admission.Some? ==> task.admission.value.cancelled && !task.admission.value.dispatched)
  }

  predicate OpOk(record: Record, op: Op) {
    && !op.Acquiring? && !op.Creating?
    && (op.Written? && op.terminal ==> Terminal(record.status))
    && (op.Fetched? ==> op.seen <= record.eventSeq)
  }

  predicate RouteOk(b: Option<Registry.Binding>, task: Task)
    requires task.record.Some?
  {
    var r := task.record.value;
    && (b.Some? ==> Routed(b, r.owner, r.leaseKey) && !Loose(task))
    && (if !Terminal(r.status) then (b.Some? <==> !Loose(task)) && !task.tornEnd && !task.cleared
        else Ending(task) || (b.Some? <==> KeepsRoute(task)))
  }

  predicate TaskOk(b: Option<Registry.Binding>, task: Task, t: Id) {
    if task.record.None? then
      && NotYetCreated(task, t)
      && (if task.op.Creating? then Routed(b, task.op.request.owner, task.op.leaseKey) else b.None?)
    else
      && OpOk(task.record.value, task.op) && OpOk(task.record.value, task.foreign)
      && StartsOk(task) && BarredOk(task) && RouteOk(b, task)
  }

  ghost predicate Inv(s: Service) {
    && RegistrySafety.Inv(s.registry)
    && forall t :: TaskOk(BindingOf(s.registry, t), Get(s, t), t)
  }

  // ---------- What the registry does to bindings ----------

  lemma ReleaseBindings(reg: Registry.State, owner: Id, t: Id, cutoff: int)
    ensures var reg' := Registry.ReleaseRoute(reg, owner, t, cutoff);
      && BindingOf(reg', t) == (if BindingOf(reg, t).Some? && BindingOf(reg, t).value.owner == owner then None
                                else BindingOf(reg, t))
      && forall u | u != t :: BindingOf(reg', u) == BindingOf(reg, u)
  {
  }

  lemma AcquireBindings(reg: Registry.State, r: Registry.RouteRequest, authorized: bool)
    ensures var (reg', reply) := Registry.Acquire(reg, r, authorized);
      && (reply == Registry.Accepted ==> BindingOf(reg', r.task).Some? && BindingOf(reg', r.task).value.owner == r.owner)
      && (reply != Registry.Accepted ==> reg' == reg)
      && forall u | u != r.task :: BindingOf(reg', u) == BindingOf(reg, u)
  {
    hide Registry.Live, Registry.RouteRefusal;
  }

  lemma OwnStepsBindSame(reg: Registry.State, step: Registry.Step)
    requires RegistrySafety.Inv(reg) && !step.DoAcquire? && !step.DoReleaseRoute?
    ensures Registry.Apply(reg, step).bindings == reg.bindings
  {
    hide RegistrySafety.Inv, Registry.Register, Registry.Heartbeat, Registry.Unregister, Registry.Close,
      Registry.Sweep, Registry.ClaimBegin, Registry.SwitchBegin, Registry.Stored, Registry.Finish, Registry.Release;
    match step
    case DoRegister(input, now) => RegistryTheorems.RegisterBindsSame(reg, input, now);
    case DoHeartbeat(m, instance, at, status, now) =>
      RegistryTheorems.HeartbeatBindsSame(reg, m, instance, at, status, now);
    case DoUnregister(m, instance, closeSession, now) =>
      RegistryTheorems.UnregisterBindsSame(reg, m, instance, closeSession, now);
    case DoSweep(now, cutoff) => RegistryTheorems.SweepBindsSame(reg, now, cutoff);
    case DoClose(session, now) => RegistryTheorems.CloseBindsSame(reg, session, now);
    case DoClaimBegin(claim, freshId) => RegistryTheorems.BeginKeepsMaps(reg, claim, freshId);
    case DoSwitchBegin(w, enabled) => RegistryTheorems.SwitchKeepsMaps(reg, w, enabled);
    case DoStored(ok) => RegistryTheorems.StoredKeepsMaps(reg, ok);
    case DoFinish => RegistryTheorems.FinishBindsSame(reg);
    case DoRelease(m, instance, w) => RegistryTheorems.ReleaseBindsSame(reg, m, instance, w);
  }

  // ---------- Every action keeps the invariant ----------

  /** The effect an action may have: the task stays fine and no other task's route is touched. */
  ghost predicate Fine(reg: Registry.State, t: Id, result: (Registry.State, Task)) {
    && RegistrySafety.Inv(result.0)
    && TaskOk(BindingOf(result.0, t), result.1, t)
    && forall u | u != t :: BindingOf(result.0, u) == BindingOf(reg, u)
  }

  lemma ReleaseIsFine(reg: Registry.State, t: Id, owner: Id, cutoff: int, task: Task)
    requires RegistrySafety.Inv(reg)
    requires TaskOk(if BindingOf(reg, t).Some? && BindingOf(reg, t).value.owner == owner then None
                    else BindingOf(reg, t), task, t)
    ensures Fine(reg, t, (Registry.ReleaseRoute(reg, owner, t, cutoff), task))
  {
    hide RegistrySafety.Inv, TaskOk, Registry.ReleaseRoute;
    RegistrySafety.ReleaseRouteKeeps(reg, owner, t, cutoff);
    ReleaseBindings(reg, owner, t, cutoff);
  }

  lemma BeginIsFine(reg: Registry.State, task: Task, t: Id, kind: Kind, cutoff: int)
    requires RegistrySafety.Inv(reg) && TaskOk(BindingOf(reg, t), task, t)
    ensures Fine(reg, t, Begin(reg, task, t, kind, cutoff))
  {
    hide RegistrySafety.Inv, Registry.ReleaseRoute, RouteLive, EventsOf;
    if task.op == Idle && kind.NodeLost? && !Active(task) {
      LateReleaseOk(BindingOf(reg, t), task, t, kind.owner);
      hide TaskOk;
      ReleaseIsFine(reg, t, kind.owner, cutoff, Cleared(task, kind.owner));
    }
  }

  function Cleared(task: Task, owner: Id): Task {
    if task.record.None? then task else task.(cleared := task.cleared || owner == task.record.value.owner)
  }

  /** Releasing the route of a task that is not active leaves the task fine. */
  lemma LateReleaseOk(b: Option<Registry.Binding>, task: Task, t: Id, owner: Id)
    requires TaskOk(b, task, t) && task.op == Idle && !Active(task)
    ensures TaskOk(if b.Some? && b.value.owner == owner then None else b, Cleared(task, owner), t)
  {
  }

  lemma AcquireIsFine(reg: Registry.State, task: Task, t: Id, authorized: bool)
    requires RegistrySafety.Inv(reg) && TaskOk(BindingOf(reg, t), task, t)
    ensures Fine(reg, t, Acquire(reg, task, t, authorized))
  {
    hide RegistrySafety.Inv, Registry.Acquire;
    if task.op.Acquiring? && reg.exclusive.None? {
      RegistrySafety.AcquireKeeps(reg, task.op.request, authorized);
      AcquireBindings(reg, task.op.request, authorized);
    }
  }

  lemma CreateIsFine(reg: Registry.State, task: Task, t: Id, outcome: Outcome, cutoff: int)
    requires RegistrySafety.Inv(reg) && TaskOk(BindingOf(reg, t), task, t)
    ensures Fine(reg, t, Create(reg, task, t, outcome, cutoff))
  {
    hide RegistrySafety.Inv, Registry.ReleaseRoute;
    if task.op.Creating? && outcome != Stored {
      ReleaseIsFine(reg, t, task.op.request.owner, cutoff, Create(reg, task, t, outcome, cutoff).1);
    }
  }

  lemma DispatchIsFine(b: Option<Registry.Binding>, task: Task, t: Id, deadlineOk: bool)
    requires TaskOk(b, task, t)
    ensures TaskOk(b, Launch(task), t) && TaskOk(b, Check(task, deadlineOk), t) && TaskOk(b, Respond(task), t)
  {
  }

  lemma DecisionIsFine(b: Option<Registry.Binding>, task: Task, t: Id, ok: bool)
    requires TaskOk(b, task, t)
    ensures TaskOk(b, Settle(task), t) && TaskOk(b, Publish(task, ok), t)
  {
  }

  lemma ChoiceIsFine(b: Option<Registry.Binding>, task: Task, t: Id, expired: bool)
    requires TaskOk(b, task, t)
    ensures TaskOk(b, CancelDecide(task), t) && TaskOk(b, BeginForeign(task, expired), t)
  {
    hide Terminal, Routed;
  }

  lemma FetchIsFine(b: Option<Registry.Binding>, task: Task, t: Id, foreign: bool, ok: bool)
    requires TaskOk(b, task, t)
    ensures TaskOk(b, Fetch(task, foreign, ok), t)
  {
  }

  lemma WriteIsFine(b: Option<Registry.Binding>, task: Task, t: Id, foreign: bool, outcome: Outcome)
    requires TaskOk(b, task, t)
    ensures TaskOk(b, Write(task, foreign, outcome), t)
  {
    hide TaskOk, Recorded, AfterWrite, Reduce;
    var op := if foreign then task.foreign else task.op;
    if op.Fetched? && op.events != [] && task.record.Some? {
      GivesUpIsFine(b, task, t, foreign);
      var next := Reduce(task.record.value, op.events[0]);
      if next.Some? {
        ReduceIsMonotone(task.record.value, op.events[0]);
        RecordIsFine(b, task, t, foreign, next.value, outcome);
      }
    }
  }

  /** An operation that stops before its write leaves everything else as it is. */
  lemma GivesUpIsFine(b: Option<Registry.Binding>, task: Task, t: Id, foreign: bool)
    requires TaskOk(b, task, t) && task.record.Some? && (if foreign then task.foreign else task.op).Fetched?
    ensures TaskOk(b, SetOp(task, foreign, Idle), t)
  {
    hide Terminal, Routed;
  }

  lemma RecordIsFine(b: Option<Registry.Binding>, task: Task, t: Id, foreign: bool, next: Record, outcome: Outcome)
    requires TaskOk(b, task, t) && task.record.Some?
    requires var op := if foreign then task.foreign else task.op; op.Fetched? && op.events != []
    requires var r := task.record.value;
      && next.owner == r.owner && next.leaseKey == r.leaseKey && (Terminal(r.status) ==> next == r)
      && (next.eventSeq == r.eventSeq <==> next == r) && r.eventSeq <= next.eventSeq
    ensures var op := if foreign then task.foreign else task.op;
      TaskOk(b, SetOp(Recorded(task, next, outcome), foreign, AfterWrite(op, task.record.value, next, outcome)), t)
  {
    RecordKeepsRoute(b, task, foreign, next, outcome);
    RecordKeepsOps(task, foreign, next, outcome);
    RecordKeepsStarts(task, foreign, next, outcome);
    hide Routed, Terminal, OpOk, RouteOk, StartsOk, BarredOk, AfterWrite;
  }

  lemma RecordKeepsStarts(task: Task, foreign: bool, next: Record, outcome: Outcome)
    requires task.record.Some? && StartsOk(task) && BarredOk(task)
    requires var op := if foreign then task.foreign else task.op; op.Fetched? && op.events != []
    ensures var op := if foreign then task.foreign else task.op;
      var task' := SetOp(Recorded(task, next, outcome), foreign, AfterWrite(op, task.record.value, next, outcome));
      StartsOk(task') && BarredOk(task')
  {
    hide Terminal;
  }

  lemma RecordKeepsOps(task: Task, foreign: bool, next: Record, outcome: Outcome)
    requires task.record.Some? && OpOk(task.record.value, task.op) && OpOk(task.record.value, task.foreign)
    requires var op := if foreign then task.foreign else task.op; op.Fetched? && op.events != []
    requires (Terminal(task.record.value.status) ==> next == task.record.value) && task.record.value.eventSeq <= next.eventSeq
    ensures var op := if foreign then task.foreign else task.op;
      var task' := SetOp(Recorded(task, next, outcome), foreign, AfterWrite(op, task.record.value, next, outcome));
      OpOk(next, task'.op) && OpOk(next, task'.foreign)
  {
    hide Terminal;
  }

  lemma RecordKeepsRoute(b: Option<Registry.Binding>, task: Task, foreign: bool, next: Record, outcome: Outcome)
    requires task.record.Some? && RouteOk(b, task)
    requires OpOk(task.record.value, task.op) && OpOk(task.record.value, task.foreign)
    requires var op := if foreign then task.foreign else task.op; op.Fetched? && op.events != []
    requires var r := task.record.value;
      && next.owner == r.owner && next.leaseKey == r.leaseKey && (Terminal(r.status) ==> next == r)
      && (next.eventSeq == r.eventSeq <==> next == r) && r.eventSeq <= next.eventSeq
    ensures var op := if foreign then task.foreign else task.op;
      RouteOk(b, SetOp(Recorded(task, next, outcome), foreign, AfterWrite(op, task.record.value, next, outcome)))
  {
    hide Terminal;
  }

  lemma PostIsFine(reg: Registry.State, task: Task, t: Id, foreign: bool, ok: bool, cutoff: int)
    requires RegistrySafety.Inv(reg) && TaskOk(BindingOf(reg, t), task, t)
    ensures Fine(reg, t, Post(reg, task, t, foreign, ok, cutoff))
  {
    hide RegistrySafety.Inv, Registry.ReleaseRoute;
    FollowUpOk(BindingOf(reg, t), reg, task, t, foreign, ok, cutoff);
    hide TaskOk;
    var op := if foreign then task.foreign else task.op;
    if op.Written? && task.record.Some? && op.changed && op.terminal {
      ReleaseIsFine(reg, t, task.record.value.owner, cutoff, Post(reg, task, t, foreign, ok, cutoff).1);
    }
  }

  /** The task after its write is followed up, and the binding that is left of its route. */
  lemma FollowUpOk(b: Option<Registry.Binding>, reg: Registry.State, task: Task, t: Id, foreign: bool, ok: bool, cutoff: int)
    requires TaskOk(b, task, t)
    ensures var op := if foreign then task.foreign else task.op;
      var released := op.Written? && task.record.Some? && op.changed && op.terminal;
      TaskOk(if released && b.Some? && b.value.owner == task.record.value.owner then None else b,
             Post(reg, task, t, foreign, ok, cutoff).1, t)
  {
    hide Registry.ReleaseRoute;
  }

  lemma ActIsFine(reg: Registry.State, task: Task, t: Id, action: Action)
    requires RegistrySafety.Inv(reg) && TaskOk(BindingOf(reg, t), task, t)
    ensures Fine(reg, t, Act(reg, task, t, action))
  {
    hide RegistrySafety.Inv, TaskOk, Begin, BeginForeign, Acquire, Create, Publish, Launch, Check, Respond, Settle,
      CancelDecide, Fetch, Write, Post;
    DispatchIsFine(BindingOf(reg, t), task, t, action.DoCheck? && action.deadlineOk);
    DecisionIsFine(BindingOf(reg, t), task, t, action.DoPublish? && action.ok);
    ChoiceIsFine(BindingOf(reg, t), task, t, action.DoBeginForeign? && action.expired);
    match action
    case DoBegin(kind, cutoff) => BeginIsFine(reg, task, t, kind, cutoff);
    case DoAcquire(authorized) => AcquireIsFine(reg, task, t, authorized);
    case DoCreate(outcome, cutoff) => CreateIsFine(reg, task, t, outcome, cutoff);
    case DoFetch(foreign, ok) => FetchIsFine(BindingOf(reg, t), task, t, foreign, ok);
    case DoWrite(foreign, outcome) => WriteIsFine(BindingOf(reg, t), task, t, foreign, outcome);
    case DoPost(foreign, ok, cutoff) => PostIsFine(reg, task, t, foreign, ok, cutoff);
    case _ =>
  }

  lemma ApplyKeeps(s: Service, step: Step)
    requires Inv(s)
    ensures Inv(Apply(s, step))
  {
    hide RegistrySafety.Inv, TaskOk, Act, Registry.Apply;
    match step
    case OnTask(t, action) =>
      ActIsFine(s.registry, Get(s, t), t, action);
      var s' := Apply(s, step);
      forall u ensures TaskOk(BindingOf(s'.registry, u), Get(s', u), u) {
        assert TaskOk(BindingOf(s.registry, u), Get(s, u), u);
      }
    case OnRegistry(own) =>
      if !own.DoAcquire? && !own.DoReleaseRoute? {
        RegistrySafety.ApplyKeeps(s.registry, own);
        OwnStepsBindSame(s.registry, own);
        var s' := Apply(s, step);
        forall u ensures TaskOk(BindingOf(s'.registry, u), Get(s', u), u) {
          assert TaskOk(BindingOf(s.registry, u), Get(s, u), u);
        }
      }
  }

  lemma {:induction false} RunKeeps(s: Service, steps: seq<Step>)
    requires Inv(s)
    ensures Inv(Run(s, steps))
    decreases |steps|
  {
    hide Inv, Apply;
    if steps == [] {
    } else {
      ApplyKeeps(s, steps[0]);
      RunKeeps(Apply(s, steps[0]), steps[1..]);
    }
  }
}
