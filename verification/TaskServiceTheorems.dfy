/** The promises of the task service, for every interleaving of its operations with the registry. */
module TaskServiceTheorems {
  import opened Wrappers
  import Registry
  import RegistrySafety
  import RegistryTheorems
  import opened TaskReducer
  import opened TaskService
  import opened TaskServiceSafety

  /** A broker process that finds the catalog and the records an earlier process left. */
  function Restarted(catalog: map<Id, Registry.Entry>, records: map<Id, Record>): Service {
    Service(RegistryTheorems.Loaded(catalog), map t | t in records :: FRESH.(record := Some(records[t]), inherited := true))
  }

  ghost predicate ReachedBy(catalog: map<Id, Registry.Entry>, records: map<Id, Record>, steps: seq<Step>, s: Service) {
    RegistryTheorems.ValidCatalog(catalog) && Run(Restarted(catalog, records), steps) == s
  }

  ghost predicate Reachable(s: Service) {
    exists catalog, records, steps :: ReachedBy(catalog, records, steps, s)
  }

  lemma ReachableIsFine(s: Service)
    requires Reachable(s)
    ensures Inv(s)
  {
    var catalog, records, steps :| ReachedBy(catalog, records, steps, s);
    RestartIsFine(catalog, records);
    hide Inv, Run;
    RunKeeps(Restarted(catalog, records), steps);
  }

  lemma RestartIsFine(catalog: map<Id, Registry.Entry>, records: map<Id, Record>)
    requires RegistryTheorems.ValidCatalog(catalog)
    ensures Inv(Restarted(catalog, records))
  {
  }

  // ---------- Start RPCs ----------

  /** No interleaving sends a task more than one start request. */
  lemma AtMostOneStart(s: Service, t: Id)
    requires Reachable(s)
    ensures Get(s, t).starts <= 1
  {
    ReachableIsFine(s);
    hide RegistrySafety.Inv;
    assert TaskOk(BindingOf(s.registry, t), Get(s, t), t);
  }

  lemma BarredIsUnsent(s: Service, t: Id)
    requires Inv(s) && Get(s, t).barred
    ensures Get(s, t).starts == 0
  {
    hide RegistrySafety.Inv;
    assert TaskOk(BindingOf(s.registry, t), Get(s, t), t);
  }

  lemma BarredStays(s: Service, step: Step, t: Id)
    requires Get(s, t).barred
    ensures Get(Apply(s, step), t).barred
  {
    hide Registry.Apply, Act;
    if step.OnTask? && step.task == t {
      ActKeepsBarred(s.registry, Get(s, t), t, step.action);
    }
  }

  lemma ActKeepsBarred(reg: Registry.State, task: Task, t: Id, action: Action)
    requires task.barred
    ensures Act(reg, task, t, action).1.barred
  {
    HistoryIsKept(reg, task, t, action);
  }

  /** No action forgets a cancellation before dispatch, or where a record came from. */
  lemma HistoryIsKept(reg: Registry.State, task: Task, t: Id, action: Action)
    ensures SameHistory(task, Act(reg, task, t, action).1)
  {
    hide Begin, Acquire, Create, Write, Post, BeginForeign, Publish, Launch, Check, Respond, Settle, CancelDecide, Fetch;
    match action
    case DoBegin(kind, cutoff) => BeginKeepsHistory(reg, task, t, kind, cutoff);
    case DoWrite(foreign, outcome) => WriteKeepsHistory(task, foreign, outcome);
    case DoPost(foreign, ok, cutoff) => PostKeepsHistory(reg, task, t, foreign, ok, cutoff);
    case DoAcquire(authorized) => RoutingKeepsHistory(reg, task, t, authorized, Stored, 0);
    case DoCreate(outcome, cutoff) => RoutingKeepsHistory(reg, task, t, false, outcome, cutoff);
    case DoBeginForeign(expired) => CancellingKeepsHistory(task, false, false, expired);
    case DoFetch(foreign, ok) => CancellingKeepsHistory(task, foreign, ok, false);
    case DoCancelDecide => CancellingKeepsHistory(task, false, false, false);
    case DoPublish(ok) => DispatchKeepsHistory(task, ok);
    case DoCheck(deadlineOk) => DispatchKeepsHistory(task, deadlineOk);
    case _ => DispatchKeepsHistory(task, false);
  }

  predicate SameHistory(task: Task, task': Task) {
    (task.barred ==> task'.barred) && task'.inherited == task.inherited
  }

  lemma DispatchKeepsHistory(task: Task, ok: bool)
    ensures SameHistory(task, Publish(task, ok)) && SameHistory(task, Launch(task)) && SameHistory(task, Check(task, ok))
    ensures SameHistory(task, Respond(task)) && SameHistory(task, Settle(task))
  {
    hide Active;
  }

  lemma CancellingKeepsHistory(task: Task, foreign: bool, ok: bool, expired: bool)
    ensures SameHistory(task, CancelDecide(task)) && SameHistory(task, Fetch(task, foreign, ok))
    ensures SameHistory(task, BeginForeign(task, expired))
  {
    hide Active;
  }

  lemma RoutingKeepsHistory(reg: Registry.State, task: Task, t: Id, authorized: bool, outcome: Outcome, cutoff: int)
    ensures Acquire(reg, task, t, authorized).1 == task.(op := Acquire(reg, task, t, authorized).1.op)
    ensures var task' := Create(reg, task, t, outcome, cutoff).1;
      task'.barred == task.barred && task'.inherited == task.inherited
  {
    hide Registry.Acquire, Registry.ReleaseRoute;
  }

  lemma BeginKeepsHistory(reg: Registry.State, task: Task, t: Id, kind: Kind, cutoff: int)
    ensures var task' := Begin(reg, task, t, kind, cutoff).1;
      task'.barred == task.barred && task'.inherited == task.inherited && task'.record == task.record
  {
    hide Registry.ReleaseRoute, RouteLive, EventsOf, Terminal;
  }

  lemma WriteKeepsHistory(task: Task, foreign: bool, outcome: Outcome)
    ensures var task' := Write(task, foreign, outcome);
      && task'.barred == task.barred && task'.inherited == task.inherited
      && (Active(task') ==> Active(task))
  {
    hide Reduce, Terminal, AfterWrite;
    var op := OpOf(task, foreign);
    if op.Fetched? && op.events != [] && task.record.Some? { EndsAbsorb(task.record.value, op.events[0]); }
  }

  lemma EndsAbsorb(r: Record, e: TaskEvent)
    ensures Terminal(r.status) ==> Reduce(r, e) == Some(r)
  {
  }

  lemma PostKeepsHistory(reg: Registry.State, task: Task, t: Id, foreign: bool, ok: bool, cutoff: int)
    ensures var task' := Post(reg, task, t, foreign, ok, cutoff).1;
      task'.barred == task.barred && task'.inherited == task.inherited && task'.record == task.record
  {
    hide Registry.ReleaseRoute;
  }

  /**
   A task whose cancellation took the branch "cancelled before dispatch" has had no start request sent, and
   never gets one, whatever happens afterwards.
   */
  lemma CancelledBeforeDispatchNeverStarts(s: Service, more: seq<Step>, t: Id)
    requires Reachable(s) && Get(s, t).barred
    ensures Get(s, t).starts == 0 && Get(Run(s, more), t).starts == 0
  {
    ReachableIsFine(s);
    hide Inv, Reachable;
    BarredIsUnsent(s, t);
    BarredForever(s, more, t);
  }

  lemma {:induction false} BarredForever(s: Service, more: seq<Step>, t: Id)
    requires Inv(s) && Get(s, t).barred
    ensures Get(Run(s, more), t).barred && Get(Run(s, more), t).starts == 0
    decreases |more|
  {
    hide Inv, Apply;
    BarredIsUnsent(s, t);
    if more == [] {
    } else {
      ApplyKeeps(s, more[0]);
      BarredStays(s, more[0], t);
      BarredForever(Apply(s, more[0]), more[1..], t);
    }
  }

  function CancelSteps(t: Id, cutoff: int): seq<Step> {
    [OnTask(t, DoCancelDecide)] + PersistSteps(t, cutoff) + PersistSteps(t, cutoff)
  }

  /** One event is persisted without a failure: read, written and followed up. */
  function PersistSteps(t: Id, cutoff: int): seq<Step> {
    [OnTask(t, DoFetch(false, true)), OnTask(t, DoWrite(false, Stored)), OnTask(t, DoPost(false, true, cutoff))]
  }

  ghost function Persisted(s: Service, t: Id, cutoff: int): Service {
    var s1 := Apply(s, OnTask(t, DoFetch(false, true)));
    Apply(Apply(s1, OnTask(t, DoWrite(false, Stored))), OnTask(t, DoPost(false, true, cutoff)))
  }

  lemma CancelRuns(s: Service, t: Id, cutoff: int)
    ensures Run(s, CancelSteps(t, cutoff)) == Persisted(Persisted(Apply(s, OnTask(t, DoCancelDecide)), t, cutoff), t, cutoff)
  {
    hide Apply;
    var s1 := Apply(s, OnTask(t, DoCancelDecide));
    var steps := PersistSteps(t, cutoff);
    assert CancelSteps(t, cutoff)[1..] == steps + steps;
    PersistRuns(s1, t, cutoff, steps);
    assert steps + [] == steps;
    PersistRuns(Persisted(s1, t, cutoff), t, cutoff, []);
  }

  lemma PersistRuns(s: Service, t: Id, cutoff: int, more: seq<Step>)
    ensures Run(s, PersistSteps(t, cutoff) + more) == Run(Persisted(s, t, cutoff), more)
  {
    hide Apply;
    var steps := PersistSteps(t, cutoff) + more;
    assert steps[1..][1..][1..] == more;
    var s1 := Apply(s, steps[0]);
    var s2 := Apply(s1, steps[1..][0]);
    assert Run(s2, steps[1..][1..]) == Run(Apply(s2, steps[1..][1..][0]), more);
    assert Run(s1, steps[1..]) == Run(s2, steps[1..][1..]);
  }

  /**
   With the store working, a cancellation ends the task at once exactly when its start has been admitted and no
   start request was ever sent; its route and its lease are then free.  Otherwise the task waits for its node in
   state `Cancelling`.
   */
  lemma BarredIffUndispatched(s: Service, t: Id, cutoff: int)
    requires Reachable(s) && Get(s, t).op.CancelChecked? && Active(Get(s, t)) && Get(s, t).record.value.status != Cancelling
    ensures var s' := Run(s, CancelSteps(t, cutoff));
      && Get(s', t).record.Some? && Get(s', t).op == Idle && Get(s', t).starts == Get(s, t).starts
      && (if Get(s, t).admission.Some? && Get(s, t).starts == 0
          then Get(s', t).record.value.status == Cancelled && Unrouted(s', t)
          else Get(s', t).record.value.status == Cancelling && (Unrouted(s', t) <==> Loose(Get(s', t))))
  {
    ReachableIsFine(s);
    if Get(s, t).admission.Some? { AdmissionTells(s, t); }
    hide Inv, Reachable, Run, Apply, Reduce, Active, Unrouted;
    if Get(s, t).admission.Some? && Get(s, t).starts == 0 {
      UndispatchedCancelCompletes(s, t, cutoff);
    } else {
      CancelAsks(s, t, cutoff);
    }
  }

  /** No route and no lease. */
  ghost predicate Unrouted(s: Service, t: Id) {
    t !in s.registry.bindings && forall k | k in s.registry.leases :: s.registry.leases[k].task != t
  }

  lemma AdmissionTells(s: Service, t: Id)
    requires Inv(s) && Get(s, t).record.Some? && Get(s, t).admission.Some?
    ensures Get(s, t).admission.value.dispatched <==> Get(s, t).starts == 1
    ensures Get(s, t).starts <= 1
  {
    assert TaskOk(BindingOf(s.registry, t), Get(s, t), t);
    hide Inv, RouteOk;
  }

  lemma UndispatchedCancelCompletes(s: Service, t: Id, cutoff: int)
    requires Inv(s) && Get(s, t).op.CancelChecked? && Active(Get(s, t)) && Get(s, t).record.value.status != Cancelling
    requires Get(s, t).admission.Some? && !Get(s, t).admission.value.dispatched
    ensures var s' := Run(s, CancelSteps(t, cutoff));
      && Get(s', t).record.Some? && Get(s', t).record.value.status == Cancelled
      && Get(s', t).starts == 0 && Get(s', t).op == Idle && Unrouted(s', t)
  {
    hide Inv, Run, Apply, Reduce, Unrouted, Persisted;
    CancelRuns(s, t, cutoff);
    var s1 := Apply(s, OnTask(t, DoCancelDecide));
    CancelBegins(s, t);
    CancelPersists(s1, t, cutoff);
    var s' := Persisted(Persisted(s1, t, cutoff), t, cutoff);
    BarredIsUnsent(s', t);
    UnboundHasNoLease(s', t);
  }

  /** The other branch: the task waits, and the last three steps find nothing to do. */
  lemma CancelAsks(s: Service, t: Id, cutoff: int)
    requires Inv(s) && Get(s, t).op.CancelChecked? && Active(Get(s, t)) && Get(s, t).record.value.status != Cancelling
    requires Get(s, t).admission.Some? ==> Get(s, t).admission.value.dispatched
    ensures var s' := Run(s, CancelSteps(t, cutoff));
      && Get(s', t).record.Some? && Get(s', t).record.value.status == Cancelling && Get(s', t).op == Idle
      && Get(s', t).starts == Get(s, t).starts && (Unrouted(s', t) <==> Loose(Get(s', t)))
  {
    hide Inv, Run, Apply, Reduce, Unrouted, Persisted;
    CancelRuns(s, t, cutoff);
    var s1 := Apply(s, OnTask(t, DoCancelDecide));
    AskStep(s, t);
    ApplyKeeps(s, OnTask(t, DoCancelDecide));
    AskPersists(s1, t, cutoff);
    var s2 := Persisted(s1, t, cutoff);
    IdleStep(s2, t, cutoff);
    UnroutedIffLoose(s2, t);
    hide Get;
    UnroutedSame(s2, Persisted(s2, t, cutoff), t);
  }

  lemma AskPersists(s: Service, t: Id, cutoff: int)
    requires Inv(s) && Get(s, t).op == Writing([CancelRequested]) && Active(Get(s, t))
    requires Get(s, t).record.value.status != Cancelling
    ensures var s' := Persisted(s, t, cutoff);
      && Inv(s') && Get(s', t).record.Some? && Get(s', t).record.value.status == Cancelling
      && Get(s', t).op == Idle && Get(s', t).starts == Get(s, t).starts
  {
    hide Inv, Apply, Reduce;
    var s1 := Apply(s, OnTask(t, DoFetch(false, true)));
    FetchStep(s, t);
    ApplyKeeps(s, OnTask(t, DoFetch(false, true)));
    assert [CancelRequested][0] == CancelRequested && [CancelRequested][1..] == [];
    CancelReduces(Get(s1, t).record.value);
    var s2 := Apply(s1, OnTask(t, DoWrite(false, Stored)));
    AskWrites(s1, t);
    ApplyKeeps(s1, OnTask(t, DoWrite(false, Stored)));
    AskPosts(s2, t, cutoff);
    ApplyKeeps(s2, OnTask(t, DoPost(false, true, cutoff)));
  }

  /** Reading the record changes nothing but the operation. */
  lemma FetchStep(s: Service, t: Id)
    requires Get(s, t).op.Writing? && Get(s, t).op.events != [] && Get(s, t).record.Some?
    ensures var s' := Apply(s, OnTask(t, DoFetch(false, true)));
      && s'.registry == s.registry
      && Get(s', t) == Get(s, t).(op := Fetched(Get(s, t).op.events, Get(s, t).record.value.eventSeq))
  {
  }

  lemma AskStep(s: Service, t: Id)
    requires Get(s, t).op.CancelChecked? && (Get(s, t).admission.Some? ==> Get(s, t).admission.value.dispatched)
    ensures var task := Get(Apply(s, OnTask(t, DoCancelDecide)), t);
      task == Get(s, t).(op := Writing([CancelRequested]))
  {
  }

  lemma AskWrites(s: Service, t: Id)
    requires Active(Get(s, t)) && Get(s, t).op == Fetched([CancelRequested], Get(s, t).record.value.eventSeq)
    requires Reduce(Get(s, t).record.value, CancelRequested).Some?
    requires var next := Reduce(Get(s, t).record.value, CancelRequested).value;
      next != Get(s, t).record.value && next.status == Cancelling
    ensures var task := Get(Apply(s, OnTask(t, DoWrite(false, Stored))), t);
      && task.record == Reduce(Get(s, t).record.value, CancelRequested)
      && task == Get(s, t).(record := task.record, op := Written(true, false, []))
  {
    ReduceIsMonotone(Get(s, t).record.value, CancelRequested);
    hide Reduce;
    assert [CancelRequested][1..] == [];
  }

  lemma AskPosts(s: Service, t: Id, cutoff: int)
    requires Get(s, t).op == Written(true, false, []) && Get(s, t).record.Some?
    ensures var s' := Apply(s, OnTask(t, DoPost(false, true, cutoff)));
      Get(s', t) == Get(s, t).(op := Idle) && s'.registry == s.registry
  {
    hide Registry.ReleaseRoute;
  }

  lemma IdleStep(s: Service, t: Id, cutoff: int)
    requires Get(s, t).op == Idle
    ensures var s' := Persisted(s, t, cutoff); Get(s', t) == Get(s, t) && s'.registry == s.registry
  {
    hide Registry.ReleaseRoute, Reduce;
  }

  lemma UnroutedSame(s: Service, s': Service, t: Id)
    requires s.registry == s'.registry
    ensures Unrouted(s, t) <==> Unrouted(s', t)
  {
  }

  /** An active task is without route exactly when it is loose. */
  lemma UnroutedIffLoose(s: Service, t: Id)
    requires Inv(s) && Active(Get(s, t))
    ensures Unrouted(s, t) <==> Loose(Get(s, t))
    ensures t in s.registry.bindings <==> !Loose(Get(s, t))
  {
    assert TaskOk(BindingOf(s.registry, t), Get(s, t), t);
    hide Inv, StartsOk, BarredOk;
    if Loose(Get(s, t)) { UnboundHasNoLease(s, t); }
  }

  lemma CancelBegins(s: Service, t: Id)
    requires Inv(s) && Get(s, t).op.CancelChecked? && Get(s, t).admission.Some? && !Get(s, t).admission.value.dispatched
    ensures var s' := Apply(s, OnTask(t, DoCancelDecide));
      && Inv(s') && Get(s', t).barred && Get(s', t).op == Writing([CancelRequested, CancelConfirmed])
      && Get(s', t).record == Get(s, t).record
  {
    hide Inv, Apply;
    DecideStep(s, t);
    ApplyKeeps(s, OnTask(t, DoCancelDecide));
  }

  lemma CancelPersists(s: Service, t: Id, cutoff: int)
    requires Inv(s) && Get(s, t).barred && Get(s, t).op == Writing([CancelRequested, CancelConfirmed])
    requires Active(Get(s, t)) && Get(s, t).record.value.status != Cancelling
    ensures var s' := Persisted(Persisted(s, t, cutoff), t, cutoff);
      && Inv(s') && Get(s', t).barred && Get(s', t).op == Idle
      && Get(s', t).record.Some? && Get(s', t).record.value.status == Cancelled && t !in s'.registry.bindings
  {
    hide Inv, Persisted, Reduce;
    CancelReduces(Get(s, t).record.value);
    PersistStep(s, t, [CancelRequested, CancelConfirmed], cutoff);
    var s' := Persisted(s, t, cutoff);
    assert [CancelRequested, CancelConfirmed][1..] == [CancelConfirmed];
    PersistStep(s', t, [CancelConfirmed], cutoff);
  }

  lemma CancelReduces(r: Record)
    requires !Terminal(r.status) && r.status != Cancelling
    ensures Reduce(r, CancelRequested).Some?
    ensures var cancelling := Reduce(r, CancelRequested).value;
      && cancelling != r && cancelling.status == Cancelling
      && Reduce(cancelling, CancelConfirmed).Some?
      && Reduce(cancelling, CancelConfirmed).value.status == Cancelled
  {
  }

  /** One event persisted: the read, the write, and what follows it. */
  lemma PersistStep(s: Service, t: Id, events: seq<TaskEvent>, cutoff: int)
    requires Inv(s) && Get(s, t).op == Writing(events) && events != [] && Active(Get(s, t)) && Get(s, t).barred
    requires var next := Reduce(Get(s, t).record.value, events[0]); next.Some? && next.value != Get(s, t).record.value
    ensures var s' := Persisted(s, t, cutoff);
      && Inv(s') && Get(s', t).barred && Get(s', t).op == Plan(events[1..])
      && Get(s', t).record == Reduce(Get(s, t).record.value, events[0])
      && (Terminal(Get(s', t).record.value.status) ==> t !in s'.registry.bindings)
  {
    hide Inv, Apply, Reduce;
    var s1 := Apply(s, OnTask(t, DoFetch(false, true)));
    FetchStep(s, t);
    ApplyKeeps(s, OnTask(t, DoFetch(false, true)));
    var s2 := Apply(s1, OnTask(t, DoWrite(false, Stored)));
    WriteStep(s1, t, events);
    ApplyKeeps(s1, OnTask(t, DoWrite(false, Stored)));
    PostStep(s2, t, cutoff);
    ApplyKeeps(s2, OnTask(t, DoPost(false, true, cutoff)));
  }

  lemma DecideStep(s: Service, t: Id)
    requires Get(s, t).op.CancelChecked? && Get(s, t).admission.Some? && !Get(s, t).admission.value.dispatched
    ensures var task := Get(Apply(s, OnTask(t, DoCancelDecide)), t);
      && task.barred && task.op == Writing([CancelRequested, CancelConfirmed]) && task.record == Get(s, t).record
  {
  }

  lemma WriteStep(s: Service, t: Id, events: seq<TaskEvent>)
    requires Active(Get(s, t)) && Get(s, t).barred && events != []
    requires Get(s, t).op == Fetched(events, Get(s, t).record.value.eventSeq)
    requires Reduce(Get(s, t).record.value, events[0]).Some?
    requires Reduce(Get(s, t).record.value, events[0]).value != Get(s, t).record.value
    ensures var task := Get(Apply(s, OnTask(t, DoWrite(false, Stored))), t);
      && task.barred && task.record == Reduce(Get(s, t).record.value, events[0])
      && task.op == Written(true, Terminal(task.record.value.status), events[1..])
  {
    ReduceIsMonotone(Get(s, t).record.value, events[0]);
    hide Reduce;
  }

  lemma PostStep(s: Service, t: Id, cutoff: int)
    requires Inv(s) && Get(s, t).op.Written? && Get(s, t).op.changed && Get(s, t).record.Some? && Get(s, t).barred
    ensures var s' := Apply(s, OnTask(t, DoPost(false, true, cutoff)));
      && Get(s', t).record == Get(s, t).record && Get(s', t).barred && Get(s', t).op == Plan(Get(s, t).op.rest)
      && (Get(s, t).op.terminal ==> t !in s'.registry.bindings)
  {
    hide RegistrySafety.Inv, Registry.ReleaseRoute;
    var task := Get(s, t);
    assert TaskOk(BindingOf(s.registry, t), task, t);
    ReleaseBindings(s.registry, task.record.value.owner, t, cutoff);
  }

  lemma UnboundHasNoLease(s: Service, t: Id)
    requires Inv(s) && t !in s.registry.bindings
    ensures Unrouted(s, t)
  {
    LeaseNeedsBinding(s.registry, t);
  }

  lemma LeaseNeedsBinding(reg: Registry.State, t: Id)
    requires RegistrySafety.Inv(reg) && t !in reg.bindings
    ensures forall k | k in reg.leases :: reg.leases[k].task != t
  {
    hide RegistrySafety.Directory, RegistrySafety.Claims;
  }

  // ---------- One active task per workspace ----------

  ghost predicate HoldsLease(s: Service, t: Id) {
    var r := Get(s, t).record;
    && r.Some? && t in s.registry.bindings
    && s.registry.bindings[t].owner == r.value.owner && s.registry.bindings[t].leaseKey == r.value.leaseKey
    && r.value.leaseKey in s.registry.leases
    && s.registry.leases[r.value.leaseKey] == Registry.Owner(r.value.owner, t)
  }

  lemma BoundHoldsLease(s: Service, t: Id)
    requires Inv(s) && Get(s, t).record.Some? && t in s.registry.bindings
    ensures HoldsLease(s, t)
  {
    assert TaskOk(BindingOf(s.registry, t), Get(s, t), t);
    assert Routed(BindingOf(s.registry, t), Get(s, t).record.value.owner, Get(s, t).record.value.leaseKey);
    hide Inv, TaskOk;
    RegistrySafety.BindingOwnsLease(s.registry, t);
  }

  /**
   An active task holds the route and the lease of its workspace, unless an earlier process left it or the write
   that created it was torn; and then it holds no lease at all.
   */
  lemma ActiveOwnsLease(s: Service, t: Id)
    requires Reachable(s) && Active(Get(s, t))
    ensures if Loose(Get(s, t)) then Unrouted(s, t) else HoldsLease(s, t)
  {
    ReachableIsFine(s);
    hide Inv, Reachable, Unrouted, HoldsLease;
    UnroutedIffLoose(s, t);
    if !Loose(Get(s, t)) { BoundHoldsLease(s, t); }
  }

  lemma AtMostOneActivePerWorkspace(s: Service, t: Id, u: Id)
    requires Reachable(s) && Active(Get(s, t)) && !Loose(Get(s, t)) && Active(Get(s, u)) && !Loose(Get(s, u))
    requires Get(s, t).record.value.leaseKey == Get(s, u).record.value.leaseKey
    ensures t == u
  {
    hide Reachable;
    ActiveOwnsLease(s, t);
    ActiveOwnsLease(s, u);
  }

  /**
   A finished task with no write to be followed up holds its route and its lease exactly when the write that ended it
   was torn and nothing has released them since: the loss of its node may, and so may another operation that had read
   the record before.
   */
  lemma TerminalFreesBoth(s: Service, t: Id)
    requires Reachable(s) && Get(s, t).record.Some? && Terminal(Get(s, t).record.value.status) && !Ending(Get(s, t))
    ensures if KeepsRoute(Get(s, t)) then HoldsLease(s, t) else Unrouted(s, t)
  {
    ReachableIsFine(s);
    assert TaskOk(BindingOf(s.registry, t), Get(s, t), t);
    hide Inv, Reachable, StartsOk, BarredOk, OpOk;
    if KeepsRoute(Get(s, t)) { BoundHoldsLease(s, t); } else { UnboundHasNoLease(s, t); }
  }

  // ---------- One write ----------

  /** Creating a task leaves an active task, and it keeps its route, exactly when the write was not torn or refused. */
  lemma CreatedKeepsRouteIff(s: Service, t: Id, outcome: Outcome, cutoff: int)
    requires Reachable(s) && Get(s, t).op.Creating?
    ensures var s' := Apply(s, OnTask(t, DoCreate(outcome, cutoff)));
      && (Active(Get(s', t)) <==> outcome != NotStored)
      && (HoldsLease(s', t) <==> outcome == Stored)
      && (Unrouted(s', t) <==> outcome != Stored)
  {
    ReachableIsFine(s);
    hide Inv, Reachable, Apply, HoldsLease, Unrouted;
    var step := OnTask(t, DoCreate(outcome, cutoff));
    var s' := Apply(s, step);
    ApplyKeeps(s, step);
    CreateStep(s, t, outcome, cutoff);
    if outcome == Stored {
      BoundHoldsLease(s', t);
      BoundIsRouted(s', t);
    } else {
      UnboundHasNoLease(s', t);
      UnboundHoldsNothing(s', t);
    }
  }

  lemma CreateStep(s: Service, t: Id, outcome: Outcome, cutoff: int)
    requires Inv(s) && Get(s, t).op.Creating?
    ensures var s' := Apply(s, OnTask(t, DoCreate(outcome, cutoff)));
      && (Active(Get(s', t)) <==> outcome != NotStored)
      && (t in s'.registry.bindings <==> outcome == Stored)
  {
    assert TaskOk(BindingOf(s.registry, t), Get(s, t), t);
    hide RegistrySafety.Inv, Registry.ReleaseRoute;
    ReleaseBindings(s.registry, Get(s, t).op.request.owner, t, cutoff);
  }

  /** The write that ends a task, with what follows it, frees its route and lease exactly when the write was not torn. */
  lemma EndFreesRouteIff(s: Service, t: Id, foreign: bool, outcome: Outcome, ok: bool, cutoff: int)
    requires Reachable(s) && Active(Get(s, t)) && !Loose(Get(s, t))
    requires var op := if foreign then Get(s, t).foreign else Get(s, t).op;
      && op.Fetched? && op.events != []
      && var next := Reduce(Get(s, t).record.value, op.events[0]); next.Some? && Terminal(next.value.status)
    ensures var s' := Apply(Apply(s, OnTask(t, DoWrite(foreign, outcome))), OnTask(t, DoPost(foreign, ok, cutoff)));
      && (Active(Get(s', t)) <==> outcome == NotStored)
      && (Unrouted(s', t) <==> outcome == Stored)
      && (HoldsLease(s', t) <==> outcome != Stored)
  {
    ReachableIsFine(s);
    hide Inv, Reachable, Apply, Reduce, HoldsLease, Unrouted;
    var write, post := OnTask(t, DoWrite(foreign, outcome)), OnTask(t, DoPost(foreign, ok, cutoff));
    var s1 := Apply(s, write);
    ApplyKeeps(s, write);
    ApplyKeeps(s1, post);
    UnroutedIffLoose(s, t);
    assert OpOf(Get(s, t), foreign).seen <= Get(s, t).record.value.eventSeq by { SeenIsOld(s, t); }
    EndWrites(s, t, foreign, outcome);
    EndPosts(s1, t, foreign, ok, cutoff);
    var s2 := Apply(s1, post);
    if outcome == Stored {
      UnboundHasNoLease(s2, t);
      assert !HoldsLease(s2, t) by { UnboundHoldsNothing(s2, t); }
    } else {
      BoundHoldsLease(s2, t);
      assert !Unrouted(s2, t) by { BoundIsRouted(s2, t); }
    }
  }

  lemma UnboundHoldsNothing(s: Service, t: Id)
    requires t !in s.registry.bindings
    ensures !HoldsLease(s, t)
  {
  }

  lemma BoundIsRouted(s: Service, t: Id)
    requires t in s.registry.bindings
    ensures !Unrouted(s, t)
  {
  }

  function OpOf(task: Task, foreign: bool): Op {
    if foreign then task.foreign else task.op
  }

  lemma SeenIsOld(s: Service, t: Id)
    requires Inv(s) && Get(s, t).record.Some?
    ensures Get(s, t).op.Fetched? ==> Get(s, t).op.seen <= Get(s, t).record.value.eventSeq
    ensures Get(s, t).foreign.Fetched? ==> Get(s, t).foreign.seen <= Get(s, t).record.value.eventSeq
  {
    assert TaskOk(BindingOf(s.registry, t), Get(s, t), t);
    hide Inv, StartsOk, BarredOk, RouteOk;
  }

  lemma EndWrites(s: Service, t: Id, foreign: bool, outcome: Outcome)
    requires var op := OpOf(Get(s, t), foreign);
      && op.Fetched? && op.events != [] && Active(Get(s, t)) && op.seen <= Get(s, t).record.value.eventSeq
      && var next := Reduce(Get(s, t).record.value, op.events[0]); next.Some? && Terminal(next.value.status)
    ensures var s' := Apply(s, OnTask(t, DoWrite(foreign, outcome)));
      && s'.registry == s.registry && Get(s', t).record.Some?
      && (Active(Get(s', t)) <==> outcome == NotStored)
      && (if outcome == Stored then OpOf(Get(s', t), foreign).Written? && OpOf(Get(s', t), foreign).changed
                                    && OpOf(Get(s', t), foreign).terminal
          else OpOf(Get(s', t), foreign) == Idle)
  {
    ReduceIsMonotone(Get(s, t).record.value, OpOf(Get(s, t), foreign).events[0]);
    hide Reduce;
  }

  lemma EndPosts(s: Service, t: Id, foreign: bool, ok: bool, cutoff: int)
    requires Inv(s) && Get(s, t).record.Some?
    ensures var s' := Apply(s, OnTask(t, DoPost(foreign, ok, cutoff)));
      && Get(s', t).record == Get(s, t).record
      && (t in s'.registry.bindings <==> t in s.registry.bindings && !ReleasePending(OpOf(Get(s, t), foreign)))
  {
    hide RegistrySafety.Inv, Registry.ReleaseRoute;
    assert TaskOk(BindingOf(s.registry, t), Get(s, t), t);
    ReleaseBindings(s.registry, Get(s, t).record.value.owner, t, cutoff);
  }

  // ---------- Initialisation ----------

  /** What happens while one record is looked at: whether its deadline has passed, and how its read and write end. */
  datatype Visit = Visit(expired: bool, fetched: bool, outcome: Outcome, ok: bool)

  /** Ends one record that is active and has no route; None when the write or what follows it throws. */
  ghost function InitializeOne(s: Service, t: Id, a: Visit, cutoff: int): Option<Service> {
    var s1 := Apply(s, OnTask(t, DoBegin(Read(a.expired), cutoff)));
    if Get(s1, t).op == Idle then Some(s1)
    else
      var s2 := Apply(Apply(s1, OnTask(t, DoFetch(false, a.fetched))), OnTask(t, DoWrite(false, a.outcome)));
      if !Get(s2, t).op.Written? || !a.ok then None
      else Some(Apply(s2, OnTask(t, DoPost(false, true, cutoff))))
  }

  /** `initializeCore`: the service takes requests only after it has gone through all active records. */
  ghost function Initialize(s: Service, queue: seq<Id>, answers: Id -> Visit, cutoff: int): Option<Service>
    decreases |queue|
  {
    if queue == [] then Some(s)
    else
      var one := InitializeOne(s, queue[0], answers(queue[0]), cutoff);
      if one.None? then None else Initialize(one.value, queue[1..], answers, cutoff)
  }

  /** The queue holds every record that is active. */
  ghost predicate Covers(records: map<Id, Record>, queue: seq<Id>) {
    forall t | t in records && !Terminal(records[t].status) :: t in queue
  }

  /** No route exists yet; what is active waits in the queue. */
  ghost predicate Starting(s: Service, queue: seq<Id>) {
    && s.registry.bindings == map[]
    && forall t :: Get(s, t).op == Idle && (Active(Get(s, t)) ==> t in queue)
  }

  lemma EndsOne(s: Service, t: Id, a: Visit, queue: seq<Id>, cutoff: int)
    requires Starting(s, [t] + queue) && InitializeOne(s, t, a, cutoff).Some?
    ensures Starting(InitializeOne(s, t, a, cutoff).value, queue)
  {
    hide Apply, Get;
    var s' := InitializeOne(s, t, a, cutoff).value;
    assert Get(s, t).op == Idle;
    var s1 := Apply(s, OnTask(t, DoBegin(Read(a.expired), cutoff)));
    BeginsUnrouted(s, t, a.expired, cutoff);
    if Get(s1, t).op != Idle {
      EndsUnrouted(s1, t, a, cutoff);
    }
  }

  lemma BeginsUnrouted(s: Service, t: Id, expired: bool, cutoff: int)
    requires s.registry.bindings == map[] && Get(s, t).op == Idle
    ensures var s' := Apply(s, OnTask(t, DoBegin(Read(expired), cutoff)));
      && s'.registry == s.registry && (forall u | u != t :: Get(s', u) == Get(s, u))
      && Get(s', t).record == Get(s, t).record
      && (if Active(Get(s, t)) then Get(s', t).op == Writing([if expired then TimedOutEvent else FailedEvent])
          else Get(s', t).op == Idle)
  {
  }

  lemma EndsUnrouted(s: Service, t: Id, a: Visit, cutoff: int)
    requires s.registry.bindings == map[] && Active(Get(s, t))
    requires Get(s, t).op in {Writing([TimedOutEvent]), Writing([FailedEvent])}
    ensures var s1 := Apply(Apply(s, OnTask(t, DoFetch(false, a.fetched))), OnTask(t, DoWrite(false, a.outcome)));
      var s2 := Apply(s1, OnTask(t, DoPost(false, true, cutoff)));
      Get(s1, t).op.Written? ==>
        && s2.registry == s.registry && (forall u | u != t :: Get(s2, u) == Get(s, u))
        && !Active(Get(s2, t)) && Get(s2, t).op == Idle
  {
    hide Fetch, Write, Post, Begin, Acquire, Create, Publish, Apply, Get;
    var s1 := Apply(s, OnTask(t, DoFetch(false, a.fetched)));
    var s2 := Apply(s1, OnTask(t, DoWrite(false, a.outcome)));
    EndingWrite(Get(s, t), a);
    EndingPost(s.registry, Write(Fetch(Get(s, t), false, a.fetched), false, a.outcome), t, cutoff);
    OnOneTask(s, t, DoFetch(false, a.fetched));
    OnOneTask(s1, t, DoWrite(false, a.outcome));
    OnOneTask(s2, t, DoPost(false, true, cutoff));
  }

  /** An action on a task changes the registry and that task, and no other task. */
  lemma OnOneTask(s: Service, t: Id, action: Action)
    ensures var s' := Apply(s, OnTask(t, action));
      && (s'.registry, Get(s', t)) == Act(s.registry, Get(s, t), t, action)
      && forall u | u != t :: Get(s', u) == Get(s, u)
  {
    hide Act;
  }

  lemma EndingWrite(task: Task, a: Visit)
    requires Active(task) && task.op in {Writing([TimedOutEvent]), Writing([FailedEvent])}
    ensures var task' := Write(Fetch(task, false, a.fetched), false, a.outcome);
      task'.op.Written? ==> task'.op.rest == [] && task'.record.Some? && !Active(task')
  {
    assert [TimedOutEvent][1..] == [] && [FailedEvent][1..] == [];
  }

  lemma EndingPost(reg: Registry.State, task: Task, t: Id, cutoff: int)
    requires reg.bindings == map[]
    ensures var (reg', task') := Post(reg, task, t, false, true, cutoff);
      && reg' == reg && task'.record == task.record
      && (task.record.Some? && task.op.Written? && task.op.rest == [] ==> task'.op == Idle)
  {
  }

  lemma {:induction false} EndsAll(s: Service, queue: seq<Id>, answers: Id -> Visit, cutoff: int)
    requires Starting(s, queue) && Initialize(s, queue, answers, cutoff).Some?
    ensures Starting(Initialize(s, queue, answers, cutoff).value, [])
    decreases |queue|
  {
    hide Starting, InitializeOne;
    if queue == [] {
    } else {
      assert queue == [queue[0]] + queue[1..];
      EndsOne(s, queue[0], answers(queue[0]), queue[1..], cutoff);
      EndsAll(InitializeOne(s, queue[0], answers(queue[0]), cutoff).value, queue[1..], answers, cutoff);
    }
  }

  /** A process that has gone through the records it found. */
  ghost predicate Initialized(catalog: map<Id, Registry.Entry>, records: map<Id, Record>, s: Service) {
    && RegistryTheorems.ValidCatalog(catalog)
    && exists queue, answers, cutoff ::
         Covers(records, queue) && Initialize(Restarted(catalog, records), queue, answers, cutoff) == Some(s)
  }

  /** Once initialised, the service has no active task at all, whatever the records were. */
  lemma InitializedIsQuiet(catalog: map<Id, Registry.Entry>, records: map<Id, Record>, s: Service, t: Id)
    requires Initialized(catalog, records, s)
    ensures !Active(Get(s, t)) && t !in s.registry.bindings
  {
    var queue, answers, cutoff :|
      Covers(records, queue) && Initialize(Restarted(catalog, records), queue, answers, cutoff) == Some(s);
    RestartStarts(catalog, records, queue);
    hide Starting, Initialize;
    EndsAll(Restarted(catalog, records), queue, answers, cutoff);
    QuietFacts(s, t);
  }

  lemma RestartStarts(catalog: map<Id, Registry.Entry>, records: map<Id, Record>, queue: seq<Id>)
    requires Covers(records, queue)
    ensures Starting(Restarted(catalog, records), queue)
  {
  }

  lemma QuietFacts(s: Service, t: Id)
    requires Starting(s, [])
    ensures !Active(Get(s, t)) && t !in s.registry.bindings
  {
  }

  /** The initialisation is made of steps like any other, so everything reached from it is reachable. */
  lemma {:induction false} InitializeIsFine(s: Service, queue: seq<Id>, answers: Id -> Visit, cutoff: int)
    requires Inv(s) && Initialize(s, queue, answers, cutoff).Some?
    ensures Inv(Initialize(s, queue, answers, cutoff).value)
    decreases |queue|
  {
    hide Inv, InitializeOne;
    if queue == [] {
    } else {
      InitializeOneIsFine(s, queue[0], answers(queue[0]), cutoff);
      InitializeIsFine(InitializeOne(s, queue[0], answers(queue[0]), cutoff).value, queue[1..], answers, cutoff);
    }
  }

  lemma InitializeOneIsFine(s: Service, t: Id, a: Visit, cutoff: int)
    requires Inv(s) && InitializeOne(s, t, a, cutoff).Some?
    ensures Inv(InitializeOne(s, t, a, cutoff).value)
  {
    hide Inv, Apply, Get;
    var s1 := Apply(s, OnTask(t, DoBegin(Read(a.expired), cutoff)));
    ApplyKeeps(s, OnTask(t, DoBegin(Read(a.expired), cutoff)));
    var s' := Apply(s1, OnTask(t, DoFetch(false, a.fetched)));
    ApplyKeeps(s1, OnTask(t, DoFetch(false, a.fetched)));
    var s2 := Apply(s', OnTask(t, DoWrite(false, a.outcome)));
    ApplyKeeps(s', OnTask(t, DoWrite(false, a.outcome)));
    ApplyKeeps(s2, OnTask(t, DoPost(false, true, cutoff)));
  }

  /** No active task is inherited. */
  ghost predicate NoneInherited(s: Service) {
    forall t :: Active(Get(s, t)) ==> !Get(s, t).inherited
  }

  lemma ActInheritsNone(reg: Registry.State, task: Task, t: Id, action: Action)
    requires Active(task) ==> !task.inherited
    requires if task.record.None? then !task.inherited else !task.op.Creating?
    ensures var task' := Act(reg, task, t, action).1; Active(task') ==> !task'.inherited
  {
    HistoryIsKept(reg, task, t, action);
    hide Begin, Write, Post, Registry.Acquire, Registry.ReleaseRoute, Terminal;
    match action
    case DoBegin(kind, cutoff) => BeginKeepsHistory(reg, task, t, kind, cutoff);
    case DoWrite(foreign, outcome) => WriteKeepsHistory(task, foreign, outcome);
    case DoPost(foreign, ok, cutoff) => PostKeepsHistory(reg, task, t, foreign, ok, cutoff);
    case _ =>
  }

  lemma UncreatedIsOwn(s: Service, t: Id)
    requires Inv(s)
    ensures if Get(s, t).record.None? then !Get(s, t).inherited else !Get(s, t).op.Creating?
  {
    assert TaskOk(BindingOf(s.registry, t), Get(s, t), t);
  }

  lemma StepInheritsNone(s: Service, step: Step)
    requires Inv(s) && NoneInherited(s)
    ensures NoneInherited(Apply(s, step))
  {
    hide Inv, Act, Registry.Apply, Active;
    if step.OnTask? {
      UncreatedIsOwn(s, step.task);
      assert Active(Get(s, step.task)) ==> !Get(s, step.task).inherited;
      ActInheritsNone(s.registry, Get(s, step.task), step.task, step.action);
    }
    var s' := Apply(s, step);
    forall u ensures Active(Get(s', u)) ==> !Get(s', u).inherited {
      assert Active(Get(s, u)) ==> !Get(s, u).inherited;
    }
  }

  lemma {:induction false} RunInheritsNone(s: Service, steps: seq<Step>)
    requires Inv(s) && NoneInherited(s)
    ensures Inv(Run(s, steps)) && NoneInherited(Run(s, steps))
    decreases |steps|
  {
    hide Inv, NoneInherited, Apply;
    if steps == [] {
    } else {
      StepInheritsNone(s, steps[0]);
      ApplyKeeps(s, steps[0]);
      RunInheritsNone(Apply(s, steps[0]), steps[1..]);
    }
  }

  /**
   Whatever records an earlier process left, two active tasks never use one workspace once the service has been
   initialised, unless the write that created one of them was torn.
   */
  lemma ActiveTasksNeverShare(catalog: map<Id, Registry.Entry>, records: map<Id, Record>, s0: Service,
                              steps: seq<Step>, t: Id, u: Id)
    requires Initialized(catalog, records, s0)
    requires var s := Run(s0, steps);
      && Active(Get(s, t)) && Active(Get(s, u))
      && Get(s, t).record.value.leaseKey == Get(s, u).record.value.leaseKey
    ensures t == u || Get(Run(s0, steps), t).tornCreate || Get(Run(s0, steps), u).tornCreate
  {
    var s := Run(s0, steps);
    hide Run, Inv, NoneInherited;
    InitializedIsFine(catalog, records, s0);
    RunInheritsNone(s0, steps);
    NotInherited(s, t);
    NotInherited(s, u);
    if !Loose(Get(s, t)) && !Loose(Get(s, u)) {
      UnroutedIffLoose(s, t);
      UnroutedIffLoose(s, u);
      BoundHoldsLease(s, t);
      BoundHoldsLease(s, u);
    }
  }

  lemma NotInherited(s: Service, t: Id)
    requires NoneInherited(s) && Active(Get(s, t))
    ensures !Get(s, t).inherited
  {
  }

  lemma InitializedIsFine(catalog: map<Id, Registry.Entry>, records: map<Id, Record>, s: Service)
    requires Initialized(catalog, records, s)
    ensures Inv(s) && NoneInherited(s)
  {
    var queue, answers, cutoff :|
      Covers(records, queue) && Initialize(Restarted(catalog, records), queue, answers, cutoff) == Some(s);
    RestartIsFine(catalog, records);
    hide Inv, Initialize;
    InitializeIsFine(Restarted(catalog, records), queue, answers, cutoff);
    forall t ensures Active(Get(s, t)) ==> !Get(s, t).inherited {
      InitializedIsQuiet(catalog, records, s, t);
    }
  }
}
