/**
 The task service object: the maps of `BrokerTaskService` in src/broker/BrokerTaskService.ts, updated in place on
 top of the registry object.  Each method is the code between two awaits and is proved to be an action of module
 TaskService on one task, leaving every other task alone.  `Perform` takes any step of a run and keeps the promises of
 the service; `InitializeCore` is the pass over the stored records that comes before the first request.
 */
module BrokerTaskServices {
  import opened Wrappers
  import Registry
  import RegistrySafety
  import RegistryTheorems
  import NodeRegistries
  import opened TaskReducer
  import opened TaskService
  import opened TaskServiceSafety
  import opened TaskServiceTheorems
  import TaskServiceOutcomes

  class BrokerTaskService {
    const registry: NodeRegistries.NodeRegistry
    /** The records in the store. */
    var records: map<Id, Record>
    var startAdmissions: map<Id, Admission>
    var startDispatches: map<Id, Dispatch>
    /** Accepted starts whose caller has not launched the dispatch yet. */
    var accepted: set<Id>
    /** The operation under way in each task's queue, and one that another task's start performs. */
    var taskQueues: map<Id, Op>
    var foreignOperations: map<Id, Op>
    ghost var starts: map<Id, nat>
    ghost var barred: set<Id>
    ghost var inherited: set<Id>
    ghost var tornCreates: set<Id>
    ghost var tornEnds: set<Id>
    ghost var cleared: set<Id>

    ghost function TaskOf(t: Id): Task
      reads this
    {
      Task(if t in records then Some(records[t]) else None,
           if t in startAdmissions then Some(startAdmissions[t]) else None,
           t in accepted,
           if t in startDispatches then startDispatches[t] else NotLaunched,
           if t in taskQueues then taskQueues[t] else Idle,
           if t in foreignOperations then foreignOperations[t] else Idle,
           if t in starts then starts[t] else 0,
           t in barred, t in inherited, t in tornCreates, t in tornEnds, t in cleared)
    }

    /** The state of module TaskService that the fields stand for. */
    ghost var model: Service

    ghost predicate Valid()
      reads this, registry
    {
      Shown() && Inv(model)
    }

    ghost predicate Shown()
      reads this, registry
    {
      model.registry == registry.View() && forall t :: Get(model, t) == TaskOf(t)
    }

    /** A process that finds the catalog and the records an earlier process left. */
    constructor (registry: NodeRegistries.NodeRegistry, stored: map<Id, Record>)
      requires RegistryTheorems.ValidCatalog(registry.catalog) && registry.View() == RegistryTheorems.Loaded(registry.catalog)
      ensures Valid() && this.registry == registry && model == Restarted(registry.catalog, stored)
    {
      hide Inv;
      this.registry, records := registry, stored;
      startAdmissions, startDispatches, accepted, taskQueues, foreignOperations := map[], map[], {}, map[], map[];
      starts, barred := map[], {};
      inherited, tornCreates, tornEnds, cleared := stored.Keys, {}, {}, {};
      model := Restarted(registry.catalog, stored);
      RestartIsFine(registry.catalog, stored);
    }

    // ---------- Runs ----------

    /**
     Whatever happens next: a start that is admitted, not cancelled and in time is sent when it is checked, and nothing
     else is; a task is sent one start request at most and, once its cancellation has prevented the
     dispatch, none; a task that is active with a route of its own holds the lease of its workspace.
     */
    method Perform(step: Step)
      requires Valid()
      modifies this, registry
      ensures Valid() && model == Apply(old(model), step)
      ensures step.OnTask? && step.action.DoCheck? ==>
        TaskServiceOutcomes.CheckRight(old(TaskOf(step.task)), step.action.deadlineOk, TaskOf(step.task))
      ensures step.OnTask? && !step.action.DoCheck? ==> TaskOf(step.task).starts == old(TaskOf(step.task)).starts
      ensures forall t :: TaskOf(t).starts <= 1
      ensures forall t | t in old(barred) :: t in barred && TaskOf(t).starts == 0
      ensures forall t | Active(TaskOf(t)) ::
        if Loose(TaskOf(t)) then Unrouted(model, t) else HoldsLease(model, t)
      ensures old(NoneInherited(model)) ==> NoneInherited(model)
    {
      hide Inv, Act, Apply, Unrouted, HoldsLease, Active, Loose, NoneInherited, Registry.Apply, RegistrySafety.Inv,
        TaskServiceOutcomes.CheckRight;
      ghost var before := model;
      ghost var wasBarred := barred;
      Take(step);
      model := Apply(before, step);
      CheckedRight(before, step);
      ApplyKeeps(before, step);
      if NoneInherited(before) { StepInheritsNone(before, step); }
      InvMeans(model);
      forall t | t in wasBarred ensures t in barred && TaskOf(t).starts == 0 {
        assert Get(before, t).barred;
        BarredStays(before, step, t);
        BarredIsUnsent(model, t);
        assert Get(model, t) == TaskOf(t);
      }
    }

    method Take(step: Step)
      requires Valid()
      modifies this, registry
      ensures Apply(old(model), step).registry == registry.View()
      ensures forall t :: Get(Apply(old(model), step), t) == TaskOf(t)
    {
      hide Inv, Act, RegistrySafety.Inv, Registry.Apply;
      assert registry.Valid() by { RegistryIsFine(model); }
      ghost var before := model;
      match step {
        case OnTask(t, action) =>
          Do(t, action);
          hide Apply;
          OnOneTask(before, t, action);
        case OnRegistry(own) =>
          if !own.DoAcquire? && !own.DoReleaseRoute? {
            registry.Perform(own);
          }
      }
    }

    /** One action on one task. */
    method Do(t: Id, action: Action)
      requires registry.Valid()
      modifies this, registry
      ensures (registry.View(), TaskOf(t)) == Act(old(registry.View()), old(TaskOf(t)), t, action)
      ensures forall u | u != t :: TaskOf(u) == old(TaskOf(u))
    {
      hide TaskService.Begin, TaskService.BeginForeign, Acquire, Create, TaskService.Publish, Launch, Check,
        TaskService.Respond, Settle, CancelDecide, Fetch, Write, Post, RegistrySafety.Inv;
      match action {
        case DoBegin(kind, cutoff) => BeginOperation(t, kind, cutoff);
        case DoBeginForeign(expired) => BeginForeignOperation(t, expired);
        case DoAcquire(authorized) => AcquireRoute(t, authorized);
        case DoCreate(outcome, cutoff) => CreateRecord(t, outcome, cutoff);
        case DoPublish(ok) => PublishAccepted(t, ok);
        case DoLaunch => LaunchStartDispatch(t);
        case DoCheck(deadlineOk) => var _ := DispatchStart(t, deadlineOk);
        case DoRespond => OnResponse(t);
        case DoSettle => ForgetDispatch(t);
        case DoCancelDecide => var _ := CancelCore(t);
        case DoFetch(foreign, ok) => GetOwned(t, foreign, ok);
        case DoWrite(foreign, outcome) => TransitionOwned(t, foreign, outcome);
        case DoPost(foreign, ok, cutoff) => FinishPersistEvent(t, foreign, ok, cutoff);
      }
    }

    /**
     `initializeCore`: ends the active records one by one; without routes they cannot be recovered.  When it succeeds
     nothing is active any more; `answers` says how the writes of each record end.
     */
    method InitializeCore(queue: seq<Id>, answers: Id -> Visit, cutoff: int) returns (ok: bool)
      requires Valid() && Starting(model, queue)
      modifies this, registry
      ensures Valid()
      ensures (if ok then Some(model) else None) == Initialize(old(model), queue, answers, cutoff)
      ensures ok ==> registry.bindings == map[] && NoneInherited(model) && forall t :: !Active(TaskOf(t))
    {
      hide Inv, Apply, Initialize, InitializeOne, Starting, Active;
      var i := 0;
      while i < |queue|
        invariant 0 <= i <= |queue| && Valid()
        invariant Starting(model, queue[i..])
        invariant Initialize(old(model), queue, answers, cutoff) == Initialize(model, queue[i..], answers, cutoff)
      {
        var t := queue[i];
        ghost var before := model;
        assert queue[i..] == [t] + queue[i + 1..];
        InitializeStep(model, t, queue[i + 1..], answers, cutoff);
        var ended := InitializeTask(t, answers(t), cutoff);
        if !ended {
          return false;
        }
        EndsOne(before, t, answers(t), queue[i + 1..], cutoff);
        i := i + 1;
      }
      assert queue[i..] == [];
      InitializeOver(model, answers, cutoff);
      StartingEmpty(model);
      return true;
    }

    method InitializeTask(t: Id, a: Visit, cutoff: int) returns (ok: bool)
      requires Valid()
      modifies this, registry
      ensures Valid()
      ensures (if ok then Some(model) else None) == InitializeOne(old(model), t, a, cutoff)
    {
      hide Inv, Apply;
      Perform(OnTask(t, DoBegin(Read(a.expired), cutoff)));
      if OpOf(t, false) == Idle {
        return true;
      }
      Perform(OnTask(t, DoFetch(false, a.fetched)));
      Perform(OnTask(t, DoWrite(false, a.outcome)));
      if !OpOf(t, false).Written? || !a.ok {
        return false;
      }
      Perform(OnTask(t, DoPost(false, true, cutoff)));
      return true;
    }

    // ---------- Operations begin ----------

    predicate RouteIsLive(owner: Id, t: Id)
      reads this, registry
      ensures RouteIsLive(owner, t) == RouteLive(registry.View(), owner, t)
    {
      t in registry.bindings && registry.bindings[t].owner == owner
      && registry.IsLive(registry.bindings[t].node, registry.bindings[t].instance)
    }

    /** An operation gets its turn in the queue of its task. */
    method BeginOperation(t: Id, kind: Kind, cutoff: int)
      modifies this, registry
      ensures (registry.View(), TaskOf(t)) == Begin(old(registry.View()), old(TaskOf(t)), t, kind, cutoff)
      ensures forall u | u != t :: TaskOf(u) == old(TaskOf(u))
    {
      hide EventsOf, Registry.ReleaseRoute, RouteLive;
      if OpOf(t, false) != Idle {
        return;
      }
      if t !in records {
        if kind.Start? && kind.request.task == t {
          SetOperation(t, false, Acquiring(kind.request));
        } else if kind.NodeLost? {
          var _ := registry.ReleaseTaskRoute(kind.owner, t, cutoff);
        }
        return;
      }
      var record := records[t];
      if Terminal(record.status) {
        if kind.NodeLost? {
          if kind.owner == record.owner {
            cleared := cleared + {t};
          }
          var _ := registry.ReleaseTaskRoute(kind.owner, t, cutoff);
        }
        return;
      }
      var live := RouteIsLive(record.owner, t);
      if kind.Cancel? && !kind.expired && record.status != Cancelling && live {
        SetOperation(t, false, CancelChecked);
      } else {
        SetOperation(t, false, Plan(EventsOf(record, live, kind)));
      }
    }

    /** The start of another task finds this one unusable. */
    method BeginForeignOperation(t: Id, expired: bool)
      modifies this`foreignOperations, this`taskQueues
      ensures TaskOf(t) == BeginForeign(old(TaskOf(t)), expired)
      ensures forall u | u != t :: TaskOf(u) == old(TaskOf(u))
    {
      if OpOf(t, true) == Idle && t in records && !Terminal(records[t].status) {
        SetOperation(t, true, Writing([if expired then TimedOutEvent else FailedEvent]));
      }
    }

    /** The accepted start is announced to the listeners. */
    method PublishAccepted(t: Id, ok: bool)
      modifies this
      ensures TaskOf(t) == Publish(old(TaskOf(t)), ok)
      ensures forall u | u != t :: TaskOf(u) == old(TaskOf(u))
    {
      if !OpOf(t, false).Publishing? {
        return;
      }
      if ok {
        accepted := accepted + {t};
        SetOperation(t, false, Idle);
        return;
      }
      startAdmissions := startAdmissions - {t};
      var active := t in records && !Terminal(records[t].status);
      SetOperation(t, false, if active then Writing([FailedEvent]) else Idle);
    }

    /** The node answers the start request, or the request fails. */
    method OnResponse(t: Id)
      modifies this`startDispatches
      ensures TaskOf(t) == Respond(old(TaskOf(t)))
      ensures forall u | u != t :: TaskOf(u) == old(TaskOf(u))
    {
      if t in startDispatches && startDispatches[t] == Requested {
        startDispatches := startDispatches[t := Answered];
      }
    }

    function OpOf(t: Id, foreign: bool): Op
      reads this
    {
      if foreign then (if t in foreignOperations then foreignOperations[t] else Idle)
      else (if t in taskQueues then taskQueues[t] else Idle)
    }

    method SetOperation(t: Id, foreign: bool, op: Op)
      modifies this`taskQueues, this`foreignOperations
      ensures TaskOf(t) == SetOp(old(TaskOf(t)), foreign, op)
      ensures forall u | u != t :: TaskOf(u) == old(TaskOf(u))
    {
      if foreign {
        foreignOperations := foreignOperations[t := op];
      } else {
        taskQueues := taskQueues[t := op];
      }
    }

    /** `prepareStart` acquires the route of a new task. */
    method AcquireRoute(t: Id, authorized: bool)
      requires RegistrySafety.Inv(registry.View())
      modifies this, registry
      ensures (registry.View(), TaskOf(t)) == Acquire(old(registry.View()), old(TaskOf(t)), t, authorized)
      ensures forall u | u != t :: TaskOf(u) == old(TaskOf(u))
    {
      hide Registry.Acquire, RegistrySafety.Inv;
      var op := OpOf(t, false);
      if !op.Acquiring? || registry.exclusive.Some? {
        return;
      }
      var reply := registry.AcquireTaskRoute(op.request, authorized);
      if reply == Registry.Accepted && t in registry.bindings {
        SetOperation(t, false, Creating(op.request, registry.bindings[t].leaseKey));
      } else {
        SetOperation(t, false, Idle);
      }
    }

    /** The accepted record has been stored. */
    method AcceptRecord(t: Id)
      requires OpOf(t, false).Creating?
      modifies this
      ensures TaskOf(t) == Create(registry.View(), old(TaskOf(t)), t, Stored, 0).1
      ensures forall u | u != t :: TaskOf(u) == old(TaskOf(u))
    {
      hide Registry.ReleaseRoute;
      var op := OpOf(t, false);
      records := records[t := Record(op.request.owner, op.leaseKey, StartingAgent, 1, None, map[])];
      startAdmissions := startAdmissions[t := Admission(false, false)];
      SetOperation(t, false, Publishing);
    }

    /** `prepareStart` after the store has been asked to create the record. */
    method CreateRecord(t: Id, outcome: Outcome, cutoff: int)
      modifies this, registry
      ensures (registry.View(), TaskOf(t)) == Create(old(registry.View()), old(TaskOf(t)), t, outcome, cutoff)
      ensures forall u | u != t :: TaskOf(u) == old(TaskOf(u))
    {
      hide Registry.ReleaseRoute;
      var op := OpOf(t, false);
      if !op.Creating? {
        return;
      }
      if outcome == Stored {
        AcceptRecord(t);
        return;
      }
      if outcome == Torn {
        records := records[t := Record(op.request.owner, op.leaseKey, StartingAgent, 1, None, map[])];
        tornCreates := tornCreates + {t};
      }
      SetOperation(t, false, Idle);
      var _ := registry.ReleaseTaskRoute(op.request.owner, t, cutoff);
    }

    /** `launchStartDispatch`: a start already being dispatched is not dispatched again. */
    method LaunchStartDispatch(t: Id)
      modifies this
      ensures TaskOf(t) == Launch(old(TaskOf(t)))
      ensures forall u | u != t :: TaskOf(u) == old(TaskOf(u))
    {
      if t !in accepted {
        return;
      }
      accepted := accepted - {t};
      if t in startDispatches && (startDispatches[t] == Checking || startDispatches[t] == Requested) {
        return;
      }
      startDispatches := startDispatches[t := Checking];
    }

    /** `dispatchStart`: the admission is marked in the same step that sends the request. */
    method DispatchStart(t: Id, deadlineOk: bool) returns (sent: bool)
      modifies this
      ensures TaskOf(t) == Check(old(TaskOf(t)), deadlineOk)
      ensures sent == (TaskOf(t).starts > old(TaskOf(t)).starts)
      ensures sent <==> old(TaskServiceOutcomes.MaySend(TaskOf(t))) && deadlineOk
      ensures sent ==> TaskOf(t).dispatch == Requested && TaskOf(t).admission == Some(Admission(true, false))
      ensures forall u | u != t :: TaskOf(u) == old(TaskOf(u))
    {
      if t !in startDispatches || startDispatches[t] != Checking {
        return false;
      }
      if t !in startAdmissions || startAdmissions[t].cancelled || !deadlineOk {
        startDispatches := startDispatches[t := Answered];
        return false;
      }
      startAdmissions := startAdmissions[t := startAdmissions[t].(dispatched := true)];
      startDispatches := startDispatches[t := Requested];
      starts := starts[t := (if t in starts then starts[t] else 0) + 1];
      return true;
    }

    /** The dispatch is over. */
    method ForgetDispatch(t: Id)
      modifies this
      ensures TaskOf(t) == Settle(old(TaskOf(t)))
      ensures forall u | u != t :: TaskOf(u) == old(TaskOf(u))
    {
      if t !in startDispatches || startDispatches[t] != Answered {
        return;
      }
      if t in startAdmissions && startAdmissions[t].cancelled && !startAdmissions[t].dispatched {
        return;
      }
      startAdmissions := startAdmissions - {t};
    }

    /** `cancelCore` once the task is known to be active and its route live. */
    method CancelCore(t: Id) returns (preventDispatch: bool)
      modifies this
      ensures TaskOf(t) == CancelDecide(old(TaskOf(t)))
      ensures forall u | u != t :: TaskOf(u) == old(TaskOf(u))
    {
      if OpOf(t, false) != CancelChecked {
        return false;
      }
      preventDispatch := t in startAdmissions && !startAdmissions[t].dispatched;
      if preventDispatch {
        startAdmissions := startAdmissions[t := startAdmissions[t].(cancelled := true)];
        barred := barred + {t};
        SetOperation(t, false, Writing([CancelRequested, CancelConfirmed]));
      } else {
        SetOperation(t, false, Writing([CancelRequested]));
      }
    }

    /** `persistEvent` up to the write: the record is read, for comparison only. */
    method GetOwned(t: Id, foreign: bool, ok: bool)
      modifies this
      ensures TaskOf(t) == Fetch(old(TaskOf(t)), foreign, ok)
      ensures forall u | u != t :: TaskOf(u) == old(TaskOf(u))
    {
      var op := OpOf(t, foreign);
      if !op.Writing? || op.events == [] || t !in records {
        return;
      }
      SetOperation(t, foreign, if ok then Fetched(op.events, records[t].eventSeq) else Idle);
    }

    method StoreRecord(t: Id, next: Record, outcome: Outcome)
      requires t in records
      modifies this`records, this`tornEnds
      ensures TaskOf(t) == Recorded(old(TaskOf(t)), next, outcome)
      ensures forall u | u != t :: TaskOf(u) == old(TaskOf(u))
    {
      if outcome == Torn && next != records[t] && Terminal(next.status) {
        tornEnds := tornEnds + {t};
      }
      records := records[t := next];
    }

    /** The store's `transitionOwned`. */
    method TransitionOwned(t: Id, foreign: bool, outcome: Outcome)
      modifies this
      ensures TaskOf(t) == Write(old(TaskOf(t)), foreign, outcome)
      ensures forall u | u != t :: TaskOf(u) == old(TaskOf(u))
    {
      hide Reduce, Recorded, AfterWrite, Terminal;
      var op := OpOf(t, foreign);
      if !op.Fetched? || op.events == [] || t !in records {
        return;
      }
      var current := records[t];
      var next := Reduce(current, op.events[0]);
      if next.None? || outcome == NotStored {
        SetOperation(t, foreign, Idle);
        return;
      }
      StoreRecord(t, next.value, outcome);
      SetOperation(t, foreign, AfterWrite(op, current, next.value, outcome));
    }

    method CloseAdmission(t: Id, releases: bool)
      modifies this`startAdmissions, this`cleared
      ensures var before := old(TaskOf(t)); TaskOf(t) == before.(admission := None, cleared := before.cleared || releases)
      ensures forall u | u != t :: TaskOf(u) == old(TaskOf(u))
    {
      startAdmissions := startAdmissions - {t};
      cleared := if releases then cleared + {t} else cleared;
    }

    /** The rest of `persistEvent`: a task that has just ended gives back its route and its lease. */
    method FinishPersistEvent(t: Id, foreign: bool, ok: bool, cutoff: int)
      modifies this, registry
      ensures (registry.View(), TaskOf(t)) == Post(old(registry.View()), old(TaskOf(t)), t, foreign, ok, cutoff)
      ensures forall u | u != t :: TaskOf(u) == old(TaskOf(u))
    {
      hide Registry.ReleaseRoute;
      var op := OpOf(t, foreign);
      if !op.Written? || t !in records {
        return;
      }
      if op.terminal {
        CloseAdmission(t, op.changed);
      }
      SetOperation(t, foreign, if ok then Plan(op.rest) else Idle);
      if op.changed && op.terminal {
        var _ := registry.ReleaseTaskRoute(records[t].owner, t, cutoff);
      }
    }
  }

  /**
   On the object: once `InitializeCore` has succeeded, which leaves no active task inherited, and after any steps,
   which keep it so, two active tasks use one workspace only if the creation of one of them was torn.
   */
  lemma ActiveTasksShareNothing(service: BrokerTaskService, t: Id, u: Id)
    requires service.Valid() && NoneInherited(service.model)
    requires Active(service.TaskOf(t)) && Active(service.TaskOf(u))
    requires service.records[t].leaseKey == service.records[u].leaseKey
    ensures t == u || t in service.tornCreates || u in service.tornCreates
  {
    hide Inv, NoneInherited, Unrouted;
    assert Get(service.model, t) == service.TaskOf(t) && Get(service.model, u) == service.TaskOf(u);
    InvMeans(service.model);
    NotInherited(service.model, t);
    NotInherited(service.model, u);
  }

  /** Whether a step sends the start of its task. */
  lemma CheckedRight(s: Service, step: Step)
    ensures step.OnTask? ==>
      var before, after := Get(s, step.task), Get(Apply(s, step), step.task);
      if step.action.DoCheck? then TaskServiceOutcomes.CheckRight(before, step.action.deadlineOk, after)
      else after.starts == before.starts
  {
    hide Get, Apply, TaskServiceOutcomes.CheckRight;
    if step.OnTask? {
      if step.action.DoCheck? {
        TaskServiceOutcomes.CheckMeans(s, step.task, step.action.deadlineOk);
      } else {
        TaskServiceOutcomes.OnlyChecksSend(s, step.task, step.action);
      }
    }
  }

  /** What the invariant says of every task. */
  lemma InvMeans(s: Service)
    requires Inv(s)
    ensures forall t :: Get(s, t).starts <= 1
    ensures forall t | Active(Get(s, t)) :: if Loose(Get(s, t)) then Unrouted(s, t) else HoldsLease(s, t)
  {
    hide RegistrySafety.Inv, Unrouted, HoldsLease;
    forall t ensures Get(s, t).starts <= 1 {
      assert TaskOk(BindingOf(s.registry, t), Get(s, t), t);
    }
    forall t | Active(Get(s, t)) ensures if Loose(Get(s, t)) then Unrouted(s, t) else HoldsLease(s, t) {
      UnroutedIffLoose(s, t);
      if !Loose(Get(s, t)) { BoundHoldsLease(s, t); }
    }
  }

  lemma RegistryIsFine(s: Service)
    requires Inv(s)
    ensures RegistrySafety.Inv(s.registry)
  {
  }

  lemma InitializeStep(s: Service, t: Id, rest: seq<Id>, answers: Id -> Visit, cutoff: int)
    ensures var one := InitializeOne(s, t, answers(t), cutoff);
      Initialize(s, [t] + rest, answers, cutoff) == if one.None? then None else Initialize(one.value, rest, answers, cutoff)
  {
    hide InitializeOne;
    assert ([t] + rest)[1..] == rest;
  }

  lemma InitializeOver(s: Service, answers: Id -> Visit, cutoff: int)
    ensures Initialize(s, [], answers, cutoff) == Some(s)
  {
  }

  lemma StartingEmpty(s: Service)
    requires Starting(s, [])
    ensures s.registry.bindings == map[] && NoneInherited(s) && forall t :: !Active(Get(s, t))
  {
  }
}
