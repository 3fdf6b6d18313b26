/** What becomes of a task: its start is sent, and each trigger leads to the end it is meant for. */
module TaskServiceOutcomes {
  import opened Wrappers
  import Registry
  import RegistrySafety
  import RegistryTheorems
  import opened TaskReducer
  import opened TaskService
  import opened TaskServiceSafety
  import opened TaskServiceTheorems

  // ---------- Sending the start ----------

  /** The start of this task may be sent now. */
  predicate MaySend(task: Task) {
    task.dispatch == Checking && task.admission.Some? && !task.admission.value.cancelled
  }

  /** In time a start that is admitted and not cancelled is sent, and marked in the same step; no other is. */
  ghost predicate CheckRight(task: Task, deadlineOk: bool, task': Task) {
    && (task'.starts == task.starts + 1 <==> MaySend(task) && deadlineOk)
    && (if MaySend(task) && deadlineOk
        then task' == task.(starts := task.starts + 1, dispatch := Requested,
                            admission := Some(task.admission.value.(dispatched := true)))
        else task' == task.(dispatch := if task.dispatch == Checking then Answered else task.dispatch))
  }

  lemma CheckMeans(s: Service, t: Id, deadlineOk: bool)
    ensures CheckRight(Get(s, t), deadlineOk, Get(Apply(s, OnTask(t, DoCheck(deadlineOk))), t))
    ensures Apply(s, OnTask(t, DoCheck(deadlineOk))).registry == s.registry
  {
  }

  lemma CheckIsRight(task: Task, deadlineOk: bool)
    ensures CheckRight(task, deadlineOk, Check(task, deadlineOk))
  {
  }

  /** No other step of a task sends anything. */
  lemma OnlyChecksSend(s: Service, t: Id, action: Action)
    requires !action.DoCheck?
    ensures Get(Apply(s, OnTask(t, action)), t).starts == Get(s, t).starts
  {
    hide Begin, Post, Registry.Acquire, Registry.ReleaseRoute, Write, Terminal;
    OtherActionsSendNothing(s.registry, Get(s, t), t, action);
  }

  lemma OtherActionsSendNothing(reg: Registry.State, task: Task, t: Id, action: Action)
    requires !action.DoCheck?
    ensures Act(reg, task, t, action).1.starts == task.starts
  {
    hide Begin, Post, Write, Acquire, Create, Registry.Acquire, Registry.ReleaseRoute, Terminal;
    match action
    case DoBegin(kind, cutoff) => BeginSendsNothing(reg, task, t, kind, cutoff);
    case DoAcquire(authorized) => RoutingSendsNothing(reg, task, t, authorized, Stored, 0);
    case DoCreate(outcome, cutoff) => RoutingSendsNothing(reg, task, t, false, outcome, cutoff);
    case DoWrite(foreign, outcome) => WriteSendsNothing(task, foreign, outcome);
    case DoPost(foreign, ok, cutoff) => PostSendsNothing(reg, task, t, foreign, ok, cutoff);
    case _ =>
  }

  lemma BeginSendsNothing(reg: Registry.State, task: Task, t: Id, kind: Kind, cutoff: int)
    ensures Begin(reg, task, t, kind, cutoff).1.starts == task.starts
  {
    hide Registry.ReleaseRoute, RouteLive, EventsOf, Terminal;
  }

  lemma RoutingSendsNothing(reg: Registry.State, task: Task, t: Id, authorized: bool, outcome: Outcome, cutoff: int)
    ensures Acquire(reg, task, t, authorized).1.starts == task.starts && Create(reg, task, t, outcome, cutoff).1.starts == task.starts
  {
    hide Registry.Acquire, Registry.ReleaseRoute;
  }

  lemma WriteSendsNothing(task: Task, foreign: bool, outcome: Outcome)
    ensures Write(task, foreign, outcome).starts == task.starts
  {
    hide Reduce, Terminal, AfterWrite;
  }

  lemma PostSendsNothing(reg: Registry.State, task: Task, t: Id, foreign: bool, ok: bool, cutoff: int)
    ensures Post(reg, task, t, foreign, ok, cutoff).1.starts == task.starts
  {
    hide Registry.ReleaseRoute;
  }

  function SendSteps(t: Id): seq<Step> {
    [OnTask(t, DoPublish(true)), OnTask(t, DoLaunch), OnTask(t, DoCheck(true))]
  }

  /** An accepted start whose task has not been ended meanwhile is published, launched and sent, once. */
  lemma AcceptedStartIsSent(s: Service, t: Id)
    requires Inv(s) && Get(s, t).op.Publishing? && Get(s, t).admission.Some? && !Get(s, t).admission.value.cancelled
    ensures var s' := Run(s, SendSteps(t)); var task' := Get(s', t);
      && Get(s, t).starts == 0 && task'.starts == 1 && task'.dispatch == Requested && task'.op == Idle && !task'.launch
      && task'.admission == Some(Admission(true, false)) && task'.record == Get(s, t).record && s'.registry == s.registry
  {
    hide Inv, Run, Apply, Get, Act;
    ThreeSteps(s, SendSteps(t));
    PublishingIsUnsent(s, t);
    SendActs(s.registry, Get(s, t), t);
    OnOneTask(s, t, DoPublish(true));
    var s1 := Apply(s, OnTask(t, DoPublish(true)));
    OnOneTask(s1, t, DoLaunch);
    OnOneTask(Apply(s1, OnTask(t, DoLaunch)), t, DoCheck(true));
  }

  lemma SendActs(reg: Registry.State, task: Task, t: Id)
    requires task.op.Publishing? && task.dispatch == NotLaunched && task.admission == Some(Admission(false, false))
    ensures var published := task.(op := Idle, launch := true);
      var launched := published.(launch := false, dispatch := Checking);
      && Act(reg, task, t, DoPublish(true)) == (reg, published)
      && Act(reg, published, t, DoLaunch) == (reg, launched)
      && Act(reg, launched, t, DoCheck(true)) ==
           (reg, launched.(dispatch := Requested, admission := Some(Admission(true, false)), starts := task.starts + 1))
  {
  }

  lemma PublishingIsUnsent(s: Service, t: Id)
    requires Inv(s) && Get(s, t).op.Publishing?
    ensures Get(s, t).starts == 0 && Get(s, t).dispatch == NotLaunched && !Get(s, t).launch
    ensures Get(s, t).admission.Some? ==> !Get(s, t).admission.value.dispatched
  {
    assert TaskOk(BindingOf(s.registry, t), Get(s, t), t);
    hide RegistrySafety.Inv, RouteOk, BarredOk;
  }

  lemma ThreeSteps(s: Service, steps: seq<Step>)
    requires |steps| == 3
    ensures Run(s, steps) == Apply(Apply(Apply(s, steps[0]), steps[1]), steps[2])
  {
    hide Apply;
    assert steps[1..][1..] == steps[2..] && steps[2..][1..] == [];
    var s1 := Apply(s, steps[0]);
    var s2 := Apply(s1, steps[1]);
    assert Run(s2, steps[2..]) == Run(Apply(s2, steps[2]), []);
    assert Run(s1, steps[1..]) == Run(s2, steps[2..]);
  }

  function AcceptSteps(r: Registry.RouteRequest): seq<Step> {
    [OnTask(r.task, DoBegin(Start(r), 0)), OnTask(r.task, DoAcquire(true)), OnTask(r.task, DoCreate(Stored, 0))]
  }

  /**
   A request for a live claim of a workspace nobody leases makes a new task, with the route and the lease of that
   workspace, and its start waits to be published.
   */
  lemma RequestIsAccepted(s: Service, r: Registry.RouteRequest, k: Id)
    requires Inv(s) && s.registry.exclusive.None? && Get(s, r.task) == FRESH
    requires Registry.Live(s.registry, r.node, r.instance) && Registry.Holds(s.registry, k, r) && k !in s.registry.leases
    ensures var s' := Run(s, AcceptSteps(r)); var task' := Get(s', r.task);
      && Inv(s') && task'.op.Publishing? && task'.admission == Some(Admission(false, false)) && Active(task')
      && task'.record.value.owner == r.owner && task'.record.value.leaseKey == k && HoldsLease(s', r.task)
  {
    hide Inv, Run, Apply, Get, Act, HoldsLease, Registry.Live, Registry.Holds;
    ThreeSteps(s, AcceptSteps(r));
    FreshIsUnbound(s, r.task);
    AcceptActs(s.registry, r, k) by { RegistryIsFine(s); }
    var t := r.task;
    OnOneTask(s, t, DoBegin(Start(r), 0));
    ApplyKeeps(s, OnTask(t, DoBegin(Start(r), 0)));
    var s1 := Apply(s, OnTask(t, DoBegin(Start(r), 0)));
    OnOneTask(s1, t, DoAcquire(true));
    ApplyKeeps(s1, OnTask(t, DoAcquire(true)));
    var s2 := Apply(s1, OnTask(t, DoAcquire(true)));
    OnOneTask(s2, t, DoCreate(Stored, 0));
    ApplyKeeps(s2, OnTask(t, DoCreate(Stored, 0)));
    BoundHoldsLease(Apply(s2, OnTask(t, DoCreate(Stored, 0))), t);
  }

  lemma RegistryIsFine(s: Service)
    requires Inv(s)
    ensures RegistrySafety.Inv(s.registry)
  {
    hide RegistrySafety.Inv, TaskOk;
  }

  lemma AcceptActs(reg: Registry.State, r: Registry.RouteRequest, k: Id)
    requires RegistrySafety.Inv(reg) && reg.exclusive.None? && r.task !in reg.bindings
    requires Registry.Live(reg, r.node, r.instance) && Registry.Holds(reg, k, r) && k !in reg.leases
    ensures var begun := FRESH.(op := Acquiring(r));
      var (reg', routed) := Act(reg, begun, r.task, DoAcquire(true));
      && Act(reg, FRESH, r.task, DoBegin(Start(r), 0)) == (reg, begun)
      && routed == FRESH.(op := Creating(r, k)) && r.task in reg'.bindings
      && Act(reg', routed, r.task, DoCreate(Stored, 0)) ==
           (reg', FRESH.(record := Some(Record(r.owner, k, StartingAgent, 1, None, map[])),
                         admission := Some(Admission(false, false)), op := Publishing))
  {
    hide RegistrySafety.Inv, Registry.Acquire, Registry.ReleaseRoute, Registry.Live, Registry.Holds, RouteLive, EventsOf;
    FreeClaimIsGranted(reg, r, k);
  }

  lemma FreshIsUnbound(s: Service, t: Id)
    requires Inv(s) && Get(s, t) == FRESH
    ensures t !in s.registry.bindings
  {
    assert TaskOk(BindingOf(s.registry, t), Get(s, t), t);
    hide RegistrySafety.Inv;
  }

  lemma FreeClaimIsGranted(reg: Registry.State, r: Registry.RouteRequest, k: Id)
    requires RegistrySafety.Inv(reg) && reg.exclusive.None? && r.task !in reg.bindings
    requires Registry.Live(reg, r.node, r.instance) && Registry.Holds(reg, k, r) && k !in reg.leases
    ensures var (reg', reply) := Registry.Acquire(reg, r, true);
      reply == Registry.Accepted && r.task in reg'.bindings && reg'.bindings[r.task].leaseKey == k
  {
    forall j | Registry.Holds(reg, j, r) ensures j == k {
      RegistrySafety.ClaimsShareNoId(reg, j, k);
    }
    RegistryTheorems.ClaimIsUsable(reg, k, r);
    hide RegistrySafety.Inv, Registry.Live, Registry.Enabled, Registry.Holds;
  }

  /** From the request to the node: with nothing in between, the start of a new task is sent exactly once. */
  lemma RequestIsSent(s: Service, r: Registry.RouteRequest, k: Id)
    requires Reachable(s) && s.registry.exclusive.None? && Get(s, r.task) == FRESH
    requires Registry.Live(s.registry, r.node, r.instance) && Registry.Holds(s.registry, k, r) && k !in s.registry.leases
    ensures var s' := Run(Run(s, AcceptSteps(r)), SendSteps(r.task));
      && Get(s', r.task).starts == 1 && Get(s', r.task).dispatch == Requested && HoldsLease(s', r.task)
  {
    ReachableIsFine(s);
    hide Inv, Reachable, Run, HoldsLease, Registry.Live, Registry.Holds;
    RequestIsAccepted(s, r, k);
    var s1 := Run(s, AcceptSteps(r));
    AcceptedStartIsSent(s1, r.task);
    SameLease(s1, Run(s1, SendSteps(r.task)), r.task);
  }

  lemma SameLease(s: Service, s': Service, t: Id)
    requires s'.registry == s.registry && Get(s', t).record == Get(s, t).record && HoldsLease(s, t)
    ensures HoldsLease(s', t)
  {
  }

  // ---------- What a trigger leads to ----------

  /** The record after these events; what is rejected ends the operation. */
  function Applied(r: Record, events: seq<TaskEvent>): Record
    decreases |events|
  {
    if events == [] then r
    else
      var next := Reduce(r, events[0]);
      if next.None? then r else Applied(next.value, events[1..])
  }

  /** The deadline of the task has passed. */
  predicate Late(kind: Kind) {
    match kind
    case Read(expired) => expired
    case Cancel(expired) => expired
    case NodeEvent(_, expired) => expired
    case NodeCancelled(expired) => expired
    case NodeLost(_, expired) => expired
    case Answer(_, _, expired) => expired
    case WorkerDeadline => true
    case _ => false
  }

  /** The trigger cannot do without the node, and the node is not there. */
  predicate Stranded(r: Record, live: bool, kind: Kind) {
    match kind
    case Start(_) => !live
    case Read(_) => !live
    case Cancel(_) => !live && r.status != Cancelling
    case Answer(input, _, _) => !live && r.status == NeedsInput && r.pending == Some(input)
    case NodeLost(_, _) => true
    case CancelDeadline => r.status == Cancelling
    case Fail => true
    case _ => false
  }

  /** The end each trigger leads to, whatever the active record looks like. */
  lemma TriggersLeadTo(r: Record, live: bool, kind: Kind)
    requires !Terminal(r.status)
    ensures var end := Applied(r, EventsOf(r, live, kind));
      && (Late(kind) ==> end.status == TimedOut)
      && (!Late(kind) && Stranded(r, live, kind) ==> end.status == Failed)
      && (!Late(kind) && kind.NodeCancelled? ==> end.status == Cancelled)
      && (kind.StartAnswered? ==> end == if r.status == StartingAgent then Move(r, Running) else r)
      && (!Late(kind) && kind.NodeEvent? ==>
            var ready := if r.status == StartingAgent then Move(r, Running) else r;
            var next := Reduce(ready, kind.event);
            end == if next.Some? then next.value else ready)
      && (!Late(kind) && kind.Answer? && live && r.status == NeedsInput && r.pending == Some(kind.input)
          && !(kind.input in r.answered && r.answered[kind.input] == kind.answer) ==>
            end.status == Running && end.pending.None? && kind.input in end.answered && end.answered[kind.input] == kind.answer)
      && (!Late(kind) && !Stranded(r, live, kind) && (kind.Start? || kind.Read? || kind.Cancel? || kind.CancelDeadline?) ==> end == r)
  {
    LateEnds(r, live, kind);
    StrandedEnds(r, live, kind);
    NodeEnds(r, live, kind);
    if kind.Answer? { AnswerEnds(r, live, kind); }
    OthersStay(r, live, kind);
    hide Applied, EventsOf, Reduce, Late, Stranded;
  }

  lemma LateEnds(r: Record, live: bool, kind: Kind)
    requires !Terminal(r.status)
    ensures Late(kind) ==> Applied(r, EventsOf(r, live, kind)).status == TimedOut
  {
    AppliedFew(r, TimedOutEvent, TimedOutEvent, TimedOutEvent);
    hide Applied;
  }

  lemma StrandedEnds(r: Record, live: bool, kind: Kind)
    requires !Terminal(r.status)
    ensures !Late(kind) && Stranded(r, live, kind) ==> Applied(r, EventsOf(r, live, kind)).status == Failed
  {
    AppliedFew(r, FailedEvent, FailedEvent, FailedEvent);
    hide Applied;
  }

  lemma NodeEnds(r: Record, live: bool, kind: Kind)
    requires !Terminal(r.status)
    ensures var end := Applied(r, EventsOf(r, live, kind)); var ready := if r.status == StartingAgent then Move(r, Running) else r;
      && (!Late(kind) && kind.NodeCancelled? ==> end.status == Cancelled)
      && (kind.StartAnswered? ==> end == ready)
      && (!Late(kind) && kind.NodeEvent? ==>
            var next := Reduce(ready, kind.event); end == if next.Some? then next.value else ready)
  {
    var ready := if r.status == StartingAgent then Move(r, Running) else r;
    match kind
    case NodeCancelled(_) =>
      AppliedFew(r, AgentStarted, CancelRequested, CancelConfirmed);
      AppliedFew(r, CancelConfirmed, CancelConfirmed, CancelConfirmed);
      AppliedFew(ready, CancelRequested, CancelConfirmed, CancelConfirmed);
      AppliedFew(Move(Drop(ready), Cancelling), CancelConfirmed, CancelConfirmed, CancelConfirmed);
      hide Applied;
    case StartAnswered =>
      AppliedFew(r, AgentStarted, AgentStarted, AgentStarted);
      hide Applied;
    case NodeEvent(e, _) =>
      AppliedFew(r, AgentStarted, e, e);
      AppliedFew(ready, e, e, e);
      assert r.status == StartingAgent ==> Reduce(r, AgentStarted) == Some(ready);
      hide Applied, Reduce;
    case _ => hide Applied, Reduce;
  }

  lemma AnswerEnds(r: Record, live: bool, kind: Kind)
    requires !Terminal(r.status) && kind.Answer?
    ensures var end := Applied(r, EventsOf(r, live, kind));
      !Late(kind) && live && r.status == NeedsInput && r.pending == Some(kind.input)
      && !(kind.input in r.answered && r.answered[kind.input] == kind.answer) ==>
        end.status == Running && end.pending.None? && kind.input in end.answered && end.answered[kind.input] == kind.answer
  {
    var answered := InputAnswered(kind.input, kind.answer);
    AppliedFew(r, answered, answered, answered);
    hide Applied;
  }

  lemma OthersStay(r: Record, live: bool, kind: Kind)
    requires !Terminal(r.status)
    ensures var end := Applied(r, EventsOf(r, live, kind));
      && (!Late(kind) && !Stranded(r, live, kind) && (kind.Start? || kind.Read? || kind.Cancel? || kind.CancelDeadline?) ==> end == r)
  {
    AppliedFew(r, AgentStarted, AgentStarted, AgentStarted);
    hide Applied, Reduce;
  }

  lemma AppliedFew(r: Record, a: TaskEvent, b: TaskEvent, c: TaskEvent)
    ensures Applied(r, []) == r
    ensures Applied(r, [a]) == (if Reduce(r, a).Some? then Reduce(r, a).value else r)
    ensures Applied(r, [a, b]) == (if Reduce(r, a).None? then r else Applied(Reduce(r, a).value, [b]))
    ensures Applied(r, [a, b, c]) == (if Reduce(r, a).None? then r else Applied(Reduce(r, a).value, [b, c]))
  {
    hide Reduce;
    assert [a][1..] == [] && [a, b][1..] == [b] && [a, b, c][1..] == [b, c];
  }

  // ---------- Triggers as runs ----------

  /** Persists as many events, with the store working. */
  ghost function PersistedAll(s: Service, t: Id, times: nat, cutoff: int): Service
    decreases times
  {
    if times == 0 then s else PersistedAll(Persisted(s, t, cutoff), t, times - 1, cutoff)
  }

  /** With the store working an operation writes its events one after the other. */
  lemma {:induction false} EventsArePersisted(s: Service, t: Id, events: seq<TaskEvent>, cutoff: int)
    requires Inv(s) && Get(s, t).record.Some? && Get(s, t).op == Plan(events)
    ensures var s' := PersistedAll(s, t, |events|, cutoff);
      Inv(s') && Get(s', t).record == Some(Applied(Get(s, t).record.value, events)) && Get(s', t).op == Idle
    decreases |events|
  {
    hide Inv, Reduce, Persisted;
    if events == [] {
    } else {
      OneIsPersisted(s, t, events, cutoff);
      var s1 := Persisted(s, t, cutoff);
      if Reduce(Get(s, t).record.value, events[0]).None? {
        IdleStays(s1, t, |events| - 1, cutoff);
      } else {
        EventsArePersisted(s1, t, events[1..], cutoff);
      }
    }
  }

  lemma {:induction false} IdleStays(s: Service, t: Id, times: nat, cutoff: int)
    requires Inv(s) && Get(s, t).op == Idle
    ensures var s' := PersistedAll(s, t, times, cutoff); Inv(s') && Get(s', t) == Get(s, t)
    decreases times
  {
    hide Inv, Get, Apply;
    if times == 0 {
    } else {
      IdleStep(s, t, cutoff);
      PersistKeeps(s, t, cutoff);
      IdleStays(Persisted(s, t, cutoff), t, times - 1, cutoff);
    }
  }

  lemma PersistKeeps(s: Service, t: Id, cutoff: int)
    requires Inv(s)
    ensures Inv(Persisted(s, t, cutoff))
  {
    hide Inv, Apply;
    var s1 := Apply(s, OnTask(t, DoFetch(false, true)));
    ApplyKeeps(s, OnTask(t, DoFetch(false, true)));
    var s2 := Apply(s1, OnTask(t, DoWrite(false, Stored)));
    ApplyKeeps(s1, OnTask(t, DoWrite(false, Stored)));
    ApplyKeeps(s2, OnTask(t, DoPost(false, true, cutoff)));
  }

  lemma OneIsPersisted(s: Service, t: Id, events: seq<TaskEvent>, cutoff: int)
    requires Inv(s) && Get(s, t).record.Some? && events != [] && Get(s, t).op == Writing(events)
    ensures var s' := Persisted(s, t, cutoff); var next := Reduce(Get(s, t).record.value, events[0]);
      && Inv(s') && Get(s', t).record == Some(if next.Some? then next.value else Get(s, t).record.value)
      && Get(s', t).op == if next.Some? then Plan(events[1..]) else Idle
  {
    PersistKeeps(s, t, cutoff);
    hide Inv, Reduce, Apply, Get, Fetch, Write, Post, Plan, Act;
    var fetch, write, post := DoFetch(false, true), DoWrite(false, Stored), DoPost(false, true, cutoff);
    OnOneTask(s, t, fetch);
    var s1 := Apply(s, OnTask(t, fetch));
    OnOneTask(s1, t, write);
    var s2 := Apply(s1, OnTask(t, write));
    OnOneTask(s2, t, post);
    PersistActs(s.registry, Get(s, t), t, cutoff);
    PersistActs(s1.registry, Get(s1, t), t, cutoff);
    PersistActs(s2.registry, Get(s2, t), t, cutoff);
    FetchedThenWritten(Get(s, t), events);
    PostedNext(s2.registry, Get(s2, t), t, cutoff);
  }

  lemma PersistActs(reg: Registry.State, task: Task, t: Id, cutoff: int)
    ensures Act(reg, task, t, DoFetch(false, true)) == (reg, Fetch(task, false, true))
    ensures Act(reg, task, t, DoWrite(false, Stored)) == (reg, Write(task, false, Stored))
    ensures Act(reg, task, t, DoPost(false, true, cutoff)) == Post(reg, task, t, false, true, cutoff)
  {
    hide Fetch, Write, Post;
  }

  lemma FetchedThenWritten(task: Task, events: seq<TaskEvent>)
    requires task.record.Some? && events != [] && task.op == Writing(events)
    ensures var fetched := Fetch(task, false, true);
      var next := Reduce(task.record.value, events[0]);
      var written := Write(fetched, false, Stored);
      && written.record == Some(if next.Some? then next.value else task.record.value)
      && (if next.Some? then written.op.Written? && written.op.rest == events[1..] else written.op == Idle)
  {
    hide Reduce, Terminal;
    assert Fetch(task, false, true) == task.(op := Fetched(events, task.record.value.eventSeq));
    hide Fetch;
  }

  lemma PostedNext(reg: Registry.State, task: Task, t: Id, cutoff: int)
    requires task.record.Some?
    ensures var task' := Post(reg, task, t, false, true, cutoff).1;
      && task'.record == task.record
      && task'.op == if task.op.Written? then Plan(task.op.rest) else task.op
  {
    hide Registry.ReleaseRoute;
  }

  /** How an operation begins on an active task. */
  lemma BeginMeans(s: Service, t: Id, kind: Kind, cutoff: int)
    requires Get(s, t).op == Idle && Active(Get(s, t))
    ensures var s' := Apply(s, OnTask(t, DoBegin(kind, cutoff))); var r := Get(s, t).record.value;
      var live := RouteLive(s.registry, r.owner, t);
      && s'.registry == s.registry && Get(s', t).record == Get(s, t).record
      && Get(s', t).op == if kind.Cancel? && !Late(kind) && r.status != Cancelling && live then CancelChecked
                          else Plan(EventsOf(r, live, kind))
  {
    hide EventsOf, RouteLive, Terminal;
  }

  /**
   A trigger that begins on an active task with the store working leads to the end that is meant for it; only a
   cancellation whose route is live is decided in a step of its own.
   */
  lemma TriggerRuns(s: Service, t: Id, kind: Kind, cutoff: int)
    requires Reachable(s) && Get(s, t).op == Idle && Active(Get(s, t))
    requires var r := Get(s, t).record.value;
      !(kind.Cancel? && !Late(kind) && r.status != Cancelling && RouteLive(s.registry, r.owner, t))
    ensures var r := Get(s, t).record.value;
      var events := EventsOf(r, RouteLive(s.registry, r.owner, t), kind);
      var s' := PersistedAll(Apply(s, OnTask(t, DoBegin(kind, cutoff))), t, |events|, cutoff);
      && Get(s', t).op == Idle && Get(s', t).record == Some(Applied(r, events))
      && (Late(kind) ==> Get(s', t).record.value.status == TimedOut)
      && (!Late(kind) && Stranded(r, RouteLive(s.registry, r.owner, t), kind) ==> Get(s', t).record.value.status == Failed)
      && (!Late(kind) && kind.NodeCancelled? ==> Get(s', t).record.value.status == Cancelled)
  {
    ReachableIsFine(s);
    var r := Get(s, t).record.value;
    BeginMeans(s, t, kind, cutoff);
    TriggersLeadTo(r, RouteLive(s.registry, r.owner, t), kind);
    hide Reachable, Inv, Apply, EventsOf, Applied, RouteLive, Late, Stranded;
    ApplyKeeps(s, OnTask(t, DoBegin(kind, cutoff)));
    EventsArePersisted(Apply(s, OnTask(t, DoBegin(kind, cutoff))), t, EventsOf(r, RouteLive(s.registry, r.owner, t), kind), cutoff);
  }

  /** A task that another start finds unusable is ended in the same way. */
  lemma ForeignEndMeans(s: Service, t: Id, expired: bool)
    requires Active(Get(s, t)) && Get(s, t).foreign == Idle
    ensures var begun := Apply(s, OnTask(t, DoBeginForeign(expired)));
      var fetched := Apply(begun, OnTask(t, DoFetch(true, true)));
      var written := Apply(fetched, OnTask(t, DoWrite(true, Stored)));
      Get(written, t).record.Some? && Get(written, t).record.value.status == if expired then TimedOut else Failed
  {
    OnOneTask(s, t, DoBeginForeign(expired));
    var begun := Apply(s, OnTask(t, DoBeginForeign(expired)));
    OnOneTask(begun, t, DoFetch(true, true));
    var fetched := Apply(begun, OnTask(t, DoFetch(true, true)));
    OnOneTask(fetched, t, DoWrite(true, Stored));
    hide Apply, Get;
  }

  // ---------- The smaller steps ----------

  /** Publishing, launching, answering and ending a dispatch do what they are for; a failed announcement ends the task. */
  ghost predicate DispatchRight(task: Task, action: Action, task': Task) {
    match action
    case DoPublish(ok) =>
      if !task.op.Publishing? then task' == task
      else if ok then task' == task.(op := Idle, launch := true)
      else
        && task'.admission.None? && !task'.op.Publishing? && task'.launch == task.launch
        && (Active(task) ==> task'.op == Writing([FailedEvent]))
    case DoLaunch =>
      if !task.launch then task' == task
      else !task'.launch && task'.dispatch == (if task.dispatch in {Checking, Requested} then task.dispatch else Checking)
    case DoRespond => task' == if task.dispatch == Requested then task.(dispatch := Answered) else task
    case DoSettle =>
      task' == if task.dispatch == Answered && !(task.admission.Some? && task.admission.value.cancelled && !task.admission.value.dispatched)
               then task.(admission := None) else task
    case _ => true
  }

  lemma DispatchMeans(s: Service, t: Id, action: Action)
    ensures DispatchRight(Get(s, t), action, Get(Apply(s, OnTask(t, action)), t))
  {
    OnOneTask(s, t, action);
    hide Apply, Get;
    match action
    case DoPublish(_) =>
    case DoLaunch =>
    case DoRespond =>
    case DoSettle =>
    case _ =>
  }

  /** The loss of its node frees the route of a task that was never stored or has ended. */
  lemma LateLossFreesRoute(s: Service, t: Id, owner: Id, expired: bool, cutoff: int)
    requires Inv(s) && Get(s, t).op == Idle && !Active(Get(s, t))
    requires t in s.registry.bindings && s.registry.bindings[t].owner == owner
    ensures Unrouted(Apply(s, OnTask(t, DoBegin(NodeLost(owner, expired), cutoff))), t)
  {
    var step := OnTask(t, DoBegin(NodeLost(owner, expired), cutoff));
    OnOneTask(s, t, step.action);
    ApplyKeeps(s, step);
    ReleaseBindings(s.registry, owner, t, cutoff);
    hide Apply, Inv, Unrouted, Registry.ReleaseRoute, Get;
    UnboundHasNoLease(Apply(s, step), t);
  }
}
