/**
 Admission, dispatch and cancellation of routed tasks: src/broker/BrokerTaskService.ts over the registry of
 module Registry.  Every step is the code between two awaits.

 The operations on one task run one at a time (`enqueueTask`); `op` is the one under way.  A start that matches an
 older task by its delegation id touches that task outside its own queue, which is `foreign`.  The reply
 of the node to a start, every deadline and every other trigger may come at any time: they are operations that
 may begin whenever the queue is free, which includes every order the source can produce.

 History: `starts` counts the start RPCs sent; `barred` is set when a cancellation finds the task undispatched;
 `inherited` marks a record found in the store at the start of the process; a write is torn when it took effect
 although the store reported a failure, which `tornCreate` and `tornEnd` record of the creation of a task and of
 the write that ended it; `cleared` is set when the route of a task that has ended is released.
 */
module TaskService {
  import opened Wrappers
  import Registry
  import opened TaskReducer

  datatype Admission = Admission(dispatched: bool, cancelled: bool)

  datatype Dispatch = NotLaunched | Checking | Requested | Answered

  datatype Op =
    | Idle
    | Acquiring(request: Registry.RouteRequest)
    | Creating(request: Registry.RouteRequest, leaseKey: Id)
    | Publishing
    | CancelChecked
    | Writing(events: seq<TaskEvent>)
    | Fetched(events: seq<TaskEvent>, seen: nat)
    | Written(changed: bool, terminal: bool, rest: seq<TaskEvent>)

  datatype Task = Task(
    record: Option<Record>,
    admission: Option<Admission>,
    launch: bool,
    dispatch: Dispatch,
    op: Op,
    foreign: Op,
    starts: nat,
    barred: bool,
    inherited: bool,
    tornCreate: bool,
    tornEnd: bool,
    cleared: bool)

  const FRESH: Task := Task(None, None, false, NotLaunched, Idle, Idle, 0, false, false, false, false, false)

  datatype Service = Service(registry: Registry.State, tasks: map<Id, Task>)

  function Get(s: Service, t: Id): Task {
    if t in s.tasks then s.tasks[t] else FRESH
  }

  predicate Active(task: Task) {
    task.record.Some? && !Terminal(task.record.value.status)
  }

  /** A record that never held a route of this process, or had it taken away as it was created. */
  predicate Loose(task: Task) {
    task.inherited || task.tornCreate
  }

  /** `lookupTaskRoute` finds the route and its node is live. */
  predicate RouteLive(reg: Registry.State, owner: Id, t: Id) {
    && Registry.OwnsRoute(reg, owner, t)
    && Registry.Live(reg, reg.bindings[t].node, reg.bindings[t].instance)
  }

  // ---------- Operations begin ----------

  datatype Kind =
    | Start(request: Registry.RouteRequest)
    | Read(expired: bool)
    | Cancel(expired: bool)
    | NodeEvent(event: TaskEvent, expired: bool)
    | NodeCancelled(expired: bool)
    | NodeLost(owner: Id, expired: bool)
    | WorkerDeadline
    | CancelDeadline
    | StartAnswered
    | Answer(input: Id, answer: Id, expired: bool)
    | Fail

  /** A missing event list means there is nothing to write. */
  function Plan(events: seq<TaskEvent>): Op {
    if events == [] then Idle else Writing(events)
  }

  /** What the first events of an operation are once it has read the active record. */
  function EventsOf(r: Record, live: bool, kind: Kind): seq<TaskEvent> {
    match kind
    case Start(_) => if live then [] else [FailedEvent]
    case Read(expired) => if expired then [TimedOutEvent] else if live then [] else [FailedEvent]
    case Cancel(expired) =>
      if expired then [TimedOutEvent] else if r.status == Cancelling || live then [] else [FailedEvent]
    case NodeEvent(e, expired) =>
      if expired then [TimedOutEvent] else if r.status == StartingAgent then [AgentStarted, e] else [e]
    case NodeCancelled(expired) =>
      if expired then [TimedOutEvent]
      else if r.status == StartingAgent then [AgentStarted, CancelRequested, CancelConfirmed]
      else if r.status == Cancelling then [CancelConfirmed]
      else [CancelRequested, CancelConfirmed]
    case NodeLost(_, expired) => if expired then [TimedOutEvent] else [FailedEvent]
    case WorkerDeadline => [TimedOutEvent]
    case CancelDeadline => if r.status == Cancelling then [FailedEvent] else []
    case StartAnswered => if r.status == StartingAgent then [AgentStarted] else []
    case Answer(input, answer, expired) =>
      if expired then [TimedOutEvent]
      else if r.status == NeedsInput && r.pending == Some(input) then
        if live then [InputAnswered(input, answer)] else [FailedEvent]
      else []
    case Fail => [FailedEvent]
  }

  /** Begins an operation whose turn it is in the task's queue. */
  function Begin(reg: Registry.State, task: Task, t: Id, kind: Kind, cutoff: int): (Registry.State, Task) {
    if task.op != Idle then (reg, task)
    else if task.record.None? then
      match kind
      case Start(request) => (reg, if request.task == t then task.(op := Acquiring(request)) else task)
      case NodeLost(owner, _) => (Registry.ReleaseRoute(reg, owner, t, cutoff), task)
      case _ => (reg, task)
    else if Terminal(task.record.value.status) then
      if kind.NodeLost? then
        (Registry.ReleaseRoute(reg, kind.owner, t, cutoff),
         task.(cleared := task.cleared || kind.owner == task.record.value.owner))
      else (reg, task)
    else
      var r := task.record.value;
      var live := RouteLive(reg, r.owner, t);
      if kind.Cancel? && !kind.expired && r.status != Cancelling && live then (reg, task.(op := CancelChecked))
      else (reg, task.(op := Plan(EventsOf(r, live, kind))))
  }

  /** Another task's start finds this one unusable. */
  function BeginForeign(task: Task, expired: bool): Task {
    if task.foreign != Idle || !Active(task) then task
    else task.(foreign := Writing([if expired then TimedOutEvent else FailedEvent]))
  }

  // ---------- Starting ----------

  ghost function Acquire(reg: Registry.State, task: Task, t: Id, authorized: bool): (Registry.State, Task) {
    if !task.op.Acquiring? || reg.exclusive.Some? then (reg, task)
    else
      var (reg', reply) := Registry.Acquire(reg, task.op.request, authorized);
      if reply == Registry.Accepted && t in reg'.bindings then
        (reg', task.(op := Creating(task.op.request, reg'.bindings[t].leaseKey)))
      else (reg', task.(op := Idle))
  }

  datatype Outcome = Stored | NotStored | Torn

  /** The store creates the record, refuses, or creates it and then reports a failure. */
  function Create(reg: Registry.State, task: Task, t: Id, outcome: Outcome, cutoff: int): (Registry.State, Task) {
    if !task.op.Creating? then (reg, task)
    else
      var owner := task.op.request.owner;
      var record := Record(owner, task.op.leaseKey, StartingAgent, 1, None, map[]);
      match outcome
      case Stored => (reg, task.(record := Some(record), admission := Some(Admission(false, false)), op := Publishing))
      case NotStored => (Registry.ReleaseRoute(reg, owner, t, cutoff), task.(op := Idle))
      case Torn =>
        (Registry.ReleaseRoute(reg, owner, t, cutoff), task.(record := Some(record), op := Idle, tornCreate := true))
  }

  /** The accepted start has been announced; its caller will launch the dispatch. */
  function Publish(task: Task, ok: bool): Task {
    if !task.op.Publishing? then task
    else if ok then task.(op := Idle, launch := true)
    else task.(admission := None, op := if Active(task) then Writing([FailedEvent]) else Idle)
  }

  // ---------- Dispatching ----------

  function Launch(task: Task): Task {
    if !task.launch then task
    else if task.dispatch in {Checking, Requested} then task.(launch := false)
    else task.(launch := false, dispatch := Checking)
  }

  /** The last check before the RPC, in one step with sending it. */
  function Check(task: Task, deadlineOk: bool): Task {
    if task.dispatch != Checking then task
    else if task.admission.None? || task.admission.value.cancelled || !deadlineOk then task.(dispatch := Answered)
    else task.(dispatch := Requested, admission := Some(task.admission.value.(dispatched := true)),
               starts := task.starts + 1)
  }

  function Respond(task: Task): Task {
    if task.dispatch != Requested then task else task.(dispatch := Answered)
  }

  /** The dispatch is over: the admission is dropped unless a cancellation still needs it. */
  function Settle(task: Task): Task {
    if task.dispatch != Answered then task
    else if task.admission.Some? && task.admission.value.cancelled && !task.admission.value.dispatched then task
    else task.(admission := None)
  }

  // ---------- Cancelling ----------

  /** An admission that has not been dispatched is the proof that no RPC was sent. */
  function CancelDecide(task: Task): Task {
    if !task.op.CancelChecked? then task
    else if task.admission.Some? && !task.admission.value.dispatched then
      task.(admission := Some(task.admission.value.(cancelled := true)), barred := true,
            op := Writing([CancelRequested, CancelConfirmed]))
    else task.(op := Writing([CancelRequested]))
  }

  // ---------- persistEvent ----------

  function SetOp(task: Task, foreign: bool, op: Op): Task {
    if foreign then task.(foreign := op) else task.(op := op)
  }

  /** The record is read for comparison; another operation may write before this one does. */
  function Fetch(task: Task, foreign: bool, ok: bool): Task {
    var op := if foreign then task.foreign else task.op;
    if !op.Writing? || op.events == [] || task.record.None? then task
    else SetOp(task, foreign, if ok then Fetched(op.events, task.record.value.eventSeq) else Idle)
  }

  /** The store applies the next event of an operation, refuses, or applies it and reports a failure. */
  function Write(task: Task, foreign: bool, outcome: Outcome): Task {
    var op := if foreign then task.foreign else task.op;
    if !op.Fetched? || op.events == [] || task.record.None? then task
    else
      var next := Reduce(task.record.value, op.events[0]);
      if next.None? || outcome == NotStored then SetOp(task, foreign, Idle)
      else SetOp(Recorded(task, next.value, outcome), foreign, AfterWrite(op, task.record.value, next.value, outcome))
  }

  function Recorded(task: Task, next: Record, outcome: Outcome): Task
    requires task.record.Some?
  {
    var ends := outcome == Torn && next != task.record.value && Terminal(next.status);
    task.(record := Some(next), tornEnd := task.tornEnd || ends)
  }

  /** The result is compared with what the operation read, not with what it replaced. */
  function AfterWrite(op: Op, before: Record, next: Record, outcome: Outcome): Op
    requires op.Fetched? && op.events != []
  {
    if outcome == Torn && next != before then Idle
    else Written(next.eventSeq != op.seen, Terminal(next.status), op.events[1..])
  }

  /** What `persistEvent` does once the store has answered; a failing listener ends the operation. */
  function Post(reg: Registry.State, task: Task, t: Id, foreign: bool, ok: bool, cutoff: int): (Registry.State, Task) {
    var op := if foreign then task.foreign else task.op;
    if !op.Written? || task.record.None? then (reg, task)
    else
      var releases := op.changed && op.terminal;
      var after := if op.terminal then task.(admission := None, cleared := task.cleared || releases) else task;
      (if releases then Registry.ReleaseRoute(reg, task.record.value.owner, t, cutoff) else reg,
       SetOp(after, foreign, if ok then Plan(op.rest) else Idle))
  }

  // ---------- Runs ----------

  datatype Action =
    | DoBegin(kind: Kind, cutoff: int)
    | DoBeginForeign(expired: bool)
    | DoAcquire(authorized: bool)
    | DoCreate(outcome: Outcome, cutoff: int)
    | DoPublish(ok: bool)
    | DoLaunch
    | DoCheck(deadlineOk: bool)
    | DoRespond
    | DoSettle
    | DoCancelDecide
    | DoFetch(foreign: bool, ok: bool)
    | DoWrite(foreign: bool, outcome: Outcome)
    | DoPost(foreign: bool, ok: bool, cutoff: int)

  ghost function Act(reg: Registry.State, task: Task, t: Id, action: Action): (Registry.State, Task) {
    match action
    case DoBegin(kind, cutoff) => Begin(reg, task, t, kind, cutoff)
    case DoBeginForeign(expired) => (reg, BeginForeign(task, expired))
    case DoAcquire(authorized) => Acquire(reg, task, t, authorized)
    case DoCreate(outcome, cutoff) => Create(reg, task, t, outcome, cutoff)
    case DoPublish(ok) => (reg, Publish(task, ok))
    case DoLaunch => (reg, Launch(task))
    case DoCheck(deadlineOk) => (reg, Check(task, deadlineOk))
    case DoRespond => (reg, Respond(task))
    case DoSettle => (reg, Settle(task))
    case DoCancelDecide => (reg, CancelDecide(task))
    case DoFetch(foreign, ok) => (reg, Fetch(task, foreign, ok))
    case DoWrite(foreign, outcome) => (reg, Write(task, foreign, outcome))
    case DoPost(foreign, ok, cutoff) => Post(reg, task, t, foreign, ok, cutoff)
  }

  /** A step of one task, or of the registry on its own: windows come, go, claim and release. */
  datatype Step = OnTask(task: Id, action: Action) | OnRegistry(step: Registry.Step)

  ghost function Apply(s: Service, step: Step): Service {
    match step
    case OnTask(t, action) =>
      var (reg, task) := Act(s.registry, Get(s, t), t, action);
      Service(reg, s.tasks[t := task])
    case OnRegistry(own) =>
      if own.DoAcquire? || own.DoReleaseRoute? then s else s.(registry := Registry.Apply(s.registry, own))
  }

  ghost function Run(s: Service, steps: seq<Step>): Service
    decreases |steps|
  {
    if steps == [] then s else Run(Apply(s, steps[0]), steps[1..])
  }
}
