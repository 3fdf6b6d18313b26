/** Runs of the task service in which a torn write breaks what ActiveTasksNeverShare and TerminalFreesBoth except. */
module TaskServiceSamples {
  import opened Wrappers
  import Registry
  import RegistrySamples
  import RegistryTheorems
  import opened TaskReducer
  import opened TaskService
  import opened TaskServiceSafety
  import opened TaskServiceTheorems

  function OnlyRegistry(steps: seq<Registry.Step>): seq<Step> {
    seq(|steps|, i requires 0 <= i < |steps| => OnRegistry(steps[i]))
  }

  /** Steps of the registry alone leave the tasks as they are. */
  lemma {:induction false} RegistryRuns(s: Service, steps: seq<Registry.Step>)
    requires forall i | 0 <= i < |steps| :: !steps[i].DoAcquire? && !steps[i].DoReleaseRoute?
    ensures Run(s, OnlyRegistry(steps)) == s.(registry := Registry.Run(s.registry, steps))
    decreases |steps|
  {
    hide Registry.Apply;
    if steps == [] {
    } else {
      assert OnlyRegistry(steps)[1..] == OnlyRegistry(steps[1..]);
      RegistryRuns(Apply(s, OnRegistry(steps[0])), steps[1..]);
    }
  }

  lemma {:induction false} RunConcat(s: Service, a: seq<Step>, b: seq<Step>)
    ensures Run(s, a + b) == Run(Run(s, a), b)
    decreases |a|
  {
    hide Apply;
    if a == [] {
      assert a + b == b;
    } else {
      assert (a + b)[1..] == a[1..] + b;
      RunConcat(Apply(s, a[0]), a[1..], b);
    }
  }

  /** The store holds one record, of a task that has ended. */
  const RECORDS: map<Id, Record> := map[9 := Record(7, 31, Completed, 3, None, map[])]

  /** A new process, and the same once a window has come to it. */
  function Begins(): Service { Restarted(map[], RECORDS) }

  function Served(): Service { Begins().(registry := RegistrySamples.ONE) }

  function Coming(): seq<Step> { OnlyRegistry(RegistrySamples.Arrival(1, 11, 21, 31, 41)) }

  lemma ServedIsReached()
    ensures Run(Begins(), Coming()) == Served()
  {
    hide Run, Registry.Run, Registry.Apply, RegistrySamples.Arrived, Restarted;
    RegistrySamples.SamplesAreReached();
    assert Begins().registry == RegistryTheorems.Loaded(map[]) by { RestartedRegistry(map[], RECORDS); }
    RegistryRuns(Begins(), RegistrySamples.Arrival(1, 11, 21, 31, 41));
  }

  lemma RestartedRegistry(catalog: map<Id, Registry.Entry>, records: map<Id, Record>)
    ensures Restarted(catalog, records).registry == RegistryTheorems.Loaded(catalog)
    ensures Restarted(catalog, records).tasks.Keys == records.Keys
  {
  }

  lemma BeginsInitialized()
    ensures Initialized(map[], RECORDS, Begins()) && 1 !in Served().tasks && 2 !in Served().tasks
  {
    hide Restarted, RegistrySamples.Arrived;
    RestartedRegistry(map[], RECORDS);
    assert RegistryTheorems.ValidCatalog(map[]);
    assert Covers(RECORDS, []) && Initialize(Begins(), [], (t: Id) => Visit(false, true, Stored, true), 0) == Some(Begins());
  }

  function Request(t: Id): Registry.RouteRequest { RegistrySamples.RouteTo(1, 11, 41, t) }

  /** A start of task `t`, up to the answer of the store. */
  function StartOf(t: Id, outcome: Outcome): seq<Step> {
    [OnTask(t, DoBegin(Start(Request(t)), 0)), OnTask(t, DoAcquire(true)), OnTask(t, DoCreate(outcome, 0))]
  }

  function Begun(t: Id): Record { Record(7, 31, StartingAgent, 1, None, map[]) }

  /** What is left of task `t` when its creation was torn, and when it succeeded. */
  function TornTask(t: Id): Task { FRESH.(record := Some(Begun(t)), tornCreate := true) }

  function NewTask(t: Id): Task {
    FRESH.(record := Some(Begun(t)), admission := Some(Admission(false, false)), op := Publishing)
  }

  lemma ThreeSteps(s: Service, steps: seq<Step>)
    requires |steps| == 3
    ensures Run(s, steps) == Apply(Apply(Apply(s, steps[0]), steps[1]), steps[2])
  {
    hide Apply;
    assert steps[1..][1..] == steps[2..] && steps[2..][1..] == [];
    var s1 := Apply(s, steps[0]);
    var s2 := Apply(s1, steps[1]);
    assert Run(s2, steps[2..]) == Run(Apply(s2, steps[2]), []);
    assert Run(s1, steps[1..]) == Run(s2, steps[2..]);
  }

  lemma FourSteps(s: Service, steps: seq<Step>)
    requires |steps| == 4
    ensures Run(s, steps) == Apply(Apply(Apply(Apply(s, steps[0]), steps[1]), steps[2]), steps[3])
  {
    hide Apply;
    ThreeSteps(Apply(s, steps[0]), steps[1..]);
  }

  lemma StartsTask(s: Service, t: Id, outcome: Outcome)
    requires s.registry == RegistrySamples.ONE && t !in s.tasks && outcome != NotStored
    ensures Run(s, StartOf(t, outcome)) ==
      if outcome == Torn then Service(RegistrySamples.ONE, s.tasks[t := TornTask(t)])
      else Service(RegistrySamples.Routed(RegistrySamples.ONE, 1, 11, 31, 41, t), s.tasks[t := NewTask(t)])
  {
    hide Run, Act, RegistrySamples.ONE, RegistrySamples.Routed;
    ThreeSteps(s, StartOf(t, outcome));
    TaskStarts(t, outcome);
    var s1 := Apply(s, OnTask(t, DoBegin(Start(Request(t)), 0)));
    var s2 := Apply(s1, OnTask(t, DoAcquire(true)));
    var s3 := Apply(s2, OnTask(t, DoCreate(outcome, 0)));
    assert s2.tasks == s.tasks[t := Get(s2, t)] && s3.tasks == s.tasks[t := Get(s3, t)];
  }

  lemma TaskStarts(t: Id, outcome: Outcome)
    requires outcome != NotStored
    ensures var (reg1, begun) := Act(RegistrySamples.ONE, FRESH, t, DoBegin(Start(Request(t)), 0));
      var (reg2, routed) := Act(reg1, begun, t, DoAcquire(true));
      Act(reg2, routed, t, DoCreate(outcome, 0)) ==
        if outcome == Torn then (RegistrySamples.ONE, TornTask(t))
        else (RegistrySamples.Routed(RegistrySamples.ONE, 1, 11, 31, 41, t), NewTask(t))
  {
    RegistrySamples.FreeIsGranted(RegistrySamples.ONE, 1, 11, 31, 41, t);
    RegistrySamples.RouteIsGivenBack(RegistrySamples.ONE, 1, 11, 31, 41, t, 0);
    hide Registry.Acquire, Registry.ReleaseRoute;
    assert Begin(RegistrySamples.ONE, FRESH, t, Start(Request(t)), 0) == (RegistrySamples.ONE, FRESH.(op := Acquiring(Request(t))));
  }

  ghost predicate Share(s: Service, t: Id, u: Id) {
    && t != u && Active(Get(s, t)) && Active(Get(s, u))
    && Get(s, t).record.value.leaseKey == Get(s, u).record.value.leaseKey
  }

  /** After a torn creation two active tasks use one workspace: the exception of ActiveTasksNeverShare is real. */
  lemma TornCreateShares()
    ensures exists s0, steps :: Initialized(map[], RECORDS, s0) && Share(Run(s0, steps), 1, 2)
  {
    ServedIsReached();
    BeginsInitialized();
    hide Run, Initialized, Begins;
    var s0 := Begins();
    StartsTask(Served(), 1, Torn);
    var s1 := Run(Served(), StartOf(1, Torn));
    StartsTask(s1, 2, Stored);
    var s2 := Run(s1, StartOf(2, Stored));
    RunConcat(s0, Coming() + StartOf(1, Torn), StartOf(2, Stored));
    RunConcat(s0, Coming(), StartOf(1, Torn));
    assert Share(s2, 1, 2);
    assert s2 == Run(s0, Coming() + StartOf(1, Torn) + StartOf(2, Stored));
  }

  function TornEnding(): seq<Step> {
    [OnTask(1, DoPublish(true)), OnTask(1, DoBegin(WorkerDeadline, 0)), OnTask(1, DoFetch(false, true)),
     OnTask(1, DoWrite(false, Torn))]
  }

  ghost predicate EndedWithLease(s: Service, t: Id) {
    && Get(s, t).record.Some? && Terminal(Get(s, t).record.value.status) && Get(s, t).op == Idle
    && HoldsLease(s, t)
  }

  /** A torn last write leaves a finished task with its route and lease: the exception of TerminalFreesBoth is real. */
  lemma TornEndKeepsLease()
    ensures exists s0, steps :: Initialized(map[], RECORDS, s0) && EndedWithLease(Run(s0, steps), 1)
  {
    ServedIsReached();
    BeginsInitialized();
    hide Run, Initialized, Begins;
    var s0 := Begins();
    StartsTask(Served(), 1, Stored);
    var s1 := Run(Served(), StartOf(1, Stored));
    EndsTorn(s1);
    var s2 := Run(s1, TornEnding());
    RunConcat(s0, Coming() + StartOf(1, Stored), TornEnding());
    RunConcat(s0, Coming(), StartOf(1, Stored));
    assert s2 == Run(s0, Coming() + StartOf(1, Stored) + TornEnding());
  }

  lemma EndsTorn(s: Service)
    requires s.registry == RegistrySamples.Routed(RegistrySamples.ONE, 1, 11, 31, 41, 1) && Get(s, 1) == NewTask(1)
    ensures EndedWithLease(Run(s, TornEnding()), 1)
  {
    hide Run, Apply, Act, RegistrySamples.ONE, NewTask, Get, Active;
    FourSteps(s, TornEnding());
    var s1 := Apply(s, OnTask(1, DoPublish(true)));
    OnOneTask(s, 1, DoPublish(true));
    var s2 := Apply(s1, OnTask(1, DoBegin(WorkerDeadline, 0)));
    OnOneTask(s1, 1, DoBegin(WorkerDeadline, 0));
    var s3 := Apply(s2, OnTask(1, DoFetch(false, true)));
    OnOneTask(s2, 1, DoFetch(false, true));
    OnOneTask(s3, 1, DoWrite(false, Torn));
    TaskEndsTorn(s.registry);
    assert Run(s, TornEnding()) == Apply(s3, OnTask(1, DoWrite(false, Torn)));
  }

  lemma TaskEndsTorn(reg: Registry.State)
    ensures var (reg1, published) := Act(reg, NewTask(1), 1, DoPublish(true));
      var (reg2, late) := Act(reg1, published, 1, DoBegin(WorkerDeadline, 0));
      var (reg3, fetched) := Act(reg2, late, 1, DoFetch(false, true));
      var (reg4, ended) := Act(reg3, fetched, 1, DoWrite(false, Torn));
      reg4 == reg && ended.op == Idle && ended.record == Some(Begun(1).(status := TimedOut, eventSeq := 2))
  {
    hide Registry.Acquire, Registry.ReleaseRoute;
    var published := NewTask(1).(op := Idle, launch := true);
    assert Publish(NewTask(1), true) == published;
    var late := published.(op := Writing([TimedOutEvent]));
    assert Begin(reg, published, 1, WorkerDeadline, 0) == (reg, late);
    assert Fetch(late, false, true) == late.(op := Fetched([TimedOutEvent], 1));
    assert Reduce(Begun(1), TimedOutEvent) == Some(Begun(1).(status := TimedOut, eventSeq := 2));
  }
}
