/** Short runs of the registry in which windows register and claim workspaces. */
module RegistrySamples {
  import opened Wrappers
  import opened Registry
  import RegistryTheorems

  /** A window `n` comes and claims the new workspace `k`, which gets the id `w`. */
  function Arrival(n: Id, instance: Id, session: Id, k: Id, w: Id): seq<Step> {
    [DoRegister(RegisterInput(n, instance, 0, 0, Online, session), 0),
     DoClaimBegin(ClaimInput(n, instance, k, None, 0), w), DoStored(true), DoFinish]
  }

  function Window(serial: nat, instance: Id, session: Id, k: Id, w: Id): Node {
    Node(serial, instance, 0, 0, Online, 0, 0, None, Some(session), map[k := Observation(w, Claimed)], map[k := w])
  }

  /** Nothing of the new window or workspace is known yet, and there is room for both. */
  ghost predicate Welcomes(s: State, n: Id, instance: Id, session: Id, k: Id, w: Id) {
    && s.exclusive.None? && |s.nodes| < MAX_NODES && |s.catalog| < MAX_WORKSPACES
    && n !in s.nodes && session !in s.closed && !InstanceTaken(s, n, instance)
    && k !in s.catalog && k !in s.claims && !IdTakenElsewhere(s.catalog, k, w)
  }

  function Arrived(s: State, n: Id, instance: Id, session: Id, k: Id, w: Id): State {
    s.(nodes := s.nodes[n := Window(s.nextSerial, instance, session, k, w)],
       claims := s.claims[k := Claim(w, n, instance)],
       catalog := s.catalog[k := Entry(w, 0, true)],
       nextSerial := s.nextSerial + 1)
  }

  lemma ArrivalClaims(s: State, n: Id, instance: Id, session: Id, k: Id, w: Id)
    requires Welcomes(s, n, instance, session, k, w)
    ensures Run(s, Arrival(n, instance, session, k, w)) == Arrived(s, n, instance, session, k, w)
  {
    hide Run, Apply, Arrived;
    var steps := Arrival(n, instance, session, k, w);
    FourSteps(s, steps);
    ArrivalRegisters(s, n, instance, session, k, w);
    ArrivalBegins(s, n, instance, session, k, w);
    ArrivalFinishes(s, n, instance, session, k, w);
  }

  lemma FourSteps(s: State, steps: seq<Step>)
    requires |steps| == 4
    ensures Run(s, steps) == Apply(Apply(Apply(Apply(s, steps[0]), steps[1]), steps[2]), steps[3])
  {
    hide Apply;
    assert steps[1..][1..] == steps[2..] && steps[2..][1..] == steps[3..] && steps[3..][1..] == [];
    var s1 := Apply(s, steps[0]);
    var s2 := Apply(s1, steps[1]);
    var s3 := Apply(s2, steps[2]);
    assert Run(s3, steps[3..]) == Run(Apply(s3, steps[3]), []);
    assert Run(s2, steps[2..]) == Run(s3, steps[3..]);
    assert Run(s1, steps[1..]) == Run(s2, steps[2..]);
  }

  function Registered(s: State, n: Id, instance: Id, session: Id): State {
    Admit(s, RegisterInput(n, instance, 0, 0, Online, session), 0)
  }

  lemma ArrivalRegisters(s: State, n: Id, instance: Id, session: Id, k: Id, w: Id)
    requires Welcomes(s, n, instance, session, k, w)
    ensures Apply(s, Arrival(n, instance, session, k, w)[0]) == Registered(s, n, instance, session)
  {
    RegistryTheorems.LiveCountIs(s);
    hide Reattach, Drop;
  }

  function Writing(s: State, n: Id, instance: Id, session: Id, k: Id, w: Id): State {
    Registered(s, n, instance, session).(
      exclusive := Some(ClaimWriting(ClaimInput(n, instance, k, None, 0), s.nextSerial, Entry(w, 0, true))))
  }

  lemma ArrivalBegins(s: State, n: Id, instance: Id, session: Id, k: Id, w: Id)
    requires Welcomes(s, n, instance, session, k, w)
    ensures Apply(Registered(s, n, instance, session), DoClaimBegin(ClaimInput(n, instance, k, None, 0), w))
         == Writing(s, n, instance, session, k, w)
  {
    hide InstanceTaken;
  }

  lemma ArrivalFinishes(s: State, n: Id, instance: Id, session: Id, k: Id, w: Id)
    requires Welcomes(s, n, instance, session, k, w)
    ensures Apply(Apply(Writing(s, n, instance, session, k, w), DoStored(true)), DoFinish)
         == Arrived(s, n, instance, session, k, w)
  {
    hide IdTakenElsewhere, InstanceTaken;
    var input := ClaimInput(n, instance, k, None, 0);
    var entry := Entry(w, 0, true);
    var s2 := Writing(s, n, instance, session, k, w);
    var s3 := s2.(catalog := s.catalog[k := entry], exclusive := Some(ClaimFinishing(input, s.nextSerial, entry)));
    assert Stored(s2, true).0 == s3;
    assert ClaimFinish(s3, input, s.nextSerial, entry).0 == Arrived(s, n, instance, session, k, w);
  }

  /** One window, 1, with the workspace 31 whose id is 41. */
  const ONE: State := Arrived(EMPTY, 1, 11, 21, 31, 41)

  /** A second window, 2, with the workspace 32 whose id is 42. */
  const TWO: State := Arrived(ONE, 2, 12, 22, 32, 42)

  lemma SamplesAreReached()
    ensures Run(RegistryTheorems.Loaded(map[]), Arrival(1, 11, 21, 31, 41)) == ONE
    ensures Run(ONE, Arrival(2, 12, 22, 32, 42)) == TWO
    ensures RegistryTheorems.ValidCatalog(map[])
  {
    hide Run;
    ArrivalClaims(EMPTY, 1, 11, 21, 31, 41);
    ArrivalClaims(ONE, 2, 12, 22, 32, 42);
  }

  lemma {:induction false} RunConcat(s: State, a: seq<Step>, b: seq<Step>)
    ensures Run(s, a + b) == Run(Run(s, a), b)
    decreases |a|
  {
    hide Apply;
    if a == [] {
      assert a + b == b;
    } else {
      assert (a + b)[1..] == a[1..] + b;
      RunConcat(Apply(s, a[0]), a[1..], b);
    }
  }

  lemma TwoIsReachable()
    ensures RegistryTheorems.Reachable(TWO)
  {
    hide Run, Arrived;
    SamplesAreReached();
    var steps := Arrival(1, 11, 21, 31, 41) + Arrival(2, 12, 22, 32, 42);
    RunConcat(RegistryTheorems.Loaded(map[]), Arrival(1, 11, 21, 31, 41), Arrival(2, 12, 22, 32, 42));
    assert RegistryTheorems.ReachedBy(map[], steps, TWO);
  }

  /** The route to the window's workspace for task `t`. */
  function RouteTo(n: Id, instance: Id, w: Id, t: Id): RouteRequest { RouteRequest(n, instance, w, 7, t) }

  function Routed(s: State, n: Id, instance: Id, k: Id, w: Id, t: Id): State {
    s.(leases := s.leases[k := Owner(7, t)], bindings := s.bindings[t := Binding(n, instance, w, 7, k)])
  }

  /** The only claim, and nobody leases it. */
  ghost predicate Free(s: State, n: Id, instance: Id, k: Id, w: Id) {
    && s.claims == map[k := Claim(w, n, instance)] && Live(s, n, instance)
    && k !in s.leases && k in s.catalog && s.catalog[k] == Entry(w, 0, true)
  }

  lemma FreeIsGranted(s: State, n: Id, instance: Id, k: Id, w: Id, t: Id)
    requires Free(s, n, instance, k, w) && t !in s.bindings
    ensures Acquire(s, RouteTo(n, instance, w, t), true) == (Routed(s, n, instance, k, w, t), Accepted)
  {
    var r := RouteTo(n, instance, w, t);
    assert Holds(s, k, r) && forall j | Holds(s, j, r) :: j == k;
    assert Uses(s.catalog, k, w) && Enabled(s.catalog, w);
    assert RouteRefusal(s, r, k).None?;
  }

  /** While all windows are online, giving the route back undoes the grant. */
  lemma RouteIsGivenBack(s: State, n: Id, instance: Id, k: Id, w: Id, t: Id, cutoff: int)
    requires Free(s, n, instance, k, w) && t !in s.bindings
    requires forall m | m in s.nodes :: s.nodes[m].status != Offline
    ensures ReleaseRoute(Routed(s, n, instance, k, w, t), 7, t, cutoff) == s
  {
    var s' := Routed(s, n, instance, k, w, t);
    assert OwnsRoute(s', 7, t);
    assert s'.leases - {k} == s.leases && s'.bindings - {t} == s.bindings;
  }
}
