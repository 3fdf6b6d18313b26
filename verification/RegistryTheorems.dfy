/** The promises of the node registry, for every run from a stored catalog. */
module RegistryTheorems {
  import opened Wrappers
  import Sets
  import opened Registry
  import opened RegistrySafety

  /** A registry that has just read its catalog, which the schema has checked. */
  function Loaded(catalog: map<Id, Entry>): State {
    EMPTY.(catalog := catalog)
  }

  ghost predicate ValidCatalog(catalog: map<Id, Entry>) {
    |catalog| <= MAX_WORKSPACES && UniqueWorkspaces(catalog)
  }

  ghost predicate Reachable(s: State) {
    exists catalog, steps :: ReachedBy(catalog, steps, s)
  }

  ghost predicate ReachedBy(catalog: map<Id, Entry>, steps: seq<Step>, s: State) {
    ValidCatalog(catalog) && Run(Loaded(catalog), steps) == s
  }

  lemma ReachableIsFine(s: State)
    requires Reachable(s)
    ensures Inv(s)
  {
    var catalog, steps :| ReachedBy(catalog, steps, s);
    assert Inv(Loaded(catalog));
    hide Inv, Run;
    RunKeeps(Loaded(catalog), steps);
  }

  // ---------- Claims ----------

  predicate ClaimedBy(s: State, n: Id, k: Id) {
    SeenClaimed(s.nodes, n, k) && Live(s, n, s.nodes[n].instance)
  }

  /** A workspace has at most one claimant, and the claim table lists it exactly when a live node shows it claimed. */
  lemma ClaimsMatchNodes(s: State, k: Id)
    requires Reachable(s)
    ensures k in s.claims <==> exists n :: ClaimedBy(s, n, k)
    ensures forall a, b | SeenClaimed(s.nodes, a, k) && SeenClaimed(s.nodes, b, k) :: a == b
    ensures k in s.claims ==>
      && s.claims[k].node in s.nodes && s.nodes[s.claims[k].node].instance == s.claims[k].instance
      && ClaimedBy(s, s.claims[k].node, k)
      && s.nodes[s.claims[k].node].workspaces[k].workspaceId == s.claims[k].workspaceId
  {
    ReachableIsFine(s);
    hide Reachable, Inv, Live;
    ClaimFacts(s, k);
    if k in s.claims {
      ShownIsLive(s, s.claims[k].node, k);
      assert ClaimedBy(s, s.claims[k].node, k);
    }
  }

  lemma ClaimFacts(s: State, k: Id)
    requires Inv(s)
    ensures k in s.claims ==> Backed(s.nodes, k, s.claims[k])
    ensures forall n | SeenClaimed(s.nodes, n, k) :: k in s.claims && s.claims[k].node == n
  {
    hide Routes, Directory, ClaimsEnabled, PendingOk, ObservationsCatalogued, UniqueWorkspaces;
  }

  lemma ShownIsLive(s: State, n: Id, k: Id)
    requires Inv(s) && Sees(s.nodes, n, k)
    ensures Live(s, n, s.nodes[n].instance)
  {
    hide Claims, Routes, UniqueInstances;
    assert NodeOk(s.nodes[n], s.closed);
  }

  /** A claimed workspace is enabled unless the switch that disables it is at its last step. */
  lemma ClaimedIsEnabled(s: State, k: Id)
    requires Reachable(s) && k in s.claims
    ensures k in s.catalog && s.catalog[k].workspaceId == s.claims[k].workspaceId
    ensures s.catalog[k].enabled || s.exclusive == Some(SwitchFinishing(k, false))
  {
    ReachableIsFine(s);
    hide Routes, Directory, UniqueWorkspaces, PendingOk;
    assert Backed(s.nodes, k, s.claims[k]);
    assert Sees(s.nodes, s.claims[k].node, k);
  }

  lemma InstancesAreUnique(s: State, a: Id, b: Id)
    requires Reachable(s) && a in s.nodes && b in s.nodes && s.nodes[a].instance == s.nodes[b].instance
    ensures a == b && |s.nodes| <= MAX_NODES
  {
    ReachableIsFine(s);
    hide Claims, Routes;
  }

  // ---------- Task routes ----------

  /** Every binding owns the lease of its workspace, and no two bindings share a workspace. */
  lemma BindingsNeverShare(s: State, t: Id, u: Id)
    requires Reachable(s) && t in s.bindings && u in s.bindings
    ensures var b := s.bindings[t]; b.leaseKey in s.leases && s.leases[b.leaseKey] == Owner(b.owner, t)
    ensures s.bindings[t].leaseKey == s.bindings[u].leaseKey ==> t == u
  {
    ReachableIsFine(s);
    hide Claims, Directory, LeasesBound, BoundNodesKept, LeasesEnabled;
  }

  /** A lease exists exactly for a bound workspace, which is then enabled. */
  lemma LeasedMeansBound(s: State, k: Id)
    requires Reachable(s)
    ensures k in s.leases <==> exists t :: t in s.bindings && s.bindings[t].leaseKey == k
    ensures k in s.leases ==> k in s.catalog && s.catalog[k].enabled
  {
    ReachableIsFine(s);
    hide Claims, Directory, BoundNodesKept;
  }

  /** The task is bound on these terms, and the record of its node is the one it was bound to. */
  predicate Bound(s: State, t: Id, b: Binding, serial: nat) {
    && t in s.bindings && s.bindings[t] == b
    && b.leaseKey in s.leases && s.leases[b.leaseKey] == Owner(b.owner, t)
    && b.node in s.nodes && s.nodes[b.node].instance == b.instance && s.nodes[b.node].serial == serial
  }

  predicate Frees(step: Step, t: Id, b: Binding) {
    step.DoReleaseRoute? && step.task == t && step.owner == b.owner
  }

  /** What a step may do to the record a binding refers to. */
  ghost predicate KeepsRecord(s: State, s': State, n: Id) {
    n in s.nodes && n in s'.nodes && s'.nodes[n].instance == s.nodes[n].instance && s'.nodes[n].serial == s.nodes[n].serial
  }

  lemma BoundNodeIsKept(s: State, step: Step, t: Id)
    requires Inv(s) && t in s.bindings && !step.DoReleaseRoute?
    ensures KeepsRecord(s, Apply(s, step), s.bindings[t].node)
  {
    var n := s.bindings[t].node;
    assert n in s.nodes && HasBindings(s.bindings, n, s.nodes[n].instance);
    StepKeepsRecord(s, step, n);
  }

  lemma StepKeepsRecord(s: State, step: Step, n: Id)
    requires Inv(s) && n in s.nodes && HasBindings(s.bindings, n, s.nodes[n].instance) && !step.DoReleaseRoute?
    ensures KeepsRecord(s, Apply(s, step), n)
  {
    hide Inv, HasBindings, Register, Heartbeat, Unregister, Close, Sweep, Acquire, ClaimBegin, SwitchBegin, Stored,
      Finish, Release, KeepsRecord;
    assert KeepsRecord(s, s, n) by { SameRecord(s, s, n); }
    match step
    case DoRegister(input, now) => RegisterKeepsBound(s, input, now, n);
    case DoHeartbeat(m, instance, at, status, now) => HeartbeatKeepsRecord(s, m, instance, at, status, now, n);
    case DoUnregister(m, instance, closeSession, now) => UnregisterKeepsRecord(s, m, instance, closeSession, now, n);
    case DoSweep(now, cutoff) => SweepKeepsBound(s, now, cutoff, n);
    case DoClose(session, now) => CloseKeepsRecord(s, session, now, n);
    case DoClaimBegin(claim, freshId) => BeginKeepsMaps(s, claim, freshId); SameRecord(s, Apply(s, step), n);
    case DoSwitchBegin(w, enabled) => SwitchKeepsMaps(s, w, enabled); SameRecord(s, Apply(s, step), n);
    case DoStored(ok) => StoredKeepsMaps(s, ok); SameRecord(s, Apply(s, step), n);
    case DoFinish => FinishKeepsRecord(s, n);
    case DoRelease(m, instance, w) => ReleaseKeepsRecord(s, m, instance, w, n);
    case DoAcquire(r, authorized) => AcquireKeepsNodes(s, r, authorized); SameRecord(s, Apply(s, step), n);
  }

  lemma SameRecord(s: State, s': State, n: Id)
    requires n in s.nodes && s'.nodes == s.nodes
    ensures KeepsRecord(s, s', n)
  {
  }

  lemma HeartbeatKeepsRecord(s: State, m: Id, instance: Id, at: int, status: Status, now: int, n: Id)
    requires n in s.nodes
    ensures KeepsRecord(s, Heartbeat(s, m, instance, at, status, now).0, n)
  {
  }

  lemma UnregisterKeepsRecord(s: State, m: Id, instance: Id, closeSession: bool, now: int, n: Id)
    requires n in s.nodes
    ensures KeepsRecord(s, Unregister(s, m, instance, closeSession, now).0, n)
  {
    hide Drop;
    DropKeepsRecord(s, {m}, closeSession, now, n);
  }

  lemma CloseKeepsRecord(s: State, session: Id, now: int, n: Id)
    requires n in s.nodes
    ensures KeepsRecord(s, Close(s, {session}, now), n)
  {
    hide Attached;
  }

  lemma DropKeepsRecord(s: State, lost: set<Id>, closeSessions: bool, now: int, n: Id)
    requires n in s.nodes
    ensures KeepsRecord(s, Drop(s, lost, closeSessions, now), n)
  {
    hide Attached, OpenSessions;
  }

  lemma SweepKeepsBound(s: State, now: int, cutoff: int, n: Id)
    requires n in s.nodes && HasBindings(s.bindings, n, s.nodes[n].instance)
    ensures KeepsRecord(s, Sweep(s, now, cutoff), n)
  {
    hide HasBindings, Drop;
    var expired := ExpiredNodes(s, cutoff);
    DropKeepsRecord(s, expired, true, now, n);
    DropBindsSame(s, expired, true, now);
  }

  lemma DropBindsSame(s: State, lost: set<Id>, closeSessions: bool, now: int)
    ensures Drop(s, lost, closeSessions, now).bindings == s.bindings
  {
  }

  lemma FinishKeepsRecord(s: State, n: Id)
    requires n in s.nodes
    ensures KeepsRecord(s, Finish(s).0, n)
  {
  }

  lemma ReleaseKeepsRecord(s: State, m: Id, instance: Id, w: Id, n: Id)
    requires n in s.nodes
    ensures KeepsRecord(s, Release(s, m, instance, w).0, n)
  {
  }

  lemma RegisterKeepsBound(s: State, input: RegisterInput, now: int, n: Id)
    requires Inv(s) && n in s.nodes && HasBindings(s.bindings, n, s.nodes[n].instance)
    ensures KeepsRecord(s, Register(s, input, now).0, n)
  {
    hide Inv, HasBindings, Drop, Evict, InstanceTaken, LiveCount;
    if input.node in s.nodes {
      DropKeepsRecord(s, {input.node}, true, now, n);
    } else {
      var slots := if |s.nodes| + 1 > MAX_NODES then |s.nodes| + 1 - MAX_NODES else 0;
      EvictKeepsBound(s, slots, n);
    }
  }

  lemma {:induction false} EvictKeepsBound(s: State, slots: nat, n: Id)
    requires n in s.nodes && HasBindings(s.bindings, n, s.nodes[n].instance)
    ensures n in Evict(s, slots).nodes && Evict(s, slots).nodes[n] == s.nodes[n]
    decreases slots
  {
    hide HasBindings, Before;
    if slots == 0 || !(exists m :: Oldest(s, m)) {
    } else {
      EvictKeepsBound(s.(nodes := s.nodes - {OldestOf(s)}), slots - 1, n);
    }
  }

  lemma BindingIsKept(s: State, step: Step, t: Id)
    requires Inv(s) && t in s.bindings && !Frees(step, t, s.bindings[t])
    ensures t in Apply(s, step).bindings && Apply(s, step).bindings[t] == s.bindings[t]
  {
    hide Inv, Register, Heartbeat, Unregister, Close, Sweep, Acquire, ClaimBegin, SwitchBegin, Stored, Finish, Release;
    match step
    case DoRegister(input, now) => RegisterBindsSame(s, input, now);
    case DoHeartbeat(m, instance, at, status, now) => HeartbeatBindsSame(s, m, instance, at, status, now);
    case DoUnregister(m, instance, closeSession, now) => UnregisterBindsSame(s, m, instance, closeSession, now);
    case DoSweep(now, cutoff) => SweepBindsSame(s, now, cutoff);
    case DoClose(session, now) => CloseBindsSame(s, session, now);
    case DoClaimBegin(claim, freshId) => BeginKeepsMaps(s, claim, freshId);
    case DoSwitchBegin(w, enabled) => SwitchKeepsMaps(s, w, enabled);
    case DoStored(ok) => StoredKeepsMaps(s, ok);
    case DoFinish => FinishBindsSame(s);
    case DoRelease(m, instance, w) => ReleaseBindsSame(s, m, instance, w);
    case DoAcquire(r, authorized) => AcquireKeepsBinding(s, r, authorized, t);
    case DoReleaseRoute(owner, task, cutoff) =>
  }

  lemma BeginKeepsMaps(s: State, input: ClaimInput, freshId: Id)
    ensures var s' := ClaimBegin(s, input, freshId).0; s'.nodes == s.nodes && s'.bindings == s.bindings
  {
    hide Live, IdTakenElsewhere;
  }

  lemma SwitchKeepsMaps(s: State, w: Id, enabled: bool)
    ensures var s' := SwitchBegin(s, w, enabled).0; s'.nodes == s.nodes && s'.bindings == s.bindings
  {
    hide IdentityOf;
  }

  lemma StoredKeepsMaps(s: State, ok: bool)
    ensures var s' := Stored(s, ok).0; s'.nodes == s.nodes && s'.bindings == s.bindings
  {
  }

  lemma AcquireKeepsNodes(s: State, r: RouteRequest, authorized: bool)
    ensures Acquire(s, r, authorized).0.nodes == s.nodes
  {
    hide Live, RouteRefusal;
  }

  lemma RegisterBindsSame(s: State, input: RegisterInput, now: int)
    requires Inv(s)
    ensures Register(s, input, now).0.bindings == s.bindings
  {
    hide Inv, Drop, Evict, InstanceTaken, LiveCount, HasBindings;
    DropBindsSame(s, {input.node}, true, now);
    EvictBindsSame(s, input);
  }

  lemma HeartbeatBindsSame(s: State, m: Id, instance: Id, at: int, status: Status, now: int)
    ensures Heartbeat(s, m, instance, at, status, now).0.bindings == s.bindings
  {
  }

  lemma UnregisterBindsSame(s: State, m: Id, instance: Id, closeSession: bool, now: int)
    ensures Unregister(s, m, instance, closeSession, now).0.bindings == s.bindings
  {
    hide Drop;
    DropBindsSame(s, {m}, closeSession, now);
  }

  lemma SweepBindsSame(s: State, now: int, cutoff: int)
    ensures Sweep(s, now, cutoff).bindings == s.bindings
  {
    hide Drop;
    DropBindsSame(s, ExpiredNodes(s, cutoff), true, now);
  }

  lemma CloseBindsSame(s: State, session: Id, now: int)
    ensures Close(s, {session}, now).bindings == s.bindings
  {
  }

  lemma FinishBindsSame(s: State)
    ensures Finish(s).0.bindings == s.bindings
  {
  }

  lemma ReleaseBindsSame(s: State, m: Id, instance: Id, w: Id)
    ensures Release(s, m, instance, w).0.bindings == s.bindings
  {
    hide Live, Shows, HeldByOther;
  }

  lemma EvictBindsSame(s: State, input: RegisterInput)
    requires Inv(s)
    ensures var slots := if |s.nodes| + 1 > MAX_NODES then |s.nodes| + 1 - MAX_NODES else 0;
      Evict(s, slots).bindings == s.bindings
  {
    hide Inv, Evict;
    EvictKeeps(s, if |s.nodes| + 1 > MAX_NODES then |s.nodes| + 1 - MAX_NODES else 0);
  }

  lemma AcquireKeepsBinding(s: State, r: RouteRequest, authorized: bool, t: Id)
    requires t in s.bindings
    ensures t in Acquire(s, r, authorized).0.bindings && Acquire(s, r, authorized).0.bindings[t] == s.bindings[t]
  {
    hide Live, Enabled;
  }

  lemma StepKeepsRoute(s: State, step: Step, t: Id)
    requires Inv(s) && t in s.bindings && !Frees(step, t, s.bindings[t])
    ensures KeepsRecord(s, Apply(s, step), s.bindings[t].node)
    ensures Bound(Apply(s, step), t, s.bindings[t], Apply(s, step).nodes[s.bindings[t].node].serial)
  {
    BindingIsKept(s, step, t);
    ApplyKeeps(s, step);
    if step.DoReleaseRoute? {
      assert Inv(Apply(s, step));
      ReleaseKeepsBoundRecord(s, step.owner, step.task, step.cutoff, t);
    } else {
      BoundNodeIsKept(s, step, t);
    }
    hide Apply, Claims, Directory, LeasesBound, LeasesEnabled;
  }

  lemma ReleaseKeepsBoundRecord(s: State, owner: Id, task: Id, cutoff: int, t: Id)
    requires Inv(s) && t in s.bindings && !(OwnsRoute(s, owner, task) && task == t)
    ensures KeepsRecord(s, ReleaseRoute(s, owner, task, cutoff), s.bindings[t].node)
  {
    hide Claims, Directory, BindingsLeased, LeasesBound, LeasesEnabled;
    var n := s.bindings[t].node;
    assert n in s.nodes && s.nodes[n].instance == s.bindings[t].instance;
    if OwnsRoute(s, owner, task) {
      assert t in s.bindings - {task} && HasBindings(s.bindings - {task}, n, s.nodes[n].instance);
    }
  }

  ghost predicate NeverFrees(steps: seq<Step>, t: Id, b: Binding) {
    forall i | 0 <= i < |steps| :: !Frees(steps[i], t, b)
  }

  /**
   Whatever happens to the claim, the session or the node, a route and its lease stay until they are
   released, on the same record of the same node.
   */
  lemma {:induction false} RoutesOutliveClaims(s: State, steps: seq<Step>, t: Id, b: Binding, serial: nat)
    requires Inv(s) && Bound(s, t, b, serial) && NeverFrees(steps, t, b)
    ensures Bound(Run(s, steps), t, b, serial)
    decreases |steps|
  {
    hide Inv, Apply;
    if steps == [] {
    } else {
      assert !Frees(steps[0], t, b);
      ApplyKeeps(s, steps[0]);
      StepKeepsRoute(s, steps[0], t);
      assert forall i | 0 <= i < |steps[1..]| :: steps[1..][i] == steps[i + 1];
      RoutesOutliveClaims(Apply(s, steps[0]), steps[1..], t, b, serial);
    }
  }

  /** Releasing a route frees its binding and its lease together, and nobody else's. */
  lemma ReleaseFreesBoth(s: State, t: Id, cutoff: int)
    requires Reachable(s) && t in s.bindings
    ensures var b := s.bindings[t];
      var s' := Apply(s, DoReleaseRoute(b.owner, t, cutoff));
      s'.bindings == s.bindings - {t} && s'.leases == s.leases - {b.leaseKey}
  {
    hide Inv, Reachable, Prunable;
    ReachableIsFine(s);
    BindingOwnsLease(s, t);
  }

  /** A route is granted exactly to an authorized request for a live claim whose workspace nobody else leases. */
  lemma GrantedIff(s: State, r: RouteRequest, authorized: bool)
    requires Reachable(s) && s.exclusive.None?
    ensures Acquire(s, r, authorized).1 == Accepted <==>
      && authorized && Live(s, r.node, r.instance)
      && exists k :: Holds(s, k, r)
                     && if r.task in s.bindings then SameBinding(s.bindings[r.task], r, k) else k !in s.leases
  {
    hide Inv, Reachable, Live, Enabled;
    ReachableIsFine(s);
    if exists k :: Holds(s, k, r) {
      var k :| Holds(s, k, r);
      forall j | Holds(s, j, r) ensures j == k {
        ClaimsShareNoId(s, j, k);
      }
      ClaimIsUsable(s, k, r);
      LeaseFollowsBinding(s, k, r);
    }
  }

  lemma ClaimIsUsable(s: State, k: Id, r: RouteRequest)
    requires Inv(s) && s.exclusive.None? && Holds(s, k, r)
    ensures Enabled(s.catalog, r.workspaceId)
  {
    hide Routes, Directory, UniqueWorkspaces, PendingOk;
    assert Backed(s.nodes, k, s.claims[k]) && Sees(s.nodes, s.claims[k].node, k);
    assert Uses(s.catalog, k, r.workspaceId);
  }

  lemma LeaseFollowsBinding(s: State, k: Id, r: RouteRequest)
    requires Inv(s)
    ensures r.task !in s.bindings && k in s.leases ==> s.leases[k] != Owner(r.owner, r.task)
    ensures r.task in s.bindings && SameBinding(s.bindings[r.task], r, k)
        ==> k in s.leases && s.leases[k] == Owner(r.owner, r.task)
  {
    hide Claims, Directory, BoundNodesKept, LeasesEnabled;
  }

  // ---------- The directory ----------

  /** The sweep loses exactly the nodes that are overdue and those on a session that is closed with them. */
  lemma SweepLosesExactly(s: State, now: int, cutoff: int, n: Id)
    requires n in s.nodes && s.nodes[n].status != Offline
    ensures var s' := Apply(s, DoSweep(now, cutoff));
      n in s'.nodes && s'.nodes[n].status != Offline <==>
        && !Expired(s.nodes[n], cutoff)
        && !(exists m :: m in s.nodes && Expired(s.nodes[m], cutoff) && Open(s, s.nodes[m])
                         && s.nodes[m].session == s.nodes[n].session)
  {
    hide HasBindings, Expired;
    var expired := ExpiredNodes(s, cutoff);
    var sessions := OpenSessions(s, expired);
    assert n in Attached(s, sessions) <==> exists m :: m in expired && Open(s, s.nodes[m])
                                                       && s.nodes[m].session == s.nodes[n].session by {
      SharedSession(s, expired, n);
    }
    DropLoses(s, expired, now, n);
    hide Drop, Attached, OpenSessions;
    var dropped := Drop(s, expired, true, now);
    assert n in dropped.nodes;
    if dropped.nodes[n].status != Offline {
      assert !Prunable(dropped, n, cutoff);
    }
  }

  lemma SharedSession(s: State, lost: set<Id>, n: Id)
    requires n in s.nodes && s.nodes[n].status != Offline && lost <= s.nodes.Keys
    ensures n in Attached(s, OpenSessions(s, lost)) <==>
      exists m :: m in lost && Open(s, s.nodes[m]) && s.nodes[m].session == s.nodes[n].session
  {
    if n in Attached(s, OpenSessions(s, lost)) {
      var m :| m in lost && m in s.nodes && Open(s, s.nodes[m]) && s.nodes[m].session.value == s.nodes[n].session.value;
      assert s.nodes[m].session == s.nodes[n].session;
    }
  }

  lemma DropLoses(s: State, lost: set<Id>, now: int, n: Id)
    requires n in s.nodes && s.nodes[n].status != Offline
    ensures var s' := Drop(s, lost, true, now);
      n in s'.nodes && (s'.nodes[n].status == Offline <==> n in lost || n in Attached(s, OpenSessions(s, lost)))
      && s'.bindings == s.bindings
  {
    hide Attached, OpenSessions;
  }

  lemma BeforeOrders(s: State, a: Id, b: Id)
    requires a in s.nodes && b in s.nodes && a != b
    ensures Before(s, a, b) || Before(s, b, a)
    ensures forall c | c in s.nodes && Before(s, a, b) && Before(s, b, c) :: Before(s, a, c)
  {
  }

  /** Among evictable tombstones there is an oldest one. */
  lemma {:induction false} OldestOfSome(s: State, some: set<Id>) returns (oldest: Id)
    requires some != {} && forall n | n in some :: n in s.nodes
    ensures oldest in some && forall m | m in some && m != oldest :: Before(s, oldest, m)
    decreases |some|
  {
    hide Before;
    var x :| x in some;
    if some == {x} {
      oldest := x;
    } else {
      var y := OldestOfSome(s, some - {x});
      BeforeOrders(s, x, y);
      oldest := if Before(s, x, y) then x else y;
    }
  }

  lemma EvictionFreesASlot(s: State)
    requires |s.nodes| == MAX_NODES && exists n :: n in s.nodes && Evictable(s, n)
    ensures |Evict(s, 1).nodes| == MAX_NODES - 1
  {
    hide Evictable, Before;
    var some := set n | n in s.nodes && Evictable(s, n);
    var n :| n in s.nodes && Evictable(s, n);
    assert n in some;
    var oldest := OldestOfSome(s, some);
    assert Oldest(s, oldest);
    hide OldestOf, Oldest;
    var gone := OldestOf(s);
    assert gone in s.nodes by { OldestIsKnown(s); }
    assert (s.nodes - {gone}).Keys == s.nodes.Keys - {gone};
    assert |s.nodes| == |s.nodes.Keys| && |s.nodes - {gone}| == |(s.nodes - {gone}).Keys|;
    assert Evict(s.(nodes := s.nodes - {gone}), 0) == s.(nodes := s.nodes - {gone});
  }

  lemma OldestIsKnown(s: State)
    requires exists n :: Oldest(s, n)
    ensures OldestOf(s) in s.nodes
  {
    hide OldestOf, HasBindings;
  }

  /** A window not seen before is registered exactly when there is a free place or a tombstone to evict. */
  lemma NewNodeAcceptedIff(s: State, input: RegisterInput, now: int)
    requires Reachable(s) && input.node !in s.nodes && input.status != Offline
    ensures Register(s, input, now).1 == Accepted <==>
      && input.session !in s.closed
      && !(exists m :: m in s.nodes && s.nodes[m].instance == input.instance)
      && (|s.nodes| < MAX_NODES || exists n :: n in s.nodes && Evictable(s, n))
  {
    hide Inv, Reachable, Evict, Admit, HasBindings, Evictable;
    ReachableIsFine(s);
    assert InstanceTaken(s, input.node, input.instance) <==> exists m :: m in s.nodes && s.nodes[m].instance == input.instance;
    assert |s.nodes| <= MAX_NODES by { InvFitsDirectory(s); }
    LiveCountIs(s);
    if |s.nodes| == MAX_NODES {
      if exists n :: n in s.nodes && Evictable(s, n) {
        EvictionFreesASlot(s);
      } else {
        NothingEvicted(s);
      }
    } else {
      EvictNone(s);
    }
  }

  lemma InvFitsDirectory(s: State)
    requires Inv(s)
    ensures |s.nodes| <= MAX_NODES
  {
  }

  lemma EvictNone(s: State)
    ensures Evict(s, 0) == s
  {
  }

  lemma NothingEvicted(s: State)
    requires !(exists n :: n in s.nodes && Evictable(s, n))
    ensures Evict(s, 1) == s
  {
    hide HasBindings, Before;
  }

  /** All places are live exactly when nobody is offline. */
  lemma LiveCountIs(s: State)
    ensures LiveCount(s) <= |s.nodes|
    ensures LiveCount(s) == |s.nodes| ==> !(exists n :: n in s.nodes && Evictable(s, n))
  {
    hide HasBindings;
    assert LiveNodes(s) <= s.nodes.Keys && |s.nodes| == |s.nodes.Keys|;
    Sets.SubsetSize(LiveNodes(s), s.nodes.Keys);
    if n :| n in s.nodes && Evictable(s, n) {
      assert LiveNodes(s) <= s.nodes.Keys - {n};
      Sets.SubsetSize(LiveNodes(s), s.nodes.Keys - {n});
    }
  }
}
