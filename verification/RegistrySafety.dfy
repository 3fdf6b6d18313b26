/** What every run of the node registry keeps. */
module RegistrySafety {
  import opened Wrappers
  import Sets
  import opened Registry

  // ---------- The invariant, clause by clause ----------

  ghost predicate UniqueInstances(nodes: map<Id, Node>) {
    forall a, b | a in nodes && b in nodes && a != b :: nodes[a].instance != nodes[b].instance
  }

  /** A node is offline exactly when it has no session; without an open session it shows no workspace. */
  predicate NodeOk(node: Node, closed: set<Id>) {
    && (node.status == Offline <==> node.session.None?)
    && (node.session.None? || node.session.value in closed ==> node.workspaces == map[])
  }

  ghost predicate NodesOk(nodes: map<Id, Node>, closed: set<Id>) {
    forall n | n in nodes :: NodeOk(nodes[n], closed)
  }

  predicate Backed(nodes: map<Id, Node>, k: Id, c: Claim) {
    && c.node in nodes && nodes[c.node].instance == c.instance
    && k in nodes[c.node].workspaces
    && nodes[c.node].workspaces[k] == Observation(c.workspaceId, Claimed)
  }

  ghost predicate ClaimsBacked(nodes: map<Id, Node>, claims: map<Id, Claim>) {
    forall k | k in claims :: Backed(nodes, k, claims[k])
  }

  predicate Sees(nodes: map<Id, Node>, n: Id, k: Id) {
    n in nodes && k in nodes[n].workspaces
  }

  predicate SeenClaimed(nodes: map<Id, Node>, n: Id, k: Id) {
    Sees(nodes, n, k) && nodes[n].workspaces[k].status == Claimed
  }

  ghost predicate ObservationsClaimed(nodes: map<Id, Node>, claims: map<Id, Claim>) {
    forall n, k | SeenClaimed(nodes, n, k) :: k in claims && claims[k].node == n
  }

  ghost predicate ObservationsCatalogued(nodes: map<Id, Node>, catalog: map<Id, Entry>) {
    forall n, k | Sees(nodes, n, k) :: Uses(catalog, k, nodes[n].workspaces[k].workspaceId)
  }

  ghost predicate UniqueWorkspaces(catalog: map<Id, Entry>) {
    forall a, b | a in catalog && b in catalog && a != b :: catalog[a].workspaceId != catalog[b].workspaceId
  }

  predicate Disabling(exclusive: Option<Pending>, k: Id) {
    exclusive == Some(SwitchFinishing(k, false))
  }

  /** A claimed workspace is enabled, except between storing that it is disabled and removing its claim. */
  ghost predicate ClaimsEnabled(claims: map<Id, Claim>, catalog: map<Id, Entry>, exclusive: Option<Pending>) {
    forall k | k in claims :: k in catalog && (catalog[k].enabled || Disabling(exclusive, k))
  }

  ghost predicate BindingsLeased(bindings: map<Id, Binding>, leases: map<Id, Owner>) {
    forall t | t in bindings ::
      bindings[t].leaseKey in leases && leases[bindings[t].leaseKey] == Owner(bindings[t].owner, t)
  }

  ghost predicate LeasesBound(bindings: map<Id, Binding>, leases: map<Id, Owner>) {
    forall k | k in leases ::
      && leases[k].task in bindings
      && bindings[leases[k].task].leaseKey == k && bindings[leases[k].task].owner == leases[k].peer
  }

  ghost predicate BoundNodesKept(nodes: map<Id, Node>, bindings: map<Id, Binding>) {
    forall t | t in bindings :: bindings[t].node in nodes && nodes[bindings[t].node].instance == bindings[t].instance
  }

  ghost predicate LeasesEnabled(leases: map<Id, Owner>, catalog: map<Id, Entry>) {
    forall k | k in leases :: k in catalog && catalog[k].enabled
  }

  /** What the pending exclusive operation may rely on when it continues. */
  predicate PendingOk(catalog: map<Id, Entry>, leases: map<Id, Owner>, exclusive: Option<Pending>) {
    exclusive.Some? ==>
      match exclusive.value
      case ClaimWriting(input, _, entry) =>
        && !IdTakenElsewhere(catalog, input.identity, entry.workspaceId)
        && (if input.identity in catalog
            then entry.workspaceId == catalog[input.identity].workspaceId
              && entry.enabled == catalog[input.identity].enabled
            else entry.enabled && |catalog| < MAX_WORKSPACES)
      case ClaimFinishing(input, _, entry) => input.identity in catalog && catalog[input.identity] == entry
      case SwitchWriting(k, enabled) => k in catalog && (enabled || k !in leases)
      case SwitchFinishing(k, enabled) => k in catalog && catalog[k].enabled == enabled && (enabled || k !in leases)
  }

  ghost predicate Directory(s: State) {
    && |s.nodes| <= MAX_NODES && |s.catalog| <= MAX_WORKSPACES
    && UniqueInstances(s.nodes)
    && NodesOk(s.nodes, s.closed)
  }

  ghost predicate Claims(s: State) {
    && ClaimsBacked(s.nodes, s.claims)
    && ObservationsClaimed(s.nodes, s.claims)
    && ObservationsCatalogued(s.nodes, s.catalog)
    && UniqueWorkspaces(s.catalog)
    && ClaimsEnabled(s.claims, s.catalog, s.exclusive)
    && PendingOk(s.catalog, s.leases, s.exclusive)
  }

  ghost predicate Routes(s: State) {
    && BindingsLeased(s.bindings, s.leases)
    && LeasesBound(s.bindings, s.leases)
    && BoundNodesKept(s.nodes, s.bindings)
    && LeasesEnabled(s.leases, s.catalog)
  }

  ghost predicate Inv(s: State) {
    Directory(s) && Claims(s) && Routes(s)
  }

  // ---------- Losing nodes ----------

  /** Losing a set of nodes keeps everything, provided every node whose session closes is among them. */
  lemma LoseKeeps(s: State, lost: set<Id>, sessions: set<Id>, now: int)
    requires Inv(s) && Attached(s, sessions) <= lost
    ensures Inv(LoseAll(s, lost, now).(closed := s.closed + sessions))
  {
    var s' := LoseAll(s, lost, now).(closed := s.closed + sessions);
    assert s'.nodes.Keys == s.nodes.Keys;
    assert |s'.nodes| == |s'.nodes.Keys| == |s.nodes.Keys|;
    LoseKeepsNodes(s, lost, sessions, now);
    LoseKeepsClaims(s, lost, now);
    hide UniqueInstances, NodesOk, ClaimsBacked, ObservationsClaimed, ObservationsCatalogued, UniqueWorkspaces,
      ClaimsEnabled, PendingOk, BindingsLeased, LeasesBound, BoundNodesKept, LeasesEnabled;
  }

  lemma LoseKeepsNodes(s: State, lost: set<Id>, sessions: set<Id>, now: int)
    requires Inv(s) && Attached(s, sessions) <= lost
    ensures var s' := LoseAll(s, lost, now);
      && UniqueInstances(s'.nodes) && NodesOk(s'.nodes, s.closed + sessions)
      && BoundNodesKept(s'.nodes, s.bindings)
  {
    hide Claims, BindingsLeased, LeasesBound, LeasesEnabled, Forfeited;
    var s' := LoseAll(s, lost, now);
    forall n | n in s'.nodes ensures NodeOk(s'.nodes[n], s.closed + sessions) {
      assert NodeOk(s.nodes[n], s.closed);
      if n !in lost {
        assert n !in Attached(s, sessions);
      }
    }
  }

  lemma LoseKeepsClaims(s: State, lost: set<Id>, now: int)
    requires Inv(s)
    ensures var s' := LoseAll(s, lost, now);
      && ClaimsBacked(s'.nodes, s'.claims)
      && ObservationsClaimed(s'.nodes, s'.claims)
      && ObservationsCatalogued(s'.nodes, s.catalog)
      && ClaimsEnabled(s'.claims, s.catalog, s.exclusive)
  {
    hide Routes, UniqueInstances, NodesOk, UniqueWorkspaces, PendingOk;
    var s' := LoseAll(s, lost, now);
    forall k | k in s'.claims ensures Backed(s'.nodes, k, s'.claims[k]) {
      assert Backed(s.nodes, k, s.claims[k]);
    }
    forall n, k | Sees(s'.nodes, n, k) ensures Uses(s.catalog, k, s'.nodes[n].workspaces[k].workspaceId) {
      assert n !in lost && Sees(s.nodes, n, k);
    }
    forall n, k | SeenClaimed(s'.nodes, n, k) ensures k in s'.claims && s'.claims[k].node == n {
      assert n !in lost && SeenClaimed(s.nodes, n, k);
    }
  }

  lemma CloseKeeps(s: State, sessions: set<Id>, now: int)
    requires Inv(s)
    ensures Inv(Close(s, sessions, now))
  {
    hide Inv, Attached, LoseAll;
    LoseKeeps(s, Attached(s, sessions), sessions, now);
  }

  lemma DropKeeps(s: State, lost: set<Id>, closeSessions: bool, now: int)
    requires Inv(s)
    ensures Inv(Drop(s, lost, closeSessions, now))
  {
    hide Inv, Attached, LoseAll, OpenSessions;
    var sessions := if closeSessions then OpenSessions(s, lost) else {};
    LoseKeeps(s, lost + Attached(s, sessions), sessions, now);
    if !closeSessions {
      assert s.closed + sessions == s.closed;
    }
  }

  // ---------- Removing tombstones ----------

  /** Only nodes that show nothing and carry no binding may go. */
  ghost predicate Removable(s: State, gone: set<Id>) {
    forall n | n in gone && n in s.nodes ::
      s.nodes[n].status == Offline && !HasBindings(s.bindings, n, s.nodes[n].instance)
  }

  lemma RemoveKeeps(s: State, nodes: map<Id, Node>, gone: set<Id>)
    requires Inv(s) && Removable(s, gone)
    requires nodes == map n | n in s.nodes && n !in gone :: s.nodes[n]
    ensures Inv(s.(nodes := nodes))
    ensures forall t | t in s.bindings :: s.bindings[t].node !in gone
  {
    RemoveKeepsClaims(s, nodes, gone);
    RemoveKeepsBound(s, nodes, gone);
    assert nodes.Keys <= s.nodes.Keys;
    Sets.SubsetSize(nodes.Keys, s.nodes.Keys);
    assert |nodes| == |nodes.Keys| && |s.nodes| == |s.nodes.Keys|;
    hide ClaimsBacked, ObservationsClaimed, ObservationsCatalogued, UniqueWorkspaces,
      ClaimsEnabled, PendingOk, BindingsLeased, LeasesBound, BoundNodesKept, LeasesEnabled, Removable;
  }

  lemma RemoveKeepsBound(s: State, nodes: map<Id, Node>, gone: set<Id>)
    requires Inv(s) && Removable(s, gone)
    requires nodes == map n | n in s.nodes && n !in gone :: s.nodes[n]
    ensures BoundNodesKept(nodes, s.bindings)
    ensures forall t | t in s.bindings :: s.bindings[t].node !in gone
  {
    hide Claims, BindingsLeased, LeasesBound, LeasesEnabled, UniqueInstances, NodesOk;
    forall t | t in s.bindings ensures s.bindings[t].node !in gone {
      assert HasBindings(s.bindings, s.bindings[t].node, s.bindings[t].instance);
    }
  }

  lemma RemoveKeepsClaims(s: State, nodes: map<Id, Node>, gone: set<Id>)
    requires Inv(s) && Removable(s, gone)
    requires nodes == map n | n in s.nodes && n !in gone :: s.nodes[n]
    ensures ClaimsBacked(nodes, s.claims)
    ensures ObservationsClaimed(nodes, s.claims)
    ensures ObservationsCatalogued(nodes, s.catalog)
  {
    hide Routes, UniqueInstances, UniqueWorkspaces, ClaimsEnabled, PendingOk;
    forall k | k in s.claims ensures Backed(nodes, k, s.claims[k]) {
      assert Backed(s.nodes, k, s.claims[k]);
      var n := s.claims[k].node;
      assert NodeOk(s.nodes[n], s.closed);
    }
    forall n, k | Sees(nodes, n, k) ensures Uses(s.catalog, k, nodes[n].workspaces[k].workspaceId) {
      assert Sees(s.nodes, n, k);
    }
    forall n, k | SeenClaimed(nodes, n, k) ensures k in s.claims && s.claims[k].node == n {
      assert SeenClaimed(s.nodes, n, k);
    }
  }

  lemma PruneKeeps(s: State, cutoff: int)
    requires Inv(s)
    ensures Inv(Prune(s, cutoff))
  {
    hide Inv, HasBindings;
    var gone := set n | n in s.nodes && Prunable(s, n, cutoff);
    var nodes := Prune(s, cutoff).nodes;
    assert nodes == map n | n in s.nodes && n !in gone :: s.nodes[n];
    RemoveKeeps(s, nodes, gone);
  }

  lemma SweepKeeps(s: State, now: int, cutoff: int)
    requires Inv(s)
    ensures Inv(Sweep(s, now, cutoff))
  {
    hide Inv, Drop, Prune, Expired;
    var expired := ExpiredNodes(s, cutoff);
    DropKeeps(s, expired, true, now);
    PruneKeeps(Drop(s, expired, true, now), cutoff);
  }

  lemma {:induction false} EvictKeeps(s: State, slots: nat)
    requires Inv(s)
    ensures var s' := Evict(s, slots);
      Inv(s') && s' == s.(nodes := s'.nodes) && forall n | n in s'.nodes :: n in s.nodes && s'.nodes[n] == s.nodes[n]
    decreases slots
  {
    hide Inv, HasBindings, Before, OldestOf, Oldest;
    if slots == 0 || !(exists n :: Oldest(s, n)) {
    } else {
      var n := OldestOf(s);
      EvictOneKeeps(s, n);
      EvictKeeps(s.(nodes := s.nodes - {n}), slots - 1);
    }
  }

  lemma EvictOneKeeps(s: State, n: Id)
    requires Inv(s) && Oldest(s, n)
    ensures Inv(s.(nodes := s.nodes - {n}))
  {
    hide Inv, HasBindings, Before;
    var nodes := s.nodes - {n};
    assert nodes == map m | m in s.nodes && m !in {n} :: s.nodes[m];
    RemoveKeeps(s, nodes, {n});
  }

  // ---------- Registration ----------

  lemma AdmitKeeps(s: State, input: RegisterInput, now: int)
    requires Inv(s) && input.status != Offline && !InstanceTaken(s, input.node, input.instance)
    requires if input.node in s.nodes
             then s.nodes[input.node].workspaces == map[]
               && !HasBindings(s.bindings, input.node, s.nodes[input.node].instance)
             else |s.nodes| < MAX_NODES
    ensures Inv(Admit(s, input, now))
  {
    hide UniqueInstances, NodesOk, ClaimsBacked, ObservationsClaimed, ObservationsCatalogued, UniqueWorkspaces,
      ClaimsEnabled, PendingOk, BindingsLeased, LeasesBound, BoundNodesKept, LeasesEnabled, HasBindings,
      InstanceTaken;
    AdmitSize(s.nodes, input.node, Admit(s, input, now).nodes[input.node]);
    AdmitKeepsClaims(s, input, now);
    AdmitKeepsNodes(s, input, now);
  }

  lemma AdmitSize(nodes: map<Id, Node>, n: Id, node: Node)
    ensures |nodes[n := node]| == if n in nodes then |nodes| else |nodes| + 1
  {
    assert nodes[n := node].Keys == nodes.Keys + {n};
    assert |nodes[n := node]| == |nodes[n := node].Keys| && |nodes| == |nodes.Keys|;
  }

  lemma AdmitKeepsNodes(s: State, input: RegisterInput, now: int)
    requires Inv(s) && input.status != Offline && !InstanceTaken(s, input.node, input.instance)
    requires input.node in s.nodes ==> !HasBindings(s.bindings, input.node, s.nodes[input.node].instance)
    ensures var s' := Admit(s, input, now);
      UniqueInstances(s'.nodes) && NodesOk(s'.nodes, s.closed) && BoundNodesKept(s'.nodes, s.bindings)
  {
    hide Claims, BindingsLeased, LeasesBound, LeasesEnabled;
    var s' := Admit(s, input, now);
    forall t | t in s.bindings ensures s.bindings[t].node in s'.nodes
                                    && s'.nodes[s.bindings[t].node].instance == s.bindings[t].instance {
      assert HasBindings(s.bindings, s.bindings[t].node, s.bindings[t].instance);
    }
  }

  lemma AdmitKeepsClaims(s: State, input: RegisterInput, now: int)
    requires Inv(s) && (input.node in s.nodes ==> s.nodes[input.node].workspaces == map[])
    ensures var s' := Admit(s, input, now);
      && ClaimsBacked(s'.nodes, s.claims) && ObservationsClaimed(s'.nodes, s.claims)
      && ObservationsCatalogued(s'.nodes, s.catalog)
  {
    hide Routes, Directory, UniqueWorkspaces, ClaimsEnabled, PendingOk;
    var s' := Admit(s, input, now);
    forall k | k in s.claims ensures Backed(s'.nodes, k, s.claims[k]) {
      assert Backed(s.nodes, k, s.claims[k]);
    }
    forall n, k | Sees(s'.nodes, n, k) ensures Uses(s.catalog, k, s'.nodes[n].workspaces[k].workspaceId) {
      assert Sees(s.nodes, n, k);
    }
    forall n, k | SeenClaimed(s'.nodes, n, k) ensures k in s.claims && s.claims[k].node == n {
      assert SeenClaimed(s.nodes, n, k);
    }
  }

  ghost predicate SameShown(nodes: map<Id, Node>, nodes': map<Id, Node>) {
    && nodes.Keys == nodes'.Keys
    && forall n | n in nodes :: nodes'[n].instance == nodes[n].instance && nodes'[n].workspaces == nodes[n].workspaces
  }

  lemma SameShownKeepsClaims(s: State, nodes: map<Id, Node>)
    requires Claims(s) && SameShown(s.nodes, nodes)
    ensures ClaimsBacked(nodes, s.claims) && ObservationsClaimed(nodes, s.claims)
    ensures ObservationsCatalogued(nodes, s.catalog)
  {
    hide UniqueWorkspaces, ClaimsEnabled, PendingOk;
    forall k | k in s.claims ensures Backed(nodes, k, s.claims[k]) {
      assert Backed(s.nodes, k, s.claims[k]);
    }
    forall m, k | Sees(nodes, m, k) ensures Uses(s.catalog, k, nodes[m].workspaces[k].workspaceId) {
      assert Sees(s.nodes, m, k);
    }
    forall m, k | SeenClaimed(nodes, m, k) ensures k in s.claims && s.claims[k].node == m {
      assert SeenClaimed(s.nodes, m, k);
    }
  }

  /** Replaces one node by a version that shows the same workspaces. */
  lemma UpdateKeeps(s: State, n: Id, node: Node)
    requires Inv(s) && n in s.nodes && node.instance == s.nodes[n].instance
    requires node.workspaces == s.nodes[n].workspaces && NodeOk(node, s.closed)
    ensures Inv(s.(nodes := s.nodes[n := node]))
  {
    ReplaceKeepsDirectory(s, n, node);
    SameShownKeepsClaims(s, s.nodes[n := node]);
    hide UniqueInstances, NodesOk, ClaimsBacked, ObservationsClaimed, ObservationsCatalogued, UniqueWorkspaces,
      ClaimsEnabled, PendingOk, BindingsLeased, LeasesBound, BoundNodesKept, LeasesEnabled;
  }

  lemma ReplaceKeepsDirectory(s: State, n: Id, node: Node)
    requires Inv(s) && n in s.nodes && node.instance == s.nodes[n].instance && NodeOk(node, s.closed)
    ensures Directory(s.(nodes := s.nodes[n := node]))
    ensures BoundNodesKept(s.nodes[n := node], s.bindings)
  {
    hide Claims, BindingsLeased, LeasesBound, LeasesEnabled;
    var nodes := s.nodes[n := node];
    assert nodes.Keys == s.nodes.Keys;
    assert |nodes| == |nodes.Keys| == |s.nodes.Keys|;
  }

  lemma RegisterKeeps(s: State, input: RegisterInput, now: int)
    requires Inv(s)
    ensures Inv(Register(s, input, now).0)
  {
    hide Inv, Drop, Evict, Admit, HasBindings, InstanceTaken, LiveCount;
    if input.status == Offline || input.session in s.closed || InstanceTaken(s, input.node, input.instance) {
    } else if Exact(s, input.node, input.instance) {
      ReattachKeeps(s, input, now);
    } else if input.node in s.nodes {
      DropKeeps(s, {input.node}, true, now);
      if !HasBindings(s.bindings, input.node, s.nodes[input.node].instance) {
        DropShows(s, input.node, now);
        DropTakesNoInstance(s, input, now);
        AdmitKeeps(Drop(s, {input.node}, true, now), input, now);
      }
    } else if LiveCount(s) < MAX_NODES {
      var slots := if |s.nodes| + 1 > MAX_NODES then |s.nodes| + 1 - MAX_NODES else 0;
      EvictKeeps(s, slots);
      if |Evict(s, slots).nodes| < MAX_NODES {
        EvictTakesNoInstance(s, input, slots);
        AdmitKeeps(Evict(s, slots), input, now);
      }
    }
  }

  lemma ReattachKeeps(s: State, input: RegisterInput, now: int)
    requires Inv(s) && input.status != Offline && input.session !in s.closed && input.node in s.nodes
    ensures Inv(Reattach(s, input, now).0)
  {
    var node := s.nodes[input.node];
    assert NodeOk(node, s.closed);
    hide Inv;
    if node.status == Offline {
      UpdateKeeps(s, input.node, node.(status := input.status, heartbeatAt := now, seenAt := now, offlineAt := None,
                                       session := Some(input.session)));
    }
  }

  lemma DropShows(s: State, n: Id, now: int)
    requires n in s.nodes
    ensures var s' := Drop(s, {n}, true, now);
      n in s'.nodes && s'.nodes[n].workspaces == map[] && s'.nodes[n].instance == s.nodes[n].instance
      && s'.bindings == s.bindings
  {
    hide Attached, OpenSessions;
  }

  lemma DropTakesNoInstance(s: State, input: RegisterInput, now: int)
    requires !InstanceTaken(s, input.node, input.instance)
    ensures !InstanceTaken(Drop(s, {input.node}, true, now), input.node, input.instance)
  {
    hide Attached, OpenSessions;
    var s' := Drop(s, {input.node}, true, now);
    forall m | m in s'.nodes && m != input.node ensures s'.nodes[m].instance != input.instance {
      assert s'.nodes[m].instance == s.nodes[m].instance;
    }
  }

  lemma EvictTakesNoInstance(s: State, input: RegisterInput, slots: nat)
    requires Inv(s) && !InstanceTaken(s, input.node, input.instance) && input.node !in s.nodes
    ensures var s' := Evict(s, slots);
      !InstanceTaken(s', input.node, input.instance) && input.node !in s'.nodes
  {
    hide Inv, Evict;
    EvictKeeps(s, slots);
  }

  lemma HeartbeatKeeps(s: State, n: Id, instance: Id, at: int, status: Status, now: int)
    requires Inv(s)
    ensures Inv(Heartbeat(s, n, instance, at, status, now).0)
  {
    if status != Offline && Live(s, n, instance) {
      assert NodeOk(s.nodes[n], s.closed);
      hide Inv;
      UpdateKeeps(s, n, s.nodes[n].(status := status, heartbeatAt := at, seenAt := now));
    }
  }

  // ---------- Claims ----------

  lemma ClaimBeginKeeps(s: State, input: ClaimInput, freshId: Id)
    requires Inv(s) && s.exclusive.None?
    ensures Inv(ClaimBegin(s, input, freshId).0)
  {
    hide UniqueInstances, NodesOk, ClaimsBacked, ObservationsClaimed, ObservationsCatalogued,
      BindingsLeased, LeasesBound, BoundNodesKept, LeasesEnabled, Live;
    forall k | k in s.catalog && k != input.identity && input.identity in s.catalog
      ensures s.catalog[k].workspaceId != s.catalog[input.identity].workspaceId {
    }
  }

  lemma SwitchBeginKeeps(s: State, workspaceId: Id, enabled: bool)
    requires Inv(s) && s.exclusive.None?
    ensures Inv(SwitchBegin(s, workspaceId, enabled).0)
  {
    hide UniqueInstances, NodesOk, ClaimsBacked, ObservationsClaimed, ObservationsCatalogued, UniqueWorkspaces,
      BindingsLeased, LeasesBound, BoundNodesKept, LeasesEnabled;
  }

  lemma StoredKeeps(s: State, ok: bool)
    requires Inv(s)
    ensures Inv(Stored(s, ok).0)
  {
    hide Inv;
    if s.exclusive.None? || s.exclusive.value.ClaimFinishing? || s.exclusive.value.SwitchFinishing? {
    } else if !ok {
      AbandonKeeps(s);
    } else {
      WritingFacts(s);
      if s.exclusive.value.ClaimWriting? {
        var input, serial, entry := s.exclusive.value.input, s.exclusive.value.serial, s.exclusive.value.entry;
        WriteKeeps(s, input.identity, entry, ClaimFinishing(input, serial, entry));
      } else {
        var k, enabled := s.exclusive.value.identity, s.exclusive.value.enabled;
        WriteKeeps(s, k, s.catalog[k].(enabled := enabled), SwitchFinishing(k, enabled));
      }
    }
  }

  lemma AbandonKeeps(s: State)
    requires Inv(s) && s.exclusive.Some? && !s.exclusive.value.SwitchFinishing?
    ensures Inv(s.(exclusive := None))
  {
    hide UniqueInstances, NodesOk, ClaimsBacked, ObservationsClaimed, ObservationsCatalogued, UniqueWorkspaces,
      BindingsLeased, LeasesBound, BoundNodesKept, LeasesEnabled;
  }

  lemma WritingFacts(s: State)
    requires Inv(s) && s.exclusive.Some?
    ensures match s.exclusive.value
      case ClaimWriting(input, _, entry) =>
        && !IdTakenElsewhere(s.catalog, input.identity, entry.workspaceId)
        && (if input.identity in s.catalog
            then entry.workspaceId == s.catalog[input.identity].workspaceId
              && entry.enabled == s.catalog[input.identity].enabled
            else entry.enabled && |s.catalog| < MAX_WORKSPACES)
      case SwitchWriting(k, enabled) =>
        k in s.catalog && (enabled || k !in s.leases) && !IdTakenElsewhere(s.catalog, k, s.catalog[k].workspaceId)
      case _ => true
  {
    hide UniqueInstances, NodesOk, ClaimsBacked, ObservationsClaimed, ObservationsCatalogued, UniqueWorkspaces,
      ClaimsEnabled, BindingsLeased, LeasesBound, BoundNodesKept, LeasesEnabled;
    if s.exclusive.value.SwitchWriting? {
      UniqueIsNotTaken(s.catalog, s.exclusive.value.identity);
    }
  }

  lemma WriteKeeps(s: State, k: Id, entry: Entry, next: Pending)
    requires Inv(s) && !IdTakenElsewhere(s.catalog, k, entry.workspaceId)
    requires if k in s.catalog then entry.workspaceId == s.catalog[k].workspaceId else |s.catalog| < MAX_WORKSPACES
    requires next.ClaimFinishing? || next.SwitchFinishing?
    requires next.ClaimFinishing? ==> next.input.identity == k && next.entry == entry
    requires next.ClaimFinishing? ==> entry.enabled == (if k in s.catalog then s.catalog[k].enabled else true)
    requires next.SwitchFinishing? ==> k in s.catalog && next.identity == k && next.enabled == entry.enabled
                                       && (entry.enabled || k !in s.leases)
    requires s.exclusive.Some? && !s.exclusive.value.SwitchFinishing?
    ensures Inv(s.(catalog := s.catalog[k := entry], exclusive := Some(next)))
  {
    var catalog := s.catalog[k := entry];
    assert catalog.Keys == s.catalog.Keys + {k};
    assert |catalog| == |catalog.Keys| && |s.catalog| == |s.catalog.Keys|;
    WriteKeepsObservations(s, k, entry);
    WriteKeepsEnabled(s, k, entry, next);
    hide UniqueInstances, NodesOk, BindingsLeased, LeasesBound, BoundNodesKept, ClaimsBacked, ObservationsClaimed,
      ObservationsCatalogued, UniqueWorkspaces, ClaimsEnabled, LeasesEnabled, PendingOk;
  }

  lemma WriteKeepsEnabled(s: State, k: Id, entry: Entry, next: Pending)
    requires Inv(s) && s.exclusive.Some? && !s.exclusive.value.SwitchFinishing?
    requires next.ClaimFinishing? || next.SwitchFinishing?
    requires next.ClaimFinishing? ==> next.input.identity == k && next.entry == entry
    requires next.ClaimFinishing? ==> entry.enabled == (if k in s.catalog then s.catalog[k].enabled else true)
    requires next.SwitchFinishing? ==> k in s.catalog && next.identity == k && next.enabled == entry.enabled
                                       && (entry.enabled || k !in s.leases)
    ensures var catalog := s.catalog[k := entry];
      && ClaimsEnabled(s.claims, catalog, Some(next)) && LeasesEnabled(s.leases, catalog)
      && PendingOk(catalog, s.leases, Some(next))
  {
    hide Directory, BindingsLeased, LeasesBound, BoundNodesKept, ClaimsBacked, ObservationsClaimed,
      ObservationsCatalogued, UniqueWorkspaces;
  }

  lemma UniqueIsNotTaken(catalog: map<Id, Entry>, k: Id)
    requires UniqueWorkspaces(catalog) && k in catalog
    ensures !IdTakenElsewhere(catalog, k, catalog[k].workspaceId)
  {
  }

  lemma WriteKeepsObservations(s: State, k: Id, entry: Entry)
    requires Claims(s) && !IdTakenElsewhere(s.catalog, k, entry.workspaceId)
    requires k in s.catalog ==> entry.workspaceId == s.catalog[k].workspaceId
    ensures ObservationsCatalogued(s.nodes, s.catalog[k := entry]) && UniqueWorkspaces(s.catalog[k := entry])
  {
    hide ClaimsBacked, ObservationsClaimed, ClaimsEnabled, PendingOk;
    var catalog := s.catalog[k := entry];
    forall n, j | Sees(s.nodes, n, j) ensures Uses(catalog, j, s.nodes[n].workspaces[j].workspaceId) {
      assert Uses(s.catalog, j, s.nodes[n].workspaces[j].workspaceId);
    }
    forall a, b | a in catalog && b in catalog && a != b ensures catalog[a].workspaceId != catalog[b].workspaceId {
      assert !(a == k && Uses(s.catalog, b, entry.workspaceId));
      assert !(b == k && Uses(s.catalog, a, entry.workspaceId));
    }
  }

  // ---------- The last part of a claim or a switch ----------

  /** Records what a node sees of a workspace; `claims` changes only when it now claims it. */
  lemma ObserveKeeps(s: State, n: Id, k: Id, workspaceId: Id, status: ClaimStatus, claims: map<Id, Claim>)
    requires Inv(s) && n in s.nodes && Open(s, s.nodes[n]) && Uses(s.catalog, k, workspaceId)
    requires if status == Claimed
             then claims == s.claims[k := Claim(workspaceId, n, s.nodes[n].instance)]
               && (k in s.claims ==> s.claims[k].node == n) && s.catalog[k].enabled
             else claims == s.claims && (k in s.claims ==> s.claims[k].node != n)
    ensures Inv(Observe(s, n, k, workspaceId, status).(claims := claims))
  {
    hide UniqueInstances, NodesOk, ClaimsBacked, ObservationsClaimed, ObservationsCatalogued, UniqueWorkspaces,
      ClaimsEnabled, BindingsLeased, LeasesBound, BoundNodesKept, LeasesEnabled, PendingOk,
      NodeOk;
    ObservedNodeOk(s, n, k, workspaceId, status);
    ReplaceKeepsDirectory(s, n, Observe(s, n, k, workspaceId, status).nodes[n]);
    ObserveKeepsClaims(s, n, k, workspaceId, status, claims);
    if status == Claimed {
      OneMoreClaimEnabled(s.claims, s.catalog, s.exclusive, k, claims[k]);
    }
  }

  lemma OneMoreClaimEnabled(claims: map<Id, Claim>, catalog: map<Id, Entry>, exclusive: Option<Pending>,
                            k: Id, claim: Claim)
    requires ClaimsEnabled(claims, catalog, exclusive) && k in catalog && catalog[k].enabled
    ensures ClaimsEnabled(claims[k := claim], catalog, exclusive)
  {
  }

  lemma ObservedNodeOk(s: State, n: Id, k: Id, workspaceId: Id, status: ClaimStatus)
    requires Inv(s) && n in s.nodes && Open(s, s.nodes[n])
    ensures NodeOk(Observe(s, n, k, workspaceId, status).nodes[n], s.closed)
  {
    hide Claims, Routes, UniqueInstances;
    assert NodeOk(s.nodes[n], s.closed);
  }

  lemma ObserveKeepsClaims(s: State, n: Id, k: Id, workspaceId: Id, status: ClaimStatus, claims: map<Id, Claim>)
    requires Inv(s) && n in s.nodes && Uses(s.catalog, k, workspaceId)
    requires if status == Claimed
             then claims == s.claims[k := Claim(workspaceId, n, s.nodes[n].instance)]
               && (k in s.claims ==> s.claims[k].node == n)
             else claims == s.claims && (k in s.claims ==> s.claims[k].node != n)
    ensures var s' := Observe(s, n, k, workspaceId, status);
      ClaimsBacked(s'.nodes, claims) && ObservationsClaimed(s'.nodes, claims)
      && ObservationsCatalogued(s'.nodes, s.catalog)
  {
    hide Routes, Directory, UniqueWorkspaces, ClaimsEnabled, PendingOk;
    var nodes := Observe(s, n, k, workspaceId, status).nodes;
    forall j | j in claims ensures Backed(nodes, j, claims[j]) {
      if j != k || status != Claimed { assert Backed(s.nodes, j, s.claims[j]); }
    }
    forall m, j | Sees(nodes, m, j) ensures Uses(s.catalog, j, nodes[m].workspaces[j].workspaceId) {
      if m != n || j != k { assert Sees(s.nodes, m, j); }
    }
    forall m, j | SeenClaimed(nodes, m, j) ensures j in claims && claims[j].node == m {
      if m != n || j != k { assert SeenClaimed(s.nodes, m, j); }
    }
  }

  lemma IdleKeeps(s: State)
    requires Inv(s) && (s.exclusive.Some? ==> s.exclusive.value.ClaimFinishing?)
    ensures Inv(s.(exclusive := None))
  {
    hide UniqueInstances, NodesOk, ClaimsBacked, ObservationsClaimed, ObservationsCatalogued, UniqueWorkspaces,
      BindingsLeased, LeasesBound, BoundNodesKept, LeasesEnabled;
  }

  /** What the three outcomes of a claim rely on. */
  lemma ClaimFinishFacts(s: State, input: ClaimInput, entry: Entry)
    requires Inv(s) && s.exclusive.Some? && s.exclusive.value.ClaimFinishing?
    requires s.exclusive.value.input == input && s.exclusive.value.entry == entry
    ensures Uses(s.catalog, input.identity, entry.workspaceId) && s.catalog[input.identity] == entry
    ensures !entry.enabled ==> input.identity !in s.claims
    ensures HeldByOther(s, input.identity, input.node, input.instance) && Exact(s, input.node, input.instance)
        ==> s.claims[input.identity].node != input.node
  {
    hide Directory, Routes, ObservationsClaimed, ObservationsCatalogued, UniqueWorkspaces;
    if input.identity in s.claims {
      assert Backed(s.nodes, input.identity, s.claims[input.identity]);
    }
  }

  lemma ClaimFinishKeeps(s: State, input: ClaimInput, serial: nat, entry: Entry)
    requires Inv(s) && s.exclusive == Some(ClaimFinishing(input, serial, entry))
    ensures Inv(ClaimFinish(s, input, serial, entry).0)
  {
    hide Inv, Observe;
    var k := input.identity;
    var idle := s.(exclusive := None);
    IdleKeeps(s);
    ClaimFinishFacts(s, input, entry);
    if Live(s, input.node, input.instance) {
      if !entry.enabled {
        ObserveKeeps(idle, input.node, k, entry.workspaceId, ReadOnly, s.claims);
      } else if HeldByOther(s, k, input.node, input.instance) {
        ObserveKeeps(idle, input.node, k, entry.workspaceId, InConflict, s.claims);
      } else {
        var claims := s.claims[k := Claim(entry.workspaceId, input.node, input.instance)];
        ObserveKeeps(idle, input.node, k, entry.workspaceId, Claimed, claims);
        ObserveCommutes(idle, input.node, k, entry.workspaceId, Claimed, claims);
      }
      ObserveCommutes(idle, input.node, k, entry.workspaceId, ReadOnly, s.claims);
      ObserveCommutes(idle, input.node, k, entry.workspaceId, InConflict, s.claims);
    }
  }

  lemma ObserveCommutes(s: State, n: Id, k: Id, w: Id, status: ClaimStatus, claims: map<Id, Claim>)
    requires n in s.nodes
    ensures Observe(s.(claims := claims), n, k, w, status) == Observe(s, n, k, w, status).(claims := claims)
  {
  }

  /** Nobody claims `k` any more: what nodes saw of it is forgotten or demoted, all else is as before. */
  ghost predicate Forgets(nodes: map<Id, Node>, nodes': map<Id, Node>, k: Id) {
    && nodes'.Keys == nodes.Keys
    && (forall n | n in nodes :: && nodes'[n].instance == nodes[n].instance && nodes'[n].status == nodes[n].status
                                 && nodes'[n].session == nodes[n].session)
    && (forall n, j | Sees(nodes', n, j) :: && Sees(nodes, n, j)
                                            && nodes'[n].workspaces[j].workspaceId == nodes[n].workspaces[j].workspaceId)
    && (forall n, j | j != k && Sees(nodes, n, j) ::
          Sees(nodes', n, j) && nodes'[n].workspaces[j] == nodes[n].workspaces[j])
  }

  lemma ForgetsKeepsDirectory(s: State, nodes: map<Id, Node>, k: Id)
    requires Inv(s) && Forgets(s.nodes, nodes, k)
    ensures Directory(s.(nodes := nodes)) && BoundNodesKept(nodes, s.bindings)
  {
    hide Claims, BindingsLeased, LeasesBound, LeasesEnabled;
    assert |nodes| == |nodes.Keys| == |s.nodes.Keys|;
    forall n | n in nodes ensures NodeOk(nodes[n], s.closed) {
      assert NodeOk(s.nodes[n], s.closed);
      if nodes[n].workspaces != map[] {
        var j :| j in nodes[n].workspaces;
        assert Sees(nodes, n, j) && Sees(s.nodes, n, j);
      }
    }
  }

  lemma ForgetsKeepsClaims(s: State, nodes: map<Id, Node>, claims: map<Id, Claim>, k: Id)
    requires Inv(s) && Forgets(s.nodes, nodes, k)
    requires forall j | j in claims :: j in s.claims && claims[j] == s.claims[j] && j != k
    requires forall j | j in s.claims && j != k :: j in claims
    requires forall n :: !SeenClaimed(nodes, n, k)
    ensures ClaimsBacked(nodes, claims) && ObservationsClaimed(nodes, claims)
    ensures ObservationsCatalogued(nodes, s.catalog)
  {
    hide Directory, Routes, UniqueWorkspaces, ClaimsEnabled, PendingOk;
    forall j | j in claims ensures Backed(nodes, j, claims[j]) {
      assert Backed(s.nodes, j, s.claims[j]) && Sees(s.nodes, s.claims[j].node, j);
    }
    forall n, j | Sees(nodes, n, j) ensures Uses(s.catalog, j, nodes[n].workspaces[j].workspaceId) {
      assert Sees(s.nodes, n, j);
    }
    forall n, j | SeenClaimed(nodes, n, j) ensures j in claims && claims[j].node == n {
      assert j != k && Sees(nodes, n, j) && Sees(s.nodes, n, j) && SeenClaimed(s.nodes, n, j);
    }
  }

  lemma SwitchFinishKeeps(s: State, k: Id, enabled: bool)
    requires Inv(s) && s.exclusive == Some(SwitchFinishing(k, enabled))
    ensures Inv(SwitchFinish(s, k, enabled))
  {
    hide UniqueInstances, NodesOk, ClaimsBacked, ObservationsClaimed, ObservationsCatalogued, UniqueWorkspaces,
      ClaimsEnabled, BindingsLeased, LeasesBound, BoundNodesKept, LeasesEnabled, Demote, Forgets;
    SwitchKeepsEnabled(s, k, enabled);
    if !enabled {
      var nodes := map n | n in s.nodes :: Demote(s.nodes[n], k);
      DemoteForgets(s.nodes, nodes, k);
      ForgetsKeepsDirectory(s, nodes, k);
      ForgetsKeepsClaims(s, nodes, s.claims - {k}, k);
      var s' := s.(exclusive := None, claims := s.claims - {k}, nodes := nodes);
      assert Directory(s') && Claims(s') && Routes(s');
    }
  }

  lemma SwitchKeepsEnabled(s: State, k: Id, enabled: bool)
    requires Inv(s) && s.exclusive == Some(SwitchFinishing(k, enabled))
    ensures ClaimsEnabled(SwitchFinish(s, k, enabled).claims, s.catalog, None)
  {
    hide Directory, Routes, ClaimsBacked, ObservationsClaimed, ObservationsCatalogued, UniqueWorkspaces;
  }

  lemma DemoteForgets(nodes: map<Id, Node>, nodes': map<Id, Node>, k: Id)
    requires nodes' == map n | n in nodes :: Demote(nodes[n], k)
    ensures Forgets(nodes, nodes', k)
    ensures forall n :: !SeenClaimed(nodes', n, k)
  {
  }

  lemma FinishKeeps(s: State)
    requires Inv(s)
    ensures Inv(Finish(s).0)
  {
    hide Inv, ClaimFinish, SwitchFinish;
    if s.exclusive.Some? {
      match s.exclusive.value
      case ClaimFinishing(input, serial, entry) => ClaimFinishKeeps(s, input, serial, entry);
      case SwitchFinishing(k, enabled) => SwitchFinishKeeps(s, k, enabled);
      case _ =>
    }
  }

  ghost function Withdraw(s: State, n: Id, k: Id): State
    requires n in s.nodes
  {
    var node := s.nodes[n];
    s.(claims := if k in s.claims && !HeldByOther(s, k, n, node.instance) then s.claims - {k} else s.claims,
       nodes := s.nodes[n := node.(workspaces := node.workspaces - {k}, history := node.history - {k})])
  }

  lemma WithdrawKeeps(s: State, n: Id, k: Id)
    requires Inv(s) && n in s.nodes
    ensures Inv(Withdraw(s, n, k))
  {
    hide UniqueInstances, NodesOk, ClaimsBacked, ObservationsClaimed, ObservationsCatalogued, UniqueWorkspaces,
      ClaimsEnabled, BindingsLeased, LeasesBound, BoundNodesKept, LeasesEnabled, PendingOk,
      NodeOk, HeldByOther;
    var s' := Withdraw(s, n, k);
    WithdrawnNodeOk(s, n, k);
    ReplaceKeepsDirectory(s, n, s'.nodes[n]);
    WithdrawKeepsClaims(s, n, k);
    FewerClaimsEnabled(s.claims, s'.claims, s.catalog, s.exclusive);
  }

  lemma FewerClaimsEnabled(claims: map<Id, Claim>, fewer: map<Id, Claim>, catalog: map<Id, Entry>,
                           exclusive: Option<Pending>)
    requires ClaimsEnabled(claims, catalog, exclusive) && fewer.Keys <= claims.Keys
    ensures ClaimsEnabled(fewer, catalog, exclusive)
  {
  }

  lemma WithdrawnNodeOk(s: State, n: Id, k: Id)
    requires Inv(s) && n in s.nodes
    ensures NodeOk(Withdraw(s, n, k).nodes[n], s.closed)
  {
    hide Claims, Routes, UniqueInstances;
    assert NodeOk(s.nodes[n], s.closed);
  }

  lemma WithdrawKeepsClaims(s: State, n: Id, k: Id)
    requires Inv(s) && n in s.nodes
    ensures var s' := Withdraw(s, n, k);
      ClaimsBacked(s'.nodes, s'.claims) && ObservationsClaimed(s'.nodes, s'.claims)
      && ObservationsCatalogued(s'.nodes, s.catalog)
  {
    hide Directory, Routes, UniqueWorkspaces, ClaimsEnabled, PendingOk;
    var s' := Withdraw(s, n, k);
    forall j | j in s'.claims ensures Backed(s'.nodes, j, s'.claims[j]) {
      assert Backed(s.nodes, j, s.claims[j]);
    }
    forall m, j | Sees(s'.nodes, m, j) ensures Uses(s.catalog, j, s'.nodes[m].workspaces[j].workspaceId) {
      assert Sees(s.nodes, m, j);
    }
    forall m, j | SeenClaimed(s'.nodes, m, j) ensures j in s'.claims && s'.claims[j].node == m {
      assert SeenClaimed(s.nodes, m, j);
    }
  }

  lemma ReleaseKeeps(s: State, n: Id, instance: Id, workspaceId: Id)
    requires Inv(s)
    ensures Inv(Release(s, n, instance, workspaceId).0)
  {
    hide Inv, Shows;
    if Live(s, n, instance) && exists k :: Shows(s.nodes[n], k, workspaceId) {
      var k :| Shows(s.nodes[n], k, workspaceId) && Release(s, n, instance, workspaceId).0 == Withdraw(s, n, k);
      WithdrawKeeps(s, n, k);
    }
  }

  /** Two claims never carry the same workspace id. */
  lemma ClaimsShareNoId(s: State, j: Id, k: Id)
    requires Inv(s) && j in s.claims && k in s.claims && s.claims[j].workspaceId == s.claims[k].workspaceId
    ensures j == k
  {
    hide Routes, Directory, PendingOk;
    assert Backed(s.nodes, j, s.claims[j]) && Backed(s.nodes, k, s.claims[k]);
    assert Sees(s.nodes, s.claims[j].node, j) && Sees(s.nodes, s.claims[k].node, k);
  }

  // ---------- Task routes ----------

  lemma AcquireKeeps(s: State, r: RouteRequest, authorized: bool)
    requires Inv(s) && s.exclusive.None?
    ensures Inv(Acquire(s, r, authorized).0)
  {
    hide Inv, RouteRefusal;
    if authorized && Live(s, r.node, r.instance) && exists k :: Holds(s, k, r) {
      var k :| && Holds(s, k, r)
               && Acquire(s, r, authorized).0 == (if RouteRefusal(s, r, k).Some? then s else Granted(s, r, k));
      if RouteRefusal(s, r, k).None? {
        GrantKeeps(s, r, k);
      }
    }
  }

  ghost function Granted(s: State, r: RouteRequest, k: Id): State {
    s.(leases := s.leases[k := Owner(r.owner, r.task)],
       bindings := s.bindings[r.task := Binding(r.node, r.instance, r.workspaceId, r.owner, k)])
  }

  lemma GrantKeeps(s: State, r: RouteRequest, k: Id)
    requires Inv(s) && s.exclusive.None? && Live(s, r.node, r.instance) && Holds(s, k, r)
    requires RouteRefusal(s, r, k).None?
    ensures Inv(Granted(s, r, k))
  {
    hide UniqueInstances, NodesOk, ClaimsBacked, ObservationsClaimed, ObservationsCatalogued, UniqueWorkspaces,
      ClaimsEnabled, BindingsLeased, LeasesBound, BoundNodesKept, LeasesEnabled, RouteRefusal, Holds, Live;
    GrantKeepsLeases(s, r, k);
    GrantKeepsBound(s, r, k);
  }

  lemma GrantKeepsBound(s: State, r: RouteRequest, k: Id)
    requires Inv(s) && s.exclusive.None? && Live(s, r.node, r.instance) && Holds(s, k, r)
    ensures BoundNodesKept(s.nodes, Granted(s, r, k).bindings) && LeasesEnabled(Granted(s, r, k).leases, s.catalog)
  {
    hide Directory, BindingsLeased, LeasesBound, ClaimsBacked, ObservationsClaimed, ObservationsCatalogued,
      UniqueWorkspaces, PendingOk;
  }

  lemma GrantKeepsLeases(s: State, r: RouteRequest, k: Id)
    requires Inv(s) && RouteRefusal(s, r, k).None?
    ensures var s' := Granted(s, r, k); BindingsLeased(s'.bindings, s'.leases) && LeasesBound(s'.bindings, s'.leases)
  {
    hide Directory, Claims, Enabled, BoundNodesKept, LeasesEnabled;
    var s' := Granted(s, r, k);
    forall j | j in s'.leases ensures && s'.leases[j].task in s'.bindings
                                      && s'.bindings[s'.leases[j].task].leaseKey == j
                                      && s'.bindings[s'.leases[j].task].owner == s'.leases[j].peer {
    }
  }

  lemma ReleaseRouteKeeps(s: State, owner: Id, task: Id, cutoff: int)
    requires Inv(s)
    ensures Inv(ReleaseRoute(s, owner, task, cutoff))
  {
    if OwnsRoute(s, owner, task) {
      var k := s.bindings[task].leaseKey;
      var freed := s.(leases := s.leases - {k}, bindings := s.bindings - {task});
      UnbindKeeps(s, task);
      hide Inv, Prune;
      PruneKeeps(freed, cutoff);
      BindingOwnsLease(s, task);
    }
  }

  lemma BindingOwnsLease(s: State, task: Id)
    requires Inv(s) && task in s.bindings
    ensures var b := s.bindings[task]; b.leaseKey in s.leases && s.leases[b.leaseKey] == Owner(b.owner, task)
  {
  }

  lemma UnbindKeeps(s: State, task: Id)
    requires Inv(s) && task in s.bindings
    ensures Inv(s.(leases := s.leases - {s.bindings[task].leaseKey}, bindings := s.bindings - {task}))
  {
    var k := s.bindings[task].leaseKey;
    UnbindKeepsRoutes(s.nodes, s.bindings, s.leases, s.catalog, task);
    hide UniqueInstances, NodesOk, ClaimsBacked, ObservationsClaimed, ObservationsCatalogued, UniqueWorkspaces,
      ClaimsEnabled, BindingsLeased, LeasesBound, BoundNodesKept, LeasesEnabled;
  }

  lemma UnbindKeepsRoutes(nodes: map<Id, Node>, bindings: map<Id, Binding>, leases: map<Id, Owner>,
                          catalog: map<Id, Entry>, task: Id)
    requires BindingsLeased(bindings, leases) && LeasesBound(bindings, leases)
    requires BoundNodesKept(nodes, bindings) && LeasesEnabled(leases, catalog) && task in bindings
    ensures var bindings', leases' := bindings - {task}, leases - {bindings[task].leaseKey};
      && BindingsLeased(bindings', leases') && LeasesBound(bindings', leases')
      && BoundNodesKept(nodes, bindings') && LeasesEnabled(leases', catalog)
  {
  }

  // ---------- Runs ----------

  lemma ApplyKeeps(s: State, step: Step)
    requires Inv(s)
    ensures Inv(Apply(s, step))
  {
    hide Inv, Register, Heartbeat, Unregister, Sweep, Close, ClaimBegin, SwitchBegin, Stored, Finish, Release,
      Acquire, ReleaseRoute;
    match step
    case DoRegister(input, now) => RegisterKeeps(s, input, now);
    case DoHeartbeat(n, instance, at, status, now) => HeartbeatKeeps(s, n, instance, at, status, now);
    case DoUnregister(n, instance, closeSession, now) => UnregisterKeeps(s, n, instance, closeSession, now);
    case DoSweep(now, cutoff) => SweepKeeps(s, now, cutoff);
    case DoClose(session, now) => CloseKeeps(s, {session}, now);
    case DoClaimBegin(input, freshId) => if s.exclusive.None? { ClaimBeginKeeps(s, input, freshId); }
    case DoSwitchBegin(w, enabled) => if s.exclusive.None? { SwitchBeginKeeps(s, w, enabled); }
    case DoStored(ok) => StoredKeeps(s, ok);
    case DoFinish => FinishKeeps(s);
    case DoRelease(n, instance, w) => ReleaseKeeps(s, n, instance, w);
    case DoAcquire(r, authorized) => if s.exclusive.None? { AcquireKeeps(s, r, authorized); }
    case DoReleaseRoute(owner, task, cutoff) => ReleaseRouteKeeps(s, owner, task, cutoff);
  }

  lemma UnregisterKeeps(s: State, n: Id, instance: Id, closeSession: bool, now: int)
    requires Inv(s)
    ensures Inv(Unregister(s, n, instance, closeSession, now).0)
  {
    hide Inv, Drop;
    DropKeeps(s, {n}, closeSession, now);
  }

  lemma {:induction false} RunKeeps(s: State, steps: seq<Step>)
    requires Inv(s)
    ensures Inv(Run(s, steps))
    decreases |steps|
  {
    hide Inv, Apply;
    if steps == [] {
    } else {
      ApplyKeeps(s, steps[0]);
      RunKeeps(Apply(s, steps[0]), steps[1..]);
    }
  }
}
