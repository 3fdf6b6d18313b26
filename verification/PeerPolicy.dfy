/**
 Who may delegate to whom: the gate of src/broker/PeerPolicyService.ts over the directory of module Registry.
 A window is offered another window in its list exactly when the gate lets it route there, and the registry
 then accepts the route unless a task already uses the workspace.
 */
module PeerPolicy {
  import opened Wrappers
  import opened Registry
  import opened RegistrySafety
  import opened RegistryTheorems
  import RegistrySamples

  /** One stored policy; window names are in module WindowNames. */
  datatype Policy = Policy(acceptsIncoming: bool, allowlist: set<Id>)

  type Policies = map<Id, Policy>

  /** `PeerNodeSnapshot`: workspaces by physical identity. */
  datatype Peer = Peer(online: bool, workspaces: map<Id, ClaimStatus>)

  datatype Gate = Allowed | NotAllowed | NotAccepting | PeerOffline | MultiWorkspace | NotClaimed

  predicate IsOnline(s: State, node: Node) {
    (node.status == Online || node.status == Busy) && Open(s, node)
  }

  function PeerSnapshot(s: State, node: Node): Peer {
    if IsOnline(s, node) then Peer(true, map k | k in node.workspaces :: node.workspaces[k].status)
    else Peer(false, map k | k in node.history :: ReadOnly)
  }

  function PeerNode(s: State, n: Id, instance: Id): Option<Peer> {
    if Exact(s, n, instance) then Some(PeerSnapshot(s, s.nodes[n])) else None
  }

  function ClaimedIn(peer: Option<Peer>): set<Id> {
    if peer.None? then {} else set k | k in peer.value.workspaces && peer.value.workspaces[k] == Claimed
  }

  /** The workspace of a peer that has exactly one. */
  ghost function Only(peer: Option<Peer>): (only: Option<Id>)
    ensures only.Some? ==> peer.Some? && peer.value.workspaces.Keys == {only.value}
    ensures only.None? ==> peer.None? || |peer.value.workspaces| != 1
  {
    if peer.Some? && |peer.value.workspaces| == 1 then
      var k :| k in peer.value.workspaces;
      OneKey(peer.value.workspaces, k);
      Some(k)
    else None
  }

  lemma OneKey(m: map<Id, ClaimStatus>, k: Id)
    requires |m| == 1 && k in m
    ensures m.Keys == {k}
  {
    assert |m.Keys - {k}| == 0;
    assert forall j | j in m.Keys :: j in {k} || j in m.Keys - {k};
  }

  predicate Allows(policies: Policies, source: Id, target: Id) {
    source in policies && target in policies[source].allowlist
  }

  ghost function GateState(policies: Policies, source: Option<Peer>, target: Option<Peer>, given: Option<Id>): Gate {
    var identity := if given.Some? then given else Only(target);
    var sources := ClaimedIn(source);
    if identity.None? || sources == {} || !(forall k | k in sources :: Allows(policies, k, identity.value)) then
      NotAllowed
    else if !(identity.value in policies && policies[identity.value].acceptsIncoming) then NotAccepting
    else if target.None? || !target.value.online then PeerOffline
    else if |target.value.workspaces| > 1 then MultiWorkspace
    else if |target.value.workspaces| == 0 then NotClaimed
    else if Only(target) != identity || target.value.workspaces[identity.value] != Claimed then NotClaimed
    else Allowed
  }

  /** The node instance a request comes from; None for a request of the device owner or a remote peer. */
  type Source = Option<(Id, Id)>

  /** `assertRouteAllowed`, with the snapshots `peerRouteAuthorizationContext` takes. */
  ghost predicate RouteAllowed(policies: Policies, enabled: bool, s: State, source: Source, r: RouteRequest) {
    source.None? ||
      (enabled && GateState(policies, PeerNode(s, source.value.0, source.value.1), PeerNode(s, r.node, r.instance),
                            IdentityOf(s.catalog, r.workspaceId)) == Allowed)
  }

  ghost function AcquireFrom(policies: Policies, enabled: bool, s: State, source: Source, r: RouteRequest)
    : (State, Reply)
  {
    Acquire(s, r, RouteAllowed(policies, enabled, s, source, r))
  }

  datatype Listing = Forbidden | Listed(nodes: set<Id>)

  /** `listAuthorized`; `raw` holds the nodes of the directory that fit into one frame. */
  ghost function ListAuthorized(policies: Policies, enabled: bool, s: State, n: Id, instance: Id, raw: set<Id>)
    : (listing: Listing)
  {
    var source := PeerNode(s, n, instance);
    if !enabled then Listed({})
    else if source.None? then Forbidden
    else if ClaimedIn(source) == {} then Listed({})
    else
      Listed(set m | m in raw && m in s.nodes && m != n
                     && GateState(policies, source, PeerNode(s, m, s.nodes[m].instance), None) == Allowed)
  }

  ghost predicate Offers(policies: Policies, enabled: bool, s: State, n: Id, instance: Id, raw: set<Id>, m: Id) {
    var listing := ListAuthorized(policies, enabled, s, n, instance, raw);
    listing.Listed? && m in listing.nodes
  }

  // ---------- The list and the gate agree ----------

  /** Naming the target workspace can only make the gate stricter. */
  lemma GateIgnoresName(policies: Policies, source: Option<Peer>, target: Option<Peer>, given: Option<Id>)
    requires GateState(policies, source, target, given) == Allowed
    ensures GateState(policies, source, target, None) == Allowed
    ensures given.Some? ==> Only(target) == given
  {
  }

  lemma AllowedMeans(policies: Policies, source: Option<Peer>, target: Option<Peer>)
    ensures GateState(policies, source, target, None) == Allowed <==>
      && Only(target).Some? && target.value.online && target.value.workspaces[Only(target).value] == Claimed
      && ClaimedIn(source) != {}
      && (forall k | k in ClaimedIn(source) :: Allows(policies, k, Only(target).value))
      && Only(target).value in policies && policies[Only(target).value].acceptsIncoming
  {
  }

  /** The one workspace an allowed target shows is claimed by it, under the id its catalog entry carries. */
  lemma AllowedTargetHolds(policies: Policies, s: State, source: Option<Peer>, m: Id)
    requires Reachable(s) && m in s.nodes
    requires GateState(policies, source, PeerNode(s, m, s.nodes[m].instance), None) == Allowed
    ensures var k := Only(PeerNode(s, m, s.nodes[m].instance));
      && k.Some? && k.value in s.claims
      && s.claims[k.value].node == m && s.claims[k.value].instance == s.nodes[m].instance
      && k.value in s.catalog && s.catalog[k.value].workspaceId == s.claims[k.value].workspaceId
      && Live(s, m, s.nodes[m].instance)
  {
    hide GateState, Reachable, Live;
    var target := PeerNode(s, m, s.nodes[m].instance);
    AllowedMeans(policies, source, target);
    var k := Only(target).value;
    assert SeenClaimed(s.nodes, m, k);
    ReachableIsFine(s);
    ClaimsMatchNodes(s, k);
    ClaimedIsEnabled(s, k);
    ShownIsLive(s, m, k);
  }

  lemma FoundIdentity(s: State, k: Id)
    requires Reachable(s) && k in s.catalog
    ensures IdentityOf(s.catalog, s.catalog[k].workspaceId) == Some(k)
  {
    hide Reachable;
    ReachableIsFine(s);
    hide Directory, Routes, ClaimsBacked, ObservationsClaimed, ObservationsCatalogued, ClaimsEnabled, PendingOk;
    assert Uses(s.catalog, k, s.catalog[k].workspaceId);
  }

  /**
   A window is listed another node exactly when it may route a task to that node: the directory shows
   the node, it is another node, and the gate accepts some workspace of it.
   */
  lemma ListedIffRoutable(policies: Policies, enabled: bool, s: State, n: Id, instance: Id, raw: set<Id>, m: Id)
    requires Reachable(s) && m in s.nodes
    ensures Offers(policies, enabled, s, n, instance, raw, m) <==>
      && m in raw && m != n
      && exists w :: RouteAllowed(policies, enabled, s, Some((n, instance)), RouteRequest(m, s.nodes[m].instance, w, 0, 0))
  {
    hide GateState, Reachable, IdentityOf, Live;
    var source, target := PeerNode(s, n, instance), PeerNode(s, m, s.nodes[m].instance);
    AllowedMeans(policies, source, target);
    if GateState(policies, source, target, None) == Allowed {
      AllowedTargetHolds(policies, s, source, m);
      var k := Only(target).value;
      FoundIdentity(s, k);
      NamingTheOnly(policies, source, target);
      assert enabled ==> RouteAllowed(policies, enabled, s, Some((n, instance)),
                          RouteRequest(m, s.nodes[m].instance, s.catalog[k].workspaceId, 0, 0));
    }
    forall w | RouteAllowed(policies, enabled, s, Some((n, instance)), RouteRequest(m, s.nodes[m].instance, w, 0, 0))
      ensures GateState(policies, source, target, None) == Allowed {
      GateIgnoresName(policies, source, target, IdentityOf(s.catalog, w));
    }
  }

  lemma NamingTheOnly(policies: Policies, source: Option<Peer>, target: Option<Peer>)
    ensures Only(target).Some? ==> GateState(policies, source, target, Only(target)) == GateState(policies, source, target, None)
  {
  }

  /** The request for a fresh task that a listing invites. */
  ghost function Invited(s: State, m: Id, owner: Id, task: Id): RouteRequest
    requires m in s.nodes
  {
    var k := Only(PeerNode(s, m, s.nodes[m].instance));
    RouteRequest(m, s.nodes[m].instance,
                 if k.Some? && k.value in s.catalog then s.catalog[k.value].workspaceId else 0, owner, task)
  }

  /**
   A listed node accepts a fresh task, unless a task uses its workspace.  (While the registry waits for the
   store, the route is only queued; see AcceptedUnlessDisabling.)
   */
  lemma ListedIsAccepted(policies: Policies, enabled: bool, s: State, n: Id, instance: Id, raw: set<Id>, m: Id,
                         owner: Id, task: Id)
    requires Reachable(s) && s.exclusive.None? && m in s.nodes && task !in s.bindings
    requires Offers(policies, enabled, s, n, instance, raw, m)
    ensures var k := Only(PeerNode(s, m, s.nodes[m].instance));
      k.Some? && AcquireFrom(policies, enabled, s, Some((n, instance)), Invited(s, m, owner, task)).1
              == if k.value in s.leases then Refused(WorkspaceBusy) else Accepted
  {
    hide GateState, Reachable, IdentityOf, Live, Acquire;
    var source, target := PeerNode(s, n, instance), PeerNode(s, m, s.nodes[m].instance);
    AllowedTargetHolds(policies, s, source, m);
    var k := Only(target).value;
    var r := Invited(s, m, owner, task);
    FoundIdentity(s, k);
    NamingTheOnly(policies, source, target);
    assert RouteAllowed(policies, enabled, s, Some((n, instance)), r);
    assert Holds(s, k, r);
    AcquireHeld(s, r, k);
    ReachableIsFine(s);
    ClaimIsUsable(s, k, r);
    LeaseFollowsBinding(s, k, r);
  }

  /** With a claim held, the outcome is what the remaining checks say. */
  lemma AcquireHeld(s: State, r: RouteRequest, k: Id)
    requires Reachable(s) && Live(s, r.node, r.instance) && Holds(s, k, r)
    ensures Acquire(s, r, true).1 == if RouteRefusal(s, r, k).Some? then Refused(RouteRefusal(s, r, k).value) else Accepted
  {
    hide Reachable, Inv, RouteRefusal;
    ReachableIsFine(s);
    forall j | Holds(s, j, r) ensures j == k { ClaimsShareNoId(s, j, k); }
  }

  /** The checks after the gate fail for a listed, unleased node only while its workspace is being disabled. */
  lemma AcceptedUnlessDisabling(policies: Policies, enabled: bool, s: State, n: Id, instance: Id, raw: set<Id>, m: Id,
                                owner: Id, task: Id)
    requires Reachable(s) && m in s.nodes && task !in s.bindings
    requires Offers(policies, enabled, s, n, instance, raw, m)
    requires Only(PeerNode(s, m, s.nodes[m].instance)).value !in s.leases
    ensures var k := Only(PeerNode(s, m, s.nodes[m].instance));
      k.Some? && (RouteRefusal(s, Invited(s, m, owner, task), k.value).None? <==> !Disabling(s.exclusive, k.value))
  {
    hide GateState, Reachable, Live;
    var source, target := PeerNode(s, n, instance), PeerNode(s, m, s.nodes[m].instance);
    AllowedTargetHolds(policies, s, source, m);
    var k := Only(target).value;
    var w := s.catalog[k].workspaceId;
    ClaimedIsEnabled(s, k);
    ReachableIsFine(s);
    EnabledIsAbout(s, k, w);
    if Disabling(s.exclusive, k) {
      DisablingIsDisabled(s, k);
    }
    hide Inv, Enabled, Only, PeerNode;
  }

  /** The switch that disables a workspace, up to the answer of the store. */
  function Disable(w: Id): seq<Step> { [DoSwitchBegin(w, false), DoStored(true)] }

  /**
   The exception of AcceptedUnlessDisabling is real: from any state in which a node is listed and its workspace is
   free, disabling that workspace leads to one in which the node is still listed.  A task that is started there
   waits for the switch, finds the node no longer listed, and is refused.
   */
  lemma DisablingRefuses(policies: Policies, enabled: bool, s: State, n: Id, instance: Id, raw: set<Id>, m: Id,
                         owner: Id, task: Id)
    requires Reachable(s) && s.exclusive.None? && m in s.nodes && Offers(policies, enabled, s, n, instance, raw, m)
    requires Only(PeerNode(s, m, s.nodes[m].instance)).value !in s.leases
    ensures var k := Only(PeerNode(s, m, s.nodes[m].instance));
      k.Some? && k.value in s.catalog
      && var r := Invited(s, m, owner, task);
         var listed := Run(s, Disable(s.catalog[k.value].workspaceId));
         var later := Apply(listed, DoFinish);
         && Offers(policies, enabled, listed, n, instance, raw, m) && Disabling(listed.exclusive, k.value)
         && later.exclusive.None? && !Offers(policies, enabled, later, n, instance, raw, m)
         && AcquireFrom(policies, enabled, later, Some((n, instance)), r).1 == Refused(PeerRefused)
  {
    hide GateState, Reachable, IdentityOf, Live, Acquire, Run, Apply;
    var source, target := PeerNode(s, n, instance), PeerNode(s, m, s.nodes[m].instance);
    AllowedTargetHolds(policies, s, source, m);
    var k := Only(target).value;
    FoundIdentity(s, k);
    var w := s.catalog[k].workspaceId;
    var listed := Run(s, Disable(w));
    DisableRuns(s, k, w);
    SameNodesOffer(policies, enabled, s, listed, n, instance, raw, m);
    var later := Apply(listed, DoFinish);
    assert later == SwitchFinish(listed, k, false) by { FinishSwitches(listed, k); }
    AllowedMeans(policies, source, target);
    assert k in s.nodes[m].workspaces;
    assert k in later.nodes[m].workspaces && later.nodes[m].workspaces[k].status == ReadOnly;
    DemotedIsRefused(policies, later, PeerNode(later, n, instance), m, k, IdentityOf(later.catalog, w));
    DemotedIsRefused(policies, later, PeerNode(later, n, instance), m, k, None);
    AcquireNeedsGate(later, Invited(s, m, owner, task));
  }

  lemma AcquireNeedsGate(s: State, r: RouteRequest)
    ensures Acquire(s, r, false).1 == Refused(PeerRefused)
  {
  }

  lemma DisableRuns(s: State, k: Id, w: Id)
    requires s.exclusive.None? && IdentityOf(s.catalog, w) == Some(k) && k in s.catalog && k !in s.leases
    ensures Run(s, Disable(w)) == s.(catalog := s.catalog[k := s.catalog[k].(enabled := false)],
                                     exclusive := Some(SwitchFinishing(k, false)))
  {
    hide IdentityOf;
    var s1 := Apply(s, DoSwitchBegin(w, false));
    assert Disable(w)[1..] == [DoStored(true)] && [DoStored(true)][1..] == [];
    assert Run(s1, [DoStored(true)]) == Run(Apply(s1, DoStored(true)), []);
  }

  lemma FinishSwitches(s: State, k: Id)
    requires s.exclusive == Some(SwitchFinishing(k, false))
    ensures Apply(s, DoFinish) == SwitchFinish(s, k, false)
  {
  }

  /** The list depends on the nodes and their sessions only. */
  lemma SameNodesOffer(policies: Policies, enabled: bool, s: State, s': State, n: Id, instance: Id, raw: set<Id>, m: Id)
    requires s.nodes == s'.nodes && s.closed == s'.closed
    ensures Offers(policies, enabled, s, n, instance, raw, m) == Offers(policies, enabled, s', n, instance, raw, m)
  {
    hide GateState;
    forall j, i ensures PeerNode(s, j, i) == PeerNode(s', j, i) {
    }
  }

  /** A node that shows a workspace read-only is not let through, whatever name is given. */
  lemma DemotedIsRefused(policies: Policies, s: State, source: Option<Peer>, m: Id, k: Id, given: Option<Id>)
    requires m in s.nodes && k in s.nodes[m].workspaces && s.nodes[m].workspaces[k].status == ReadOnly
    ensures GateState(policies, source, PeerNode(s, m, s.nodes[m].instance), given) != Allowed
  {
    var target := PeerNode(s, m, s.nodes[m].instance);
    assert target.Some? && (target.value.online ==> k in target.value.workspaces && target.value.workspaces[k] == ReadOnly);
    if GateState(policies, source, target, given) == Allowed {
      GateIgnoresName(policies, source, target, given);
      AllowedMeans(policies, source, target);
    }
  }

  /** A listing as DisablingRefuses starts from: window 1 may delegate to window 2. */
  lemma SampleListing()
    ensures var policies := map[31 := Policy(false, {32}), 32 := Policy(true, {})];
      && Reachable(RegistrySamples.TWO) && RegistrySamples.TWO.exclusive.None? && RegistrySamples.TWO.leases == map[]
      && Offers(policies, true, RegistrySamples.TWO, 1, 11, {2}, 2)
  {
    RegistrySamples.TwoIsReachable();
    hide Reachable, GateState;
    var policies := map[31 := Policy(false, {32}), 32 := Policy(true, {})];
    var s := RegistrySamples.TWO;
    var source, target := PeerNode(s, 1, 11), PeerNode(s, 2, 12);
    assert ClaimedIn(source) == {31};
    assert target.value.workspaces == map[32 := Claimed];
    OneKey(target.value.workspaces, 32);
    AllowedMeans(policies, source, target);
  }

  lemma EnabledIsAbout(s: State, k: Id, w: Id)
    requires Inv(s) && Uses(s.catalog, k, w)
    ensures Enabled(s.catalog, w) == s.catalog[k].enabled
  {
    hide Directory, Routes, ClaimsBacked, ObservationsClaimed, ObservationsCatalogued, ClaimsEnabled, PendingOk;
    if s.catalog[k].enabled {
      assert Uses(s.catalog, k, w) && s.catalog[k].enabled;
    }
  }

  lemma DisablingIsDisabled(s: State, k: Id)
    requires Inv(s) && Disabling(s.exclusive, k)
    ensures k in s.catalog && !s.catalog[k].enabled
  {
    hide Directory, Routes, ClaimsBacked, ObservationsClaimed, ObservationsCatalogued, UniqueWorkspaces, ClaimsEnabled;
  }

  // ---------- Policies and the rule against listing oneself ----------

  predicate Owned(s: State, n: Id, instance: Id, k: Id) {
    var peer := PeerNode(s, n, instance);
    peer.Some? && peer.value.online && k in peer.value.workspaces && peer.value.workspaces[k] == Claimed
  }

  datatype Mutation =
    | SetPolicy(acceptsIncoming: Option<bool>, allowlist: Option<set<Id>>)
    | SetCandidate(target: Id, candidate: Option<(Id, Id)>, allowed: bool)
    | SetReceive(enabled: bool)

  function Current(policies: Policies, k: Id): Policy {
    if k in policies then policies[k] else Policy(false, {})
  }

  /** `validateTarget` of a candidate toggle. */
  predicate CandidateOk(s: State, target: Id, candidate: Option<(Id, Id)>, allowed: bool) {
    if candidate.None? then !allowed
    else
      var live := PeerNode(s, candidate.value.0, candidate.value.1);
      && live.Some? && live.value.workspaces.Keys == {target}
      && (allowed ==> live.value.online && live.value.workspaces[target] == Claimed)
  }

  /** What a caller may change of the policy of its own workspace `k`; None when it is refused. */
  function Mutate(policies: Policies, enabled: bool, s: State, n: Id, instance: Id, k: Id, m: Mutation): Option<Policies> {
    if !Owned(s, n, instance, k) then None
    else
      var current := Current(policies, k);
      match m
      case SetPolicy(accepts, allowlist) =>
        if !enabled || (allowlist.Some? && k in allowlist.value) then None
        else Some(policies[k := Policy(if accepts.Some? then accepts.value else current.acceptsIncoming,
                                       if allowlist.Some? then allowlist.value else current.allowlist)])
      case SetCandidate(target, candidate, allowed) =>
        if !enabled || target == k || !CandidateOk(s, target, candidate, allowed) then None
        else Some(policies[k := current.(allowlist := if allowed then current.allowlist + {target}
                                                      else current.allowlist - {target})])
      case SetReceive(accepts) => Some(policies[k := current.(acceptsIncoming := accepts)])
  }

  ghost predicate NoSelfListing(policies: Policies) {
    forall k | k in policies :: k !in policies[k].allowlist
  }

  lemma MutationsKeepNoSelf(policies: Policies, enabled: bool, s: State, n: Id, instance: Id, k: Id, m: Mutation)
    requires NoSelfListing(policies)
    ensures var next := Mutate(policies, enabled, s, n, instance, k, m); next.Some? ==>
      NoSelfListing(next.value) && next.value.Keys == policies.Keys + {k}
      && forall j | j in policies && j != k :: next.value[j] == policies[j]
  {
    hide Owned, CandidateOk;
  }

  /** Without a self-listing no window can route to itself, so leaving the caller out of its list loses nothing. */
  lemma NobodyRoutesToItself(policies: Policies, enabled: bool, s: State, n: Id, instance: Id, w: Id, owner: Id, task: Id)
    requires Reachable(s) && NoSelfListing(policies)
    ensures !RouteAllowed(policies, enabled, s, Some((n, instance)), RouteRequest(n, instance, w, owner, task))
  {
    hide IdentityOf, Reachable;
    var peer := PeerNode(s, n, instance);
    var given := IdentityOf(s.catalog, w);
    if GateState(policies, peer, peer, given) == Allowed {
      GateIgnoresName(policies, peer, peer, given);
      NobodyAllowsItself(policies, peer);
    }
  }

  lemma NobodyAllowsItself(policies: Policies, peer: Option<Peer>)
    requires NoSelfListing(policies)
    ensures GateState(policies, peer, peer, None) != Allowed
  {
    hide GateState;
    AllowedMeans(policies, peer, peer);
    var only := Only(peer);
    if only.Some? && peer.value.workspaces[only.value] == Claimed {
      assert only.value in ClaimedIn(peer);
      assert !Allows(policies, only.value, only.value);
    }
  }

  /** With the whole directory in the frame, the list is exactly the set of nodes a window may route to. */
  lemma ListIsComplete(policies: Policies, s: State, n: Id, instance: Id, m: Id)
    requires Reachable(s) && NoSelfListing(policies) && m in s.nodes && Exact(s, n, instance)
    ensures Offers(policies, true, s, n, instance, s.nodes.Keys, m) <==>
      exists w :: RouteAllowed(policies, true, s, Some((n, instance)), RouteRequest(m, s.nodes[m].instance, w, 0, 0))
  {
    hide RouteAllowed, Offers, Reachable;
    ListedIffRoutable(policies, true, s, n, instance, s.nodes.Keys, m);
    if m == n {
      forall w ensures !RouteAllowed(policies, true, s, Some((n, instance)), RouteRequest(m, s.nodes[m].instance, w, 0, 0)) {
        NobodyRoutesToItself(policies, true, s, n, instance, w, 0, 0);
      }
    }
  }

  // ---------- What a change of policy achieves ----------

  /** Who may change what: the window that shows the workspace as claimed, within the rules for candidates. */
  ghost predicate MayMutate(enabled: bool, s: State, n: Id, instance: Id, k: Id, m: Mutation) {
    && Owned(s, n, instance, k)
    && (m.SetReceive? || enabled)
    && (m.SetPolicy? && m.allowlist.Some? ==> k !in m.allowlist.value)
    && (m.SetCandidate? ==> m.target != k && CandidateOk(s, m.target, m.candidate, m.allowed))
  }

  /** A change that is allowed takes effect, and changes nothing it was not asked to. */
  lemma MutationMeans(policies: Policies, enabled: bool, s: State, n: Id, instance: Id, k: Id, m: Mutation)
    ensures var next := Mutate(policies, enabled, s, n, instance, k, m);
      && (next.Some? <==> MayMutate(enabled, s, n, instance, k, m))
      && (next.Some? ==>
            var before, after := Current(policies, k), Current(next.value, k);
            && k in next.value && (forall j | j != k :: Current(next.value, j) == Current(policies, j))
            && (m.SetCandidate? ==>
                  && (m.target in after.allowlist <==> m.allowed) && after.acceptsIncoming == before.acceptsIncoming
                  && forall t | t != m.target :: t in after.allowlist <==> t in before.allowlist)
            && (m.SetReceive? ==> after == before.(acceptsIncoming := m.enabled))
            && (m.SetPolicy? ==>
                  && (m.acceptsIncoming.Some? ==> after.acceptsIncoming == m.acceptsIncoming.value)
                  && (m.acceptsIncoming.None? ==> after.acceptsIncoming == before.acceptsIncoming)
                  && (m.allowlist.Some? ==> after.allowlist == m.allowlist.value)
                  && (m.allowlist.None? ==> after.allowlist == before.allowlist)))
  {
    hide Owned, CandidateOk;
  }

  /** The window `n` shows just the claimed workspace `k`. */
  ghost predicate ShowsJust(s: State, n: Id, instance: Id, k: Id) {
    var peer := PeerNode(s, n, instance);
    peer.Some? && peer.value.online && peer.value.workspaces == map[k := Claimed]
  }

  /** Allowing a candidate that takes tasks puts it on the list of the window at once, and disallowing it takes it off. */
  lemma ToggleDecidesListing(policies: Policies, s: State, n: Id, instance: Id, k: Id, m: Id, other: Id, t: Id,
                             raw: set<Id>, allowed: bool)
    requires n != m && k != t && ShowsJust(s, n, instance, k) && ShowsJust(s, m, other, t) && m in raw
    requires t in policies && policies[t].acceptsIncoming
    ensures var next := Mutate(policies, true, s, n, instance, k, SetCandidate(t, Some((m, other)), allowed));
      next.Some? && (Offers(next.value, true, s, n, instance, raw, m) <==> allowed)
  {
    assert PeerNode(s, n, instance).value.workspaces[k] == Claimed;
    var next := Mutate(policies, true, s, n, instance, k, SetCandidate(t, Some((m, other)), allowed));
    MutationMeans(policies, true, s, n, instance, k, SetCandidate(t, Some((m, other)), allowed));
    assert m in s.nodes && s.nodes[m].instance == other;
    var source, target := PeerNode(s, n, instance), PeerNode(s, m, other);
    hide PeerNode, Mutate, Owned, CandidateOk;
    assert ClaimedIn(source) == {k};
    JustOne(target, t);
    AllowedMeans(next.value, source, target);
    hide GateState;
  }

  lemma JustOne(peer: Option<Peer>, t: Id)
    requires peer.Some? && peer.value.workspaces == map[t := Claimed]
    ensures Only(peer) == Some(t)
  {
    assert |peer.value.workspaces| == 1;
    assert t in peer.value.workspaces;
  }

  /** A window that stops taking tasks is on no list any more. */
  lemma NotReceivingIsNotListed(policies: Policies, enabled: bool, s: State, m: Id, other: Id, t: Id, n: Id, instance: Id,
                                raw: set<Id>)
    requires ShowsJust(s, m, other, t)
    ensures var next := Mutate(policies, enabled, s, m, other, t, SetReceive(false));
      next.Some? && !Offers(next.value, enabled, s, n, instance, raw, m)
  {
    assert PeerNode(s, m, other).value.workspaces[t] == Claimed;
    var next := Mutate(policies, enabled, s, m, other, t, SetReceive(false));
    MutationMeans(policies, enabled, s, m, other, t, SetReceive(false));
    var source, target := PeerNode(s, n, instance), PeerNode(s, m, other);
    assert m in s.nodes && s.nodes[m].instance == other;
    hide PeerNode, Mutate, Owned;
    JustOne(target, t);
    AllowedMeans(next.value, source, target);
    hide GateState;
  }
}
