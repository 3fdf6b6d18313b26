/** What the operations of the node registry achieve when nothing stands in their way, and what they leave alone. */
module RegistryOutcomes {
  import opened Wrappers
  import opened Registry
  import opened RegistrySafety
  import opened RegistryTheorems

  // ---------- Giving up a workspace ----------

  /** The other nodes, and everything that is not about nodes and claims, stay as they are. */
  ghost predicate OnlyNode(s: State, s': State, n: Id) {
    && s'.nodes.Keys == s.nodes.Keys && (forall m | m in s.nodes && m != n :: s'.nodes[m] == s.nodes[m])
    && s'.bindings == s.bindings && s'.leases == s.leases && s'.catalog == s.catalog && s'.closed == s.closed
    && s'.exclusive == s.exclusive && s'.nextSerial == s.nextSerial
  }

  /**
   The node shows and remembers no workspace of this id any more and holds no claim on one; whatever else it shows,
   all other nodes and all other claims are as they were.
   */
  ghost predicate ReleaseRight(s: State, n: Id, instance: Id, w: Id, s': State) {
    if !Live(s, n, instance) then s' == s
    else
      && OnlyNode(s, s', n)
      && s'.nodes[n] == s.nodes[n].(workspaces := s'.nodes[n].workspaces, history := s'.nodes[n].history)
      && (forall k :: k in s'.nodes[n].workspaces <==> k in s.nodes[n].workspaces && !Shows(s.nodes[n], k, w))
      && (forall k | k in s'.nodes[n].workspaces :: s'.nodes[n].workspaces[k] == s.nodes[n].workspaces[k])
      && (forall k :: k in s'.nodes[n].history <==> k in s.nodes[n].history && !Shows(s.nodes[n], k, w))
      && (forall k | k in s'.nodes[n].history :: s'.nodes[n].history[k] == s.nodes[n].history[k])
      && (forall k :: k in s'.claims <==> k in s.claims && s.claims[k] != Claim(w, n, instance))
      && (forall k | k in s'.claims :: s'.claims[k] == s.claims[k])
  }

  lemma ReleaseMeans(s: State, n: Id, instance: Id, w: Id)
    requires Inv(s)
    ensures ReleaseRight(s, n, instance, w, Apply(s, DoRelease(n, instance, w)))
    ensures Live(s, n, instance) <==> Release(s, n, instance, w).1 == Accepted
  {
    hide ReleaseRight, Release, Inv;
    ReleaseIsRight(s, n, instance, w);
  }

  lemma ReleaseIsRight(s: State, n: Id, instance: Id, w: Id)
    requires Inv(s)
    ensures ReleaseRight(s, n, instance, w, Release(s, n, instance, w).0)
    ensures Live(s, n, instance) <==> Release(s, n, instance, w).1 == Accepted
  {
    ReleaseFinds(s, n, instance, w);
    hide Release, ReleaseRight, Inv;
    if Live(s, n, instance) {
      ClaimsAreShown(s, n, instance, w);
      hide Live, Shows, Withdraw;
      if exists k :: Shows(s.nodes[n], k, w) {
        var k :| Shows(s.nodes[n], k, w) && Release(s, n, instance, w).0 == Withdraw(s, n, k);
        ShowsOne(s, n, k, w);
        WithdrawMeans(s, n, instance, k, w);
      } else {
        NothingToRelease(s, n, instance, w);
      }
    } else {
      RefusalIsRight(s, n, instance, w);
    }
  }

  lemma RefusalIsRight(s: State, n: Id, instance: Id, w: Id)
    requires !Live(s, n, instance)
    ensures ReleaseRight(s, n, instance, w, s)
  {
  }

  lemma ReleaseFinds(s: State, n: Id, instance: Id, w: Id)
    ensures var (s', reply) := Release(s, n, instance, w);
      && (reply == Accepted <==> Live(s, n, instance))
      && (if Live(s, n, instance) && exists k :: Shows(s.nodes[n], k, w)
          then exists k :: Shows(s.nodes[n], k, w) && s' == Withdraw(s, n, k)
          else s' == s)
  {
    hide Live, Shows;
    if Live(s, n, instance) { LiveIsKnown(s, n, instance); }
    if Live(s, n, instance) && exists k :: Shows(s.nodes[n], k, w) {
      var k :| Shows(s.nodes[n], k, w) && Release(s, n, instance, w).0 == Withdraw(s, n, k);
    }
  }

  lemma LiveIsKnown(s: State, n: Id, instance: Id)
    requires Live(s, n, instance)
    ensures n in s.nodes && s.nodes[n].instance == instance
  {
  }

  lemma NothingToRelease(s: State, n: Id, instance: Id, w: Id)
    requires Live(s, n, instance) && (forall k :: !Shows(s.nodes[n], k, w))
    requires forall k | k in s.claims && s.claims[k] == Claim(w, n, instance) :: Shows(s.nodes[n], k, w)
    ensures ReleaseRight(s, n, instance, w, s)
  {
    hide Shows;
  }

  /** A claim of the node on this id is one the node shows under the same identity. */
  lemma ClaimsAreShown(s: State, n: Id, instance: Id, w: Id)
    requires Inv(s)
    ensures forall k | k in s.claims && s.claims[k] == Claim(w, n, instance) :: n in s.nodes && Shows(s.nodes[n], k, w)
  {
    hide Directory, Routes, ObservationsClaimed, ObservationsCatalogued, UniqueWorkspaces, ClaimsEnabled, PendingOk;
    forall k | k in s.claims && s.claims[k] == Claim(w, n, instance) ensures n in s.nodes && Shows(s.nodes[n], k, w) {
      assert Backed(s.nodes, k, s.claims[k]);
    }
  }

  lemma ShowsOne(s: State, n: Id, k: Id, w: Id)
    requires Inv(s) && n in s.nodes && Shows(s.nodes[n], k, w)
    ensures forall j | Shows(s.nodes[n], j, w) :: j == k
    ensures k in s.claims && s.claims[k].node == n ==> s.claims[k].workspaceId == w && s.claims[k].instance == s.nodes[n].instance
  {
    hide Directory, Routes, ObservationsClaimed, ClaimsEnabled, PendingOk;
    forall j | Shows(s.nodes[n], j, w) ensures j == k {
      assert Sees(s.nodes, n, j) && Sees(s.nodes, n, k);
    }
    if k in s.claims && s.claims[k].node == n { assert Backed(s.nodes, k, s.claims[k]); }
  }

  lemma WithdrawMeans(s: State, n: Id, instance: Id, k: Id, w: Id)
    requires Live(s, n, instance) && Shows(s.nodes[n], k, w)
    requires forall j | Shows(s.nodes[n], j, w) :: j == k
    requires forall j | j in s.claims && s.claims[j] == Claim(w, n, instance) :: j == k
    requires k in s.claims && s.claims[k].node == n ==> s.claims[k].workspaceId == w && s.claims[k].instance == s.nodes[n].instance
    ensures ReleaseRight(s, n, instance, w, Withdraw(s, n, k))
  {
  }

  /** A workspace that was given up cannot be routed to, and another window may claim it. */
  lemma ReleasedIsUnroutable(s: State, n: Id, instance: Id, w: Id, owner: Id, task: Id, authorized: bool)
    requires Reachable(s) && Live(s, n, instance)
    ensures var s' := Apply(s, DoRelease(n, instance, w));
      && (forall k :: !Holds(s', k, RouteRequest(n, instance, w, owner, task)))
      && Acquire(s', RouteRequest(n, instance, w, owner, task), authorized).1
           == Refused(if authorized then WorkspaceNotFound else PeerRefused)
  {
    ReachableIsFine(s);
    ReleaseMeans(s, n, instance, w);
    hide Inv, Reachable, Apply;
    var s' := Apply(s, DoRelease(n, instance, w));
    assert Live(s', n, instance);
  }

  // ---------- Claiming a workspace ----------

  /** A claim with a store that works. */
  function Claiming(input: ClaimInput, freshId: Id): seq<Step> {
    [DoClaimBegin(input, freshId), DoStored(true), DoFinish]
  }

  function WantedId(catalog: map<Id, Entry>, input: ClaimInput, freshId: Id): Id {
    if input.identity in catalog then catalog[input.identity].workspaceId
    else if input.workspaceId.Some? then input.workspaceId.value else freshId
  }

  /** The node is live, and identity and id belong together; a new workspace needs a place and a new id. */
  predicate MayClaim(s: State, input: ClaimInput, freshId: Id) {
    && Live(s, input.node, input.instance)
    && if input.identity in s.catalog
       then input.workspaceId.None? || input.workspaceId.value == s.catalog[input.identity].workspaceId
       else |s.catalog| < MAX_WORKSPACES && !IdTakenElsewhere(s.catalog, input.identity, WantedId(s.catalog, input, freshId))
  }

  /** A disabled workspace is shown read-only, one another window holds in conflict; any other is taken. */
  function ClaimedAs(s: State, input: ClaimInput): ClaimStatus {
    if input.identity in s.catalog && !s.catalog[input.identity].enabled then ReadOnly
    else if HeldByOther(s, input.identity, input.node, input.instance) then InConflict
    else Claimed
  }

  ghost predicate ClaimRight(s: State, input: ClaimInput, freshId: Id, s': State) {
    if !MayClaim(s, input, freshId) then s' == s
    else
      var k, n, id := input.identity, input.node, WantedId(s.catalog, input, freshId);
      var status := ClaimedAs(s, input);
      && s'.exclusive.None?
      && s'.catalog == s.catalog[k := Entry(id, input.details, k in s.catalog ==> s.catalog[k].enabled)]
      && s'.nodes == s.nodes[n := s.nodes[n].(workspaces := s.nodes[n].workspaces[k := Observation(id, status)],
                                             history := s.nodes[n].history[k := id])]
      && s'.claims == (if status == Claimed then s.claims[k := Claim(id, n, input.instance)] else s.claims)
      && s'.bindings == s.bindings && s'.leases == s.leases && s'.closed == s.closed
  }

  /** With the registry idle and the store working a claim comes to exactly that. */
  lemma ClaimMeans(s: State, input: ClaimInput, freshId: Id)
    requires Reachable(s) && s.exclusive.None?
    ensures ClaimRight(s, input, freshId, Run(s, Claiming(input, freshId)))
  {
    ReachableIsFine(s);
    ThreeSteps(s, Claiming(input, freshId));
    CatalogFacts(s, input);
    hide Inv, Reachable, Run, Live, IdTakenElsewhere;
    if MayClaim(s, input, freshId) {
      ClaimRuns(s, input, freshId);
    } else {
      ClaimRefused(s, input, freshId);
    }
  }

  lemma ThreeSteps(s: State, steps: seq<Step>)
    requires |steps| == 3
    ensures Run(s, steps) == Apply(Apply(Apply(s, steps[0]), steps[1]), steps[2])
  {
    hide Apply;
    assert steps[1..][1..] == steps[2..] && steps[2..][1..] == [];
    var s1 := Apply(s, steps[0]);
    var s2 := Apply(s1, steps[1]);
    assert Run(s2, steps[2..]) == Run(Apply(s2, steps[2]), []);
    assert Run(s1, steps[1..]) == Run(s2, steps[2..]);
  }

  /** The catalog names each id once, and what a node shows is what the catalog says. */
  lemma CatalogFacts(s: State, input: ClaimInput)
    requires Inv(s)
    ensures input.identity in s.catalog ==> !IdTakenElsewhere(s.catalog, input.identity, s.catalog[input.identity].workspaceId)
    ensures input.identity in s.catalog && input.workspaceId.Some? && IdTakenElsewhere(s.catalog, input.identity, input.workspaceId.value)
      ==> input.workspaceId.value != s.catalog[input.identity].workspaceId
    ensures input.node in s.nodes && input.identity in s.nodes[input.node].workspaces ==>
      Uses(s.catalog, input.identity, s.nodes[input.node].workspaces[input.identity].workspaceId)
  {
    hide Directory, Routes, ClaimsBacked, ObservationsClaimed, ClaimsEnabled, PendingOk;
    if input.node in s.nodes && input.identity in s.nodes[input.node].workspaces {
      assert Sees(s.nodes, input.node, input.identity);
    }
  }

  lemma ClaimRefused(s: State, input: ClaimInput, freshId: Id)
    requires s.exclusive.None? && !MayClaim(s, input, freshId)
    ensures Apply(Apply(Apply(s, DoClaimBegin(input, freshId)), DoStored(true)), DoFinish) == s
  {
    hide Live, IdTakenElsewhere;
    assert ClaimBegin(s, input, freshId).0 == s;
  }

  lemma ClaimRuns(s: State, input: ClaimInput, freshId: Id)
    requires s.exclusive.None? && MayClaim(s, input, freshId)
    requires input.identity in s.catalog && input.workspaceId.Some? && IdTakenElsewhere(s.catalog, input.identity, input.workspaceId.value)
      ==> input.workspaceId.value != s.catalog[input.identity].workspaceId
    requires input.identity in s.nodes[input.node].workspaces ==>
      Uses(s.catalog, input.identity, s.nodes[input.node].workspaces[input.identity].workspaceId)
    ensures ClaimRight(s, input, freshId, Apply(Apply(Apply(s, DoClaimBegin(input, freshId)), DoStored(true)), DoFinish))
  {
    var k, serial, id := input.identity, s.nodes[input.node].serial, WantedId(s.catalog, input, freshId);
    var entry := Entry(id, input.details, k in s.catalog ==> s.catalog[k].enabled);
    var s2 := s.(catalog := s.catalog[k := entry], exclusive := Some(ClaimFinishing(input, serial, entry)));
    ClaimStores(s, input, freshId, entry);
    assert Live(s2, input.node, input.instance);
    FinishIs(s2, input, serial, entry);
    hide Live, IdTakenElsewhere, Apply;
  }

  lemma ClaimStores(s: State, input: ClaimInput, freshId: Id, entry: Entry)
    requires s.exclusive.None? && MayClaim(s, input, freshId)
    requires input.identity in s.catalog && input.workspaceId.Some? && IdTakenElsewhere(s.catalog, input.identity, input.workspaceId.value)
      ==> input.workspaceId.value != s.catalog[input.identity].workspaceId
    requires var k := input.identity;
      entry == Entry(WantedId(s.catalog, input, freshId), input.details, k in s.catalog ==> s.catalog[k].enabled)
    ensures Apply(Apply(s, DoClaimBegin(input, freshId)), DoStored(true)) ==
      s.(catalog := s.catalog[input.identity := entry],
         exclusive := Some(ClaimFinishing(input, s.nodes[input.node].serial, entry)))
  {
    hide Live, IdTakenElsewhere;
    if input.identity in s.catalog && s.catalog[input.identity].details == input.details {
      assert s.catalog[input.identity := entry] == s.catalog;
    }
  }

  lemma FinishIs(s: State, input: ClaimInput, serial: nat, entry: Entry)
    requires s.exclusive == Some(ClaimFinishing(input, serial, entry))
    ensures Apply(s, DoFinish) == ClaimFinish(s, input, serial, entry).0
  {
    hide ClaimFinish;
  }

  /** What one window has given up another one that is live may claim, if the workspace is enabled. */
  lemma ReleasedMayBeClaimed(s: State, n: Id, instance: Id, k: Id, w: Id, m: Id, other: Id, details: Id, freshId: Id)
    requires Reachable(s) && s.exclusive.None? && Live(s, n, instance) && k in s.claims && s.claims[k] == Claim(w, n, instance)
    requires m != n && Live(s, m, other)
    ensures var s' := Apply(s, DoRelease(n, instance, w));
      var s'' := Run(s', Claiming(ClaimInput(m, other, k, Some(w), details), freshId));
      && k !in s'.claims && k in s''.claims && s''.claims[k] == Claim(w, m, other)
  {
    var s' := Apply(s, DoRelease(n, instance, w));
    var input := ClaimInput(m, other, k, Some(w), details);
    ReachableIsFine(s);
    ClaimedIsEnabled(s, k);
    ReleaseMeans(s, n, instance, w);
    StepIsReachable(s, DoRelease(n, instance, w));
    hide Inv, Reachable, Apply, Run, IdTakenElsewhere;
    OthersStayLive(s, n, instance, w, s', m, other);
    assert k !in s'.claims && s'.catalog == s.catalog && s'.exclusive == s.exclusive;
    hide ReleaseRight, Live;
    ClaimMeans(s', input, freshId);
    TakesIt(s', input, freshId, Run(s', Claiming(input, freshId)));
  }

  lemma OthersStayLive(s: State, n: Id, instance: Id, w: Id, s': State, m: Id, other: Id)
    requires Live(s, n, instance) && ReleaseRight(s, n, instance, w, s') && m != n && Live(s, m, other)
    ensures Live(s', m, other)
  {
  }

  lemma TakesIt(s: State, input: ClaimInput, freshId: Id, s': State)
    requires ClaimRight(s, input, freshId, s') && MayClaim(s, input, freshId) && input.identity !in s.claims
    requires input.identity in s.catalog && s.catalog[input.identity].enabled
    ensures input.identity in s'.claims
    ensures s'.claims[input.identity] == Claim(s.catalog[input.identity].workspaceId, input.node, input.instance)
  {
    hide MayClaim;
  }

  lemma StepIsReachable(s: State, step: Step)
    requires Reachable(s)
    ensures Reachable(Apply(s, step))
  {
    var catalog, steps :| ReachedBy(catalog, steps, s);
    hide Apply;
    RunSnoc(Loaded(catalog), steps, step);
    assert ReachedBy(catalog, steps + [step], Apply(s, step));
  }

  lemma {:induction false} RunSnoc(s: State, steps: seq<Step>, step: Step)
    ensures Run(s, steps + [step]) == Apply(Run(s, steps), step)
    decreases |steps|
  {
    hide Apply;
    if steps == [] {
      assert steps + [step] == [step] && [step][1..] == [];
      assert Run(Apply(s, step), []) == Apply(s, step);
    } else {
      RunSnoc(Apply(s, steps[0]), steps[1..], step);
      assert (steps + [step])[1..] == steps[1..] + [step];
    }
  }

  // ---------- Switching a workspace ----------

  function Switching(w: Id, enabled: bool): seq<Step> {
    [DoSwitchBegin(w, enabled), DoStored(true), DoFinish]
  }

  /**
   A workspace of the catalog can always be enabled, and disabled exactly while nobody leases it; disabled it loses its
   claim, and every node that shows it shows it read-only.
   */
  ghost predicate SwitchRight(s: State, k: Id, enabled: bool, s': State)
    requires k in s.catalog
  {
    if !enabled && k in s.leases then s' == s
    else
      && s'.catalog == s.catalog[k := s.catalog[k].(enabled := enabled)] && s'.exclusive.None?
      && s'.nodes.Keys == s.nodes.Keys && s'.bindings == s.bindings && s'.leases == s.leases
      && (if enabled then s'.claims == s.claims && s'.nodes == s.nodes
          else
            && s'.claims == s.claims - {k}
            && forall n | n in s.nodes ::
                 s'.nodes[n] == if k !in s.nodes[n].workspaces then s.nodes[n]
                                else s.nodes[n].(workspaces := s.nodes[n].workspaces[k := s.nodes[n].workspaces[k].(status := ReadOnly)]))
  }

  lemma SwitchMeans(s: State, k: Id, enabled: bool)
    requires Reachable(s) && s.exclusive.None? && k in s.catalog
    ensures SwitchRight(s, k, enabled, Run(s, Switching(s.catalog[k].workspaceId, enabled)))
  {
    var w := s.catalog[k].workspaceId;
    ReachableIsFine(s);
    ThreeSteps(s, Switching(w, enabled));
    FoundIdentity(s, k);
    hide Inv, Reachable, Run;
    SwitchRuns(s, k, enabled);
  }

  lemma FoundIdentity(s: State, k: Id)
    requires Inv(s) && k in s.catalog
    ensures IdentityOf(s.catalog, s.catalog[k].workspaceId) == Some(k)
  {
    hide Directory, Routes, ClaimsBacked, ObservationsClaimed, ObservationsCatalogued, ClaimsEnabled, PendingOk;
    assert Uses(s.catalog, k, s.catalog[k].workspaceId);
  }

  lemma SwitchRuns(s: State, k: Id, enabled: bool)
    requires s.exclusive.None? && k in s.catalog && IdentityOf(s.catalog, s.catalog[k].workspaceId) == Some(k)
    ensures SwitchRight(s, k, enabled,
              Apply(Apply(Apply(s, DoSwitchBegin(s.catalog[k].workspaceId, enabled)), DoStored(true)), DoFinish))
  {
    hide IdentityOf;
    var w := s.catalog[k].workspaceId;
    var s1 := Apply(s, DoSwitchBegin(w, enabled));
    if !enabled && k in s.leases {
      assert s1 == s;
    } else {
      assert s1 == s.(exclusive := Some(SwitchWriting(k, enabled)));
      var s2 := Apply(s1, DoStored(true));
      assert s2 == s.(catalog := s.catalog[k := s.catalog[k].(enabled := enabled)], exclusive := Some(SwitchFinishing(k, enabled)));
      assert Apply(s2, DoFinish) == SwitchFinish(s2, k, enabled);
      hide Apply;
    }
  }

  // ---------- Staying and coming back ----------

  /** A live node that beats is fresh from then on. */
  ghost predicate HeartbeatRight(s: State, n: Id, instance: Id, at: int, status: Status, now: int, s': State) {
    if status == Offline || !Live(s, n, instance) || at < s.nodes[n].heartbeatAt then s' == s
    else
      && OnlyNode(s, s', n) && s'.claims == s.claims && Live(s', n, instance)
      && s'.nodes[n] == s.nodes[n].(status := status, heartbeatAt := at, seenAt := now)
  }

  lemma HeartbeatMeans(s: State, n: Id, instance: Id, at: int, status: Status, now: int)
    ensures HeartbeatRight(s, n, instance, at, status, now, Apply(s, DoHeartbeat(n, instance, at, status, now)))
  {
  }

  /** A node that has beaten since the cutoff survives the sweep, unless it shares its session with one that has not. */
  lemma BeatingSurvives(s: State, n: Id, instance: Id, at: int, status: Status, now: int, later: int, cutoff: int)
    requires status != Offline && Live(s, n, instance) && at >= s.nodes[n].heartbeatAt && cutoff < now
    requires forall m | m in s.nodes && m != n && Expired(s.nodes[m], cutoff) :: s.nodes[m].session != s.nodes[n].session
    ensures var s' := Apply(Apply(s, DoHeartbeat(n, instance, at, status, now)), DoSweep(later, cutoff));
      n in s'.nodes && s'.nodes[n].status == status
  {
    HeartbeatMeans(s, n, instance, at, status, now);
    var beaten := Apply(s, DoHeartbeat(n, instance, at, status, now));
    SweepLosesExactly(beaten, later, cutoff, n);
    SweepKeepsStatus(beaten, later, cutoff, n);
    hide Apply;
  }

  lemma SweepKeepsStatus(s: State, now: int, cutoff: int, n: Id)
    requires n in s.nodes
    ensures var s' := Apply(s, DoSweep(now, cutoff));
      n in s'.nodes && s'.nodes[n].status != Offline ==> s'.nodes[n].status == s.nodes[n].status
  {
    hide HasBindings;
  }

  /** A node that went offline may come back as the same window under an open session. */
  lemma OfflineMayComeBack(s: State, input: RegisterInput, now: int)
    requires Reachable(s) && Exact(s, input.node, input.instance) && s.nodes[input.node].status == Offline
    requires input.status != Offline && input.session !in s.closed && SameMetadata(s.nodes[input.node], input)
    ensures var s' := Apply(s, DoRegister(input, now));
      && Register(s, input, now).1 == Accepted && OnlyNode(s, s', input.node) && s'.claims == s.claims
      && Live(s', input.node, input.instance)
      && s'.nodes[input.node] == s.nodes[input.node].(status := input.status, heartbeatAt := now, seenAt := now,
                                                      offlineAt := None, session := Some(input.session))
  {
    ReachableIsFine(s);
    OfflineHasNoSession(s, input);
    hide Inv, Reachable;
  }

  lemma OfflineHasNoSession(s: State, input: RegisterInput)
    requires Inv(s) && Exact(s, input.node, input.instance)
    ensures s.nodes[input.node].status == Offline ==> s.nodes[input.node].session.None?
    ensures !InstanceTaken(s, input.node, input.instance)
  {
    hide Claims, Routes;
    assert NodeOk(s.nodes[input.node], s.closed);
  }

  // ---------- Losing nodes ----------

  /** Exactly these nodes go offline, with the claims they show, and remember what they showed. */
  ghost predicate LosesExactly(s: State, lost: set<Id>, s': State) {
    && s'.nodes.Keys == s.nodes.Keys
    && (forall n | n in s.nodes && n !in lost :: s'.nodes[n] == s.nodes[n])
    && (forall n | n in s.nodes && n in lost ::
          && s'.nodes[n].status == Offline && s'.nodes[n].session.None? && s'.nodes[n].offlineAt.Some?
          && s'.nodes[n].workspaces == map[] && s'.nodes[n].history == s.nodes[n].history
          && s'.nodes[n].instance == s.nodes[n].instance)
    && (forall k :: k in s'.claims <==> k in s.claims && s.claims[k].node !in lost)
    && (forall k | k in s'.claims :: s'.claims[k] == s.claims[k])
    && s'.bindings == s.bindings && s'.leases == s.leases && s'.catalog == s.catalog
  }

  lemma LoseMeans(s: State, lost: set<Id>, now: int)
    requires Inv(s)
    ensures LosesExactly(s, lost, LoseAll(s, lost, now))
  {
    hide Directory, Routes, ObservationsClaimed, ObservationsCatalogued, UniqueWorkspaces, ClaimsEnabled, PendingOk;
    forall k | k in s.claims ensures Forfeited(s, k, lost) <==> s.claims[k].node in lost {
      assert Backed(s.nodes, k, s.claims[k]);
    }
  }

  /** A closed session takes every node attached to it, and no other. */
  lemma CloseMeans(s: State, session: Id, now: int)
    requires Inv(s)
    ensures var s' := Apply(s, DoClose(session, now));
      && LosesExactly(s, (set n | n in s.nodes && s.nodes[n].status != Offline && s.nodes[n].session == Some(session)), s')
      && s'.closed == s.closed + {session}
  {
    var lost := set n | n in s.nodes && s.nodes[n].status != Offline && s.nodes[n].session == Some(session);
    assert Attached(s, {session}) == lost;
    hide Attached;
    LoseMeans(s, lost, now);
    hide Inv, LoseAll;
    LosesWithSessions(s, lost, now, {session});
    hide LosesExactly;
  }

  /** The nodes that go with a node when its session is closed. */
  function SessionMates(s: State, n: Id, closeSession: bool): set<Id>
    requires n in s.nodes
  {
    if closeSession && Open(s, s.nodes[n])
    then set m | m in s.nodes && s.nodes[m].status != Offline && s.nodes[m].session == s.nodes[n].session
    else {}
  }

  /** A window that says goodbye is lost, and with its session, if that closes, its other nodes. */
  lemma UnregisterMeans(s: State, n: Id, instance: Id, closeSession: bool, now: int)
    requires Inv(s)
    ensures var s' := Apply(s, DoUnregister(n, instance, closeSession, now));
      if !Exact(s, n, instance) || s.nodes[n].status == Offline then s' == s
      else LosesExactly(s, {n} + SessionMates(s, n, closeSession), s')
  {
    hide Inv, Drop, LosesExactly, SessionMates;
    if Exact(s, n, instance) && s.nodes[n].status != Offline {
      DropMeans(s, n, closeSession, now);
    }
  }

  lemma DropMeans(s: State, n: Id, closeSession: bool, now: int)
    requires Inv(s) && n in s.nodes
    ensures LosesExactly(s, {n} + SessionMates(s, n, closeSession), Drop(s, {n}, closeSession, now))
  {
    hide Inv, LoseAll, SessionMates, Attached, OpenSessions, LosesExactly;
    MatesAreAttached(s, n, closeSession);
    LoseMeans(s, {n} + SessionMates(s, n, closeSession), now);
    LosesWithSessions(s, {n} + SessionMates(s, n, closeSession), now, if closeSession then OpenSessions(s, {n}) else {});
  }

  lemma LosesWithSessions(s: State, lost: set<Id>, now: int, sessions: set<Id>)
    requires LosesExactly(s, lost, LoseAll(s, lost, now))
    ensures LosesExactly(s, lost, LoseAll(s, lost, now).(closed := s.closed + sessions))
  {
    hide LoseAll;
  }

  lemma MatesAreAttached(s: State, n: Id, closeSession: bool)
    requires n in s.nodes
    ensures Attached(s, if closeSession then OpenSessions(s, {n}) else {}) == SessionMates(s, n, closeSession)
  {
  }

  /** A new window under the id of an old one replaces it, unless tasks are still bound to the old one. */
  lemma ReplacementMeans(s: State, input: RegisterInput, now: int)
    requires Reachable(s) && input.node in s.nodes && s.nodes[input.node].instance != input.instance
    requires input.status != Offline && input.session !in s.closed && !InstanceTaken(s, input.node, input.instance)
    ensures var s' := Apply(s, DoRegister(input, now));
      var before := s.nodes[input.node];
      if HasBindings(s.bindings, input.node, before.instance)
      then Register(s, input, now).1 == Refused(AgentUnavailable) && input.node in s'.nodes
        && s'.nodes[input.node].instance == before.instance && s'.nodes[input.node].status == Offline
      else
        && Register(s, input, now).1 == Accepted && input.node in s'.nodes
        && s'.nodes[input.node] == Node(s.nextSerial, input.instance, input.metadata, input.startedAt, input.status, now, now,
                                        None, Some(input.session), map[], map[])
        && forall k | k in s'.claims :: s'.claims[k].node != input.node
  {
    ReachableIsFine(s);
    DropClaimsNothing(s, input.node, now);
    hide Inv, Reachable, InstanceTaken, HasBindings, Evict;
  }

  lemma DropClaimsNothing(s: State, n: Id, now: int)
    requires Inv(s) && n in s.nodes
    ensures var s' := Drop(s, {n}, true, now);
      && (forall k | k in s'.claims :: s'.claims[k].node != n) && s'.nextSerial == s.nextSerial
      && n in s'.nodes && s'.nodes[n].status == Offline && s'.nodes[n].instance == s.nodes[n].instance
  {
    LoseMeans(s, {n} + Attached(s, OpenSessions(s, {n})), now);
    hide Inv;
  }

  /** The steps whose effect is settled at once. */
  ghost predicate StepRight(s: State, step: Step, s': State) {
    match step
    case DoRelease(n, instance, w) => ReleaseRight(s, n, instance, w, s')
    case DoHeartbeat(n, instance, at, status, now) => HeartbeatRight(s, n, instance, at, status, now, s')
    case DoUnregister(n, instance, closeSession, _) =>
      if !Exact(s, n, instance) || s.nodes[n].status == Offline then s' == s
      else LosesExactly(s, {n} + SessionMates(s, n, closeSession), s')
    case DoClose(session, _) =>
      LosesExactly(s, (set n | n in s.nodes && s.nodes[n].status != Offline && s.nodes[n].session == Some(session)), s')
      && s'.closed == s.closed + {session}
    case _ => true
  }

  lemma StepMeans(s: State, step: Step)
    requires Inv(s)
    ensures StepRight(s, step, Apply(s, step))
  {
    hide Inv, Apply, ReleaseRight, HeartbeatRight, LosesExactly, SessionMates;
    match step
    case DoRelease(n, instance, w) => ReleaseMeans(s, n, instance, w);
    case DoHeartbeat(n, instance, at, status, now) => HeartbeatMeans(s, n, instance, at, status, now);
    case DoUnregister(n, instance, closeSession, now) => UnregisterMeans(s, n, instance, closeSession, now);
    case DoClose(session, now) => CloseMeans(s, session, now);
    case _ =>
  }

  // ---------- Tombstones ----------

  /** The sweep also forgets exactly the offline nodes past their retention that no task is bound to. */
  lemma SweepForgetsExactly(s: State, now: int, cutoff: int, n: Id)
    requires n in s.nodes && s.nodes[n].status == Offline
    ensures var s' := Apply(s, DoSweep(now, cutoff));
      && (n in s'.nodes <==> !(s.nodes[n].offlineAt.Some? && s.nodes[n].offlineAt.value <= cutoff)
                             || HasBindings(s.bindings, n, s.nodes[n].instance)
                             || Expired(s.nodes[n], cutoff))
  {
    hide HasBindings;
    var lost := ExpiredNodes(s, cutoff);
    assert n !in lost && n !in Attached(s, OpenSessions(s, lost));
  }

  /** A release of a route does so as well, now that its task is bound no more. */
  lemma ReleaseForgetsExactly(s: State, owner: Id, task: Id, cutoff: int, n: Id)
    requires OwnsRoute(s, owner, task) && n in s.nodes
    ensures var s' := Apply(s, DoReleaseRoute(owner, task, cutoff));
      && (n in s'.nodes <==> !(s.nodes[n].status == Offline && s.nodes[n].offlineAt.Some? && s.nodes[n].offlineAt.value <= cutoff)
                             || HasBindings(s.bindings - {task}, n, s.nodes[n].instance))
      && (n in s'.nodes ==> s'.nodes[n] == s.nodes[n])
  {
    hide HasBindings;
  }

  /** Tombstones without bindings have been deleted, older ones first, and as many as asked for and there were. */
  ghost predicate EvictedOldest(s: State, slots: nat, s': State) {
    && s' == s.(nodes := s'.nodes) && s'.nodes.Keys <= s.nodes.Keys
    && (forall n | n in s'.nodes :: s'.nodes[n] == s.nodes[n])
    && (forall n | n in s.nodes && n !in s'.nodes :: Evictable(s, n))
    && (forall n, m | n in s.nodes && n !in s'.nodes && m in s'.nodes && Evictable(s, m) :: Before(s, n, m))
    && |s.nodes| - slots <= |s'.nodes| <= |s.nodes|
    && (|s'.nodes| > |s.nodes| - slots ==> forall m | m in s'.nodes :: !Evictable(s, m))
  }

  lemma {:induction false} EvictTakesOldest(s: State, slots: nat)
    ensures EvictedOldest(s, slots, Evict(s, slots))
    decreases slots
  {
    hide EvictedOldest, Oldest, OldestOf;
    if slots == 0 {
      NothingEvicted(s, 0);
    } else if exists n :: Oldest(s, n) {
      var n := OldestOf(s);
      EvictTakesOldest(s.(nodes := s.nodes - {n}), slots - 1);
      OneMoreEvicted(s, n, slots, Evict(s, slots));
    } else {
      SomeIsOldest(s);
      NothingEvicted(s, slots);
    }
  }

  lemma NothingEvicted(s: State, slots: nat)
    requires slots == 0 || forall m | m in s.nodes :: !Evictable(s, m)
    ensures EvictedOldest(s, slots, s)
  {
    hide HasBindings, Before;
  }

  lemma OneMoreEvicted(s: State, n: Id, slots: nat, s': State)
    requires slots > 0 && Oldest(s, n) && EvictedOldest(s.(nodes := s.nodes - {n}), slots - 1, s')
    ensures EvictedOldest(s, slots, s')
  {
    hide HasBindings, Before;
    var s1 := s.(nodes := s.nodes - {n});
    FewerNodes(s.nodes, n);
    forall m | m in s1.nodes ensures Evictable(s1, m) <==> Evictable(s, m) { }
    forall a, b | a in s1.nodes && b in s1.nodes ensures Before(s1, a, b) <==> Before(s, a, b) { SameAge(s, s1, a, b); }
  }

  lemma FewerNodes(nodes: map<Id, Node>, n: Id)
    requires n in nodes
    ensures |nodes - {n}| == |nodes| - 1
  {
    assert (nodes - {n}).Keys == nodes.Keys - {n};
    assert |(nodes - {n}).Keys| == |nodes.Keys| - 1;
    assert |nodes - {n}| == |(nodes - {n}).Keys| && |nodes| == |nodes.Keys|;
  }

  lemma SameAge(s: State, s1: State, a: Id, b: Id)
    requires a in s.nodes && b in s.nodes && a in s1.nodes && b in s1.nodes
    requires s1.nodes[a] == s.nodes[a] && s1.nodes[b] == s.nodes[b]
    ensures Before(s1, a, b) <==> Before(s, a, b)
  {
  }

  /** Among evictable tombstones one is the oldest. */
  lemma SomeIsOldest(s: State)
    requires !(exists n :: Oldest(s, n))
    ensures forall m | m in s.nodes :: !Evictable(s, m)
  {
    var some := set m | m in s.nodes && Evictable(s, m);
    if some != {} {
      var n := OldestOfSome(s, some);
      assert Oldest(s, n) by { hide Before, HasBindings; }
    } else {
      forall m | m in s.nodes ensures !Evictable(s, m) {
        assert m !in some;
      }
    }
  }

  // ---------- Refused routes ----------

  /** Why a route is refused, in the order in which it is checked. */
  lemma RefusalMeans(s: State, r: RouteRequest, authorized: bool)
    requires Reachable(s) && s.exclusive.None?
    ensures var reply := Acquire(s, r, authorized).1; var held := exists k :: Holds(s, k, r);
      && (reply == Refused(PeerRefused) <==> !authorized)
      && (reply == Refused(AgentUnavailable) <==> authorized && !Live(s, r.node, r.instance))
      && (reply == Refused(WorkspaceNotFound) <==> authorized && Live(s, r.node, r.instance) && !held)
      && (authorized && Live(s, r.node, r.instance) ==> forall k | Holds(s, k, r) ::
            && (reply == Refused(TaskIdConflict) <==> r.task in s.bindings && !SameBinding(s.bindings[r.task], r, k))
            && (reply == Refused(WorkspaceBusy) <==> r.task !in s.bindings && k in s.leases))
  {
    ReachableIsFine(s);
    hide Inv, Reachable, Live, Enabled;
    if authorized && Live(s, r.node, r.instance) && exists k :: Holds(s, k, r) {
      var k :| Holds(s, k, r);
      forall j | Holds(s, j, r) ensures j == k {
        ClaimsShareNoId(s, j, k);
      }
      ClaimIsUsable(s, k, r);
      LeaseFollowsBinding(s, k, r);
      hide Holds, SameBinding, Acquire;
      ReplyAt(s, r, authorized, k);
    }
  }

  /** The one claim that matches decides the reply. */
  lemma ReplyAt(s: State, r: RouteRequest, authorized: bool, k: Id)
    requires authorized && Live(s, r.node, r.instance)
    requires Holds(s, k, r) && forall j | Holds(s, j, r) :: j == k
    ensures var refusal := RouteRefusal(s, r, k);
      Acquire(s, r, authorized).1 == if refusal.Some? then Refused(refusal.value) else Accepted
  {
    hide RouteRefusal, Holds, Live;
  }
}
