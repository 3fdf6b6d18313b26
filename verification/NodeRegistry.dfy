/**
 The registry object: the fields of `NodeRegistry` in src/broker/NodeRegistry.ts, updated in place by the
 source's loops.  Each method is proved to have exactly the effect of a step of module Registry; `Perform` takes any
 step of a run and keeps the promises of the registry.  Where the
 source iterates over a Map, the loops below visit the keys in any order: the result is the same.
 */
module NodeRegistries {
  import opened Wrappers
  import opened Registry
  import opened RegistrySafety
  import RegistryTheorems
  import RegistryOutcomes

  class NodeRegistry {
    var nodes: map<Id, Node>
    var claims: map<Id, Claim>
    var bindings: map<Id, Binding>
    var leases: map<Id, Owner>
    var catalog: map<Id, Entry>
    var closed: set<Id>
    var exclusive: Option<Pending>
    var nextSerial: nat

    function View(): State
      reads this
    {
      State(nodes, claims, bindings, leases, catalog, closed, exclusive, nextSerial)
    }

    ghost predicate Valid()
      reads this
    {
      Inv(View())
    }

    /** The catalog is as its schema demands. */
    constructor (catalog: map<Id, Entry>)
      requires RegistryTheorems.ValidCatalog(catalog)
      ensures Valid() && View() == EMPTY.(catalog := catalog)
    {
      nodes, claims, bindings, leases := map[], map[], map[], map[];
      this.catalog, closed, exclusive, nextSerial := catalog, {}, None, 0;
    }

    /**
     Whatever happens next: claims are exactly what nodes show as claimed, every binding owns the lease of its
     workspace alone, and only its own release takes a route away.  What a step is for happens as well (`StepRight`).
     */
    method Perform(step: Step)
      requires Valid()
      modifies this
      ensures Valid() && View() == Apply(old(View()), step)
      ensures RegistryOutcomes.StepRight(old(View()), step, View())
      ensures |nodes| <= MAX_NODES
      ensures ClaimsBacked(nodes, claims) && ObservationsClaimed(nodes, claims)
      ensures forall t | t in bindings ::
        bindings[t].leaseKey in leases && leases[bindings[t].leaseKey] == Owner(bindings[t].owner, t)
      ensures forall t, u | t in bindings && u in bindings && bindings[t].leaseKey == bindings[u].leaseKey :: t == u
      ensures forall t | t in old(bindings) && !RegistryTheorems.Frees(step, t, old(bindings)[t]) ::
        t in bindings && bindings[t] == old(bindings)[t]
    {
      ghost var before := View();
      forall t | t in bindings && !RegistryTheorems.Frees(step, t, bindings[t])
        ensures t in Apply(before, step).bindings && Apply(before, step).bindings[t] == before.bindings[t]
      {
        RegistryTheorems.BindingIsKept(before, step, t);
      }
      Take(step);
      assert Valid() by { ApplyKeeps(before, step); }
      assert RegistryOutcomes.StepRight(before, step, View()) by { RegistryOutcomes.StepMeans(before, step); }
      hide Apply;
      RoutesFacts(View());
      hide Inv, ClaimsBacked, ObservationsClaimed, RegistryOutcomes.StepRight;
    }

    method Take(step: Step)
      requires Valid()
      modifies this
      ensures View() == Apply(old(View()), step)
    {
      hide Inv, Register, Heartbeat, Unregister, Sweep, Close, ClaimBegin, SwitchBegin, Registry.Stored, Registry.Finish,
        Release, Acquire, ReleaseRoute, UniqueWorkspaces;
      if exclusive.None? {
        CatalogIsUnique(View());
      }
      match step {
        case DoRegister(input, now) => var _ := RegisterNode(input, now);
        case DoHeartbeat(n, instance, at, status, now) => var _ := ReceiveHeartbeat(n, instance, at, status, now);
        case DoUnregister(n, instance, closeSession, now) => var _ := UnregisterNode(n, instance, closeSession, now);
        case DoSweep(now, cutoff) => SweepExpired(now, cutoff);
        case DoClose(session, now) => CloseSession(session, now);
        case DoClaimBegin(input, freshId) =>
          if exclusive.None? { var _ := BeginClaim(input, freshId); }
        case DoSwitchBegin(w, enabled) =>
          if exclusive.None? { var _ := BeginSwitch(w, enabled); }
        case DoStored(ok) => var _ := OnStored(ok);
        case DoFinish => var _ := FinishPending();
        case DoRelease(n, instance, w) => var _ := ReleaseWorkspace(n, instance, w);
        case DoAcquire(r, authorized) =>
          if exclusive.None? { var _ := AcquireTaskRoute(r, authorized); }
        case DoReleaseRoute(owner, task, cutoff) => var _ := ReleaseTaskRoute(owner, task, cutoff);
      }
    }

    // ---------- Losing nodes ----------

    method DeleteClaims(n: Id, instance: Id, shown: set<Id>)
      modifies this`claims
      ensures claims == map k | k in old(claims) && !(k in shown && old(claims)[k].node == n
                                                      && old(claims)[k].instance == instance) :: old(claims)[k]
    {
      var todo := shown;
      while todo != {}
        invariant todo <= shown
        invariant claims == map k | k in old(claims) && !(k in shown - todo && old(claims)[k].node == n
                                                          && old(claims)[k].instance == instance) :: old(claims)[k]
        decreases todo
      {
        var k :| k in todo;
        if k in claims && claims[k].node == n && claims[k].instance == instance {
          claims := claims - {k};
        }
        todo := todo - {k};
      }
    }

    /** The part of `loseNode` before the session is closed. */
    method LoseRecord(n: Id, now: int)
      requires n in nodes
      modifies this`nodes, this`claims
      ensures View() == LoseAll(old(View()), {n}, now)
    {
      var node := nodes[n];
      nodes := nodes[n := Lost(node, now)];
      DeleteClaims(n, node.instance, node.workspaces.Keys);
    }

    /** Every node that listens for this session to close is lost. */
    method CloseSession(session: Id, now: int)
      modifies this`nodes, this`claims, this`closed
      ensures View() == Close(old(View()), {session}, now)
    {
      ghost var before := View();
      var todo := set n | n in nodes && nodes[n].status != Offline
                          && nodes[n].session.Some? && nodes[n].session.value == session;
      ghost var all := todo;
      assert all == Attached(before, {session});
      LoseNone(before, now);
      closed := closed + {session};
      while todo != {}
        invariant todo <= all && all <= before.nodes.Keys
        invariant View() == LoseAll(before, all - todo, now).(closed := before.closed + {session})
        decreases todo
      {
        var n :| n in todo;
        LoseOneMore(before, all - todo, {n}, now);
        ClosedCommutes(LoseAll(before, all - todo, now), {n}, before.closed + {session}, now);
        LoseRecord(n, now);
        assert all - todo + {n} == all - (todo - {n});
        todo := todo - {n};
      }
      assert all - todo == all;
    }

    method LoseNode(n: Id, closeSession: bool, now: int)
      requires n in nodes
      modifies this`nodes, this`claims, this`closed
      ensures View() == Drop(old(View()), {n}, closeSession, now)
    {
      var session := nodes[n].session;
      DropOne(View(), n, closeSession, now);
      LoseRecord(n, now);
      if closeSession && session.Some? && session.value !in closed {
        CloseSession(session.value, now);
      }
    }

    method PruneOfflineTombstones(cutoff: int)
      modifies this`nodes
      ensures View() == Prune(old(View()), cutoff)
    {
      ghost var before := View();
      var todo := nodes.Keys;
      while todo != {}
        invariant todo <= before.nodes.Keys
        invariant nodes == map n | n in before.nodes && (n in todo || !Prunable(before, n, cutoff)) :: before.nodes[n]
        decreases todo
      {
        var n :| n in todo;
        var node := nodes[n];
        if node.status == Offline && node.offlineAt.Some? && node.offlineAt.value <= cutoff {
          var bound := HasTaskBindings(n, node.instance);
          if !bound {
            nodes := nodes - {n};
          }
        }
        todo := todo - {n};
      }
    }

    method HasTaskBindings(n: Id, instance: Id) returns (bound: bool)
      ensures bound == HasBindings(bindings, n, instance)
    {
      var todo := bindings.Keys;
      while todo != {}
        invariant todo <= bindings.Keys
        invariant forall t | t in bindings && t !in todo :: !(bindings[t].node == n && bindings[t].instance == instance)
        decreases todo
      {
        var t :| t in todo;
        if bindings[t].node == n && bindings[t].instance == instance {
          return true;
        }
        todo := todo - {t};
      }
      return false;
    }

    method SweepExpired(now: int, cutoff: int)
      modifies this`nodes, this`claims, this`closed
      ensures View() == Sweep(old(View()), now, cutoff)
    {
      hide Drop, Prune, Attached, OpenSessions;
      ghost var before := View();
      ghost var done: set<Id> := {};
      var todo := nodes.Keys;
      DropNone(before, now);
      while todo != {}
        invariant todo <= before.nodes.Keys && todo <= nodes.Keys
        invariant done == set n | n in before.nodes && n !in todo && Expired(before.nodes[n], cutoff)
        invariant View() == Drop(before, done, true, now)
        decreases todo
      {
        var n :| n in todo;
        DropSeen(before, done, now, n);
        DropKeys(before, done, now);
        if nodes[n].status != Offline && nodes[n].seenAt <= cutoff {
          DropOneMore(before, done, n, now);
          LoseNode(n, true, now);
          DropKeys(before, done + {n}, now);
          done := done + {n};
        } else if Expired(before.nodes[n], cutoff) {
          DropAgain(before, done, n, now);
          done := done + {n};
        }
        todo := todo - {n};
      }
      assert done == ExpiredNodes(before, cutoff);
      PruneOfflineTombstones(cutoff);
    }

    // ---------- Registration ----------

    method OldestTombstone() returns (oldest: Option<Id>)
      ensures oldest.Some? ==> Oldest(View(), oldest.value)
      ensures oldest.None? ==> forall n :: !Oldest(View(), n)
    {
      hide HasBindings, Before;
      oldest := None;
      var todo := nodes.Keys;
      while todo != {}
        invariant todo <= nodes.Keys
        invariant oldest.None? ==> forall m | m in nodes && m !in todo :: !Evictable(View(), m)
        invariant oldest.Some? ==> Evictable(View(), oldest.value) && oldest.value !in todo
        invariant oldest.Some? ==> forall m | m in nodes && m !in todo && Evictable(View(), m) && m != oldest.value ::
          Before(View(), oldest.value, m)
        decreases todo
      {
        var n :| n in todo;
        if nodes[n].status == Offline {
          var bound := HasTaskBindings(n, nodes[n].instance);
          if !bound {
            if oldest.None? {
              oldest := Some(n);
            } else {
              BeforeIsTotal(View(), n, oldest.value);
              if Before(View(), n, oldest.value) {
                BeforeIsTransitive(View(), n, oldest.value);
                oldest := Some(n);
              }
            }
          }
        }
        todo := todo - {n};
      }
    }

    method EvictOfflineTombstones(slots: nat)
      modifies this`nodes
      ensures View() == Evict(old(View()), slots)
    {
      hide Oldest, OldestOf;
      var remaining := slots;
      while remaining > 0
        invariant Evict(View(), remaining) == Evict(old(View()), slots)
        decreases remaining
      {
        EvictStep(View(), remaining);
        var oldest := OldestTombstone();
        if oldest.None? {
          return;
        }
        OldestIsUnique(View(), oldest.value);
        nodes := nodes - {oldest.value};
        remaining := remaining - 1;
      }
      EvictStep(View(), 0);
    }

    method FindInstanceOwner(n: Id, instance: Id) returns (taken: bool)
      ensures taken == InstanceTaken(View(), n, instance)
    {
      var todo := nodes.Keys;
      while todo != {}
        invariant todo <= nodes.Keys
        invariant forall m | m in nodes && m !in todo :: !(m != n && nodes[m].instance == instance)
        decreases todo
      {
        var m :| m in todo;
        if m != n && nodes[m].instance == instance {
          return true;
        }
        todo := todo - {m};
      }
      return false;
    }

    method AddNode(input: RegisterInput, now: int)
      modifies this`nodes, this`nextSerial
      ensures View() == Admit(old(View()), input, now)
    {
      nodes := nodes[input.node :=
        Node(nextSerial, input.instance, input.metadata, input.startedAt, input.status, now, now, None,
             Some(input.session), map[], map[])];
      nextSerial := nextSerial + 1;
    }

    method RegisterNode(input: RegisterInput, now: int) returns (reply: Reply)
      modifies this
      ensures (View(), reply) == Register(old(View()), input, now)
    {
      hide Drop, Evict, Admit, InstanceTaken, HasBindings;
      if input.status == Offline {
        return Refused(InvalidInput);
      }
      if input.session in closed {
        return Refused(AgentUnavailable);
      }
      var taken := FindInstanceOwner(input.node, input.instance);
      if taken {
        return Refused(AgentUnavailable);
      }
      if input.node in nodes {
        var existing := nodes[input.node];
        if existing.instance == input.instance {
          if existing.session == Some(input.session) && existing.status == input.status && SameMetadata(existing, input) {
            return Accepted;
          }
          if existing.status != Offline || existing.session.Some? || !SameMetadata(existing, input) {
            return Refused(AgentUnavailable);
          }
          nodes := nodes[input.node := existing.(status := input.status, heartbeatAt := now, seenAt := now,
                                                 offlineAt := None, session := Some(input.session))];
          return Accepted;
        }
        DropBinds(View(), input.node, now);
        LoseNode(input.node, true, now);
        var bound := HasTaskBindings(input.node, existing.instance);
        if bound {
          return Refused(AgentUnavailable);
        }
      } else {
        if LiveCount(View()) >= MAX_NODES {
          return Refused(AgentUnavailable);
        }
        EvictOfflineTombstones(if |nodes| + 1 > MAX_NODES then |nodes| + 1 - MAX_NODES else 0);
        if |nodes| >= MAX_NODES {
          return Refused(AgentUnavailable);
        }
      }
      AddNode(input, now);
      return Accepted;
    }

    method ReceiveHeartbeat(n: Id, instance: Id, at: int, status: Status, now: int) returns (reply: Reply)
      modifies this`nodes
      ensures (View(), reply) == Heartbeat(old(View()), n, instance, at, status, now)
    {
      if status == Offline {
        return Refused(InvalidInput);
      }
      if !IsLive(n, instance) || at < nodes[n].heartbeatAt {
        return Refused(AgentUnavailable);
      }
      nodes := nodes[n := nodes[n].(status := status, heartbeatAt := at, seenAt := now)];
      return Accepted;
    }

    method UnregisterNode(n: Id, instance: Id, closeSession: bool, now: int) returns (reply: Reply)
      modifies this
      ensures (View(), reply) == Unregister(old(View()), n, instance, closeSession, now)
    {
      hide Drop;
      if n !in nodes || nodes[n].instance != instance {
        return Refused(AgentUnavailable);
      }
      if nodes[n].status != Offline {
        LoseNode(n, closeSession, now);
      }
      return Accepted;
    }

    /** `requireLiveNode`. */
    predicate IsLive(n: Id, instance: Id)
      reads this
      ensures IsLive(n, instance) == Live(View(), n, instance)
    {
      && n in nodes && nodes[n].instance == instance && nodes[n].status != Offline
      && nodes[n].session.Some? && nodes[n].session.value !in closed
    }

    // ---------- Claims ----------

    /** `setWorkspaceEnabled` after the catalog has been stored. */
    method FinishSwitch(k: Id, enabled: bool)
      modifies this
      ensures View() == SwitchFinish(old(View()), k, enabled)
    {
      hide Demote;
      ghost var before := View();
      exclusive := None;
      if enabled {
        return;
      }
      claims := claims - {k};
      var todo := nodes.Keys;
      while todo != {}
        invariant todo <= before.nodes.Keys
        invariant nodes == map n | n in before.nodes ::
          if n in todo then before.nodes[n] else Demote(before.nodes[n], k)
        invariant View() == before.(exclusive := None, claims := before.claims - {k}, nodes := nodes)
        decreases todo
      {
        var n :| n in todo;
        nodes := nodes[n := Demote(nodes[n], k)];
        todo := todo - {n};
      }
    }

    method Show(n: Id, k: Id, workspaceId: Id, status: ClaimStatus)
      requires n in nodes
      modifies this`nodes
      ensures View() == Observe(old(View()), n, k, workspaceId, status)
    {
      var node := nodes[n];
      nodes := nodes[n := node.(workspaces := node.workspaces[k := Observation(workspaceId, status)],
                                history := node.history[k := workspaceId])];
    }

    /** `claimWorkspace` after the catalog has been stored. */
    method FinishClaim(input: ClaimInput, serial: nat, entry: Entry) returns (reply: Reply)
      modifies this
      ensures (View(), reply) == ClaimFinish(old(View()), input, serial, entry)
    {
      exclusive := None;
      var k := input.identity;
      if !IsLive(input.node, input.instance) || nodes[input.node].serial != serial {
        return Refused(AgentUnavailable);
      }
      var node := nodes[input.node];
      if !entry.enabled {
        Show(input.node, k, entry.workspaceId, ReadOnly);
        return Accepted;
      }
      if k in claims && (claims[k].node != input.node || claims[k].instance != input.instance) {
        Show(input.node, k, entry.workspaceId, InConflict);
        return Accepted;
      }
      if k in node.workspaces && node.workspaces[k].workspaceId != entry.workspaceId {
        return Refused(WorkspaceBusy);
      }
      claims := claims[k := Claim(entry.workspaceId, input.node, input.instance)];
      Show(input.node, k, entry.workspaceId, Claimed);
      return Accepted;
    }

    method FindWorkspace(workspaceId: Id) returns (found: Option<Id>)
      ensures found.Some? ==> Uses(catalog, found.value, workspaceId)
      ensures found.None? ==> forall k :: !Uses(catalog, k, workspaceId)
    {
      var todo := catalog.Keys;
      while todo != {}
        invariant todo <= catalog.Keys
        invariant forall k | k in catalog && k !in todo :: !Uses(catalog, k, workspaceId)
        decreases todo
      {
        var k :| k in todo;
        if catalog[k].workspaceId == workspaceId {
          return Some(k);
        }
        todo := todo - {k};
      }
      return None;
    }

    /** `claimWorkspace` up to storing the catalog: `upsertCatalogEntry`. */
    method BeginClaim(input: ClaimInput, freshId: Id) returns (reply: Reply)
      requires UniqueWorkspaces(catalog)
      modifies this`exclusive
      ensures (View(), reply) == ClaimBegin(old(View()), input, freshId)
    {
      hide UniqueWorkspaces, IdTakenElsewhere;
      if !IsLive(input.node, input.instance) {
        return Refused(AgentUnavailable);
      }
      var serial := nodes[input.node].serial;
      var wanted := if input.workspaceId.Some? then input.workspaceId.value else freshId;
      var byId := FindWorkspace(wanted);
      TakenElsewhereIs(catalog, input.identity, wanted, byId);
      var taken := byId.Some? && byId.value != input.identity;
      if input.workspaceId.Some? && taken {
        return Refused(WorkspaceBusy);
      }
      if input.identity in catalog {
        var entry := catalog[input.identity];
        if input.workspaceId.Some? && entry.workspaceId != input.workspaceId.value {
          return Refused(WorkspaceBusy);
        }
        exclusive := Some(if entry.details == input.details then ClaimFinishing(input, serial, entry)
                          else ClaimWriting(input, serial, entry.(details := input.details)));
        return Accepted;
      }
      if |catalog| >= MAX_WORKSPACES {
        return Refused(WorkspaceBusy);
      }
      if taken {
        return Refused(InvalidInput);
      }
      exclusive := Some(ClaimWriting(input, serial, Entry(wanted, input.details, true)));
      return Accepted;
    }

    /** `setWorkspaceEnabled` up to storing the catalog. */
    method BeginSwitch(workspaceId: Id, enabled: bool) returns (reply: Reply)
      requires UniqueWorkspaces(catalog)
      modifies this`exclusive
      ensures (View(), reply) == SwitchBegin(old(View()), workspaceId, enabled)
    {
      var found := FindWorkspace(workspaceId);
      if found.None? {
        return Refused(WorkspaceNotFound);
      }
      if !enabled && found.value in leases {
        return Refused(WorkspaceBusy);
      }
      exclusive := Some(SwitchWriting(found.value, enabled));
      return Accepted;
    }

    /** The store answers the update under way. */
    method OnStored(ok: bool) returns (reply: Reply)
      modifies this`catalog, this`exclusive
      ensures (View(), reply) == Registry.Stored(old(View()), ok)
    {
      if exclusive.Some? {
        match exclusive.value {
          case ClaimWriting(input, serial, entry) =>
            if !ok {
              exclusive := None;
              return Refused(StorageFailed);
            }
            catalog, exclusive := catalog[input.identity := entry], Some(ClaimFinishing(input, serial, entry));
          case SwitchWriting(k, enabled) =>
            if !ok || k !in catalog {
              exclusive := None;
              return Refused(StorageFailed);
            }
            catalog := catalog[k := catalog[k].(enabled := enabled)];
            exclusive := Some(SwitchFinishing(k, enabled));
          case _ =>
        }
      }
      return Accepted;
    }

    method FinishPending() returns (reply: Reply)
      modifies this
      ensures (View(), reply) == Registry.Finish(old(View()))
    {
      hide ClaimFinish, SwitchFinish;
      reply := Accepted;
      if exclusive.Some? {
        match exclusive.value {
          case ClaimFinishing(input, serial, entry) => reply := FinishClaim(input, serial, entry);
          case SwitchFinishing(k, enabled) => FinishSwitch(k, enabled);
          case _ =>
        }
      }
    }

    method FindObservation(n: Id, workspaceId: Id) returns (found: Option<Id>)
      requires n in nodes
      ensures found.Some? ==> Shows(nodes[n], found.value, workspaceId)
      ensures found.None? ==> forall k :: !Shows(nodes[n], k, workspaceId)
    {
      var todo := nodes[n].workspaces.Keys;
      while todo != {}
        invariant todo <= nodes[n].workspaces.Keys
        invariant forall k | k in nodes[n].workspaces && k !in todo :: !Shows(nodes[n], k, workspaceId)
        decreases todo
      {
        var k :| k in todo;
        if nodes[n].workspaces[k].workspaceId == workspaceId {
          return Some(k);
        }
        todo := todo - {k};
      }
      return None;
    }

    method ReleaseWorkspace(n: Id, instance: Id, workspaceId: Id) returns (reply: Reply)
      requires Inv(View())
      modifies this`nodes, this`claims
      ensures (View(), reply) == Release(old(View()), n, instance, workspaceId)
    {
      hide Inv, Shows;
      if !IsLive(n, instance) {
        return Refused(AgentUnavailable);
      }
      var found := FindObservation(n, workspaceId);
      if found.None? {
        return Accepted;
      }
      var k := found.value;
      ShownOnce(View(), n, workspaceId, k);
      if k in claims && claims[k].node == n && claims[k].instance == instance {
        claims := claims - {k};
      }
      var node := nodes[n];
      nodes := nodes[n := node.(workspaces := node.workspaces - {k}, history := node.history - {k})];
      return Accepted;
    }

    // ---------- Task routes ----------

    method FindClaim(r: RouteRequest) returns (found: Option<Id>)
      ensures found.Some? ==> Holds(View(), found.value, r)
      ensures found.None? ==> forall k :: !Holds(View(), k, r)
    {
      var todo := claims.Keys;
      while todo != {}
        invariant todo <= claims.Keys
        invariant forall k | k in claims && k !in todo :: !Holds(View(), k, r)
        decreases todo
      {
        var k :| k in todo;
        if claims[k] == Claim(r.workspaceId, r.node, r.instance) {
          return Some(k);
        }
        todo := todo - {k};
      }
      return None;
    }

    method IsEnabled(workspaceId: Id) returns (enabled: bool)
      ensures enabled == Enabled(catalog, workspaceId)
    {
      var todo := catalog.Keys;
      while todo != {}
        invariant todo <= catalog.Keys
        invariant forall k | k in catalog && k !in todo :: !(Uses(catalog, k, workspaceId) && catalog[k].enabled)
        decreases todo
      {
        var k :| k in todo;
        if catalog[k].workspaceId == workspaceId && catalog[k].enabled {
          return true;
        }
        todo := todo - {k};
      }
      return false;
    }

    /** `acquireTaskRoute`, once `runExclusive` has let it in and the peer policy has answered. */
    method AcquireTaskRoute(r: RouteRequest, authorized: bool) returns (reply: Reply)
      requires Inv(View())
      modifies this`leases, this`bindings
      ensures (View(), reply) == Acquire(old(View()), r, authorized)
    {
      hide Inv, Enabled, RouteRefusal;
      if !authorized {
        return Refused(PeerRefused);
      }
      if !IsLive(r.node, r.instance) {
        return Refused(AgentUnavailable);
      }
      var found := FindClaim(r);
      if found.None? {
        return Refused(WorkspaceNotFound);
      }
      var k := found.value;
      HoldsIsUnique(View(), r, k);
      RefusalIs(View(), r, k);
      var enabled := IsEnabled(r.workspaceId);
      if !enabled {
        return Refused(WorkspaceDisabled);
      }
      if r.task in bindings && bindings[r.task] != Binding(r.node, r.instance, r.workspaceId, r.owner, k) {
        return Refused(TaskIdConflict);
      }
      if k in leases && leases[k] != Owner(r.owner, r.task) {
        return Refused(WorkspaceBusy);
      }
      leases := leases[k := Owner(r.owner, r.task)];
      bindings := bindings[r.task := Binding(r.node, r.instance, r.workspaceId, r.owner, k)];
      return Accepted;
    }

    method ReleaseTaskRoute(owner: Id, task: Id, cutoff: int) returns (released: bool)
      modifies this`leases, this`bindings, this`nodes
      ensures View() == ReleaseRoute(old(View()), owner, task, cutoff)
      ensures released == OwnsRoute(old(View()), owner, task)
    {
      hide Prune;
      if task !in bindings || bindings[task].owner != owner {
        return false;
      }
      var k := bindings[task].leaseKey;
      if k in leases && leases[k] == Owner(owner, task) {
        leases := leases - {k};
      }
      bindings := bindings - {task};
      PruneOfflineTombstones(cutoff);
      return true;
    }
  }

  lemma CatalogIsUnique(s: State)
    requires Inv(s)
    ensures UniqueWorkspaces(s.catalog)
  {
    hide Directory, Routes, UniqueWorkspaces;
  }

  lemma RoutesFacts(s: State)
    requires Inv(s)
    ensures |s.nodes| <= MAX_NODES && ClaimsBacked(s.nodes, s.claims) && ObservationsClaimed(s.nodes, s.claims)
    ensures forall t | t in s.bindings ::
      s.bindings[t].leaseKey in s.leases && s.leases[s.bindings[t].leaseKey] == Owner(s.bindings[t].owner, t)
  {
    hide UniqueInstances, NodesOk, ClaimsBacked, ObservationsClaimed, ObservationsCatalogued, UniqueWorkspaces,
      ClaimsEnabled, PendingOk, LeasesBound, BoundNodesKept, LeasesEnabled;
  }

  // ---------- How losses compose ----------

  lemma LoseNone(s: State, now: int)
    ensures LoseAll(s, {}, now) == s
  {
    assert LoseAll(s, {}, now).nodes == s.nodes && LoseAll(s, {}, now).claims == s.claims;
  }

  /** Losing two disjoint sets one after the other loses their union. */
  lemma LoseOneMore(s: State, lost: set<Id>, more: set<Id>, now: int)
    requires lost !! more
    ensures LoseAll(LoseAll(s, lost, now), more, now) == LoseAll(s, lost + more, now)
  {
    var a, b := LoseAll(LoseAll(s, lost, now), more, now), LoseAll(s, lost + more, now);
    assert a.nodes == b.nodes;
    forall k ensures k in a.claims <==> k in b.claims {
    }
    assert a.claims == b.claims;
  }

  lemma ClosedCommutes(s: State, lost: set<Id>, closed: set<Id>, now: int)
    ensures LoseAll(s.(closed := closed), lost, now) == LoseAll(s, lost, now).(closed := closed)
  {
    assert forall k :: Forfeited(s.(closed := closed), k, lost) == Forfeited(s, k, lost);
  }

  /** Losing one node is losing its record and then closing its session, which loses those that share it. */
  lemma DropOne(s: State, n: Id, closeSession: bool, now: int)
    requires n in s.nodes
    ensures Drop(s, {n}, closeSession, now)
         == var alone := LoseAll(s, {n}, now);
            if closeSession && Open(s, s.nodes[n]) then Close(alone, {s.nodes[n].session.value}, now) else alone
  {
    var alone := LoseAll(s, {n}, now);
    if closeSession && Open(s, s.nodes[n]) {
      var session := s.nodes[n].session.value;
      assert OpenSessions(s, {n}) == {session};
      var others := Attached(alone, {session});
      assert others == Attached(s, {session}) - {n};
      LoseOneMore(s, {n}, others, now);
      assert {n} + others == {n} + Attached(s, {session});
    } else {
      assert closeSession ==> OpenSessions(s, {n}) == {};
      assert Attached(s, {}) == {} && {n} + {} == {n} && s.closed + {} == s.closed;
    }
  }

  lemma DropNone(s: State, now: int)
    ensures Drop(s, {}, true, now) == s
  {
    LoseNone(s, now);
    assert OpenSessions(s, {}) == {} && Attached(s, {}) == {};
    assert s.closed + {} == s.closed;
  }

  lemma DropKeys(s: State, lost: set<Id>, now: int)
    ensures Drop(s, lost, true, now).nodes.Keys == s.nodes.Keys
  {
  }

  /** A node looks to the sweep as before, or it has been lost. */
  lemma DropSeen(s: State, lost: set<Id>, now: int, n: Id)
    requires n in s.nodes && n !in lost
    ensures var s' := Drop(s, lost, true, now);
      && n in s'.nodes
      && (if n in Attached(s, OpenSessions(s, lost)) then s'.nodes[n].status == Offline else s'.nodes[n] == s.nodes[n])
    ensures n in Attached(s, OpenSessions(s, lost)) ==> s.nodes[n].status != Offline
  {
  }

  /** A node that shares a session with lost ones is lost already. */
  lemma DropAgain(s: State, lost: set<Id>, n: Id, now: int)
    requires n in s.nodes && n in Attached(s, OpenSessions(s, lost))
    ensures Drop(s, lost + {n}, true, now) == Drop(s, lost, true, now)
  {
    assert OpenSessions(s, lost + {n}) == OpenSessions(s, lost);
    assert lost + {n} + Attached(s, OpenSessions(s, lost)) == lost + Attached(s, OpenSessions(s, lost));
  }

  lemma DropOneMore(s: State, lost: set<Id>, n: Id, now: int)
    requires n in s.nodes && n !in lost && n !in Attached(s, OpenSessions(s, lost)) && s.nodes[n].status != Offline
    ensures Drop(Drop(s, lost, true, now), {n}, true, now) == Drop(s, lost + {n}, true, now)
  {
    var gone := lost + Attached(s, OpenSessions(s, lost));
    var s' := Drop(s, lost, true, now);
    var sessions := OpenSessions(s, {n});
    SessionsOfBoth(s, lost, n, now);
    var more := {n} + Attached(s, sessions);
    LoseOneMore(s, gone, more, now);
    ClosedCommutes(LoseAll(s, gone, now), more, s.closed + OpenSessions(s, lost), now);
    assert gone + more == lost + {n} + Attached(s, OpenSessions(s, lost + {n}));
    assert s.closed + OpenSessions(s, lost) + sessions == s.closed + OpenSessions(s, lost + {n});
  }

  lemma SessionsOfBoth(s: State, lost: set<Id>, n: Id, now: int)
    requires n in s.nodes && n !in lost && n !in Attached(s, OpenSessions(s, lost)) && s.nodes[n].status != Offline
    ensures var s' := Drop(s, lost, true, now);
      && OpenSessions(s', {n}) == OpenSessions(s, {n})
      && Attached(s', OpenSessions(s, {n})) == Attached(s, OpenSessions(s, {n}))
      && lost + Attached(s, OpenSessions(s, lost)) !! {n} + Attached(s, OpenSessions(s, {n}))
      && OpenSessions(s, lost + {n}) == OpenSessions(s, lost) + OpenSessions(s, {n})
      && Attached(s, OpenSessions(s, lost + {n}))
           == Attached(s, OpenSessions(s, lost)) + Attached(s, OpenSessions(s, {n}))
  {
  }

  // ---------- The order of eviction ----------

  lemma BeforeIsTotal(s: State, a: Id, b: Id)
    requires a in s.nodes && b in s.nodes && a != b
    ensures Before(s, a, b) || Before(s, b, a)
  {
  }

  lemma BeforeIsTransitive(s: State, a: Id, b: Id)
    requires a in s.nodes && b in s.nodes && Before(s, a, b)
    ensures forall c | c in s.nodes && Before(s, b, c) :: Before(s, a, c)
  {
  }

  lemma OldestIsUnique(s: State, n: Id)
    requires Oldest(s, n)
    ensures OldestOf(s) == n
  {
    var m := OldestOf(s);
  }

  lemma EvictStep(s: State, slots: nat)
    ensures Evict(s, slots) == if slots == 0 || !(exists n :: Oldest(s, n)) then s
                               else Evict(s.(nodes := s.nodes - {OldestOf(s)}), slots - 1)
  {
  }

  lemma DropBinds(s: State, n: Id, now: int)
    ensures Drop(s, {n}, true, now).bindings == s.bindings
  {
  }

  lemma TakenElsewhereIs(catalog: map<Id, Entry>, identity: Id, workspaceId: Id, found: Option<Id>)
    requires UniqueWorkspaces(catalog)
    requires found.Some? ==> Uses(catalog, found.value, workspaceId)
    requires found.None? ==> forall k :: !Uses(catalog, k, workspaceId)
    ensures IdTakenElsewhere(catalog, identity, workspaceId) <==> found.Some? && found.value != identity
  {
  }

  /** A node shows a workspace id under one identity only. */
  lemma ShownOnce(s: State, n: Id, workspaceId: Id, k: Id)
    requires Inv(s) && n in s.nodes && Shows(s.nodes[n], k, workspaceId)
    ensures forall j | Shows(s.nodes[n], j, workspaceId) :: j == k
  {
    hide Directory, Routes, ClaimsBacked, ObservationsClaimed, ClaimsEnabled, PendingOk;
    forall j | Shows(s.nodes[n], j, workspaceId) ensures j == k {
      assert Sees(s.nodes, n, j) && Sees(s.nodes, n, k);
    }
  }

  // ---------- The claim a request finds ----------

  lemma HoldsIsUnique(s: State, r: RouteRequest, k: Id)
    requires Inv(s) && Holds(s, k, r)
    ensures forall j | Holds(s, j, r) :: j == k
  {
    forall j | Holds(s, j, r) ensures j == k {
      ClaimsShareNoId(s, j, k);
    }
  }

  lemma RefusalIs(s: State, r: RouteRequest, k: Id)
    ensures RouteRefusal(s, r, k)
         == if !Enabled(s.catalog, r.workspaceId) then Some(WorkspaceDisabled)
            else if r.task in s.bindings && s.bindings[r.task] != Binding(r.node, r.instance, r.workspaceId, r.owner, k)
            then Some(TaskIdConflict)
            else if k in s.leases && s.leases[k] != Owner(r.owner, r.task) then Some(WorkspaceBusy)
            else None
  {
    hide Enabled;
  }
}
