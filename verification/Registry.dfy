/**
 The directory of Window Nodes: src/broker/NodeRegistry.ts with the lease table of
 src/tasks/WorkspaceLeaseManager.ts.  Every function is one atomic step, the code between two awaits.

 `nodes`, `claims`, `bindings`, `leases` and `catalog` are the source's maps; `catalog` is keyed by the physical
 workspace identity, which its schema makes unique.  `closed` holds the sessions whose `closed` flag is set.
 `exclusive` is the operation that `runExclusive` has let in and that waits for the state store.  A node's
 `serial` is the identity of its record object.  Time and the results of the store are parameters.
 */
module Registry {
  import opened Wrappers

  type Id = nat

  const MAX_NODES: nat := 128
  const MAX_WORKSPACES: nat := 32

  datatype Status = Online | Busy | Conflicted | Draining | Offline

  datatype ClaimStatus = Claimed | ReadOnly | InConflict

  datatype Observation = Observation(workspaceId: Id, status: ClaimStatus)

  /** `metadata` bundles the label and the capabilities, which are only compared. */
  datatype Node = Node(
    serial: nat,
    instance: Id,
    metadata: Id,
    startedAt: int,
    status: Status,
    heartbeatAt: int,
    seenAt: int,
    offlineAt: Option<int>,
    session: Option<Id>,
    workspaces: map<Id, Observation>,
    history: map<Id, Id>)

  datatype Claim = Claim(workspaceId: Id, node: Id, instance: Id)

  datatype Owner = Owner(peer: Id, task: Id)

  datatype Binding = Binding(node: Id, instance: Id, workspaceId: Id, owner: Id, leaseKey: Id)

  /** `details` bundles the name and the capability tags. */
  datatype Entry = Entry(workspaceId: Id, details: Id, enabled: bool)

  datatype ClaimInput = ClaimInput(node: Id, instance: Id, identity: Id, workspaceId: Option<Id>, details: Id)

  datatype RegisterInput =
    RegisterInput(node: Id, instance: Id, metadata: Id, startedAt: int, status: Status, session: Id)

  datatype RouteRequest = RouteRequest(node: Id, instance: Id, workspaceId: Id, owner: Id, task: Id)

  datatype Pending =
    | ClaimWriting(input: ClaimInput, serial: nat, entry: Entry)
    | ClaimFinishing(input: ClaimInput, serial: nat, entry: Entry)
    | SwitchWriting(identity: Id, enabled: bool)
    | SwitchFinishing(identity: Id, enabled: bool)

  datatype State = State(
    nodes: map<Id, Node>,
    claims: map<Id, Claim>,
    bindings: map<Id, Binding>,
    leases: map<Id, Owner>,
    catalog: map<Id, Entry>,
    closed: set<Id>,
    exclusive: Option<Pending>,
    nextSerial: nat)

  datatype Code =
    | AgentUnavailable
    | WorkspaceBusy
    | WorkspaceNotFound
    | WorkspaceDisabled
    | TaskIdConflict
    | PeerRefused
    | InvalidInput
    | StorageFailed

  datatype Reply = Accepted | Refused(code: Code)

  const EMPTY: State := State(map[], map[], map[], map[], map[], {}, None, 0)

  // ---------- Live nodes and their loss ----------

  predicate Exact(s: State, n: Id, instance: Id) {
    n in s.nodes && s.nodes[n].instance == instance
  }

  predicate Open(s: State, node: Node) {
    node.session.Some? && node.session.value !in s.closed
  }

  predicate Live(s: State, n: Id, instance: Id) {
    Exact(s, n, instance) && s.nodes[n].status != Offline && Open(s, s.nodes[n])
  }

  function Lost(node: Node, now: int): Node {
    node.(session := None, status := Offline, offlineAt := Some(now), workspaces := map[])
  }

  /** The claims that losing these nodes removes. */
  predicate Forfeited(s: State, k: Id, lost: set<Id>) {
    && k in s.claims
    && s.claims[k].node in lost
    && Exact(s, s.claims[k].node, s.claims[k].instance)
    && k in s.nodes[s.claims[k].node].workspaces
  }

  function LoseAll(s: State, lost: set<Id>, now: int): State {
    s.(nodes := map n | n in s.nodes :: if n in lost then Lost(s.nodes[n], now) else s.nodes[n],
       claims := map k | k in s.claims && !Forfeited(s, k, lost) :: s.claims[k])
  }

  /** The nodes that listen for one of these sessions to close. */
  function Attached(s: State, sessions: set<Id>): set<Id> {
    set n | n in s.nodes && s.nodes[n].status != Offline
            && s.nodes[n].session.Some? && s.nodes[n].session.value in sessions
  }

  function Close(s: State, sessions: set<Id>, now: int): State {
    LoseAll(s, Attached(s, sessions), now).(closed := s.closed + sessions)
  }

  function OpenSessions(s: State, lost: set<Id>): set<Id> {
    set n | n in lost && n in s.nodes && Open(s, s.nodes[n]) :: s.nodes[n].session.value
  }

  /** Loses nodes; closing their sessions also loses every other node on the same sessions. */
  function Drop(s: State, lost: set<Id>, closeSessions: bool, now: int): State {
    var sessions := if closeSessions then OpenSessions(s, lost) else {};
    LoseAll(s, lost + Attached(s, sessions), now).(closed := s.closed + sessions)
  }

  predicate HasBindings(bindings: map<Id, Binding>, n: Id, instance: Id) {
    exists t :: t in bindings && bindings[t].node == n && bindings[t].instance == instance
  }

  predicate Expired(node: Node, cutoff: int) {
    node.status != Offline && node.seenAt <= cutoff
  }

  predicate Prunable(s: State, n: Id, cutoff: int)
    requires n in s.nodes
  {
    && s.nodes[n].status == Offline
    && s.nodes[n].offlineAt.Some? && s.nodes[n].offlineAt.value <= cutoff
    && !HasBindings(s.bindings, n, s.nodes[n].instance)
  }

  function Prune(s: State, cutoff: int): State {
    s.(nodes := map n | n in s.nodes && !Prunable(s, n, cutoff) :: s.nodes[n])
  }

  function ExpiredNodes(s: State, cutoff: int): set<Id> {
    set n | n in s.nodes && Expired(s.nodes[n], cutoff)
  }

  function Sweep(s: State, now: int, cutoff: int): State {
    Prune(Drop(s, ExpiredNodes(s, cutoff), true, now), cutoff)
  }

  // ---------- Registration ----------

  predicate Evictable(s: State, n: Id) {
    n in s.nodes && s.nodes[n].status == Offline && !HasBindings(s.bindings, n, s.nodes[n].instance)
  }

  function AgeOf(node: Node): int {
    if node.offlineAt.Some? then node.offlineAt.value else node.seenAt
  }

  /** The order in which tombstones are evicted. */
  predicate Before(s: State, a: Id, b: Id)
    requires a in s.nodes && b in s.nodes
  {
    var x, y := s.nodes[a], s.nodes[b];
    || AgeOf(x) < AgeOf(y)
    || (AgeOf(x) == AgeOf(y) && x.startedAt < y.startedAt)
    || (AgeOf(x) == AgeOf(y) && x.startedAt == y.startedAt && a < b)
  }

  predicate Oldest(s: State, n: Id) {
    Evictable(s, n) && forall m | m in s.nodes && Evictable(s, m) && m != n :: Before(s, n, m)
  }

  ghost function OldestOf(s: State): (n: Id)
    requires exists n :: Oldest(s, n)
    ensures Oldest(s, n)
  {
    var n :| Oldest(s, n);
    n
  }

  /** Deletes the oldest evictable tombstones, as many as there are slots to free. */
  ghost function Evict(s: State, slots: nat): State
    decreases slots
  {
    if slots == 0 || !(exists n :: Oldest(s, n)) then s
    else Evict(s.(nodes := s.nodes - {OldestOf(s)}), slots - 1)
  }

  function LiveNodes(s: State): set<Id> {
    set n | n in s.nodes && s.nodes[n].status != Offline
  }

  function LiveCount(s: State): nat {
    |LiveNodes(s)|
  }

  function Admit(s: State, input: RegisterInput, now: int): State {
    s.(nodes := s.nodes[input.node :=
         Node(s.nextSerial, input.instance, input.metadata, input.startedAt, input.status, now, now, None,
              Some(input.session), map[], map[])],
       nextSerial := s.nextSerial + 1)
  }

  predicate SameMetadata(node: Node, input: RegisterInput) {
    node.metadata == input.metadata && node.startedAt == input.startedAt
  }

  function Reattach(s: State, input: RegisterInput, now: int): (State, Reply)
    requires input.node in s.nodes
  {
    var node := s.nodes[input.node];
    if node.session == Some(input.session) && node.status == input.status && SameMetadata(node, input) then
      (s, Accepted)
    else if node.status != Offline || node.session.Some? || !SameMetadata(node, input) then
      (s, Refused(AgentUnavailable))
    else
      (s.(nodes := s.nodes[input.node :=
            node.(status := input.status, heartbeatAt := now, seenAt := now, offlineAt := None,
                  session := Some(input.session))]), Accepted)
  }

  predicate InstanceTaken(s: State, n: Id, instance: Id) {
    exists m :: m in s.nodes && m != n && s.nodes[m].instance == instance
  }

  ghost function Register(s: State, input: RegisterInput, now: int): (State, Reply) {
    if input.status == Offline then (s, Refused(InvalidInput))
    else if input.session in s.closed then (s, Refused(AgentUnavailable))
    else if InstanceTaken(s, input.node, input.instance) then (s, Refused(AgentUnavailable))
    else if Exact(s, input.node, input.instance) then Reattach(s, input, now)
    else if input.node in s.nodes then
      var lost := Drop(s, {input.node}, true, now);
      if HasBindings(s.bindings, input.node, s.nodes[input.node].instance) then (lost, Refused(AgentUnavailable))
      else (Admit(lost, input, now), Accepted)
    else if LiveCount(s) >= MAX_NODES then (s, Refused(AgentUnavailable))
    else
      var room := Evict(s, if |s.nodes| + 1 > MAX_NODES then |s.nodes| + 1 - MAX_NODES else 0);
      if |room.nodes| >= MAX_NODES then (room, Refused(AgentUnavailable)) else (Admit(room, input, now), Accepted)
  }

  function Heartbeat(s: State, n: Id, instance: Id, at: int, status: Status, now: int): (State, Reply) {
    if status == Offline then (s, Refused(InvalidInput))
    else if !Live(s, n, instance) || at < s.nodes[n].heartbeatAt then (s, Refused(AgentUnavailable))
    else (s.(nodes := s.nodes[n := s.nodes[n].(status := status, heartbeatAt := at, seenAt := now)]), Accepted)
  }

  function Unregister(s: State, n: Id, instance: Id, closeSession: bool, now: int): (State, Reply) {
    if !Exact(s, n, instance) then (s, Refused(AgentUnavailable))
    else (if s.nodes[n].status != Offline then Drop(s, {n}, closeSession, now) else s, Accepted)
  }

  // ---------- Claims, which wait for the catalog to be stored ----------

  predicate Uses(catalog: map<Id, Entry>, k: Id, workspaceId: Id) {
    k in catalog && catalog[k].workspaceId == workspaceId
  }

  predicate IdTakenElsewhere(catalog: map<Id, Entry>, identity: Id, workspaceId: Id) {
    exists k :: k in catalog && k != identity && Uses(catalog, k, workspaceId)
  }

  function ClaimBegin(s: State, input: ClaimInput, freshId: Id): (State, Reply) {
    if !Live(s, input.node, input.instance) then (s, Refused(AgentUnavailable))
    else
      var serial := s.nodes[input.node].serial;
      if input.workspaceId.Some? && IdTakenElsewhere(s.catalog, input.identity, input.workspaceId.value) then
        (s, Refused(WorkspaceBusy))
      else if input.identity in s.catalog then
        var entry := s.catalog[input.identity];
        if input.workspaceId.Some? && entry.workspaceId != input.workspaceId.value then (s, Refused(WorkspaceBusy))
        else if entry.details == input.details then
          (s.(exclusive := Some(ClaimFinishing(input, serial, entry))), Accepted)
        else
          (s.(exclusive := Some(ClaimWriting(input, serial, entry.(details := input.details)))), Accepted)
      else if |s.catalog| >= MAX_WORKSPACES then (s, Refused(WorkspaceBusy))
      else
        var id := if input.workspaceId.Some? then input.workspaceId.value else freshId;
        if IdTakenElsewhere(s.catalog, input.identity, id) then (s, Refused(InvalidInput))
        else (s.(exclusive := Some(ClaimWriting(input, serial, Entry(id, input.details, true)))), Accepted)
  }

  function Observe(s: State, n: Id, k: Id, workspaceId: Id, status: ClaimStatus): State
    requires n in s.nodes
  {
    var node := s.nodes[n];
    s.(nodes := s.nodes[n := node.(workspaces := node.workspaces[k := Observation(workspaceId, status)],
                                   history := node.history[k := workspaceId])])
  }

  predicate HeldByOther(s: State, k: Id, n: Id, instance: Id) {
    k in s.claims && (s.claims[k].node != n || s.claims[k].instance != instance)
  }

  function ClaimFinish(s: State, input: ClaimInput, serial: nat, entry: Entry): (State, Reply) {
    var idle := s.(exclusive := None);
    var k := input.identity;
    if !Live(s, input.node, input.instance) || s.nodes[input.node].serial != serial then
      (idle, Refused(AgentUnavailable))
    else if !entry.enabled then (Observe(idle, input.node, k, entry.workspaceId, ReadOnly), Accepted)
    else if HeldByOther(s, k, input.node, input.instance) then
      (Observe(idle, input.node, k, entry.workspaceId, InConflict), Accepted)
    else if k in s.nodes[input.node].workspaces
            && s.nodes[input.node].workspaces[k].workspaceId != entry.workspaceId then
      (idle, Refused(WorkspaceBusy))
    else
      (Observe(idle.(claims := s.claims[k := Claim(entry.workspaceId, input.node, input.instance)]),
               input.node, k, entry.workspaceId, Claimed), Accepted)
  }

  /** `findIndex` over the catalog. */
  ghost function IdentityOf(catalog: map<Id, Entry>, workspaceId: Id): Option<Id> {
    if exists k :: Uses(catalog, k, workspaceId) then
      var k :| Uses(catalog, k, workspaceId);
      Some(k)
    else None
  }

  ghost function SwitchBegin(s: State, workspaceId: Id, enabled: bool): (State, Reply) {
    var found := IdentityOf(s.catalog, workspaceId);
    if found.None? then (s, Refused(WorkspaceNotFound))
    else if !enabled && found.value in s.leases then (s, Refused(WorkspaceBusy))
    else (s.(exclusive := Some(SwitchWriting(found.value, enabled))), Accepted)
  }

  function Demote(node: Node, k: Id): Node {
    if k in node.workspaces then node.(workspaces := node.workspaces[k := node.workspaces[k].(status := ReadOnly)])
    else node
  }

  function SwitchFinish(s: State, k: Id, enabled: bool): State {
    var idle := s.(exclusive := None);
    if enabled then idle
    else idle.(claims := s.claims - {k}, nodes := map n | n in s.nodes :: Demote(s.nodes[n], k))
  }

  /** The store answers the pending update. */
  function Stored(s: State, ok: bool): (State, Reply) {
    if s.exclusive.None? then (s, Accepted)
    else
      match s.exclusive.value
      case ClaimWriting(input, serial, entry) =>
        if ok then
          (s.(catalog := s.catalog[input.identity := entry],
              exclusive := Some(ClaimFinishing(input, serial, entry))), Accepted)
        else (s.(exclusive := None), Refused(StorageFailed))
      case SwitchWriting(k, enabled) =>
        if ok && k in s.catalog then
          (s.(catalog := s.catalog[k := s.catalog[k].(enabled := enabled)],
              exclusive := Some(SwitchFinishing(k, enabled))), Accepted)
        else (s.(exclusive := None), Refused(StorageFailed))
      case _ => (s, Accepted)
  }

  /** The pending operation runs its last synchronous part. */
  function Finish(s: State): (State, Reply) {
    if s.exclusive.None? then (s, Accepted)
    else
      match s.exclusive.value
      case ClaimFinishing(input, serial, entry) => ClaimFinish(s, input, serial, entry)
      case SwitchFinishing(k, enabled) => (SwitchFinish(s, k, enabled), Accepted)
      case _ => (s, Accepted)
  }

  predicate Shows(node: Node, k: Id, workspaceId: Id) {
    k in node.workspaces && node.workspaces[k].workspaceId == workspaceId
  }

  ghost function Release(s: State, n: Id, instance: Id, workspaceId: Id): (State, Reply) {
    if !Live(s, n, instance) then (s, Refused(AgentUnavailable))
    else
      var node := s.nodes[n];
      if !(exists k :: Shows(node, k, workspaceId)) then (s, Accepted)
      else
        var k :| Shows(node, k, workspaceId);
        (s.(claims := if k in s.claims && !HeldByOther(s, k, n, instance) then s.claims - {k} else s.claims,
            nodes := s.nodes[n := node.(workspaces := node.workspaces - {k}, history := node.history - {k})]),
         Accepted)
  }

  // ---------- Task routes ----------

  predicate Holds(s: State, k: Id, r: RouteRequest) {
    k in s.claims && s.claims[k] == Claim(r.workspaceId, r.node, r.instance)
  }

  predicate Enabled(catalog: map<Id, Entry>, workspaceId: Id) {
    exists k :: k in catalog && Uses(catalog, k, workspaceId) && catalog[k].enabled
  }

  predicate SameBinding(b: Binding, r: RouteRequest, k: Id) {
    b == Binding(r.node, r.instance, r.workspaceId, r.owner, k)
  }

  /** `requireAvailableTaskRoute` once the claim `k` has been found. */
  function RouteRefusal(s: State, r: RouteRequest, k: Id): Option<Code> {
    if !Enabled(s.catalog, r.workspaceId) then Some(WorkspaceDisabled)
    else if r.task in s.bindings && !SameBinding(s.bindings[r.task], r, k) then Some(TaskIdConflict)
    else if k in s.leases && s.leases[k] != Owner(r.owner, r.task) then Some(WorkspaceBusy)
    else None
  }

  ghost function Acquire(s: State, r: RouteRequest, authorized: bool): (State, Reply) {
    if !authorized then (s, Refused(PeerRefused))
    else if !Live(s, r.node, r.instance) then (s, Refused(AgentUnavailable))
    else if !(exists k :: Holds(s, k, r)) then (s, Refused(WorkspaceNotFound))
    else
      var k :| Holds(s, k, r);
      var refusal := RouteRefusal(s, r, k);
      if refusal.Some? then (s, Refused(refusal.value))
      else
        (s.(leases := s.leases[k := Owner(r.owner, r.task)],
            bindings := s.bindings[r.task := Binding(r.node, r.instance, r.workspaceId, r.owner, k)]), Accepted)
  }

  predicate OwnsRoute(s: State, owner: Id, task: Id) {
    task in s.bindings && s.bindings[task].owner == owner
  }

  function ReleaseRoute(s: State, owner: Id, task: Id, cutoff: int): State {
    if !OwnsRoute(s, owner, task) then s
    else
      var k := s.bindings[task].leaseKey;
      Prune(s.(leases := if k in s.leases && s.leases[k] == Owner(owner, task) then s.leases - {k} else s.leases,
               bindings := s.bindings - {task}), cutoff)
  }

  // ---------- Runs ----------

  datatype Step =
    | DoRegister(registration: RegisterInput, now: int)
    | DoHeartbeat(node: Id, instance: Id, at: int, status: Status, now: int)
    | DoUnregister(node: Id, instance: Id, closeSession: bool, now: int)
    | DoSweep(now: int, cutoff: int)
    | DoClose(session: Id, now: int)
    | DoClaimBegin(claim: ClaimInput, freshId: Id)
    | DoSwitchBegin(workspaceId: Id, enabled: bool)
    | DoStored(ok: bool)
    | DoFinish
    | DoRelease(node: Id, instance: Id, workspaceId: Id)
    | DoAcquire(request: RouteRequest, authorized: bool)
    | DoReleaseRoute(owner: Id, task: Id, cutoff: int)

  /** Operations that go through `runExclusive` begin only when no other one is under way. */
  ghost function Apply(s: State, step: Step): State {
    match step
    case DoRegister(input, now) => Register(s, input, now).0
    case DoHeartbeat(n, instance, at, status, now) => Heartbeat(s, n, instance, at, status, now).0
    case DoUnregister(n, instance, closeSession, now) => Unregister(s, n, instance, closeSession, now).0
    case DoSweep(now, cutoff) => Sweep(s, now, cutoff)
    case DoClose(session, now) => Close(s, {session}, now)
    case DoClaimBegin(input, freshId) => if s.exclusive.None? then ClaimBegin(s, input, freshId).0 else s
    case DoSwitchBegin(w, enabled) => if s.exclusive.None? then SwitchBegin(s, w, enabled).0 else s
    case DoStored(ok) => Stored(s, ok).0
    case DoFinish => Finish(s).0
    case DoRelease(n, instance, w) => Release(s, n, instance, w).0
    case DoAcquire(r, authorized) => if s.exclusive.None? then Acquire(s, r, authorized).0 else s
    case DoReleaseRoute(owner, task, cutoff) => ReleaseRoute(s, owner, task, cutoff)
  }

  ghost function Run(s: State, steps: seq<Step>): State
    decreases |steps|
  {
    if steps == [] then s else Run(Apply(s, steps[0]), steps[1..])
  }
}
