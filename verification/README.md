# Verified model of the Device Broker and its agent runtime

This project models the state machines and algorithms at the centre of the repository and proves what they promise,
for every input and every run. `dafny verify dfyconfig.toml` checks all of it.

## How it is built

The code between two `await`s is one atomic step, and at every `await` any other step may come next. Each stateful
component therefore has

- a module of *steps*: a value type with the fields of the object, one function per piece of code between two
  awaits, `Apply` for any single step and `Run` for any sequence of steps. Answers of the environment (time, the
  store, a lock, a Host) are parameters of the steps, so `Run` ranges over every interleaving and every answer;
- an *invariant* kept by every step, and the *theorems* that follow for all reachable states: what never happens;
- *outcomes*: what each operation achieves when nothing stands in its way, and exactly when it does;
- a *class* with the fields of the source, updated in place by the loops the source has. `Valid()` is the invariant,
  every method is proved to leave exactly the state the corresponding step function gives, and `Perform` takes any
  step of a run on the object: it keeps `Valid()` and states the promises of the component on the fields themselves.

Fields called history (`log`, `losses`, `starts`, `barred`, `issued`, `launches`, `delays`, `claims` of finished
sessions, and so on) record what happened; no step reads them to decide anything.

| area | modules |
|---|---|
| text sizes and cutting | `Utf16`, `Utf8`, `RuntimeText` |
| JSON safety check | `SafeJson` |
| bounded event queue | `EventQueue` (steps), `EventQueueSafety`, `EventQueueRuns`, `EventQueueTheorems`, `EventQueueOutcomes`, `EventQueueOrder` (promise order), `AsyncEventQueues` (objects) |
| node registry and leases | `Registry` (steps), `RegistrySafety`, `RegistryTheorems`, `RegistryOutcomes`, `RegistrySamples` (runs), `NodeRegistries` (object) |
| policy gate and directory | `PeerPolicy` |
| task admission, dispatch, cancellation | `TaskReducer`, `TaskService` (steps), `TaskServiceSafety`, `TaskServiceTheorems`, `TaskServiceOutcomes`, `TaskServiceSamples` (runs), `BrokerTaskServices` (object), `DashboardIndex` |
| broker lifecycle | `Lifecycle` (steps), `LifecycleTheorems`, `LifecycleOutcomes`, `BrokerLifecycles` (object) |
| retained Host and continuations | `RetainedHost`, `Continuation` |
| task start queue | `StartQueue` |
| journals, reading by cursor | `Journal`, `JournalReading` |
| restoring a chat | `Recovery`, `RecoveryTheorems` |
| delegation intents | `Intent` |
| window names and policy document | `WindowNames` |
| paging owned tasks, session catalog | `OwnedTaskPaging`, `Sorting`, `Sets`, `SessionCatalog` |

## Where the code does not keep a promise

- `pushAndClose` is not always last. An output event larger than the whole queue is shortened and then waits for its
  report without looking at the seal again (src/agentHost/AgentRuntime.ts:443-469). Which continuation goes first is
  decided by the order of promise jobs, so this is stated for runs in that order (`EventQueueOrder`): `CloseIsLastIff`
  gives the exact condition, `OversizedOutputCanOvertake` builds the bad run for every such event, and `CloseComesLast`
  shows that it takes such an event.
- A store write may take effect although the store reports a failure; the service then acts as if it had failed. If
  the write created a task, the task is active without a route, and another one can start in its workspace
  (`TornCreateShares`); if it ended a task, the finished task keeps its route and its lease (`TornEndKeepsLease`).
  `CreatedKeepsRouteIff` and `EndFreesRouteIff` say for each write when that happens, `ActiveOwnsLease` and
  `TerminalFreesBoth` what it means in every reachable state, and `ActiveTasksNeverShare` that nothing else makes two
  active tasks share a workspace: records an earlier process left do not, because the broker serves nobody before
  every one of them that was active has been ended (src/composition/ProductionBrokerRuntime.ts:405-406).
- A reader of a task whose journal has been truncated completely never reaches its end: every read reports the same
  gap and leaves the cursor where it was (src/application/TaskCoordinator.ts:450-460). `ReadersCatchUp` gives the exact
  condition, `StuckForever` what such a reader sees, and `ReadersCanGetStuck` that any unread journal can come to that.
- The delegation hash is taken over UTF-8 bytes, where every lone surrogate becomes U+FFFD. Two such requests can
  collide (`LoneSurrogatesCollide`); `SamePreImageIffSameRequest` states exactly which requests are told apart.
- A listed node can refuse a fresh task while its workspace is being disabled, between the catalog write and the
  removal of the claim (`AcceptedUnlessDisabling`). The start waits for that switch to end and is then refused, for the
  node is listed no longer (`DisablingRefuses`). For the same reason `ClaimedIsEnabled` has an exception for the last
  step of that switch.
- A finished session is continued at most once only on an owned Host. On another Host this object keeps no record, and
  the same continuation goes on any number of times (`RepeatedIffNotOwned`); what the Host then makes of the session is
  not part of this model.
- A delegation may be on record although its call failed, when the write took effect all the same (`RecordedIff`); a
  repeated call then gets that task.
- A restore from a snapshot that is not an extension of what was emitted cannot complete the text
  (`RestoreCompletesIffPrefix`).

## Assumptions

- The broker lifecycle and the services are made as the source makes them: delays the constructor would refuse and
  catalogs their schema would refuse are excluded, and `InitializeCore` comes before the first request.
- A session's `close` and the listeners of a closing session run in one step, as they do in the source.
- The store, when asked to write, stores the record, does not store it, or stores it and reports a failure. Records
  are written only through the task service.
- The owner lock may be lost or taken at any time, and it tells a listener that is subscribed of every loss; nothing
  else is assumed of it but what it answers.
- SHA-256 and random identifiers do not collide: a hash is represented by the bytes hashed, a fresh id by a parameter.
- `foldWindowName` is any function that lower-cases ASCII text; name validity is any predicate. A migrated
  document is shown to be one that mutations may start from (`MigrationIsDocument`) if the short numbered names the
  migration can try are valid.
- A task's `createdAt` never changes and always parses, as its schema demands.
- Of two nodes no more than one claims a workspace where labels are computed, which is `ClaimsMatchNodes`.

## Model

| member | source | states |
|---|---|---|
| EventQueueTheorems.StaysBounded | src/agentHost/AgentRuntime.ts:361-666 | In every reachable state the buffer and the reservations of blocked producers each respect both limits, and both byte counters equal the sum of the sizes they count |
| EventQueueTheorems.NeverDeadlocks | src/agentHost/AgentRuntime.ts:526-637 | A producer nobody has woken implies something to consume and no waiting consumer; with an empty buffer or after closing every suspended call may go on, and a closed queue keeps no consumer waiting |
| EventQueueTheorems.ControlsKeepOrder | src/agentHost/AgentRuntime.ts:412-601 | Nondroppable events delivered, followed by those buffered, are exactly those enqueued, each once and in order, over every interleaving |
| EventQueueTheorems.TextIsComplete | src/agentHost/AgentRuntime.ts:553-601 | The output text delivered and buffered is the accepted output text in order without exactly the units that were evicted: coalescing only concatenates, and without eviction it is all of it |
| EventQueueTheorems.NoSilentLoss | src/agentHost/AgentRuntime.ts:412-627 | Every text unit ever pushed is delivered, buffered, held by a call under way or on record as lost; every loss belongs to the seal or to a pressure episode; every episode, also one the closing call begins after the seal, has its notice in preparation or in the log (which holds one notice for each episode noticed), or its reporter was cut off, unless the notice alone exceeds the queue; only closing the queue cuts off a reporter, or sealing it when the episode began before |
| EventQueueTheorems.CloseComesLast | src/agentHost/AgentRuntime.ts:395-510 | If no single output event exceeds the byte limit, nothing is ever enqueued after the pushAndClose event |
| EventQueueTheorems.ClosingEventIsLogged | src/agentHost/AgentRuntime.ts:395-410 | The step that ends a closing call with success appends exactly its (possibly shortened) event, so that event is the last of the log |
| EventQueueOrder.OrderKeeps | src/agentHost/AgentRuntime.ts:361-666 | In the order in which promise jobs run (first queued, first run) every step keeps the invariant of queue, suspended calls and jobs: each call that may go on has exactly one job |
| EventQueueOrder.FollowKeeps | src/agentHost/AgentRuntime.ts:361-666 | So does every run in that order |
| EventQueueOrder.CloseIsLastIff | src/agentHost/AgentRuntime.ts:395-510 | Once the pushAndClose event is enqueued, no run in promise order enqueues anything more if and only if no oversized output push is still waiting for its report |
| EventQueueOrder.OversizedOutputCanOvertake | src/agentHost/AgentRuntime.ts:443-469 | Every output event larger than the queue has a run in promise order, from a new queue, in which its shortened form is enqueued after the pushAndClose event |
| EventQueueOutcomes.SqueezedOutputIsCut | src/agentHost/AgentRuntime.ts:453-470 | Output that still has no room after its report enters an open queue cut to the longest prefix that fits and splits no pair, is accepted, and only the rest is lost; it is dropped exactly when there is no free slot or not even an empty text fits |
| EventQueueOutcomes.PushMeans | src/agentHost/AgentRuntime.ts:412-510 | What a push comes to in terms of the entries: it joins or replaces the newest one, or output gets in exactly if it does once all progress is given up, progress exactly if it does without the oldest progress, a control event exactly if it does once everything discardable is given up; otherwise it waits for its report, waits for room, is dropped, or throws |
| EventQueueOutcomes.ResumeMeans | src/agentHost/AgentRuntime.ts:412-510 | The same for every call that goes on: the report enqueues its notice as soon as everything discardable leaves room for it, and each kind of call then enters, waits or is refused |
| EventQueueOutcomes.NextMeans | src/agentHost/AgentRuntime.ts:526-551 | Reading delivers the oldest entry, wakes every producer and ends a pressure episode when both counters are at most half; it ends on a closed queue and waits on an open empty one |
| EventQueueOutcomes.StepMeans | src/agentHost/AgentRuntime.ts:391-551 | All of this for any step of a run |
| EventQueueOutcomes.ReadingDrains | src/agentHost/AgentRuntime.ts:526-551 | As many reads as there are entries deliver the whole buffer in order |
| EventQueueOutcomes.EvictProgressMakesRoom | src/agentHost/AgentRuntime.ts:446-450 | Discarding progress makes room exactly when there is room without any progress, and costs no output |
| EventQueueOutcomes.EvictAnyMakesRoom | src/agentHost/AgentRuntime.ts:484-491 | Discarding progress and output makes room exactly when the control events alone leave it |
| EventQueueOutcomes.RoomWakesEverybody | src/agentHost/AgentRuntime.ts:586-637 | Over every run, whenever a step takes an entry out of the buffer, by reading or evicting it, every call that was waiting for capacity may go on |
| EventQueueRuns.ApplyKeeps | src/agentHost/AgentRuntime.ts:361-666 | Each atomic step of any call keeps the whole queue invariant: accounting, bounds, wake-ups, order, text and loss accounts |
| EventQueueRuns.RunKeeps | src/agentHost/AgentRuntime.ts:361-666 | The invariant holds after every sequence of pushes, closes, reads and resumptions in any order |
| AsyncEventQueues.AsyncEventQueue.Put | src/agentHost/AgentRuntime.ts:571-579 | Hands the event to the oldest waiting consumer, else appends it and counts its bytes |
| AsyncEventQueues.AsyncEventQueue.NotifyCapacity | src/agentHost/AgentRuntime.ts:633-637 | Wakes every blocked producer |
| AsyncEventQueues.AsyncEventQueue.IndexOfDiscardable | src/agentHost/AgentRuntime.ts:586-590 | Finds the oldest replaceable entry, output counting only when asked for |
| AsyncEventQueues.AsyncEventQueue.RemoveOldestDiscardable | src/agentHost/AgentRuntime.ts:586-601 | Removes exactly that entry, takes its bytes off the counter, wakes blocked producers and returns its priority; without one it changes nothing |
| AsyncEventQueues.AsyncEventQueue.EvictProgressUntil | src/agentHost/AgentRuntime.ts:446-450 | The loop removes the oldest progress entries until there is room or none is left, and never output |
| AsyncEventQueues.AsyncEventQueue.EvictAnyUntil | src/agentHost/AgentRuntime.ts:484-491 | The loop evicts progress and output until there is room or only control events are left, and reports whether output went |
| AsyncEventQueues.AsyncEventQueue.ReportUntilRoom | src/agentHost/AgentRuntime.ts:617-626 | Evicts for the notice until it fits and enqueues it, or parks with only control events left |
| AsyncEventQueues.AsyncEventQueue.ReportPressure | src/agentHost/AgentRuntime.ts:603-627 | At most one notice per episode; refused once ingress is closed; throws when the notice alone exceeds the queue |
| AsyncEventQueues.AsyncEventQueue.AwaitReport | src/agentHost/AgentRuntime.ts:443-454 | Suspends the call on the report, charging the lost units to the episode it joins |
| AsyncEventQueues.AsyncEventQueue.Coalesced | src/agentHost/AgentRuntime.ts:553-569 | Replaces the newest entry by the joined event exactly when kind and response match and the result fits |
| AsyncEventQueues.AsyncEventQueue.SettleOutput | src/agentHost/AgentRuntime.ts:446-470 | Output evicts progress first, is enqueued if there is room, and otherwise reports before it is cut |
| AsyncEventQueues.AsyncEventQueue.CutOutput | src/agentHost/AgentRuntime.ts:453-470 | After the report of an open queue the text enters cut to the longest prefix that fits the bytes left, and is dropped with its units on record exactly when there is no slot or not even an empty text fits |
| AsyncEventQueues.AsyncEventQueue.SettleProgress | src/agentHost/AgentRuntime.ts:473-482 | Progress evicts at most one older progress entry, then is enqueued or dropped |
| AsyncEventQueues.AsyncEventQueue.ReservePending | src/agentHost/AgentRuntime.ts:643-652 | Reserves exactly when the pending items and bytes stay within the queue limits |
| AsyncEventQueues.AsyncEventQueue.ReleasePending | src/agentHost/AgentRuntime.ts:654-657 | Gives back exactly one reservation |
| AsyncEventQueues.AsyncEventQueue.Enter | src/agentHost/AgentRuntime.ts:495-509 | A control event without room reserves its size and waits; the reservation fails exactly when pending work would exceed the limits |
| AsyncEventQueues.AsyncEventQueue.WakeForRoom | src/agentHost/AgentRuntime.ts:498-509 | A woken producer waits again, is refused when the queue was closed to it, or enqueues; its reservation ends with the wait |
| AsyncEventQueues.AsyncEventQueue.SettleControl | src/agentHost/AgentRuntime.ts:484-509 | A control event evicts what it must, reports evicted output, and then enters or waits |
| AsyncEventQueues.AsyncEventQueue.PushInternal | src/agentHost/AgentRuntime.ts:412-510 | The whole push up to its first suspension: closed check, coalescing, truncation of oversized events and the three priorities |
| AsyncEventQueues.AsyncEventQueue.CloseQueue | src/agentHost/AgentRuntime.ts:512-524 | Closing is idempotent, ends every waiting consumer and wakes every blocked producer |
| AsyncEventQueues.AsyncEventQueue.Seal | src/agentHost/AgentRuntime.ts:395-401 | pushAndClose seals the queue and wakes producers, or refuses a queue that is already sealed or closed |
| AsyncEventQueues.AsyncEventQueue.Continue | src/agentHost/AgentRuntime.ts:395-510 | Each suspended call goes on from the await it stopped at |
| AsyncEventQueues.AsyncEventQueue.Next | src/agentHost/AgentRuntime.ts:526-551 | Delivers the oldest entry, wakes producers, ends a pressure episode when both counters are at most half, and waits only on an open empty queue |
| AsyncEventQueues.TruncateRuntimeEvent | src/agentHost/AgentRuntime.ts:700-724 | Cuts the text of output events to the budget with their other bytes as overhead, and declines every other event |
| AsyncEventQueues.Calls.Push | src/agentHost/AgentRuntime.ts:391-393 | Starting a push leaves object and suspended calls in the state of the specification step |
| AsyncEventQueues.Calls.PushAndClose | src/agentHost/AgentRuntime.ts:395-410 | Likewise for a closing push, which yields before its event is offered |
| AsyncEventQueues.Calls.ResumeCall | src/agentHost/AgentRuntime.ts:412-510 | Likewise for the continuation of any call whose capacity promise is resolved |
| AsyncEventQueues.Calls.Perform | src/agentHost/AgentRuntime.ts:391-551 | Any step of any run done on the objects gives the specification state and keeps the promises on the object itself: both limits, no deadlock, controls in order, all accepted text but what was evicted in order, every unit accounted for, and every call comes to what EventQueueOutcomes.StepRight says |
| RuntimeText.FitRuntimeText | src/agentHost/AgentRuntime.ts:726-749 | The binary search over cuts returns exactly the longest cut that fits and splits no surrogate pair, none if even the empty text does not fit |
| RuntimeText.LongestFitIsMaximal | src/agentHost/AgentRuntime.ts:726-749 | No cut that fits is longer than the one chosen, not even one through a surrogate pair |
| RuntimeText.FitTextIsMaximal | src/agentHost/AgentRuntime.ts:726-749 | Whatever cut fits, the result exists and is at least as long |
| RuntimeText.FitTextFits | src/agentHost/AgentRuntime.ts:726-749 | The kept text is a prefix that splits no pair and fits; a text that fits is kept whole; it fails exactly when the overhead alone is too large |
| RuntimeText.BoundUtf8 | src/application/RemoteTaskRunner.ts:757-772 | The loop returns the longest prefix of whole characters within the UTF-8 budget |
| Utf16.JsonBytesSplit | src/agentHost/AgentRuntime.ts:767-770 | JSON sizes add up over every cut that splits no surrogate pair |
| Utf16.Utf8BytesSplit | src/application/RemoteTaskRunner.ts:757-772 | UTF-8 sizes add up over every cut that splits no surrogate pair |
| SafeJson.IsSafeJsonValue | shared/protocol/envelopes.ts:93-150 | The worklist loop ends and accepts exactly the values the recursive definition accepts: every node legal, depth at most 128, at most 65,536 nodes, no object met twice; its stack never exceeds 65,536 entries |
| SafeJson.PushEntries | shared/protocol/envelopes.ts:139-144 | Pushing the members of an object adds exactly the recursive node list of those members to the work owed |
| SafeJson.SafeIffSafeByPaths | shared/protocol/envelopes.ts:93-150 | Acceptance in terms of paths from the root alone: all reachable nodes legal, no path longer than the depth limit, no object on two paths, and few enough paths |
| SafeJson.CyclesAreRejected | shared/protocol/envelopes.ts:128-132 | An object that contains itself at any distance is never accepted |
| RegistryTheorems.ClaimsMatchNodes | src/broker/NodeRegistry.ts:535-594 | In every reachable state a workspace has at most one claimant, and a claim exists exactly when a live node with that instance shows the workspace as claimed |
| RegistryTheorems.ClaimedIsEnabled | src/broker/NodeRegistry.ts:726-758 | A claimed workspace is in the catalog under the same id and enabled, unless the switch disabling it is at its last step |
| RegistryTheorems.InstancesAreUnique | src/broker/NodeRegistry.ts:279-361 | Instance ids are unique and at most 128 nodes are kept |
| RegistryTheorems.BindingsNeverShare | src/broker/NodeRegistry.ts:618-647 | Each task binding owns the lease of its workspace and no two bindings share one |
| RegistryTheorems.LeasedMeansBound | src/broker/NodeRegistry.ts:655-666 | A lease exists exactly for a bound workspace, and a leased workspace is never disabled |
| RegistryTheorems.BoundNodeIsKept | src/broker/NodeRegistry.ts:981-1027 | No step but the release of a route evicts or replaces the record of a node with a task binding |
| RegistryTheorems.RoutesOutliveClaims | src/broker/NodeRegistry.ts:596-666 | Over any run a route and its lease stay, on the same record of the same node, until that route is released, whatever becomes of claim, session or node |
| RegistryTheorems.ReleaseFreesBoth | src/broker/NodeRegistry.ts:655-666 | Releasing a route frees its binding and its lease together and no others |
| RegistryTheorems.GrantedIff | src/broker/NodeRegistry.ts:899-947 | With no exclusive operation under way, a route is granted exactly to an authorized request for a live claim of an enabled workspace that nobody else leases, or as the same route again |
| RegistryTheorems.SweepLosesExactly | src/broker/NodeRegistry.ts:387-402 | The sweep loses exactly the overdue nodes and those on a session that is closed with them |
| RegistryTheorems.NewNodeAcceptedIff | src/broker/NodeRegistry.ts:327-341 | A window not seen before is accepted exactly when its session is open, its instance is new, and there is a free place or a tombstone without bindings to evict |
| RegistrySafety.ApplyKeeps | src/broker/NodeRegistry.ts:234-1027 | Every step of the registry keeps the whole invariant over nodes, claims, catalog, leases, bindings and the operation waiting for the store |
| RegistrySafety.RunKeeps | src/broker/NodeRegistry.ts:234-1027 | The invariant holds after every run |
| RegistryOutcomes.ReleaseMeans | src/broker/NodeRegistry.ts:596-616 | A live node that gives up a workspace shows and remembers none of that id any more and holds no claim on one; every other claim, observation, node, binding and lease stays |
| RegistryOutcomes.ReleasedIsUnroutable | src/broker/NodeRegistry.ts:596-616 | After that no claim of the node matches a request for the workspace, and routing there is refused as not found |
| RegistryOutcomes.ReleasedMayBeClaimed | src/broker/NodeRegistry.ts:535-616 | After that any other live window may claim the workspace and gets it |
| RegistryOutcomes.ClaimMeans | src/broker/NodeRegistry.ts:535-594 | With the registry idle and the store working a claim is refused without effect unless the node is live and identity and id belong together; otherwise the workspace is shown read-only if disabled, in conflict if another window holds it, and else is claimed |
| RegistryOutcomes.SwitchMeans | src/broker/NodeRegistry.ts:726-758 | A workspace can always be enabled, and disabled exactly while nobody leases it; disabled it loses its claim and is shown read-only everywhere, and nothing else changes |
| RegistryOutcomes.HeartbeatMeans | src/broker/NodeRegistry.ts:365-376 | The heartbeat of a live node updates its status and times and nothing else; any other is without effect |
| RegistryOutcomes.BeatingSurvives | src/broker/NodeRegistry.ts:365-402 | A node that has beaten since the cutoff survives the sweep unless it shares its session with one that has not |
| RegistryOutcomes.OfflineMayComeBack | src/broker/NodeRegistry.ts:284-315 | An offline node may come back as the same window under an open session, with its record and history kept |
| RegistryOutcomes.ReplacementMeans | src/broker/NodeRegistry.ts:316-361 | A new window under the id of an old one replaces it and its claims, unless tasks are bound to the old one, which is then lost all the same |
| RegistryOutcomes.CloseMeans | src/broker/NodeRegistry.ts:1135-1148 | A closed session loses exactly the live nodes attached to it, with their claims |
| RegistryOutcomes.UnregisterMeans | src/broker/NodeRegistry.ts:378-385 | A window that unregisters is lost, and with it exactly those that share a session that closes |
| RegistryOutcomes.SweepForgetsExactly | src/broker/NodeRegistry.ts:981-990 | The sweep forgets exactly the offline nodes past their retention that no task is bound to |
| RegistryOutcomes.EvictTakesOldest | src/broker/NodeRegistry.ts:992-1020 | Making room deletes unbound tombstones, every one deleted being older than every one left, and as many as asked for and there are |
| RegistryOutcomes.RefusalMeans | src/broker/NodeRegistry.ts:899-947 | Which error refuses a route: not authorized, node not live, no such claim, the task bound otherwise, or the workspace leased |
| NodeRegistries.NodeRegistry.Perform | src/broker/NodeRegistry.ts:234-1027 | Any step of a run done on the object gives the specification state; claims stay exactly what nodes show as claimed, every binding owns its lease alone, only its own release takes a route away, and releases, heartbeats and losses have their whole effect (RegistryOutcomes.StepRight) |
| NodeRegistries.NodeRegistry.OnStored | src/broker/NodeRegistry.ts:726-745 | The answer of the store publishes the new catalog, or ends the operation with an error |
| NodeRegistries.NodeRegistry.RegisterNode | src/broker/NodeRegistry.ts:273-363 | Every outcome with the state it leaves: a closed session or foreign instance is refused, the same instance re-attached, another instance replaced unless it has task bindings, a new node admitted after evicting tombstones |
| NodeRegistries.NodeRegistry.AddNode | src/broker/NodeRegistry.ts:343-361 | Admits a new record with a new identity and nothing shown |
| NodeRegistries.NodeRegistry.FindInstanceOwner | src/broker/NodeRegistry.ts:279-283 | Finds whether another node uses the instance id |
| NodeRegistries.NodeRegistry.ReceiveHeartbeat | src/broker/NodeRegistry.ts:365-376 | Refreshes status and times of a live node; an older heartbeat, another instance or the status offline is refused |
| NodeRegistries.NodeRegistry.UnregisterNode | src/broker/NodeRegistry.ts:378-385 | Only the exact instance is unregistered: it is lost if it was live, and anyone else is refused |
| NodeRegistries.NodeRegistry.SweepExpired | src/broker/NodeRegistry.ts:387-402 | The loop over the nodes loses the overdue ones together with every node on a session it closes, then prunes |
| NodeRegistries.NodeRegistry.DeleteClaims | src/broker/NodeRegistry.ts:956-965 | Deletes exactly the claims a record shows and still owns |
| NodeRegistries.NodeRegistry.LoseRecord | src/broker/NodeRegistry.ts:949-966 | A lost node is offline without session, shows nothing, remembers what it showed, and its claims are gone |
| NodeRegistries.NodeRegistry.LoseNode | src/broker/NodeRegistry.ts:949-979 | Losing a node may close its session, which loses every other node on it |
| NodeRegistries.NodeRegistry.CloseSession | src/broker/NodeRegistry.ts:1135-1148 | A closing session loses exactly the nodes still attached to it |
| NodeRegistries.NodeRegistry.PruneOfflineTombstones | src/broker/NodeRegistry.ts:981-990 | Removes exactly the offline nodes past their retention that have no task binding |
| NodeRegistries.NodeRegistry.HasTaskBindings | src/broker/NodeRegistry.ts:1022-1027 | True exactly when some binding names node and instance |
| NodeRegistries.NodeRegistry.OldestTombstone | src/broker/NodeRegistry.ts:1000-1010 | The minimum of the three-key order over unbound offline nodes, none exactly when there is none |
| NodeRegistries.NodeRegistry.EvictOfflineTombstones | src/broker/NodeRegistry.ts:992-1020 | Evicts the oldest unbound tombstones, as many as asked for and there are |
| NodeRegistries.NodeRegistry.BeginClaim | src/broker/NodeRegistry.ts:812-869 | A claim up to the catalog write: id and identity must agree in both directions, the catalog must have room |
| NodeRegistries.NodeRegistry.FinishClaim | src/broker/NodeRegistry.ts:541-592 | After the write only the same live record goes on: a disabled workspace is shown read-only, one another instance holds as in conflict, and otherwise the claim is taken and shown |
| NodeRegistries.NodeRegistry.Show | src/broker/NodeRegistry.ts:548-554 | Replaces one observation of one node |
| NodeRegistries.NodeRegistry.ReleaseWorkspace | src/broker/NodeRegistry.ts:596-616 | Gives up the workspace as the specification step does, whose effect RegistryOutcomes.ReleaseMeans states |
| NodeRegistries.NodeRegistry.FindClaim | src/broker/NodeRegistry.ts:911-922 | Finds the claim matching node, instance and workspace id, if any |
| NodeRegistries.NodeRegistry.IsEnabled | src/broker/NodeRegistry.ts:923-928 | True exactly when the catalog lists the workspace as enabled |
| NodeRegistries.NodeRegistry.AcquireTaskRoute | src/broker/NodeRegistry.ts:618-647 | Idempotent for the same route; otherwise all checks in order, then the lease and only then the binding |
| NodeRegistries.NodeRegistry.ReleaseTaskRoute | src/broker/NodeRegistry.ts:655-666 | Only the owner frees binding and lease, and the tombstones are pruned |
| NodeRegistries.NodeRegistry.FindWorkspace | src/broker/NodeRegistry.ts:731-735 | Finds the catalog entry with the workspace id, if any |
| NodeRegistries.NodeRegistry.BeginSwitch | src/broker/NodeRegistry.ts:726-745 | An unknown workspace is not found and a leased one cannot be disabled; otherwise the catalog write begins |
| NodeRegistries.NodeRegistry.FinishSwitch | src/broker/NodeRegistry.ts:746-757 | After the write a disabled workspace loses its claim and every node that shows it shows it read-only |
| PeerPolicy.ListedIffRoutable | src/broker/PeerPolicyService.ts:133-168 | A node is offered in the list exactly when the directory shows it, it is another node and routing a task to some workspace of it passes the gate |
| PeerPolicy.ListedIsAccepted | src/broker/PeerPolicyService.ts:365-452 | A fresh task to a listed node is accepted by the registry as well, or refused as busy exactly when its workspace is leased |
| PeerPolicy.AcceptedUnlessDisabling | src/broker/NodeRegistry.ts:899-947 | The registry checks behind the gate fail for a listed, un-leased node exactly while its workspace is being disabled |
| PeerPolicy.DisablingRefuses | src/broker/NodeRegistry.ts:726-758 | Whatever state lists a node with a free workspace, disabling that workspace leads to a state that still lists it; a task started there waits for the switch, and is then refused because the node is listed no longer |
| PeerPolicy.SampleListing | src/broker/PeerPolicyService.ts:133-168 | Such a listing is reached by a run in which two windows register and claim |
| PeerPolicy.MutationMeans | src/broker/PeerPolicyService.ts:76-131 | A policy change is accepted exactly from the window that claims the workspace and within the rules for candidates, and then changes exactly what it was asked to: a candidate is on the allowlist afterwards if and only if it was allowed |
| PeerPolicy.ToggleDecidesListing | src/broker/PeerPolicyService.ts:133-168 | For two windows that show just their claimed workspace, allowing the other one puts it on the list at once and disallowing it takes it off |
| PeerPolicy.NotReceivingIsNotListed | src/broker/PeerPolicyService.ts:76-97 | A window that stops receiving is on no list any more |
| PeerPolicy.MutationsKeepNoSelf | src/broker/PeerPolicyService.ts:76-131 | A policy change touches one entry and never puts a workspace on its own allowlist |
| PeerPolicy.ListIsComplete | src/broker/PeerPolicyService.ts:133-168 | With the whole directory in the frame the list is exactly the set of nodes the window may route to |
| TaskReducer.StatesAreReachedBy | src/domain/taskReducer.ts:31-147 | From which states and by which event each state of a task is reached, and that nothing else reaches it |
| TaskReducer.ReduceIsMonotone | src/domain/taskReducer.ts:31-147 | Terminal states absorb; the sequence number rises by one exactly when the record changes and owner and workspace never do |
| TaskReducer.HistoryIsMonotone | src/domain/taskReducer.ts:31-188 | Over any history the sequence number never falls and nothing changes after the first terminal state |
| TaskReducer.PendingMeansWaiting | src/domain/taskReducer.ts:65-140 | Over any history an open request is present only while the task needs input or recovers |
| TaskServiceTheorems.AtMostOneStart | src/broker/BrokerTaskService.ts:637-779 | No interleaving of dispatch, cancellation, deadlines, node loss and node events sends a task two start requests |
| TaskServiceTheorems.CancelledBeforeDispatchNeverStarts | src/broker/BrokerTaskService.ts:951-989 | A task cancelled before dispatch has had no start request sent and never gets one |
| TaskServiceTheorems.BarredIffUndispatched | src/broker/BrokerTaskService.ts:951-989 | With the store working, a cancellation ends the task at once, unrouted, exactly when its start was admitted and no start request was ever sent; otherwise the task waits in state cancelling for its node |
| TaskServiceTheorems.ActiveOwnsLease | src/broker/BrokerTaskService.ts:540-635 | An active task holds the route and the lease of the workspace its record names, or no lease at all, and the latter exactly when an earlier process left it or the write that created it was torn |
| TaskServiceTheorems.AtMostOneActivePerWorkspace | src/broker/BrokerTaskService.ts:557-567 | Two active tasks that are neither inherited nor created by a torn write never use one physical workspace |
| TaskServiceTheorems.TerminalFreesBoth | src/broker/BrokerTaskService.ts:1206-1242 | A finished task with no write left to be followed up holds its route and lease if the write that ended it was torn and nothing released them since (the loss of its node may, and so may another operation that had read the record before), and otherwise neither |
| TaskServiceTheorems.ActiveTasksNeverShare | src/broker/BrokerTaskService.ts:473-635 | Whatever records an earlier process left, once the service is initialised two active tasks use one workspace only if the write that created one of them was torn |
| TaskServiceTheorems.CreatedKeepsRouteIff | src/broker/BrokerTaskService.ts:585-634 | The write that creates a task leaves it active exactly unless the store refused it, and with its route and lease exactly when the store answered with success; otherwise it holds neither |
| TaskServiceTheorems.EndFreesRouteIff | src/broker/BrokerTaskService.ts:1206-1242 | The write that ends a task, with what follows it, frees its route and lease exactly when the store answered with success |
| TaskServiceTheorems.InitializedIsQuiet | src/broker/BrokerTaskService.ts:473-513 | After the pass over the stored records no task is active and none is routed, whatever the records were |
| TaskServiceOutcomes.CheckMeans | src/broker/BrokerTaskService.ts:698-709 | The check sends the start, and marks the admission in the same step, exactly when the dispatch is being checked, the start is admitted and not cancelled, and its deadline is kept |
| TaskServiceOutcomes.OnlyChecksSend | src/broker/BrokerTaskService.ts:637-779 | No other step sends anything |
| TaskServiceOutcomes.AcceptedStartIsSent | src/broker/BrokerTaskService.ts:599-709 | An accepted start that is published, launched and checked in time without a cancellation is sent, once |
| TaskServiceOutcomes.RequestIsAccepted | src/broker/BrokerTaskService.ts:540-635 | A request for a live claim of a workspace nobody leases makes an active task with its route and lease |
| TaskServiceOutcomes.RequestIsSent | src/broker/BrokerTaskService.ts:540-709 | From such a request in any reachable state the start reaches the node, with exactly one request sent |
| TaskServiceOutcomes.DispatchMeans | src/broker/BrokerTaskService.ts:599-669 | What publishing, launching, answering and ending a dispatch do; a failed announcement ends the task |
| TaskServiceOutcomes.TriggersLeadTo | src/broker/BrokerTaskService.ts:951-1205 | The end each trigger leads to: a missed deadline to timed out, a missing or lost node and a missed cancellation to failed, the node reporting a cancellation to cancelled, its other reports to what the reducer makes of them, an answer to running |
| TaskServiceOutcomes.TriggerRuns | src/broker/BrokerTaskService.ts:951-1242 | In every reachable state a trigger on an idle active task, with the store working, ends its operation with exactly that record |
| TaskServiceOutcomes.EventsArePersisted | src/broker/BrokerTaskService.ts:1206-1242 | With the store working an operation writes its events one after the other, up to one that is rejected |
| TaskServiceOutcomes.ForeignEndMeans | src/broker/BrokerTaskService.ts:1169-1205 | A task that another start finds unusable is ended as timed out or failed |
| TaskServiceOutcomes.LateLossFreesRoute | src/broker/BrokerTaskService.ts:1150-1167 | The loss of its node frees the route of a task that has ended |
| TaskServiceSamples.TornCreateShares | src/broker/BrokerTaskService.ts:585-634 | A run after initialisation in which, after a torn creation, two active tasks use one workspace |
| TaskServiceSamples.TornEndKeepsLease | src/broker/BrokerTaskService.ts:1206-1242 | A run after initialisation in which a torn last write leaves a finished task with its route and lease |
| TaskServiceSafety.ActIsFine | src/broker/BrokerTaskService.ts:540-1242 | Every action on one task keeps its invariant, the registry invariant, and every other task's binding |
| TaskServiceSafety.ApplyKeeps | src/broker/BrokerTaskService.ts:540-1242 | Every step of the service, task actions and registry steps alike, keeps the invariant |
| TaskServiceSafety.RunKeeps | src/broker/BrokerTaskService.ts:540-1242 | The invariant holds after every interleaving |
| BrokerTaskServices.BrokerTaskService.Perform | src/broker/BrokerTaskService.ts:540-1242 | Any step of a run done on the object gives the specification state; on the object a check sends exactly the starts that are admitted, not cancelled and in time and nothing else sends any, every task has one start request at most and none once its cancellation prevented it, active tasks hold their leases, and no task that is active becomes inherited |
| BrokerTaskServices.BrokerTaskService.InitializeCore | src/broker/BrokerTaskService.ts:473-513 | The loop over the stored records gives the specified state, and when it succeeds nothing is active or routed |
| BrokerTaskServices.BrokerTaskService.CreateRecord | src/broker/BrokerTaskService.ts:585-634 | Depending on the store the route is kept, given back with no record, or given back although the record exists |
| BrokerTaskServices.BrokerTaskService.DispatchStart | src/broker/BrokerTaskService.ts:698-708 | The request is sent if and only if the start is admitted, not cancelled and before its deadline while it is checked; the same step marks the admission as dispatched |
| BrokerTaskServices.BrokerTaskService.FinishPersistEvent | src/broker/BrokerTaskService.ts:1213-1241 | A task that has just ended gives back its route and lease and forgets its admission; any other keeps them |
| BrokerTaskServices.ActiveTasksShareNothing | src/broker/BrokerTaskService.ts:473-635 | On the object, after initialisation and any steps: two active tasks use one workspace only if the creation of one of them was torn |
| DashboardIndex.RememberedIsFine | src/broker/BrokerTaskService.ts:1662-1677 | The index keeps unique keys and its limit; the record comes last, and it is dropped at once exactly when it is finished and the index full of other active tasks; of the others a full index drops exactly one, the oldest finished, or the oldest when all are active |
| DashboardIndex.Index.DeleteKey | src/broker/BrokerTaskService.ts:1662-1665 | Deletes one key and keeps the order of the others |
| DashboardIndex.Index.Remember | src/broker/BrokerTaskService.ts:1662-1677 | The loop of the source leaves exactly the remembered index |
| LifecycleTheorems.AtMostOneRuntime | src/broker/BrokerLifecycle.ts:207-239 | In every reachable state at most one created runtime is undisposed, it is the one on record, and another is asked for or created only when there is none |
| LifecycleTheorems.ReleasedOnlyWhenStopped | src/broker/BrokerLifecycle.ts:340-392 | Ownership is handed back only after the runtime is disposed, and none is created afterwards |
| LifecycleTheorems.NeverStuck | src/broker/BrokerLifecycle.ts:168-325 | Once started, whenever no operation is left, the broker runs under its own current lock or a timer is armed, unless disposal was requested |
| LifecycleTheorems.RetriesBackOff | src/broker/BrokerLifecycle.ts:409-427 | All retry delays lie between base and maximum and never shrink between two resets |
| LifecycleTheorems.RetryDelayDoubles | src/broker/BrokerLifecycle.ts:423-427 | The first delay is the base and each next one twice the one before, up to the maximum |
| LifecycleTheorems.RetryDelayGrows | src/broker/BrokerLifecycle.ts:423-427 | The delay of a later attempt is at least that of an earlier one, up to the cap |
| LifecycleTheorems.ApplyKeeps | src/broker/BrokerLifecycle.ts:74-427 | Every step, with any answer of lock, runtime and timer, keeps the invariant |
| LifecycleTheorems.RunKeeps | src/broker/BrokerLifecycle.ts:74-427 | The invariant holds after every run |
| LifecycleOutcomes.TakeOverRuns | src/broker/BrokerLifecycle.ts:286-306 | From every reachable state that waits for the lock, winning it under a generation asks for a runtime of that generation at once, and with that coming up the broker runs under it |
| LifecycleOutcomes.StartRuns | src/broker/BrokerLifecycle.ts:168-239 | A start with the lock in hand does the same |
| LifecycleOutcomes.WonMeansAsked | src/broker/BrokerLifecycle.ts:296-306 | A won contention never goes back to contending without a runtime having been asked for |
| LifecycleOutcomes.ComesBack | src/broker/BrokerLifecycle.ts:263-286 | A started lifecycle with nothing left to do runs, or its timer brings it to the next contention, after stopping a runtime that is no longer its own |
| LifecycleOutcomes.DisposalCompletes | src/broker/BrokerLifecycle.ts:340-392 | A disposal that nothing hinders disposes the runtime, gives back the lock and is complete |
| LifecycleOutcomes.StepMeans | src/broker/BrokerLifecycle.ts:74-445 | What every step comes to: the next await or idle status, the timer armed, the runtime made, kept or gone |
| BrokerLifecycles.BrokerLifecycle.Perform | src/broker/BrokerLifecycle.ts:74-445 | Any step of a run done on the object gives the specification state and keeps the promises on the object itself: one live runtime at most, none made beside another, the lock handed back only after the runtime, never stuck, retries within their bounds, and every step comes to what LifecycleOutcomes.StepRight says |
| Journal.ValidMeansSuffix | shared/protocol/models.ts:203-267 | The validator accepts exactly the journals that hold the newest events without holes, declare their first event exactly when some are missing, and fit the byte budget |
| Journal.RetainedStart | src/domain/taskEvents.ts:31-57 | The two loops find the longest suffix with no stale event that fits the budget |
| Journal.CompactTaskEventJournal | src/domain/taskEvents.ts:10-77 | Compaction computes the record the specification gives |
| Journal.CompactionIsValid | src/domain/taskEvents.ts:10-77 | Compaction drops from the front only, keeps the sequence number, and makes any contiguous, honestly declared journal valid |
| Journal.SlicesAreValid | shared/protocol/models.ts:326-388 | Every slice cut from a valid journal passes the slice validator and holds exactly the unread suffix; a cursor ahead of the journal gets none |
| JournalReading.ReadMeans | src/application/TaskCoordinator.ts:433-468 | A read returns the first unread events, moves the cursor to the last of them, and reports a gap exactly when the journal no longer holds the next event |
| JournalReading.DeliveredOnceInOrder | src/application/TaskCoordinator.ts:433-468 | Over any run of appends, truncations and reads each event is delivered at most once, unchanged and in order |
| JournalReading.NothingIsSkipped | src/application/TaskCoordinator.ts:433-468 | Every event at or below the cursor was delivered or lies in a reported gap, and not both |
| JournalReading.ReadersCatchUp | src/application/TaskCoordinator.ts:433-468 | Enough reads of a quiet journal reach its end exactly when the journal still holds some event or the reader is there already |
| JournalReading.StuckForever | src/application/TaskCoordinator.ts:450-460 | Reads of a journal that holds nothing any more return no event, leave the cursor where it is and report the same gap every time |
| JournalReading.ReadersCanGetStuck | src/domain/taskEvents.ts:31-57 | Whatever a reader has not read yet, there is a time at which the journal has lost it all, and then no number of reads moves the cursor |
| JournalReading.ApplyKeeps | src/broker/BrokerTaskService.ts:1337-1377 | Appending with compaction and reading keep the journal valid and the deliveries accounted for |
| JournalReading.RunKeeps | src/broker/BrokerTaskService.ts:1337-1377 | The same over every run |
| Recovery.RestoreCompletesIffPrefix | src/agentHost/AhpAgentRuntime.ts:2617-2633 | A restored part completes the emitted text to exactly the Host's part if and only if what was emitted is a prefix of it |
| Recovery.ResponseDelivery.RestoreResponsePart | src/agentHost/AhpAgentRuntime.ts:2607-2732 | On the maps of the object: emits the missing rest of a text as what it is, the notifications not yet counted, and a tool state exactly when it was not emitted before |
| Recovery.ResponseDelivery.TrackDeliveredResponse | src/agentHost/AhpAgentRuntime.ts:2318-2374 | A live change is recorded on the maps exactly as the restore expects it |
| Recovery.ResponseDelivery.RestoreResponseParts | src/agentHost/AhpAgentRuntime.ts:2592-2605 | The loop over the parts with its per-kind ordinals, which may be cut short after any number of them |
| RecoveryTheorems.TextIsNeverLostOrRepeated | src/agentHost/AhpAgentRuntime.ts:2592-2732 | Over any mix of changes heard, missed or waiting, and of restores part by part, finished or cut short, the text emitted for a part is a prefix of it, and all of it whenever the client has heard everything |
| RecoveryTheorems.RestoredPartsAreComplete | src/agentHost/AhpAgentRuntime.ts:2592-2632 | In the middle of a restore, the parts already restored are complete as far as the snapshot goes |
| RecoveryTheorems.StatesAreTold | src/agentHost/AhpAgentRuntime.ts:2650-2731 | Over every run a tool state counts as shown exactly when it was emitted; in step with the Host every state it has was emitted, and in a restore every one among the parts restored |
| RecoveryTheorems.RestoringTellsOnce | src/agentHost/AhpAgentRuntime.ts:2650-2731 | Restoring a part emits its state exactly when it was not emitted before |
| RecoveryTheorems.TextKeepsItsKind | src/agentHost/AhpAgentRuntime.ts:2617-2633 | Every text emitted carries the kind of its part, answer or reasoning |
| RecoveryTheorems.NoticesAreCounted | src/agentHost/AhpAgentRuntime.ts:2634-2639 | Notifications are emitted as often as the Host has them when in step, and never more |
| RecoveryTheorems.RestoringTwiceIsOnce | src/agentHost/AhpAgentRuntime.ts:2592-2732 | A second restore of the same snapshot changes nothing and emits nothing |
| RecoveryTheorems.PartKeeps | src/agentHost/AhpAgentRuntime.ts:2607-2732 | Restoring the next part completes it and spoils none |
| RecoveryTheorems.ApplyKeeps | src/agentHost/AhpAgentRuntime.ts:2318-2732 | Changes of the Host, hearing one, losing the connection, taking a snapshot and restoring one part all keep delivered counts equal to what was emitted |
| Utf8.EncodeAllIsInjective | src/application/TaskCoordinator.ts:416-418 | The UTF-8 encoding of scalar values is uniquely decodable |
| Utf8.SameBytesIffSameRepair | src/application/TaskCoordinator.ts:416-418 | Two strings have the same bytes exactly when they differ in lone surrogates at most |
| Utf8.EncodeJoins | src/application/TaskCoordinator.ts:415-418 | UTF-8 encoding distributes over every join that does not complete a surrogate pair |
| Utf8.ByteLengthIsEncodedLength | src/application/TaskCoordinator.ts:416-418 | The length put before a field is the length of its encoding |
| Intent.JoinedEncodes | src/application/TaskCoordinator.ts:415-418 | Encoding the joined string is joining the encoded fields: no surrogate pair arises where two of them meet |
| Intent.FramesAreInjective | src/application/TaskCoordinator.ts:416-418 | Length-prefixed fields, any number of them, are uniquely decodable |
| Intent.SamePreImageIffSameRequest | src/application/TaskCoordinator.ts:406-419 | The hashed bytes are equal exactly when the normalised requests are, for any number of criteria |
| Intent.WellFormedRequestsAreDistinguished | src/application/TaskCoordinator.ts:406-419 | Without lone surrogates equal bytes mean equal requests but for the two defaults |
| Intent.LoneSurrogatesCollide | src/application/TaskCoordinator.ts:406-419 | Two requests whose titles are different lone surrogates hash alike |
| Intent.PayloadIsKept | src/application/TaskCoordinator.ts:178-205 | A call that succeeds leaves its payload under the task it answers and no other, and a failing one leaves none |
| Intent.RepliesMean | src/application/TaskCoordinator.ts:148-211 | When a call is invalid, a conflict, or answered with a known or a new task |
| Intent.IntentsOnlyGrow | src/application/TaskCoordinator.ts:148-211 | Over any calls an id keeps one stored intent, and no stored intent changes or goes away |
| Intent.RecordedIff | src/application/TaskCoordinator.ts:170-211 | The first call under an id is on record exactly when it succeeds, or fails although its write took effect |
| Intent.IdsAreIdempotent | src/application/TaskCoordinator.ts:148-211 | Once a request is on record under an id, because the call succeeded or because its write took effect although it failed, a later call with that id gets the same task if it carries the same request, and a conflict otherwise, whatever came in between |
| Intent.Coordinator.PersistDelegationIntent | src/application/TaskCoordinator.ts:148-211 | The method on the stored list and the payload map makes exactly that decision and change |
| WindowNames.SearchNumbered | src/broker/PeerPolicyService.ts:640-648 | The search ends, by pigeonhole over the finite used set, with the first free numbered name |
| WindowNames.AttemptsDiffer | src/broker/PeerPolicyService.ts:640-648 | Different attempts give names that differ when folded |
| WindowNames.AllocateEffectiveFallback | src/broker/PeerPolicyService.ts:634-649 | The short node id itself when free, else the first free numbered name |
| WindowNames.EffectiveWorkspaceNames | src/broker/PeerPolicyService.ts:485-511 | Names exactly the stored and claimed workspaces, keeps every stored name, and all folds differ; every other workspace gets its display name when that is free at its turn, and otherwise the short node id or the first free numbered name |
| WindowNames.EffectiveNodeLabels | src/broker/PeerPolicyService.ts:537-544 | Labels every node once, all folds differ, and a live claimant of a stored name keeps it; every other node gets its own label when that is free at its turn, and otherwise the short node id or the first free numbered name |
| WindowNames.LabelWindows | src/broker/PeerPolicyService.ts:513-545 | All windows are labelled distinctly and every live claimant with a stored name shows exactly that name |
| WindowNames.KeepValidNames | src/broker/PeerPolicyStore.ts:264-274 | The first pass keeps exactly the first valid name of each fold |
| WindowNames.MigrateCompatibleDocument | src/broker/PeerPolicyStore.ts:261-293 | Migration keeps every key and policy in order; each name is the entry's own if that is valid and the first of its fold, and otherwise the first free numbered name; all folds are distinct |
| WindowNames.MigrationIsDocument | src/broker/PeerPolicyStore.ts:261-309 | A migrated document of at most 256 entries meets what mutations start from, names valid and distinct when folded, given only that the names the migration can try are valid: for each entry, the numbered names of its own digest and position with fewer attempts than there are entries |
| WindowNames.FirstFreeIsEarly | src/broker/PeerPolicyStore.ts:295-309 | The search for a free name makes at most one attempt more than there are names taken |
| WindowNames.PlainNamesSuffice | src/broker/PeerPolicyStore.ts:295-309 | With digests cut to eight hexadecimal digits the names the migration can try are the prefix and at most 16 more letters, digits, blanks and hyphens, so a validator with a length limit need only accept those |
| WindowNames.AnyChangesKeepDocument | src/broker/PeerPolicyStore.ts:167-230 | Whatever changes are asked for in whatever order, all names stay valid and distinct when folded, nobody loses a name, and every name is the stored one or one asked for that key |
| WindowNames.MutationsKeepDocument | src/broker/PeerPolicyStore.ts:167-230 | An accepted change touches one name and keeps all names valid and distinct when folded |
| WindowNames.PeerPolicyStore.FindConflict | src/broker/PeerPolicyStore.ts:187-191 | Finds another entry whose name folds alike |
| WindowNames.PeerPolicyStore.MutateEntry | src/broker/PeerPolicyStore.ts:167-230 | The document is replaced exactly when the change is accepted and written |
| RetainedHost.LaunchesOnce | src/agentHost/RetainedOwnedAgentHostLauncher.ts:58-151 | The wrapped launcher is asked to launch at most once in the object's life |
| RetainedHost.FailureIsPermanent | src/agentHost/RetainedOwnedAgentHostLauncher.ts:164-199 | After failure or stopping no lease is ever handed out and no Host launched |
| RetainedHost.LeasesShareOneFingerprint | src/agentHost/RetainedOwnedAgentHostLauncher.ts:112-162 | All leases ever handed out carry one fingerprint |
| RetainedHost.DisposedMeansClean | src/agentHost/RetainedOwnedAgentHostLauncher.ts:209-245 | A disposal that reports success leaves no lease, launch or Host; once the wrapped launcher is disposed the object is stopping and no launch is under way |
| RetainedHost.AvailableGivesLeases | src/agentHost/RetainedOwnedAgentHostLauncher.ts:58-110 | While a Host is retained and the object is of use, every caller gets a lease at once and every waiter when notified, on the fingerprint of the Host |
| RetainedHost.FirstRequestIsServed | src/agentHost/RetainedOwnedAgentHostLauncher.ts:58-151 | The first request starts the Host, and once it is up the waiter gets the first lease |
| RetainedHost.StepMeans | src/agentHost/RetainedOwnedAgentHostLauncher.ts:58-245 | What every step comes to while the object is of use, and after |
| RetainedHost.DisposalOrder | src/agentHost/RetainedOwnedAgentHostLauncher.ts:209-245 | In every run: leases are released only after the launch under way has ended, the wrapped launcher is disposed only after that, also when a lease could not be released, the exit subscription is dropped only once it is disposed, and success needs all of them |
| RetainedHost.DisposalCanBeRetried | src/agentHost/RetainedOwnedAgentHostLauncher.ts:201-245 | Whenever a disposal has failed, calling it again succeeds if nothing throws |
| RetainedHost.ApplyKeeps | src/agentHost/RetainedOwnedAgentHostLauncher.ts:58-245 | Every step keeps the invariant of launch, leases and disposal |
| RetainedHost.RunKeeps | src/agentHost/RetainedOwnedAgentHostLauncher.ts:58-245 | So does every run; failure and stopping last, and after either nothing is issued or launched |
| RetainedHost.RetainedOwnedAgentHostLauncher.Perform | src/agentHost/RetainedOwnedAgentHostLauncher.ts:58-245 | Any step of a run done on the object gives the specification state and keeps the promises on the object itself: one launch, permanent failure, one fingerprint for all leases, clean disposal, and every step comes to what StepRight says |
| Continuation.ContinuedAtMostOnce | src/agentHost/AhpAgentRuntime.ts:450-565 | On an owned Host a session is continued at most once between two completions, and only on the Host generation, chat, workspace and provider it completed with |
| Continuation.ContinuesIff | src/agentHost/AhpAgentRuntime.ts:535-565 | On an owned Host a continuation is granted exactly when the session named has completed, was not continued since, and the request fits that completion |
| Continuation.CompletedMayContinue | src/agentHost/AhpAgentRuntime.ts:490-565 | Whatever happened before, a task that completes on an owned Host may be continued there by a request that fits it |
| Continuation.RepeatedIffNotOwned | src/agentHost/AhpAgentRuntime.ts:535-565 | A continuation asked for again without a completion in between goes on again exactly when it went on and the Host is not owned; there it goes on any number of times |
| Continuation.DisposedContinuesNothing | src/agentHost/AhpAgentRuntime.ts:450-616 | Nothing is started or continued after disposal |
| Continuation.RetainedSessions.Perform | src/agentHost/AhpAgentRuntime.ts:490-616 | Any step of a run done on the object gives the specification state: on an owned Host no second continuation between two completions and none that does not match the last completion; none anywhere after disposal |
| Continuation.RetainedSessions.ClaimOwnedContinuation | src/agentHost/AhpAgentRuntime.ts:450-565 | The claim consumes the retained session exactly when every comparison holds |
| OwnedTaskPaging.ListOwnedTasks | src/broker/DeviceBroker.ts:1235-1326 | The lookups and the loop counting down return exactly the specified page or error |
| OwnedTaskPaging.LeftMeans | src/broker/DeviceBroker.ts:1241-1298 | The tasks left after a cursor are exactly the visible ones sorted after it, even when the cursor task is no longer visible; an unknown cursor is an error |
| OwnedTaskPaging.LargestIsLargest | src/broker/DeviceBroker.ts:1306-1321 | Counting down finds the largest page that fits the frame, for any size function |
| OwnedTaskPaging.PageMeans | src/broker/DeviceBroker.ts:1235-1326 | A page is the first tasks left, as many as limit and frame allow, with a next cursor exactly when some are left |
| OwnedTaskPaging.PagesPassSchema | shared/protocol/nodes.ts:422-462 | The metadata of every page with tasks pass the page schema |
| OwnedTaskPaging.PagesRunNewestFirst | src/broker/DeviceBroker.ts:1235-1326 | A page runs from the newest task to older ones, equal times by id, and nothing visible that is newer is left for a later page |
| OwnedTaskPaging.CollectedNewestFirst | src/broker/DeviceBroker.ts:1235-1326 | So does everything collected by following the cursor over changing snapshots |
| OwnedTaskPaging.NothingTwice | src/broker/DeviceBroker.ts:1235-1326 | Following the cursor over changing snapshots, each with its own sizes, returns no task twice, in order |
| OwnedTaskPaging.NothingMissed | src/broker/DeviceBroker.ts:1235-1326 | A finished run contains every task visible throughout |
| OwnedTaskPaging.PagingEnds | src/broker/DeviceBroker.ts:1235-1326 | As long as new routes sort before the cursor, one page per remaining task and one more are enough |
| Sorting.SortOrders | src/broker/DeviceBroker.ts:1664-1667 | The sorted routes are ordered by the comparator |
| StartQueue.OneAtATime | src/agentHost/AhpAgentRuntime.ts:294-406 | At most one start body runs |
| StartQueue.EntersInCallOrder | src/agentHost/AhpAgentRuntime.ts:294-406 | Bodies begin in call order, each at most once, whatever is aborted |
| StartQueue.TurnComesIffEarlierOver | src/agentHost/AhpAgentRuntime.ts:294-317 | A waiting start gets its turn exactly when every earlier start is over |
| StartQueue.NeverStuck | src/agentHost/AhpAgentRuntime.ts:294-406 | While a start is unfinished, the first one not over runs or may enter |
| StartQueue.EveryoneIsServed | src/agentHost/AhpAgentRuntime.ts:294-406 | Served in call order, all starts that wait get their turn, run and finish |
| StartQueue.StepMeans | src/agentHost/AhpAgentRuntime.ts:294-406 | What each step does to the starts and their order |
| StartQueue.TailMeansAll | src/agentHost/AhpAgentRuntime.ts:296-301 | The awaited tail is settled exactly when all earlier turns are released |
| StartQueue.Starts.Perform | src/agentHost/AhpAgentRuntime.ts:294-406 | Any step of a run done on the object gives the specification state: one body at most runs and bodies have begun in call order |
| StartQueue.Starts.PredecessorSettled | src/agentHost/AhpAgentRuntime.ts:401-402 | Walks the chain of turns to the answer the specification gives |
| SessionCatalog.ScanSessionCatalog | src/agentHost/AhpAgentRuntime.ts:3900-3956 | The scan ends after at most 51 requests and 10,000 entries, follows each answer's cursor and repeats none but for the one retry without limit; it finds the first match among the entries within the bound whenever there is one, says there is none only after the last page, fails only on an error answer, and reports bad pagination only for an entry beyond the limit, a malformed or repeated cursor, or a page too many |
| SessionCatalog.VisitPage | src/agentHost/AhpAgentRuntime.ts:3925-3935 | One page is visited in order up to the first match or the entry limit |

## Left out

Parts of the modelled files:

- Event queue: the sizes of events that are not output text are parameters; `return` of the iterator is `close`.
- JSON check: getters and proxies that throw (the source then rejects the value) and `safeParseJsonText`, which parses text before the check.
- Registry: the order of catalog entries, the list and descriptor projections, delegation principals and their random capabilities, `dispose`, and the migration of version 1 catalogs. Labels, capabilities and tags of a node are one opaque value.
- Policy: the frame limit of the directory is an arbitrary subset `raw` of the nodes; encoding of list entries is not modelled.
- Task service: snapshots, notifications and publishing have no content; timers are operations that may begin at any time; the queue that serialises starts by delegation id is not modelled, which allows more interleavings than the source has; continuation descriptors are not part of a record here.
- BrokerTaskServices.BrokerTaskService.DispatchStart: a failed check of the remote peer or its approval ends the dispatch like a missed deadline (`deadlineOk`), and the contents of the request are not modelled.
- Task store: compaction of the journal on saving is in module Journal, and file contents are not modelled. The order in which the initialisation visits the records is arbitrary.
- Lifecycle: status listeners, error texts and `takeoverBlocked`. Nothing says that `running` implies a successful `start()`: lines 276-282 re-adopt a runtime whose start and clean-up both failed.
- EventQueueOrder: a consumer or a new push may come before any job, as other parts of the program may call at any time; only the jobs of the queue itself are ordered among each other.
- Journal: the envelope budget of the whole frame and the refinements about task state; time and event sizes are parameters.
- Recovery: a replay of missed actions is a backlog that is heard later; an emission that throws counts as made.
- Recovery.ResponseDelivery.RestoreResponsePart: the mapper's cut at 16,384 code units, redaction, the contents of tool events, and that a restored running tool also marks the streaming state.
- RetainedHost: the leases' own subscriptions, web-socket proxies and failure listeners. Between launch and the error for an editor Host that Host is on record, as in the source; nothing is claimed about editor Hosts.
- Start queue: what a start body does, and how its clean-up after an abort is tracked.
- OwnedTaskPaging.ListOwnedTasks: titles, last known states and the cached metadata of a task are part of an arbitrary page size; the error for a route that contradicts its cached metadata is not modelled.
- OwnedTaskPaging.PagesPassSchema: covers pages with at least one task; an empty page is served without a size check, so for it the frame limit is a premise.
- SessionCatalog.ScanSessionCatalog: the requests' timeouts and cancellation are left out; the Host's answers are an arbitrary function of the request number.

Parts of the repository:

- `ListenerService`: its tunnel callbacks run outside its serial queue; when and how often they come is up to the exposure providers in src/tunnel (`CliDevTunnelExposureAdapter`, `DevTunnelCliProvider`), which drive external processes.
- `TaskRouteCatalog` and `BrokerOwnerLock`: files and processes; they appear as environment answers.
- The SDK client, authentication, terminals and session detachment of `AhpAgentRuntime`, socket and proxy connectors, command line and endpoint discovery, the Go process host and filesystem paths: input and output.
- The dashboard page, localisation and field-level schemas: shape checks without a hard property.
- `EditorSessionPolicy`, `WorkspaceSelection`, `AgentHostSourceSelector`, `RemotePeerPolicyStore`, `CodeCliVersion`: they would add only easy members.
