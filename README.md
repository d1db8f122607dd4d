# ShellCore replication and quest-graph logic, in Dafny

This project models three pieces of sequential logic from the ShellCore game and proves
properties of them. The engine objects behind each piece are replaced by plain data.

- **`EntityNetworkAdapter`** is the per-entity replication component. The model covers:
  - the replicated state record `ServerResponse`, with its constructor, its field order and
    its `Equals` test exactly as written;
  - the part-status table, which the server rewrites (`ServerDetachPart`, `ServerResetParts`)
    and a client applies one part per tick (`SyncUpParts`);
  - the tractor-target queue (`SetTractorID`, `UpdateTractorClientRpc`, `HandleQueuedTractor`);
  - the server's publication gate (`AttemptCreateServerResponse`);
  - the one-shot request latch (`PreliminaryStatusCheck`);
  - the id renaming (`GetIDClientRpc`), the ability lookup (`GetAbilityFromLocation`), the
    faction choice and change routing in `Start`, and the despawn counters.
- **`UsePartCondition`** is a quest condition. `CheckParts` counts the blueprint parts that
  match, skips the first `partCount - 1` of them when a custom count is set, completes the
  condition, and fires its successor.
- **`MissionTraverser`** walks a quest's node graph. It tags dialogue nodes for mission use,
  and it starts checkpoint and task nodes by name.

Modules follow the source's structure:

| file | module | models |
|---|---|---|
| `wrappers.dfy` | `Wrappers` | `Option`, for Unity's null |
| `search.dfy` | `Search` | linear searches with early exit, and index lists |
| `vectors.dfy` | `Vectors` | `Vector2`/`Vector3` with real components |
| `network_mode.dfy` | `NetworkModes` | server / host / client role |
| `server_response.dfy` | `ServerResponses` | `ServerResponse` |
| `part_status.dfy` | `PartStatuses` | `PartStatusResponse` and the part-status table |
| `player_ids.dfy` | `PlayerIds` | the `"player-" + OwnerClientId` naming |
| `tractor_queue.dfy` | `TractorQueues` | the tractor-target queue as a state machine |
| `entity_network_adapter.dfy` | `Networking` | the `EntityNetworkAdapter` class |
| `use_part_condition.dfy` | `UsePartConditions` | the `UsePartCondition` class |
| `mission_traverser.dfy` | `MissionTraversers` | the `MissionTraverser` class |

The source's stateful members are Dafny methods of a class with the same fields, and each is
tied to a specification function. The rest of the model works on values:

- `Detach` and `ResetAll` specify the part-status table.
- `PartToRemove` specifies `SyncUpParts`.
- `Receive` and `Resolve` specify the tractor queue.
- `Scan` specifies `CheckParts`.
- `WalkFrom`, `Tagged` and `MissionCanvasAfter` specify `Traverse`.

Several inputs become parameters:

- The spawn registry is a map.
- The shell cores near the husk are a list of optional "within pop-in distance" flags.
- The blueprint catalogue is a set of names.
- `ShipBuilder.CheckForOrigin` is a boolean.
- The effect of the base `Traverser.StartQuest` on `currentNode` is an optional node.

The `TemporaryStateWrapper` is reduced to the `clientID` it stamps on snapshots.
Outgoing calls whose code is not part of this model are recorded in fields: request
counters, the list of applied tractor targets, the `Calculate`/`RemoveOrigin` counters, and
logs of the calls to the base `Traverser`.

## Model
| member | source | states |
|---|---|---|
| Search.FirstWhere | Assets/Scripts/Networking/EntityNetworkAdapter.cs:385-390 | the index of the first element satisfying the test, with none before it; None exactly when no element satisfies it |
| Search.IndicesWhereSpec | Assets/Scripts/Graphs/MissionTraverser.cs:51-58 | the index list of a node-list scan holds every matching index, no other index, in strictly increasing order |
| ServerResponses.Make | Assets/Scripts/Networking/EntityNetworkAdapter.cs:22-34 | the constructor stores each parameter in its own field; its parameters follow the serialization order of lines 50-62 |
| ServerResponses.ServerResponse.Equals | Assets/Scripts/Networking/EntityNetworkAdapter.cs:36-48 | the as-written test: equal `clientID`, `faction` and `power`, and every measured field farther apart than its threshold (1 squared distance, 0.1 s, 0.5 health); its properties are the `Equals*` lemmas |
| ServerResponses.InitialResponse | Assets/Scripts/Networking/EntityNetworkAdapter.cs:154 | the first record is at rest at the origin, with identity rotation, timer 0, power 0, health 1000/250/500, the owner's id and the chosen faction |
| ServerResponses.EqualsIrreflexive | Assets/Scripts/Networking/EntityNetworkAdapter.cs:36-48 | as written, no record is Equal to itself |
| ServerResponses.EqualsSymmetric | Assets/Scripts/Networking/EntityNetworkAdapter.cs:36-48 | a.Equals(b) iff b.Equals(a) |
| ServerResponses.EqualsOnlyFarApart | Assets/Scripts/Networking/EntityNetworkAdapter.cs:36-48 | Equal records are distinct values; two records within 0.5 shell, or within squared distance 1 in position, are never Equal |
| ServerResponses.EqualsHoldsAfterLargeChange | Assets/Scripts/Networking/EntityNetworkAdapter.cs:36-48 | the initial record is Equal to one in which the entity moved, turned, fired and lost health in every pool |
| ServerResponses.Shifted | Assets/Scripts/Networking/EntityNetworkAdapter.cs:36-48 | a record with the same `clientID`, `faction` and `power` and every measured field moved past its threshold |
| ServerResponses.EqualsHoldsForShifted | Assets/Scripts/Networking/EntityNetworkAdapter.cs:36-48 | every record is Equal, both ways round, to a different record: the predicate tests for large change, not for equality |
| PartStatuses.Detach | Assets/Scripts/Networking/EntityNetworkAdapter.cs:383-391 | same length and locations; only the first entry at the location becomes detached; no other entry changes; with no entry at the location the table is unchanged |
| PartStatuses.ResetAll | Assets/Scripts/Networking/EntityNetworkAdapter.cs:397-403 | same length; every entry detached; every location kept in place |
| PartStatuses.PartStatus.Equals | Assets/Scripts/Networking/EntityNetworkAdapter.cs:85-88 | entries are Equal iff their locations are; the flag is ignored (see `DetachWriteEqualsReplaced`) |
| PartStatuses.DetachIdempotent | Assets/Scripts/Networking/EntityNetworkAdapter.cs:383-391 | detaching a location twice equals detaching it once |
| PartStatuses.ResetIdempotent | Assets/Scripts/Networking/EntityNetworkAdapter.cs:397-403 | resetting twice equals resetting once |
| PartStatuses.DetachAfterReset | Assets/Scripts/Networking/EntityNetworkAdapter.cs:383-403 | after a reset, a detach changes nothing |
| PartStatuses.NeverReattached | Assets/Scripts/Networking/EntityNetworkAdapter.cs:383-403 | neither operation turns a detached entry back |
| PartStatuses.UniquenessPreserved | Assets/Scripts/Networking/EntityNetworkAdapter.cs:383-403 | both operations keep locations unique when they were |
| PartStatuses.DetachWriteEqualsReplaced | Assets/Scripts/Networking/EntityNetworkAdapter.cs:85-88 | `PartStatusResponse.Equals` compares locations only, so the entry a detach writes Equals the entry it replaces |
| PartStatuses.FindPart | Assets/Scripts/Networking/EntityNetworkAdapter.cs:563 | the first present part at the location, with none before it; None when no present part is there |
| PartStatuses.PartToRemove | Assets/Scripts/Networking/EntityNetworkAdapter.cs:559-566 | a removed part is present and named by a detached entry; it is found through the first detached entry that has a present part; nothing is removed iff no present part is named by a detached entry |
| PartStatuses.SyncProgress | Assets/Scripts/Networking/EntityNetworkAdapter.cs:554-569 | a tick that removes a part lowers the number of pending parts by exactly one; a tick that removes nothing leaves none pending |
| PlayerIds.Decimal | Assets/Scripts/Networking/EntityNetworkAdapter.cs:250 | the decimal form of the owner id is a non-empty digit string, at least two digits from 10 on |
| PlayerIds.DecimalInjective | Assets/Scripts/Networking/EntityNetworkAdapter.cs:250 | different ids have different decimal forms |
| PlayerIds.PlayerName | Assets/Scripts/Networking/EntityNetworkAdapter.cs:250 | `"player-"` followed by the owner id in decimal; distinct owners get distinct names (`PlayerNamesDistinct`) |
| PlayerIds.ResolvedId | Assets/Scripts/Networking/EntityNetworkAdapter.cs:245-252 | the id becomes `"player-"` + owner id when it is `"player"` or the adapter is a player's; otherwise it is kept |
| PlayerIds.ResolvedIdNotPlaceholder | Assets/Scripts/Networking/EntityNetworkAdapter.cs:245-252 | the placeholder `"player"` never survives the renaming |
| PlayerIds.ResolvedIdIdempotent | Assets/Scripts/Networking/EntityNetworkAdapter.cs:245-252 | renaming an already renamed id changes nothing |
| PlayerIds.PlayerNamesDistinct | Assets/Scripts/Networking/EntityNetworkAdapter.cs:250 | players of different sessions get different names |
| TractorQueues.TargetRoundTrip | Assets/Scripts/Networking/EntityNetworkAdapter.cs:264-268 | the (id, setNull) pair the server sends decodes on the client to the target the server set, null included |
| TractorQueues.Receive | Assets/Scripts/Networking/EntityNetworkAdapter.cs:311-317 | off a pure client nothing changes; on a client the target is queued and replaces any earlier one |
| TractorQueues.Resolve | Assets/Scripts/Networking/EntityNetworkAdapter.cs:431-455 | inactive: nothing; id not spawned: queue and id cleared, nothing applied; spawned without a husk: still pending, nothing applied; otherwise the target or null is applied and the queue cleared |
| TractorQueues.IdleTicks | Assets/Scripts/Networking/EntityNetworkAdapter.cs:433 | ticks with nothing queued change nothing and apply nothing |
| TractorQueues.TicksApplyQueuedOnce | Assets/Scripts/Networking/EntityNetworkAdapter.cs:431-455 | between broadcasts the queued target is applied at most once, and nothing else is |
| TractorQueues.LatestBroadcastWins | Assets/Scripts/Networking/EntityNetworkAdapter.cs:311-317 | on a client, after the last broadcast only its target can be applied, at most once; an unresolved earlier target is never applied |
| TractorQueues.ServerNeverApplies | Assets/Scripts/Networking/EntityNetworkAdapter.cs:313 | server and host adapters never queue or apply a target, over any run of events |
| TractorQueues.EncodeTarget | Assets/Scripts/Networking/EntityNetworkAdapter.cs:267 | the pair sent for a target: its id and false, or 0 and true for no target; inverted by `DecodeTarget` (`TargetRoundTrip`) |
| TractorQueues.DecodeTarget | Assets/Scripts/Networking/EntityNetworkAdapter.cs:315-316 | no target when `setNull`, else the id |
| TractorQueues.Run | Assets/Scripts/Networking/EntityNetworkAdapter.cs:310-317 | a client's broadcasts and ticks in order, with `Receive` and `Resolve` applied one event at a time; its properties are `RunAppend` and the lemmas after it |
| Networking.CreateResponse | Assets/Scripts/Networking/EntityNetworkAdapter.cs:108-124 | the snapshot copies the husk's motion, faction, timer and health, stamps the given session id, and reports power only for a shell core |
| Networking.GetAbilityFromLocation | Assets/Scripts/Networking/EntityNetworkAdapter.cs:336-349 | the main bullet for location zero; otherwise the ability of the first present part at the location; otherwise none |
| Networking.Route | Assets/Scripts/Networking/EntityNetworkAdapter.cs:159-169 | a record is applied to the local player iff it carries this client's id and the adapter is a player's; otherwise to the husk iff there is one |
| Networking.CSharpRem | Assets/Scripts/Networking/EntityNetworkAdapter.cs:152 | C# `%`: the remainder has the sign of the dividend and is smaller than the divisor in magnitude; it is Dafny's `a % b` for a non-negative dividend and `-((-a) % b)` for a non-positive one |
| Networking.PublishGateClosedForm | Assets/Scripts/Networking/EntityNetworkAdapter.cs:534-546 | the gate is `(husk and (isPlayer or not serverReady or a shell core in range)) or not serverReady or dirty`; it is always open before the server is ready or when dirty; without a husk it is open only then |
| Networking.PublishGate | Assets/Scripts/Networking/EntityNetworkAdapter.cs:534-546 | the publication rule as the source computes it, through the intermediate `closeToPlayer`; `PublishGateClosedForm` gives it in closed form |
| Networking.SomeInRange | Assets/Scripts/Networking/EntityNetworkAdapter.cs:535-544 | some present shell core is within pop-in distance of the husk |
| Networking.AnyShellCoreInRange | Assets/Scripts/Networking/EntityNetworkAdapter.cs:535-544 | the loop finds a core in range iff some present shell core is within pop-in distance |
| Networking.EntityNetworkAdapter.constructor | Assets/Scripts/Networking/EntityNetworkAdapter.cs:138-142 | a fresh adapter holds the default record, no queued tractor, no pending requests, no wrapper, and the spawn-time table, `serverReady` and husk it is given |
| Networking.EntityNetworkAdapter.Start | Assets/Scripts/Networking/EntityNetworkAdapter.cs:143-171 | on a server: a player is counted, a player with no faction gets `players % factionCount` and the owner's own player gets 0, the initial record is written and the blueprint resolved; zero factions throw; on a client the change handler is installed |
| Networking.EntityNetworkAdapter.OnNetworkSpawn | Assets/Scripts/Networking/EntityNetworkAdapter.cs:173-180 | only a wrapper created here is stamped with the owner's session id; an existing wrapper keeps its id |
| Networking.EntityNetworkAdapter.ChangePositionWrapper | Assets/Scripts/Networking/EntityNetworkAdapter.cs:319-323 | a wrapper created here keeps the default `clientID` 0; an existing wrapper keeps its id |
| Networking.EntityNetworkAdapter.OnStateChanged | Assets/Scripts/Networking/EntityNetworkAdapter.cs:159-169 | before `Start` installs the handler, nothing is routed; afterwards the record goes where `Route` says |
| Networking.EntityNetworkAdapter.OnNetworkDespawn | Assets/Scripts/Networking/EntityNetworkAdapter.cs:187-203 | on a server, or on a host for a player, the owner is marked as not spawned; the husk is gone; servers and hosts uncount a player |
| Networking.EntityNetworkAdapter.GetDataStringsClientRpc | Assets/Scripts/Networking/EntityNetworkAdapter.cs:228-234 | the player name and blueprint string are stored and the blueprint resolved |
| Networking.EntityNetworkAdapter.GetIDClientRpc | Assets/Scripts/Networking/EntityNetworkAdapter.cs:244-252 | `idToUse` is `ResolvedId` of the received id: never the placeholder, and the received id itself for a non-player with a real id |
| Networking.EntityNetworkAdapter.ForceNetworkVarUpdateServerRpc | Assets/Scripts/Networking/EntityNetworkAdapter.cs:259-263 | sets `dirty`, which opens the gate of the next server tick that reaches it |
| Networking.EntityNetworkAdapter.UpdateTractorClientRpc | Assets/Scripts/Networking/EntityNetworkAdapter.cs:310-317 | the queue fields change exactly as `Receive` says |
| Networking.EntityNetworkAdapter.SetTractorID | Assets/Scripts/Networking/EntityNetworkAdapter.cs:264-268 | the target is stored and survives the broadcast to the same adapter; the queue flag is raised only on a client |
| Networking.EntityNetworkAdapter.HandleQueuedTractor | Assets/Scripts/Networking/EntityNetworkAdapter.cs:431-455 | the queue fields change as `Resolve` says, and the applied target, if any, is handed to the husk |
| Networking.EntityNetworkAdapter.ServerDetachPart | Assets/Scripts/Networking/EntityNetworkAdapter.cs:383-391 | the table becomes `Detach` of the old table at the part's location |
| Networking.EntityNetworkAdapter.ServerResetParts | Assets/Scripts/Networking/EntityNetworkAdapter.cs:397-403 | the table becomes `ResetAll` of the old table |
| Networking.EntityNetworkAdapter.PreliminaryStatusCheck | Assets/Scripts/Networking/EntityNetworkAdapter.cs:416-429 | ready iff the blueprint is known; the data-string and id requests go out together, at most once over any sequence of calls |
| Networking.EntityNetworkAdapter.AttemptCreateServerResponse | Assets/Scripts/Networking/EntityNetworkAdapter.cs:530-552 | on a server the gate decides publication; publishing clears `dirty` and writes a snapshot of the husk stamped with the wrapper's `clientID`, and throws without a husk or without a wrapper; other roles change nothing |
| Networking.EntityNetworkAdapter.SyncUpParts | Assets/Scripts/Networking/EntityNetworkAdapter.cs:554-569 | only on a pure client with a present, living core (the husk, else the player's core for a player adapter); then exactly the part `PartToRemove` names is removed from that core, and nothing else changes |
| Networking.PartsSynced | Assets/Scripts/Networking/EntityNetworkAdapter.cs:554-569 | the effect of one part synchronisation: only on a pure client with a present, living core (the husk, else the player's core for a player adapter), exactly the part `PartToRemove` names is removed from that core, and nothing else changes |
| Networking.EntityNetworkAdapter.Update | Assets/Scripts/Networking/EntityNetworkAdapter.cs:571-590 | before the blueprint is known a tick only works the request latch and changes nothing else; afterwards it is a `ReadyTick`; the latch caps both requests at one, and no record is written off a server |
| Networking.EntityNetworkAdapter.ReadyTick | Assets/Scripts/Networking/EntityNetworkAdapter.cs:574-589 | the tractor queue follows `Resolve`; on a server the gate decides publication, clearing `dirty`, stamping the snapshot with the wrapper's id, throwing without a husk or wrapper; unless that threw, one part is removed as `PartToRemove` says (`ReadyTicked`) |
| Networking.EntityNetworkAdapter.ReadyTicked | Assets/Scripts/Networking/EntityNetworkAdapter.cs:574-589 | the new state of a ready tick in terms of the old one: `Resolve` for the queue, `PublishGate` for `dirty`, `state` and the throw, `PartsSynced` for the cores |
| UsePartConditions.ScanClosedForm | Assets/Scripts/Graphs/UsePartCondition.cs:91-117 | for m matches and s = `partCount - 1` skips (custom count) or 0: min(m, s) are only counted, the remaining m - min(m, s) fire `Calculate`, all m remove an origin when a sector is named, and the condition completes iff m > s |
| UsePartConditions.Step | Assets/Scripts/Graphs/UsePartCondition.cs:99-114 | one loop iteration: a non-matching part changes nothing; a match removes an origin when a sector is named, then is only counted while fewer than `partCount - 1` were counted under a custom count, else completes the condition and fires `Calculate` |
| UsePartConditions.Scan | Assets/Scripts/Graphs/UsePartCondition.cs:97-115 | the loop over all parts, one `Step` per part, from a zero tally; `ScanClosedForm` gives its outcome in closed form |
| UsePartConditions.Threshold | Assets/Scripts/Graphs/UsePartCondition.cs:106 | the threshold is `partCount` under a custom count of at least 1, and 1 otherwise |
| UsePartConditions.CompletesAtThreshold | Assets/Scripts/Graphs/UsePartCondition.cs:97-114 | completion iff the matches reach `max(1, partCount)` (custom count) or 1; completion iff `Calculate` fired; the counter stays within `max(0, partCount - 1)`; without a custom count every match fires |
| UsePartConditions.NonMatchingIgnored | Assets/Scripts/Graphs/UsePartCondition.cs:99 | a part that does not match changes neither count, state, firings nor origin removals |
| UsePartConditions.UsePartCondition.constructor | Assets/Scripts/Graphs/UsePartCondition.cs:33-48 | a condition with its configured part, ability, sector and count, `Uninitialized`, not listening, with no calls recorded |
| UsePartConditions.UsePartCondition.CheckParts | Assets/Scripts/Graphs/UsePartCondition.cs:91-117 | when a sector is named and no origin is found, nothing changes; otherwise the state becomes `Completed` exactly when `Scan` completes (and is kept otherwise), and `Calculate`/`RemoveOrigin` are called as often as `Scan` counts |
| UsePartConditions.UsePartCondition.Init | Assets/Scripts/Graphs/UsePartCondition.cs:71-77 | registers the listener; ends `Listening` or `Completed`, and `Completed` iff the origin check passes and the matches reach the threshold; `Calculate` and `RemoveOrigin` are called as often as `Scan` counts, or not at all when the origin check fails |
| UsePartConditions.UsePartCondition.DeInit | Assets/Scripts/Graphs/UsePartCondition.cs:79-82 | unregisters the listener and ends `Uninitialized` |
| MissionTraversers.StepFrom | Assets/Scripts/Graphs/MissionTraverser.cs:88-93 | one iteration stops because `Traverse()` returned -1, the knob does not exist, or the knob is unconnected; otherwise it moves to the body of connection 0 of the chosen knob |
| MissionTraversers.WalkFrom | Assets/Scripts/Graphs/MissionTraverser.cs:74-95 | the loop of `Traverse` as recursion on the remaining moves: stop with no node, stop at a node whose step stops, stop out of fuel, or visit the node and continue from the next; `WalkShape` states what it computes |
| MissionTraversers.WalkShape | Assets/Scripts/Graphs/MissionTraverser.cs:74-95 | the walk stays on the canvas and starts at the current node; it stops with no node iff there is none; otherwise it ends on the node that stopped, for that node's reason, or reports `OutOfFuel` exactly after all `fuel` moves were made with a further move pending; each visited node is followed by the node its step leads to |
| MissionTraversers.WalkFuelIrrelevant | Assets/Scripts/Graphs/MissionTraverser.cs:76-94 | a walk that stopped on its own is the same with any larger bound |
| MissionTraversers.Tagged | Assets/Scripts/Graphs/MissionTraverser.cs:82-85 | the node states after tagging the visited nodes in order; `TaggedSpec` gives the result |
| MissionTraversers.TaggedSpec | Assets/Scripts/Graphs/MissionTraverser.cs:67-70 | every visited dialogue and end-dialogue node is in the `Mission` state; every other node keeps its state |
| MissionTraversers.MissionCanvasAfter | Assets/Scripts/Graphs/MissionTraverser.cs:78-81 | `missionCanvasNode` after the visited nodes in order; `CanvasSpec` gives the result |
| MissionTraversers.CanvasSpec | Assets/Scripts/Graphs/MissionTraverser.cs:63-66 | `missionCanvasNode` ends as the last start-dialogue node visited, or unchanged when none was visited |
| MissionTraversers.WalkAdvance | Assets/Scripts/Graphs/MissionTraverser.cs:86-93 | one iteration of the loop: the remaining walk from a node either stops at it or continues from the node its step leads to, with one move less |
| MissionTraversers.MissionTraverser.constructor | Assets/Scripts/Graphs/MissionTraverser.cs:12-16 | a fresh traverser over the canvas, with no current node, checkpoint or recorded calls; the static `missionCanvasNode` keeps the value it had |
| MissionTraversers.MissionTraverser.Tag | Assets/Scripts/Graphs/MissionTraverser.cs:78-85 | the node states become `Tagged` with the node, and `missionCanvasNode` becomes `MissionCanvasAfter` it |
| MissionTraversers.MissionTraverser.SetNode | Assets/Scripts/Graphs/MissionTraverser.cs:61-72 | the node is tagged as in `Traverse`, then handed to the base class |
| MissionTraversers.MissionTraverser.Traverse | Assets/Scripts/Graphs/MissionTraverser.cs:74-95 | the reason and the final `currentNode` are those of `WalkFrom`; exactly the walk's nodes are tagged; `missionCanvasNode` follows the walk; nothing else changes |
| MissionTraversers.MissionTraverser.TraverseStep | Assets/Scripts/Graphs/MissionTraverser.cs:78-93 | one loop iteration at the current node: the node is tagged, then the walk either stops there for the step's reason or moves along connection 0 of the chosen knob with one move less, as `WalkFrom` says |
| MissionTraversers.MissionTraverser.ActivateCheckpoint | Assets/Scripts/Graphs/MissionTraverser.cs:27-42 | records the checkpoint and the mission name, calls the base class, forces exactly the start-task nodes named `missionName + "_" + taskID`, and hands them to `SetNode` in node-list order; the traverser's own tagging leaves node states and `missionCanvasNode` untouched, since it tags only dialogue nodes (what `base.SetNode` does is not part of this model) |
| MissionTraversers.MissionTraverser.ForceCheckpointTasks | Assets/Scripts/Graphs/MissionTraverser.cs:32-41 | the loop forces exactly the matching start-task nodes, leaves every other `forceTask` as it was, and sets the matches in list order |
| MissionTraversers.MissionTraverser.ActivateTask | Assets/Scripts/Graphs/MissionTraverser.cs:49-59 | exactly the start-task nodes with that task id are started, in node-list order |
| MissionTraversers.MissionTraverser.StartQuest | Assets/Scripts/Graphs/MissionTraverser.cs:18-25 | refreshes the mission name; does nothing more iff the checkpoint is `missionName + "_complete"`; otherwise the base class runs and the traverser is removed when no node is current |

## Left out

- `Assets/GasScript.cs` is not part of this model. It is cosmetic particle tuning with floating point and randomness.
- Netcode machinery is not modelled: `NetworkVariable` and `NetworkList` delivery, RPC attributes and ownership checks, `NetworkSerialize`, and `ClientMessage`. RPCs are direct method calls, except `RequestDataStringsServerRpc` and `RequestIDServerRpc`, which `PreliminaryStatusCheck` records as request counters (`dataStringRequests`, `idRequests`) because their server-side handlers are not part of this model. The serialization order is kept only as the constant `ServerResponses.WireOrder`.
- Netcode's use of `ServerResponse.Equals` to suppress unchanged values is not modelled. The predicate itself is modelled exactly as written.
- Floating point is modelled as exact reals. The quaternion rotation is represented by its Euler angles. `Vector2 ==` is exact equality; Unity compares with a small tolerance.
- Physics and transforms are inputs, not computed. The "within `POP_IN_DISTANCE`" test of each shell core is an input flag.
- `SetUpHuskEntity` is left out: spawning, `Instantiate`, `SectorManager`, `PlayerCore`, `Rebuild`. The husk is an optional `Entity` value that the constructor receives. `Update` calls `SetUpHuskEntity` before `AttemptCreateServerResponse`; in the model that call changes nothing.
- Networking.PartsSynced, Networking.EntityNetworkAdapter.SyncUpParts and Networking.EntityNetworkAdapter.OnNetworkDespawn: on the owner's own client `SetUpHuskEntity` makes the husk the player's core itself (EntityNetworkAdapter.cs:510), so removing a part from the husk removes it from the player's core, and despawning destroys the player's core. The model keeps `huskEntity` and `playerCore` as two separate values and does not follow that identity. With both present, `PartsSynced` removes the part from the husk only and leaves `playerCore` unchanged, and `OnNetworkDespawn` clears the husk only. Together they can describe a state the source cannot reach: the husk lacks the part while the player core still has it.
- `UpdatePlayerState` and `UpdateCoreState` write engine components. The model records only which core a record is routed to.
- `ChangePositionWrapper` is modelled only as far as it creates the wrapper. `ChangeDirectionServerRpc`, `RequestTractorUpdateServerRpc`, `ExecuteAbilityServerRpc`, `ExecuteVendorPurchaseServerRpc`, `ExecuteAbilityCosmeticClientRpc`, `GetDraggableFromNetworkId`, `TransformIsNetworked` and `GetNetworkId` are outside the modelled core.
- UI and camera sinks are not modelled: the player-name registration in `Update`, `MoveCraft`, `CameraScript`, `ProximityInteractScript`, `TaskManager.TryAddObjective`, and the objective-list removal in `DeInit`.
- `SyncUpParts`: `core.RemovePart` is modelled as removing the part from the core's part list. Its other engine effects are not modelled.
- `Start`: with zero factions the C# `%` throws. The model reports this as `threw`, after `players` was already incremented.
- `AttemptCreateServerResponse`: when the gate is open without a husk or without a wrapper, the source dereferences null. The model reports this as `raised`, after `dirty` was cleared. `Update` stops there.
- Networking.EntityNetworkAdapter.AttemptCreateServerResponse: the `TemporaryStateWrapper` is reduced to its `clientID`. Its position and direction fields feed the left-out movement code and are not modelled. If `ChangePositionWrapper` creates the wrapper before `OnNetworkSpawn` runs, the wrapper keeps id 0, so every snapshot carries 0. `Route` then sends a player's own record to its husk on every client other than client 0. The model allows this order of calls and does not rule it out.
- Networking.EntityNetworkAdapter.constructor: `Awake` creates an empty part-status table when none exists yet and sets `serverReady` to false. The model takes the table and `serverReady` as spawn-time inputs, because the code that fills the table and sets `serverReady` is not part of this model.
- `UsePartCondition`: `Calculate` on the successor and `ShipBuilder.RemoveOrigin` are counted, not run. `CheckForOrigin` is an input. A null sector name is treated as the empty one. The exception when knob 0 has no connection is not modelled.
- The base `Traverser`, `Node` and `NodeGUI` classes are not part of this model:
  - `Node.Traverse()` is the node's `chosenOutput` field.
  - `base.SetNode`, `base.activateCheckpoint` and `base.StartQuest` are recorded as calls.
  - The effect of `base.StartQuest` on `currentNode` is an input.
  - `findRoot().missionName` is the traverser's `rootMissionName`.
  - Node kinds are disjoint: a start-dialogue node is not also a dialogue node.
- MissionTraversers.MissionTraverser.constructor: the static `StartDialogueNode.missionCanvasNode` is a field of each traverser, starting from the value the static holds when the traverser is made. Traversers alive at the same time do not see each other's writes to it. The node it names is an index into the traverser's own canvas.
- MissionTraversers.MissionTraverser.Traverse: the source loops without bound on a cyclic graph. The model takes a bound on the number of moves and reports `OutOfFuel` when the bound is reached. `WalkFuelIrrelevant` shows the bound changes nothing for a walk that stops on its own.
- MissionTraversers.WalkShape: an out-of-range output index makes the source throw. The model stops the walk with the reason `NoSuchKnob`.
