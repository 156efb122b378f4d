# Verified model of the VPN panel, its worker and its node agent

The panel keeps accounts, their devices and one peer per device and node; the worker copies the
panel's state to the nodes and reports back; the node agent keeps the tunnels of one node in a
configuration file; the user page follows changes over an event stream. This project models these parts
and proves what they promise over every run, every input and every interleaving of their steps. Where
the code does not keep a promise, a concrete run shows it and the exact condition is proved instead.

`dafny verify dfyconfig.toml` checks all of it.

## How it is laid out

- **The panel database.** `PanelModel` holds the rows and the properties of a committed state, `Devices`,
  `Lifecycle` and `NodeResults` the transactions as functions with what each keeps, `TrafficLedger` the
  four traffic tables, `PanelRuns` whole runs. `PanelLaws` says what each transaction does, column by column;
  `TrafficRuns` and `AccountRuns` follow an account's traffic and its departure over runs. `PanelDb` is the imperative form: a class `Database` with
  one field per table, whose methods loop and assign as the services do and are proved to do exactly what
  the functions say, return sets included.
- **Panel, worker and nodes together.** `WorkerSync` is one sync of one node; `Fleet` interleaves panel
  transactions, heartbeats and the steps of a sync job over the nodes' real tunnel tables; `FleetSync` is
  what a job does to a node's tunnels, `FleetLimits` where addresses stop being exclusive, and
  `FleetGuards` what keeps them so. `AdminBlock` follows one account's block over runs of the panel.
- **The node agent.** `ConfigText` and `AgentLayout` are the text file and its sections, `AgentConfig` the
  class `Agent` with the line-buffer loops, `AgentInterface` the interface block and the live update.
  `AgentRefinement`, `AgentRewrite` and `AgentLive` prove that the text refines a map of peers, that
  interface rewrites respect it, and that the running interface follows the file; `AgentSettings` reads the
  interface block back.
- **Notifications.** `EventBuffer` and `EventSession` are the payloads parked per savepoint; `EventHub` is
  the hub with its timers and one-slot queues.
- **The user page.** `UserStream` is the stream client, `UserPage` the refresh loop as a state machine and
  `UserPageLoop` the composable as a class with the stream as an object of its own.
- **The rest.** `Operations` (start, finish, retries and dead letters), `Migration` (0019), `AddressPool` and
  `DeviceLimit` (concurrent creates), `ArchiveNames`.

## What the proofs found

- **Exclusivity of addresses is not unconditional.** `FleetLimits.ExclusivityExactly` proves it for all runs
  if and only if no node is managed, or one is, no account is removed and no report commits halfway.
  With two nodes, `_split_peers` (panel/worker/app/handlers.py:473-476) puts a peer whose status is
  `deleted` back on the node that had confirmed its removal, and the other node's confirmation then
  releases the address. Removing an account (panel/backend/app/routers/api_parts/users.py:363-387)
  frees its addresses at once while nothing ever tells a node to drop keys that left the snapshot,
  although the comment on that route says the node side removes them; and a report whose enforcement
  queues an operation commits in between
  (panel/backend/app/routers/internal_worker_parts/nodes.py:63-65,
  panel/backend/app/services/operations.py:39-40) and goes on with the rows it had read
  (panel/backend/app/database.py:10), so a peer restored meanwhile is overwritten as `deleted`.
  A run is exclusive throughout exactly when every step is: a put whose key and address some device still
  holds, and a report, half a report, deletion or removal that takes no address from a device with a tunnel
  (`FleetGuards.RunIsExclusiveExactly`).
  `FleetGuards` also says what the single steps must respect: with any number of nodes, removals and
  split reports, every run is exclusive in which no snapshot puts a `deleted` peer and no account goes
  while one of its keys is installed or about to be; with one node the first condition is met by itself
  unless a peer is revived between the halves of a report that is about to confirm it gone.
- **An administrator's block is forgotten** once a pass finds the account expired or over its limit: the
  pass overwrites the stored status, and a later pass that finds neither reactivates the account
  (`AdminBlock.AdminBlockLastsExactly`, with a run in `AdminBlock.BlockIsLost`).
- **Lifetime is the sum of the days** only while no delta is booked before the day of the last reset
  (`TrafficLedger.BookKeepsDays`), and the sum of the node rows only while no node with booked traffic is
  removed (`TrafficLedger.ForgetNodeConservesExactly`).
- **Parked notifications can be lost, never leaked**: a released savepoint's payload goes with the next
  rollback at its depth, and a failed flush drops every level. Nothing is lost exactly when nothing was
  parked at its level or deeper when a savepoint that is rolled back was opened
  (`EventBuffer.NothingLostExactly`). A payload recorded while no transaction is open is parked on level 0;
  a rollback then has nothing to roll back, and the next commit delivers it.
- **A stream's own tick can hide a delivery**: it uses the same slot (`EventHub.TickHidesDelivery`).
- **A retry armed for another token ignores the rejected-token latch** when the token returns
  (`UserStream.LatchHoldsExactly`).
- **Two start requests that overlap both enter the handler**: the row is read and written without a lock
  (`Operations.BodyRunsAtMostOnceExactly`), and such a late write also moves an ended operation back to
  running (`Operations.StatusMovesForwardExactly`, with a run in `Operations.EndedRunsAgain`).
- **An imported device limit can be overtaken** by a create that already passed its check, because the
  import does not take the owner's row lock (`DeviceLimit.ImportedLimitHoldsExactly`).
- **A live interface update that failed is not repeated** by sending the same configuration again
  (`AgentLive.FailedUpdateKeepsOldValues`), and a value it failed to clear is not cleared by any later
  configuration that leaves it empty (`AgentLive.FailedClearingStays`).

## Model

| member | source | states |
|---|---|---|
| `FleetLimits.ExclusivityExactly` | panel/worker/app/handlers.py:418-503 | In every run of panel transactions, heartbeats and sync jobs each tunnel belongs to a device that still holds its address, if and only if no node is managed, or at most one is and neither account removal nor a report that commits halfway can occur |
| `Fleet.OneNodeIsExclusive` | panel/worker/app/handlers.py:418-443 | With one managed node, stale snapshots and heartbeats interleaved at will, no account removed and every report committed at once, no reachable state has a tunnel whose device gave its address back; `FleetGuards.OneNodeGuardedIsExclusive` lifts the last two |
| `Fleet.RunKeepsInvariant` | panel/worker/app/handlers.py:418-443 | The inductive invariant behind it, for the same runs: every tunnel, every put in flight and every reported key is justified by a peer that is not confirmed gone |
| `FleetGuards.GuardedRunIsExclusive` | panel/worker/app/handlers.py:418-503 | With any number of nodes, account removals and reports that commit halfway, every state of a run is exclusive if no snapshot puts a `deleted` peer and no account goes while a key of it is installed or about to be |
| `FleetGuards.OneNodeGuardedIsExclusive` | panel/backend/app/routers/internal_worker_parts/nodes.py:211-255 | With one node, reports may commit halfway and accounts go: every state is exclusive if no second half finds a peer revived that it is about to confirm gone, and no account goes while a key of it is installed or about to be |
| `FleetGuards.RemovalIsExclusiveExactly` | panel/backend/app/routers/api_parts/users.py:363-387 | Removing an account leaves an exclusive state if and only if none of its devices has a tunnel |
| `FleetGuards.StepIsExclusiveExactly` | panel/worker/app/handlers.py:418-503 | From any exclusive state: a put leaves it exclusive if and only if some device still holds its key with its address; every step of the panel, reports, both halves of one, deletions and removals included, if and only if no device that gives its address up has a tunnel on any node |
| `FleetGuards.RunIsExclusiveExactly` | panel/worker/app/handlers.py:418-503 | With any number of nodes, removals and split reports, every state of a run is exclusive if and only if every step of it is clean in that sense |
| `FleetGuards.OneNodePutsNoDeleted` | panel/backend/app/services/node_config.py:315-344 | In a healthy panel with one node no snapshot puts a `deleted` peer |
| `FleetGuards.SecondHalfIsSane` | panel/backend/app/routers/internal_worker_parts/nodes.py:232-247 | The half of a report that works on stale statuses lets go of nothing that is held on any node |
| `FleetSync.JobDoesTheWholeSync` | panel/worker/app/handlers.py:418-443 | Whatever happens on the panel meanwhile, when the worker is done with a node its tunnels are what sending every put and every delete of the snapshot would have left |
| `FleetSync.JobInstallsTheSnapshot` | panel/worker/app/handlers.py:418-443 | Whatever happens meanwhile, on a finished node every peer of the snapshot that neither waits for removal nor is blocked has a tunnel with its address and key, and every other one has none |
| `FleetSync.PanelPeersAreInstalled` | panel/backend/app/services/node_config.py:315-344 | From the panel to the node: on a finished node each complete device has its tunnel if and only if, when the snapshot was fetched, its peer did not wait for removal and its owner was not blocked |
| `FleetSync.RunKeepsTables` | node/agent/agent.py:639-665 | In every run a key on file stays the live key of its tunnel |
| `Fleet.FetchedPutsAreHeld` | panel/backend/app/services/node_config.py:315-344 | Whatever a snapshot of the only node makes the worker install belongs to a device that holds the address, `deleted` peers included |
| `Fleet.TransactionKeeps` | panel/backend/app/services/devices.py:519-567 | No panel transaction that runs while a snapshot is in flight takes an address from a tunnel that is installed or about to be |
| `Fleet.ReportKeepsInvariant` | panel/backend/app/routers/internal_worker_parts/nodes.py:211-255 | A report releases addresses only of devices whose tunnels the same dump no longer showed |
| `Fleet.RequestKeeps` | panel/worker/app/handlers.py:418-443 | Each put and each delete sent to a node keeps the invariant |
| `Fleet.ExclusiveSeparatesTunnels` | panel/backend/app/services/devices.py:236-261 | Exclusive states have no two tunnels with a common address, on the same or on different nodes |
| `Fleet.ReleasedAddressIsFree` | panel/backend/app/services/devices.py:236-261 | A released device has no tunnel left, and its old address is allowed only where it was handed out again |
| `Fleet.NoNodeNoTunnel` | panel/backend/app/routers/internal_worker_parts/nodes.py:150-166 | Without a node nothing is ever installed |
| `FleetLimits.TwoNodesReuse` | panel/worker/app/handlers.py:466-484 | With two nodes a run exists after which a released address is still on a tunnel |
| `FleetLimits.RemovedAccountLeavesTunnel` | panel/backend/app/routers/api_parts/users.py:380-387 | Removing any account with an installed tunnel breaks exclusivity, from any committed state |
| `FleetLimits.RemovedAccountReuse` | panel/backend/app/routers/api_parts/users.py:363-387 | With one node, account removal alone reaches a state that is not exclusive |
| `FleetLimits.SplitReportReuse` | panel/backend/app/routers/internal_worker_parts/nodes.py:63-65 | With one node, a report that commits halfway alone reaches a state that is not exclusive |
| `WorkerSync.SplitPeers` | panel/worker/app/handlers.py:466-484 | With distinct keys, a peer with a key has it among the deletes if and only if it waits for removal or its owner is blocked; otherwise it is put with its own address and pre-shared key, `deleted` and `pending` ones included; nothing else is in either list |
| `WorkerSync.PutsInOrder` | panel/worker/app/handlers.py:466-484 | Puts go out in the order of the snapshot |
| `WorkerSync.SyncInstalls` | panel/worker/app/handlers.py:418-443 | After a sync every peer of the snapshot that neither waits for removal nor is blocked has a tunnel with exactly its address and its key on file, and the others have none |
| `WorkerSync.SentExactly` | panel/worker/app/handlers.py:486-520 | A put is sent if and only if the node does not show just that address with that key, and a delete if and only if it has the key |
| `WorkerSync.ReconcileRefines` | panel/worker/app/handlers.py:486-520 | From any table, skipping puts that match and deletes of absent keys shows the same status as sending everything, and leaves the same tunnels if and only if no skipped put meets a tunnel whose live key is not the one on file |
| `WorkerSync.SkippingIsExact` | panel/worker/app/handlers.py:486-520 | On every table the requests themselves can build, skipping leaves the very same tunnels as sending everything |
| `WorkerSync.OtherKeysUntouched` | panel/worker/app/handlers.py:486-503 | Keys the snapshot does not name keep their tunnels unchanged |
| `WorkerSync.SecondSyncIsSilent` | panel/worker/app/handlers.py:418-443 | Applying the same snapshot again issues no put and no delete |
| `PanelRuns.StepKeeps` | panel/backend/app/services/devices.py:236-567 | Each transaction keeps: foreign keys, unique keys and addresses, no live peer of a deleted device or a blocked owner, addresses released only by deleted devices, and no device history rewritten |
| `PanelRuns.RunKeeps` | panel/backend/app/services/devices.py:236-567 | The same over any sequence of transactions, whatever statuses reports claim |
| `PanelRuns.DurableDeletion` | panel/backend/app/services/node_sync.py:183-200 | Over every run, removals of accounts and nodes included: a deletion time is never cleared or moved, a deleted device never has a pending or active peer, a released device never regains an address and its released address never changes |
| `PanelRuns.StepBooks` | panel/backend/app/services/node_sync.py:288-350 | A transaction on the current day keeps all the ledger's sums if and only if it is not the removal of a node with booked traffic |
| `PanelRuns.RunBooks` | panel/backend/app/services/node_sync.py:288-350 | Over every run with a clock that does not go back a day and in which only nodes without booked traffic are removed, all sums of the ledger hold at the end |
| `TrafficLedger.DeltasTelescope` | panel/backend/app/services/node_sync.py:280-285 | A counter's deltas over any readings sum to last minus first plus every reading before a reset |
| `TrafficLedger.BooksExactly` | panel/backend/app/services/node_sync.py:288-320 | Booking adds the bytes received, the bytes sent and their sum to one row of each table, new rows from zero, and leaves all others |
| `TrafficLedger.ResetTakesExactly` | panel/backend/app/services/local_lifecycle.py:122-148 | A reset takes the account's lifetime rows and its days from then on; earlier days and other accounts stay as they are |
| `TrafficLedger.ForgetTakesExactly` | panel/backend/app/services/remnawave_sync.py:204-220 | A removal takes the rows of the removed accounts and no others |
| `TrafficRuns.LifetimeIsReadings` | panel/backend/app/services/node_sync.py:183-247 | Over every run in which the account stays and is not reset its lifetime bytes, received and sent, grow by exactly what the readings of all its peers' counters went up by |
| `TrafficRuns.LifetimeSinceReset` | panel/backend/app/services/local_lifecycle.py:122-148 | After a reset the lifetime is exactly what those readings show since then |
| `TrafficRuns.UsageIsDeltas` | panel/backend/app/services/node_sync.py:280-285 | While a peer's row stays, its part of that is the delta sum of its readings |
| `TrafficRuns.UsageTelescopes` | panel/backend/app/services/node_sync.py:280-285 | From its first reading on that is the last reading minus the first, and every reading a restart followed |
| `TrafficRuns.StepUsage` | panel/backend/app/services/node_sync.py:183-247 | The same for one transaction, with what it leaves on each counter |
| `TrafficLedger.BookKeepsNodes` | panel/backend/app/services/node_sync.py:288-320 | A user's lifetime row stays the sum of its node rows, whatever is booked for whom |
| `TrafficLedger.BookKeepsNodeDays` | panel/backend/app/services/node_sync.py:288-320 | A user's daily row stays the sum of its node-daily rows of that day |
| `TrafficLedger.BookKeepsDays` | panel/backend/app/services/node_sync.py:288-320 | Lifetime stays the sum of the days since the reset if and only if the delta is empty or not dated before it |
| `TrafficLedger.BookKeepsConservation` | panel/backend/app/services/node_sync.py:288-350 | All sums for all users together, and total equal to received plus sent in every row |
| `TrafficLedger.ResetKeepsConservation` | panel/backend/app/services/local_lifecycle.py:122-148 | A reset empties the account's lifetime and keeps every sum |
| `TrafficLedger.ForgetKeepsConservation` | panel/backend/app/services/remnawave_sync.py:204-220 | Rows that cascade away with an account leave the other accounts' sums intact |
| `TrafficLedger.ForgetNodeConservesExactly` | panel/backend/app/models.py:321-371 | Removing a node with its ledger rows keeps all sums if and only if nothing was booked on it |
| `Devices.FirstFreeIsLeast` | panel/backend/app/crypto.py:66-77 | The result is the first host not in use, and none exactly when all are |
| `Devices.CreatedDevice` | panel/backend/app/services/devices.py:336-365 | A created device is new and live, every node gets a pending peer for it, and all committed-state properties hold |
| `Devices.InsertedIsUnique` | panel/backend/app/services/devices.py:303-333 | An address outside the reserved set keeps keys and addresses unique |
| `Devices.AddNodeKeeps` | panel/backend/app/services/devices.py:425-444 | Provisioning a new node keeps all committed-state properties: no peer for deleted devices or blocked owners |
| `PanelLaws.NewNodeGives` | panel/backend/app/services/devices.py:425-444 | A new node gets a pending peer with a key of its own for exactly the live devices with a key and an address whose owner is not blocked |
| `PanelLaws.CreateSucceedsExactly` | panel/backend/app/services/devices.py:336-365 | A device is created if and only if the account exists, nothing here or remotely speaks against it, it has room for one more and a host after the gateway is free; otherwise the first of these to fail is the error |
| `PanelLaws.DeletionGives` | panel/backend/app/services/devices.py:519-567 | A deletion dates the device, takes its live peers out and nothing else, and gives the address back if and only if all its peers were confirmed gone |
| `PanelLaws.NodeRemovalGives` | panel/backend/app/routers/api_parts/nodes.py:111-125 | Removing a node takes its peers; exactly the deleted devices that had one there and are confirmed gone elsewhere give their address back |
| `Devices.DeleteDeviceKeeps` | panel/backend/app/services/devices.py:519-567 | Deleting tombstones the device, keeps all committed-state properties, confirms nothing and recycles the address only if every peer was confirmed gone |
| `Devices.ReleaseKeeps` | panel/backend/app/services/devices.py:236-295 | Releasing a set of devices takes addresses from deleted, confirmed ones only, and from all of those |
| `Devices.RemoveNodeKeeps` | panel/backend/app/routers/api_parts/nodes.py:111-125 | Removing a node keeps all committed-state properties and device history, and releases what its peers alone still reserved |
| `Lifecycle.RecoveryCoversEveryNode` | panel/backend/app/services/local_lifecycle.py:66-112 | After a pass from blocked to active each live device with key and address has its one peer on every node, pending or active, nodes added meanwhile included |
| `Lifecycle.RemoteRecoveryCoversEveryNode` | panel/backend/app/services/remnawave_sync.py:90-122 | The same for an imported account |
| `Lifecycle.LocalPassIsIdempotent` | panel/backend/app/services/local_lifecycle.py:66-112 | A second pass with the same total and time changes nothing |
| `Lifecycle.RemotePassIsIdempotent` | panel/backend/app/services/remnawave_sync.py:90-122 | A second pass over the same profile changes nothing |
| `AdminBlock.AdminBlockLastsExactly` | panel/backend/app/services/local_lifecycle.py:66-93 | Over every run in which nobody unblocks it, the account is still blocked by the administrator if and only if no pass since his last block found it expired or over its limit, and it is active if and only if some did and the latest pass does not |
| `AdminBlock.RunJudges` | panel/backend/app/services/local_lifecycle.py:66-119 | What a run of the panel leaves of an account's status and limits is what its passes make of them, one after the other |
| `AdminBlock.BlockIsLost` | panel/backend/app/services/local_lifecycle.py:66-93 | A run from a committed panel: blocked, found expired when the limit is edited, prolonged, and active again with nobody having unblocked it |
| `AdminBlock.LossHappens` | panel/backend/app/services/local_lifecycle.py:66-93 | In that run the condition under which a block does not last is met |
| `Lifecycle.ApplyLocalKeeps` | panel/backend/app/services/local_lifecycle.py:66-112 | The pass keeps every committed-state property, leaves no live peer of a blocked owner, and none on its way out for an unblocked one |
| `Lifecycle.EditLocalKeeps` | panel/backend/app/routers/api_parts/users.py:267-345 | Block, unblock, new limits and traffic reset keep the same |
| `PanelLaws.LocalPassGives` | panel/backend/app/services/local_lifecycle.py:66-112 | Blocked afterwards if and only if expired, or a positive limit used up, or blocked by an administrator, recorded in that order; blocked, all its peers wait for removal; not blocked, those that did are pending again; other accounts and peers are untouched |
| `PanelLaws.UnblockEditGives` | panel/backend/app/routers/api_parts/users.py:267-345 | Unblocking changes nothing while the account has run out, and otherwise makes it active with its peers back |
| `PanelLaws.LimitEditGives` | panel/backend/app/routers/api_parts/users.py:267-345 | New limits are stored and judged at once |
| `PanelLaws.ResetEditGives` | panel/backend/app/routers/api_parts/users.py:267-345 | A traffic reset leaves nothing used and judges the account as such |
| `PanelLaws.RemotePassGives` | panel/backend/app/services/remnawave_sync.py:90-122 | Blocked afterwards if and only if the profile is not active or has expired; without a change of that nothing changes |
| `PanelLaws.CombinedPassGives` | panel/backend/app/services/remnawave_sync.py:125-161 | If remote and local traffic together have used up a positive limit the account is blocked and its peers go; otherwise nothing changes |
| `PanelLaws.ImportKnownGives` | panel/backend/app/routers/internal_worker_parts/remnawave.py:70-115 | After an import the profile is on file as synced, a delete request is withdrawn, and the block is what status, expiry and combined traffic say |
| `PanelLaws.StaleGives` | panel/backend/app/services/remnawave_sync.py:164-201 | Exactly the imported accounts a reconcile did not see are blocked, marked stale and lose their peers |
| `PanelLaws.RequestGives` | panel/backend/app/routers/internal_worker_parts/remnawave.py:118-141 | A delete request blocks an imported account and takes out all its peers not already gone |
| `PanelLaws.RemovalGives` | panel/backend/app/services/remnawave_sync.py:204-220 | A removal takes the accounts, their devices and those devices' peers, and nothing else |
| `AccountRuns.PurgedExactly` | panel/backend/app/services/remnawave_sync.py:204-220 | An account is purged if and only if it is imported, its removal was asked for, it has a peer, and all its peers are confirmed gone |
| `AccountRuns.AccountLeavesOnlyBy` | panel/backend/app/services/remnawave_sync.py:204-220 | Over every run an account leaves only by an administrator's removal, or with a sync result or reconcile after a delete request that no later import took back |
| `Lifecycle.EnforceCombinedKeeps` | panel/backend/app/services/remnawave_sync.py:125-161 | So does the combined limit of an imported account |
| `Lifecycle.UpsertRemoteKeeps` | panel/backend/app/routers/internal_worker_parts/remnawave.py:70-115 | So does importing a profile and enforcing what it says |
| `Lifecycle.MarkStaleKeeps` | panel/backend/app/services/remnawave_sync.py:164-201 | So does blocking the accounts a reconcile did not see |
| `Lifecycle.RequestDeleteKeeps` | panel/backend/app/routers/internal_worker_parts/remnawave.py:118-141 | So does the remote request to delete an account |
| `Lifecycle.RemoveUsersKeeps` | panel/backend/app/services/remnawave_sync.py:204-220 | Rows of other accounts survive a cascade untouched, and ids and keys are not reissued |
| `NodeResults.ApplyToPeerKeeps` | panel/backend/app/services/node_sync.py:183-247 | One result with its traffic and its enforcement passes keeps the committed-state properties, whatever it claims |
| `NodeResults.ApplyReportsKeeps` | panel/backend/app/routers/internal_worker_parts/nodes.py:30-66 | So does the whole loop; results of a real dump also confirm no removal |
| `NodeResults.ConfirmKeeps` | panel/backend/app/routers/internal_worker_parts/nodes.py:232-247 | After confirming absent peers and releasing the candidates, every deleted device confirmed everywhere has handed its address back |
| `NodeResults.SyncResultKeeps` | panel/backend/app/routers/internal_worker_parts/nodes.py:211-255 | The whole sync result keeps the committed-state properties |
| `PanelLaws.ResultGives` | panel/backend/app/services/node_sync.py:183-247 | One result: a live peer takes the reported status unless its device is deleted, one on its way out stays so whatever is reported live, and the counters are those reported |
| `PanelLaws.SyncConfirmsExactly` | panel/backend/app/routers/internal_worker_parts/nodes.py:232-247 | A deleted device's peer that waits for removal is confirmed gone if and only if the dump does not list its key; a listed one goes on waiting |
| `PanelLaws.ConfirmationGives` | panel/backend/app/routers/internal_worker_parts/nodes.py:232-247 | Exactly the loaded peers waiting for removal that the report does not list become deleted |
| `PanelLaws.HeartbeatCounts` | panel/backend/app/routers/internal_worker_parts/nodes.py:274-286 | The last reading a heartbeat brings for a peer is what its row holds afterwards |
| `PanelLaws.HeartbeatActivates` | panel/backend/app/routers/internal_worker_parts/nodes.py:274-286 | A heartbeat makes the live peers it lists active, unless it is what gets their account blocked |
| `PanelDb.Database.IncreaseAggregate` | panel/backend/app/services/node_sync.py:323-350 | Adds to the row, or inserts it; all other rows stay |
| `PanelDb.Database.ApplyTrafficAggregates` | panel/backend/app/services/node_sync.py:288-320 | In each of the four tables the named row grows by the bytes received, the bytes sent and their sum, and every other row stays |
| `PanelDb.Database.ResetTrafficUsage` | panel/backend/app/services/local_lifecycle.py:122-148 | Empties the account's lifetime rows and the daily rows of that day, and stamps the reset |
| `PanelDb.Database.AllocateIp` | panel/backend/app/crypto.py:66-77 | The loop returns the first free client host |
| `PanelDb.Database.ReleaseDeviceIp` | panel/backend/app/services/devices.py:236-261 | Releases exactly when the device is deleted, holds an address and all its peers are confirmed gone; tells whether it did |
| `PanelDb.Database.ReleaseDeviceIps` | panel/backend/app/services/devices.py:264-295 | The batched form does what releasing one by one does, and returns the devices that lost their address |
| `PanelDb.Database.MarkDevicePeers` | panel/backend/app/services/devices.py:519-567 | Marks the device's live peers and returns exactly the nodes where one changed |
| `PanelDb.Database.DeleteDevice` | panel/backend/app/services/devices.py:519-567 | Tombstone, marking and release together; returns the nodes to sync |
| `PanelDb.Database.CreatePendingPeer` | panel/backend/app/services/devices.py:368-398 | Adds the peer exactly when device, key and address are there and no peer is |
| `PanelDb.Database.CreatePendingPeersForDevice` | panel/backend/app/services/devices.py:401-413 | One pending peer per missing node |
| `PanelDb.Database.CreatePendingPeersForNode` | panel/backend/app/services/devices.py:425-444 | One pending peer per live, complete device of an unblocked owner that misses one |
| `PanelDb.Database.RestoreMissingPeersForUser` | panel/backend/app/services/devices.py:447-464 | Exactly the missing peers of the user's live devices on all nodes; returns the nodes touched |
| `PanelDb.Database.ReachedLimit` | panel/backend/app/services/devices.py:191-213 | The limit in force, if the live devices have reached it |
| `PanelDb.Database.AllocateDeviceIp` | panel/backend/app/services/devices.py:216-233 | The first host held neither by any device nor by the gateway |
| `PanelDb.Database.CreateDevice` | panel/backend/app/services/devices.py:336-365 | Standing, limit and address are judged in that order; an error leaves the database alone |
| `PanelDb.Database.MarkForRemoval` | panel/backend/app/services/local_lifecycle.py:94-112 | Marks the given peers and returns exactly the nodes where a status changed |
| `PanelDb.Database.RestorePeers` | panel/backend/app/services/local_lifecycle.py:94-112 | Brings peers back except those of deleted devices; returns exactly the nodes where a status changed |
| `PanelDb.Database.ApplyLocalLifecycleState` | panel/backend/app/services/local_lifecycle.py:66-112 | The pass over an account; returns exactly the nodes to sync |
| `PanelDb.Database.EnforceLocalLifecycle` | panel/backend/app/services/local_lifecycle.py:115-119 | The pass after a sample; a managed account is left alone |
| `PanelDb.Database.ApplyRemnawaveLifecycle` | panel/backend/app/services/remnawave_sync.py:90-122 | The pass over an imported account; returns exactly the nodes to sync |
| `PanelDb.Database.EnforceCombinedLimit` | panel/backend/app/services/remnawave_sync.py:125-161 | Blocks when remote and local usage together pass the limit |
| `PanelDb.Database.MarkUserStale` | panel/backend/app/services/remnawave_sync.py:164-185 | Blocks a managed account and its peers |
| `PanelDb.Database.ReconcileMissing` | panel/backend/app/services/remnawave_sync.py:188-201 | The same for all of a set, in any order |
| `PanelDb.Database.DeleteUser` | panel/backend/app/routers/api_parts/users.py:363-381 | Account, devices, peers and ledger rows go together; all others stay |
| `PanelDb.Database.DeleteNode` | panel/backend/app/routers/api_parts/nodes.py:111-125 | The node, its peers and its ledger rows go together; returns exactly the devices that lost their address |
| `PanelDb.Database.IsPurgeDue` | panel/backend/app/services/remnawave_sync.py:204-220 | Due if and only if the account is imported, its removal was asked for, it has a peer, and all its peers are confirmed gone |
| `PanelDb.Database.PurgeConfirmedDeletes` | panel/backend/app/services/remnawave_sync.py:204-220 | Purges exactly the accounts that are due; `AccountRuns.PurgedExactly` says which those are |
| `PanelDb.Database.ApplyPeerResult` | panel/backend/app/services/node_sync.py:183-247 | Status behind the guard, new counters, booked delta; tells whether a sample was stored |
| `PanelDb.Database.ApplyToPeer` | panel/backend/app/routers/internal_worker_parts/nodes.py:30-66 | Result plus enforcement; returns exactly the nodes the passes touched |
| `PanelDb.Database.PeersByKey` | panel/backend/app/routers/internal_worker_parts/nodes.py:30-66 | The key index finds exactly the loaded peers that have the key |
| `PanelDb.Database.ApplyPeerResults` | panel/backend/app/routers/internal_worker_parts/nodes.py:30-66 | The loop over a report: the new state, the owners to notify and the nodes to sync, exactly |
| `PanelDb.Database.ConfirmAbsentPeers` | panel/backend/app/routers/internal_worker_parts/nodes.py:232-247 | Confirms the waiting peers the report does not list; returns their owners and the release candidates |
| `PanelDb.Database.NodeSyncResult` | panel/backend/app/routers/internal_worker_parts/nodes.py:211-255 | The whole endpoint: new state and the owners to notify |
| `PanelDb.Database.NodeHeartbeatResult` | panel/backend/app/routers/internal_worker_parts/nodes.py:275-287 | A heartbeat applies results but confirms and releases nothing |
| `PanelDb.OnePeerPerKey` | panel/backend/app/routers/internal_worker_parts/nodes.py:30-66 | With unique keys, applying a report by key index is applying it to the one peer that has the key |
| `PanelDb.OnePassActs` | panel/backend/app/routers/internal_worker_parts/nodes.py:48-62 | The nodes touched by the two enforcement passes together are the union of what each touched |
| `AgentConfig.Agent.RewriteLines` | node/agent/agent.py:326-360 | The line-buffer loop replaces every section of the key and appends the block only if there was none |
| `AgentConfig.Agent.PersistPeer` | node/agent/agent.py:311-360 | The file becomes the old one with the block in place of the key's sections, or appended |
| `AgentConfig.Agent.DropLines` | node/agent/agent.py:368-390 | The loop drops exactly the sections of the key |
| `AgentConfig.Agent.UnpersistPeer` | node/agent/agent.py:363-390 | The file becomes the old one without the key's sections; a missing file is an error |
| `AgentConfig.Agent.ConfiguredPeers` | node/agent/agent.py:277-308 | Reads the map of peers back |
| `AgentConfig.Agent.ConfigureInterface` | node/agent/agent.py:602-629 | Text, live settings and the answer of a configure request, a failed live update included |
| `AgentRefinement.PersistRefines` | node/agent/agent.py:311-360 | Reading after a persist gives the old map with the key set; interface lines and the file's shape stay |
| `AgentRefinement.UnpersistRefines` | node/agent/agent.py:363-390 | Reading after an unpersist gives the old map without the key; interface lines and shape stay |
| `AgentRefinement.EditsRefine` | node/agent/agent.py:277-390 | Over any sequence of edits the file refines the map |
| `AgentRewrite.SecondRewriteIsSilent` | node/agent/agent.py:602-629 | Rewriting with the same configuration leaves the same text if and only if the block holds no peer header |
| `AgentRewrite.RewriteKeepsPeers` | node/agent/agent.py:393-397 | A rewrite replaces the interface lines, and keeps every section and the parsed map |
| `AgentRewrite.RewriteCommutes` | node/agent/agent.py:602-629 | Rewrites and peer edits commute on interface lines and on the map |
| `AgentInterface.BuildInterfaceBlock` | node/agent/agent.py:405-436 | The lines of the block in their order, optional settings only when set |
| `AgentSettings.IdentitySettings` | node/agent/agent.py:405-436 | Key, address and port stand after their own names in the block |
| `AgentSettings.JunkSettings` | node/agent/agent.py:405-436 | So do Jc, Jmin and Jmax |
| `AgentSettings.PaddingSettings` | node/agent/agent.py:405-436 | So do S1 to S4 |
| `AgentSettings.HeaderSettings` | node/agent/agent.py:405-436 | So do H1 to H4 |
| `AgentSettings.OptionalSettings` | node/agent/agent.py:422-436 | I1 to I5 and the hooks stand there if and only if they are set |
| `AgentSettings.LinesOfWritten` | node/agent/agent.py:405-436 | These lines are the lines of the text when no setting holds a line break |
| `AgentInterface.ApplyLiveInterface` | node/agent/agent.py:439-498 | Each of I1..I5 is set when configured, cleared when it was saved before, and otherwise left |
| `AgentLive.SavedFields` | node/agent/agent.py:400-402 | The pattern search in the interface text finds a setting exactly when it is saved |
| `AgentLive.LiveFollowsSaved` | node/agent/agent.py:439-498 | After any sequence of rewrites and edits without a failed live update the live I1..I5 are the saved ones |
| `AgentLive.FailedUpdateIsNotRepeated` | node/agent/agent.py:602-629 | After a failed live update the same request changes nothing |
| `AgentLive.ConfigureFollowsExactly` | node/agent/agent.py:602-629 | From a state that follows, a rewrite that changes the file leaves the live settings equal to the saved ones if and only if the update applied or they were live before; `AgentLive.FollowsExactly` is the statement for any sequence of calls |
| `AgentLive.FollowsExactly` | node/agent/agent.py:602-629 | After any sequence of requests with any updates failing, each live value is the saved one if and only if the last request that wrote it, one that applied and set it or found it on file to clear, carried what is on file now |
| `AgentLive.LiveIsLastWritten` | node/agent/agent.py:479-481 | After any such sequence each live value is what the last request that wrote it carried, or the first value if none did |
| `AgentLive.FailedClearingStays` | node/agent/agent.py:479-481 | A value that a failed update did not clear stays through any later requests that leave it empty, whether their updates apply or not |
| `AgentLive.FailedUpdateKeepsOldValues` | node/agent/agent.py:602-629 | After a failed update the interface keeps the old values however often the request is repeated |
| `AgentLive.FirstUpdateCanFail` | node/agent/agent.py:602-629 | That is so already for the first configuration of a new node |
| `AgentLive.SoundIsProper` | node/agent/agent.py:405-436 | A configuration whose values hold no line break and no header makes a block that both readers agree on |
| `EventBuffer.ParkedExactly` | panel/backend/app/services/events.py:123-246 | Level k holds exactly what was recorded at depth k with no later operation dropping that level |
| `EventBuffer.ParkedIsPending` | panel/backend/app/services/events.py:181-246 | Nothing recorded under a transaction or savepoint that was rolled back is ever parked |
| `EventBuffer.StepIsFaithful` | panel/backend/app/services/events.py:229-246 | One operation keeps parked and pending equal if and only if all it drops was recorded inside what it rolls back |
| `EventBuffer.NothingLostExactly` | panel/backend/app/services/events.py:217-246 | Parked and pending are the same throughout if and only if for every savepoint that is rolled back nothing was parked at its level or deeper when it was opened, and for every flush that fails inside one nothing was parked at all then |
| `EventBuffer.CarefulIsGuarded` | panel/backend/app/services/events.py:229-246 | After careful operations an operation drops only what it rolls back if and only if that guard holds |
| `EventBuffer.ReleasedSiblingIsDropped` | panel/backend/app/services/events.py:229-246 | A run in which a released savepoint's payload is dropped with its sibling |
| `EventSession.Session.TrackSavepoint` | panel/backend/app/services/events.py:175-178 | Pushes nested transactions only |
| `EventSession.Session.EndOfTransaction` | panel/backend/app/services/events.py:181-197 | Pops the innermost savepoint when it ends, and empties the buffer with the outermost transaction |
| `EventSession.Session.FlushCommittedPayloads` | panel/backend/app/services/events.py:200-214 | Delivers everything parked, outside savepoints only |
| `EventSession.Session.DropRolledBackPayloads` | panel/backend/app/services/events.py:217-226 | Empties buffer and stack, outside savepoints only |
| `EventSession.Session.RolledBackDepth` | panel/backend/app/services/events.py:162-172 | The level of the savepoint that is rolled back, or one past the innermost |
| `EventSession.Session.DropRolledBackSavepointPayloads` | panel/backend/app/services/events.py:229-246 | Truncates the buffer to the savepoint's level, also when it is still tracked; anything else that rolls back empties it |
| `EventSession.Session.Notify` | panel/backend/app/services/events.py:123-154 | Records on the level of the current savepoint, on level 0 when no transaction is open |
| `EventSession.Session.CommitAll` | panel/backend/app/services/events.py:200-214 | The outermost commit delivers the payload of every notification still parked, each once, outermost level first and on each level in the order of recording, and all of them pending |
| `EventSession.Session.RollbackNested` | panel/backend/app/services/events.py:229-246 | The hooks leave what the buffer's meaning says after rolling back any open savepoint |
| `EventSession.Session.BeginNested` | panel/backend/app/services/events.py:175-178 | Beginning a savepoint begins the transaction if there is none, and drops and delivers nothing |
| `EventSession.Session.CloseSession` | panel/backend/app/services/events.py:181-197 | Closing without a commit ends every transaction and delivers nothing; what is still parked goes |
| `EventSession.Session.FailFlush` | panel/backend/app/services/events.py:217-246 | A failed flush empties the buffer and leaves the transaction open |
| `EventSession.Session.RollbackWhole` | panel/backend/app/services/events.py:217-246 | Rolling an open transaction back empties the buffer and delivers nothing; without one nothing changes |
| `EventSession.Session.ReleaseNested` | panel/backend/app/services/events.py:181-214 | Releasing a savepoint delivers and drops nothing |
| `EventHub.RunKeepsInvariant` | panel/backend/app/services/events.py:342-454 | In every reachable state a user has one timer at most, armed for the last delivery plus the window exactly while a delivery is owed, and a stream is owed a change exactly when its slot holds one or its own tick kept it out |
| `EventHub.HeartbeatsAreSpaced` | panel/backend/app/services/events.py:422-440 | A delivery caused by a heartbeat, at once or by the timer, comes a window after the previous one |
| `EventHub.HeartbeatGoesExactly` | panel/backend/app/services/events.py:422-440 | A heartbeat goes out at once if and only if none did within the window; otherwise it waits for the one timer at the end of it |
| `EventHub.TimerDelivers` | panel/backend/app/services/events.py:430-454 | The timer delivers what waited when it is due, and does nothing before |
| `EventHub.StreamsAreBounded` | panel/backend/app/services/events.py:364-374 | In every run there are never more open streams than the limit |
| `EventHub.SubscribeOpensExactly` | panel/backend/app/services/events.py:364-374 | A stream is opened if and only if the hub is not stopping and has fewer open ones than the limit |
| `EventHub.OtherReasonsGoAtOnce` | panel/backend/app/services/events.py:422-440 | Any other reason delivers at once and cancels the timer |
| `EventHub.DeliveryFillsSlots` | panel/backend/app/services/events.py:442-454 | Right after a delivery every open slot of the user is non-empty, and holds the change exactly when it did not hold a tick |
| `EventHub.StopEndsStreams` | panel/backend/app/services/events.py:342-362 | After stop every stream that was open finds the end marker, in every later run in which it has not read or unsubscribed |
| `EventHub.TickHidesDelivery` | panel/backend/app/services/events.py:563-596 | A slot that holds the stream's tick loses the delivery |
| `EventHub.TickHidesDeliveryReached` | panel/backend/app/services/events.py:563-596 | A run from the empty hub in which that happens |
| `EventHub.UserEventHub.SubscriptionCount` | panel/backend/app/services/events.py:331-332 | The number of open streams |
| `EventHub.UserEventHub.SubscribeStream` | panel/backend/app/services/events.py:364-374 | Refused when stopping or at the limit, else opened with an empty slot |
| `EventHub.UserEventHub.UnsubscribeStream` | panel/backend/app/services/events.py:376-386 | The last stream takes the user's fan-out and timer with it; closing twice is harmless |
| `EventHub.UserEventHub.Deliver` | panel/backend/app/services/events.py:442-454 | Fills the empty slots, leaves full ones |
| `EventHub.UserEventHub.FanOut` | panel/backend/app/services/events.py:422-440 | Delivers, arms the timer, or leaves an armed one |
| `EventHub.UserEventHub.FireTimer` | panel/backend/app/services/events.py:422-440 | The armed delivery |
| `EventHub.UserEventHub.Terminate` | panel/backend/app/services/events.py:278-283 | The end marker replaces whatever the slot held |
| `EventHub.UserEventHub.StopStreams` | panel/backend/app/services/events.py:342-362 | Cancels every timer and ends every stream |
| `UserStream.StreamEventKeeps` | panel/user-frontend/src/utils/userEventStream.ts:110-216 | Every call and callback keeps: one source at most, never together with an armed retry |
| `UserStream.RunKeepsStream` | panel/user-frontend/src/utils/userEventStream.ts:110-216 | The same over any sequence of them, with any tokens |
| `UserStream.LateCallbacksAreIgnored` | panel/user-frontend/src/utils/userEventStream.ts:149-193 | A callback of an older generation changes nothing |
| `UserStream.ErrorGives` | panel/user-frontend/src/utils/userEventStream.ts:180-187 | An error the browser recovers from itself changes nothing; a refused connection of the current source is closed and tried again after the delay |
| `UserStream.RetryDelays` | panel/user-frontend/src/utils/userEventStream.ts:69 | One, two, five, fifteen and then always thirty seconds |
| `UserStream.DelaysStartOver` | panel/user-frontend/src/utils/userEventStream.ts:138-187 | After a connect the delays start over, and after n refusals in a row the next retry waits for the n-th |
| `UserStream.OpenGives` | panel/user-frontend/src/utils/userEventStream.ts:195-207 | With a token that was not rejected a page is connected with it after opening, once |
| `UserStream.ClosedStaysClosed` | panel/user-frontend/src/utils/userEventStream.ts:195-213 | Nothing opens between close and the next open |
| `UserStream.RejectedStaysLatched` | panel/user-frontend/src/utils/userEventStream.ts:172-178 | After the server rejected the token nothing connects while it stays the page's token |
| `UserStream.LatchHoldsExactly` | panel/user-frontend/src/utils/userEventStream.ts:138-207 | Back on a rejected token, and while it stays the page's, a source is created if and only if a retry was still armed and its timer fires before the first close |
| `UserStream.RejectedTokenReconnects` | panel/user-frontend/src/utils/userEventStream.ts:138-207 | A run from a new stream that connects with a rejected token |
| `UserStream.EventStream.Detach` | panel/user-frontend/src/utils/userEventStream.ts:130-136 | Closes the source and its timer |
| `UserStream.EventStream.ScheduleRetry` | panel/user-frontend/src/utils/userEventStream.ts:138-147 | Arms one retry with the backoff delay |
| `UserStream.EventStream.Connect` | panel/user-frontend/src/utils/userEventStream.ts:149-193 | Opens a source of a new generation, or nothing for a missing or open one |
| `UserStream.EventStream.OpenStream` | panel/user-frontend/src/utils/userEventStream.ts:195-207 | Clears the latch only when the token changed |
| `UserStream.EventStream.CloseStream` | panel/user-frontend/src/utils/userEventStream.ts:209-213 | Disabled, detached, nothing armed |
| `UserStream.EventStream.OnConnected` | panel/user-frontend/src/utils/userEventStream.ts:158-165 | Heard only from the current generation; resets the backoff |
| `UserStream.EventStream.OnUnauthorized` | panel/user-frontend/src/utils/userEventStream.ts:172-178 | Latches the token of the connection |
| `UserStream.EventStream.OnError` | panel/user-frontend/src/utils/userEventStream.ts:180-187 | A refused or failed connection is retried later |
| `UserStream.EventStream.OnRetryTimer` | panel/user-frontend/src/utils/userEventStream.ts:138-147 | The retry connects |
| `UserPage.RunKeepsInvariant` | panel/user-frontend/src/composables/useUserPageRefresh.ts:106-370 | In every run: one request at most is live; tickets are current exactly for requests no reset, stop, invalidation, accepted snapshot, revocation or newer request came after; one poll is armed exactly when started, visible, idle and showing something; the stream is open only while started and visible |
| `UserPage.PageStaysFine` | panel/user-frontend/src/composables/useUserPageRefresh.ts:106-370 | A page just opened, in a shown or a hidden tab, with or without a token, is in such a state after any steps |
| `UserPage.StepKeepsRequests` | panel/user-frontend/src/composables/useUserPageRefresh.ts:242-294 | Starting, superseding, queueing and settling keep one live request with one controller |
| `UserPage.StepKeepsTickets` | panel/user-frontend/src/utils/refreshPolicy.ts:98-113 | Every step keeps the meaning of the stale guard |
| `UserPage.StepKeepsPoll` | panel/user-frontend/src/composables/useUserPageRefresh.ts:189-205 | Every step keeps the poll timer armed exactly when it should be |
| `UserPage.StepKeepsPageStream` | panel/user-frontend/src/composables/useUserPageRefresh.ts:311-318 | Every step keeps the stream closed while hidden or stopped |
| `UserPage.AnswerAppliesExactly` | panel/user-frontend/src/composables/useUserPageRefresh.ts:262-294 | An outcome changes the screen if and only if nothing that makes it stale came after its request and the token is still the page's; an answer then replaces everything, and a failure keeps the payload, sets its error and reads as retrying exactly when there is a payload |
| `UserPage.PayloadGoesOnlyBy` | panel/user-frontend/src/composables/useUserPageRefresh.ts:106-370 | A payload on screen goes only with a reset or a revoked token, never with a failure |
| `UserPage.SupersededSettlesSilently` | panel/user-frontend/src/composables/useUserPageRefresh.ts:238-294 | A superseded request's answer and finalizer change nothing |
| `UserPage.QueuedRunsAtOnce` | panel/user-frontend/src/composables/useUserPageRefresh.ts:262-294 | A queued refresh starts the moment the live request settles, for the token of then |
| `UserPage.PollIsExact` | panel/user-frontend/src/utils/refreshPolicy.ts:59-81 | Armed if and only if started, shown and with something on screen; after one second exactly while the active account has a device or node pending for less than two minutes, and after fifteen otherwise |
| `UserPageLoop.UserPageRefresh.PendingForMs` | panel/user-frontend/src/composables/useUserPageRefresh.ts:175-182 | How long work has been pending; stamps the start |
| `UserPageLoop.UserPageRefresh.Schedule` | panel/user-frontend/src/composables/useUserPageRefresh.ts:189-205 | Replaces the poll timer by the one the screen calls for |
| `UserPageLoop.UserPageRefresh.StartLoop` | panel/user-frontend/src/composables/useUserPageRefresh.ts:350-356 | The first call asks for the state of the page's token and opens its stream, later ones do nothing; keeps the invariant of every run |
| `UserPageLoop.UserPageRefresh.StopLoop` | panel/user-frontend/src/composables/useUserPageRefresh.ts:358-370 | Afterwards nothing is armed, no stream is open, and no answer still on its way will be shown |
| `UserPageLoop.UserPageRefresh.ResetForToken` | panel/user-frontend/src/composables/useUserPageRefresh.ts:320-336 | A blank page asking for the new token's state; no answer asked for earlier will be shown, and the stream is the new token's or none |
| `UserPageLoop.UserPageRefresh.OnVisibilityChange` | panel/user-frontend/src/composables/useUserPageRefresh.ts:338-348 | A hidden tab polls nothing and keeps no stream; a tab shown again asks at once or queues behind the request in flight |
| `UserPageLoop.UserPageRefresh.AskRefresh` | panel/user-frontend/src/composables/useUserPageRefresh.ts:242-262 | Once started a refresh leaves at once for the page's token, or is queued behind the request in flight |
| `UserPageLoop.UserPageRefresh.OnPollTimer` | panel/user-frontend/src/composables/useUserPageRefresh.ts:201-204 | The poll asks, and is no longer armed |
| `UserPageLoop.UserPageRefresh.RequestSettles` | panel/user-frontend/src/composables/useUserPageRefresh.ts:262-294 | The outcome shows if and only if nothing made it stale and it is for the page's token: an answer replaces payload and error, a failure keeps the payload, sets the error and reads as retrying exactly with a payload; a superseded request changes nothing; a queued refresh runs next, else the poll is armed |
| `UserPageLoop.UserPageRefresh.AcceptSnapshot` | panel/user-frontend/src/composables/useUserPageRefresh.ts:297-304 | The snapshot is on screen and polled from now on, and no older answer will replace it |
| `UserPageLoop.UserPageRefresh.InvalidateRefresh` | panel/user-frontend/src/composables/useUserPageRefresh.ts:306-308 | No answer still on its way will be shown |
| `UserPageLoop.UserPageRefresh.OnStreamConnected` | panel/user-frontend/src/composables/useUserPageRefresh.ts:149-154 | Every connect of the current stream re-reads the state, one of an older stream does nothing |
| `UserPageLoop.UserPageRefresh.OnStreamChanged` | panel/user-frontend/src/composables/useUserPageRefresh.ts:155-158 | An announced change of the current stream re-reads the state |
| `UserPageLoop.UserPageRefresh.OnStreamUnauthorized` | panel/user-frontend/src/composables/useUserPageRefresh.ts:159-164 | A rejected token clears the screen, and what was asked for before will not come back |
| `Operations.RunKeeps` | panel/backend/app/routers/internal_worker_parts/operations.py:30-88 | In every run the starts that went through, the entries of the body and the ends agree with the status |
| `Operations.BodyRunsAtMostOnceExactly` | panel/worker/app/handlers.py:55-96 | With any duplicates, republished messages, crashes and timeouts the body is entered at most once if and only if no two answered start requests overlap, the later having read the row before the earlier wrote it; and without such an overlap of any two the operation ends at most once |
| `Operations.EntersAgainExactly` | panel/backend/app/routers/internal_worker_parts/operations.py:38-47 | After a start went through, some continuation enters the body again if and only if a start request still holds an older reading of the row |
| `Operations.OverlapEntersTwice` | panel/backend/app/routers/internal_worker_parts/operations.py:38-47 | A run in which two overlapping start requests enter the body twice |
| `Operations.HandledAtMostThreeTimes` | panel/worker/app/queue.py:214-300 | A message is handled at most three times, crashes aside, and reaches the poison queue exactly at the third |
| `Operations.StatusMovesForwardExactly` | panel/backend/app/routers/internal_worker_parts/operations.py:30-88 | Over a whole run the status only moves forward, to running and then to one end, if and only if no start request that read the row before the operation ended is written after |
| `Operations.EndedRunsAgain` | panel/backend/app/routers/internal_worker_parts/operations.py:38-47 | A run in which a succeeded operation goes back to running |
| `Operations.EndsAs` | panel/backend/app/routers/internal_worker_parts/operations.py:50-88 | A running operation ends as succeeded, failed or timed out by the request that says so; no other request or event changes the status of any operation |
| `Operations.OperationRow.StartOperation` | panel/backend/app/routers/internal_worker_parts/operations.py:38-47 | Succeeds exactly from queued or pending; a conflict changes nothing |
| `Operations.OperationRow.SucceedOperation` | panel/backend/app/routers/internal_worker_parts/operations.py:50-61 | Succeeds exactly from running, with result and times |
| `Operations.OperationRow.FailOperation` | panel/backend/app/routers/internal_worker_parts/operations.py:64-75 | Fails exactly from running, keeping the message |
| `Operations.OperationRow.TimeoutOperation` | panel/backend/app/routers/internal_worker_parts/operations.py:78-88 | Times out exactly from running |
| `Migration.Migrator.Upgrade` | panel/backend/migrations/versions/0019_device_ownership.py:230-269 | Refuses and changes nothing, or backfills user by user to exactly the new database |
| `Migration.UpgradeMeetsSchema` | panel/backend/migrations/versions/0019_device_ownership.py:109-141 | Without a refusal the upgraded database meets every constraint of the new schema: unique addresses and keys, the composite owner key, one peer per node and device |
| `Migration.UpgradeRefusesExactly` | panel/backend/migrations/versions/0019_device_ownership.py:44-106 | The upgrade is refused if and only if some constraint could not be met |
| `Migration.UpgradeRefusals` | panel/backend/migrations/versions/0019_device_ownership.py:44-106 | Shared keys are refused first, then shared addresses, then peers without a user, each for its own reason |
| `Migration.UpgradeDefaults` | panel/backend/migrations/versions/0019_device_ownership.py:109-141 | Every user gets a live Default device with its own public key, private key, address and creation time, keeps its row, gets no limit, and has all its peers pointed at that device |
| `Migration.UpgradeCount` | panel/backend/migrations/versions/0019_device_ownership.py:109-141 | And exactly one |
| `Migration.RoundTrip` | panel/backend/migrations/versions/0019_device_ownership.py:177-284 | Downgrading an upgrade that was not refused is not refused and restores the same database |
| `Migration.DowngradeRefusesExactly` | panel/backend/migrations/versions/0019_device_ownership.py:144-174 | A downgrade is refused if and only if a deleted or a non-migration device exists |
| `Migration.DowngradeMeetsSchema` | panel/backend/migrations/versions/0019_device_ownership.py:177-227 | A later state that is not refused meets the old schema; each of the live device's public key, private key and address wins where it has one, and the user's own stays where it has none |
| `AddressPool.RunKeeps` | panel/backend/app/services/devices.py:303-333 | With reads and inserts interleaved, no two devices ever hold one address and every choice is the least free host of the set that was read |
| `AddressPool.AllocationIsLeast` | panel/backend/app/crypto.py:66-77 | The choice is the least free client host, and none exactly when every client host is used |
| `AddressPool.GatewayIsKept` | panel/backend/app/crypto.py:66-77 | The gateway is never handed out |
| `AddressPool.LostToAnotherAllocator` | panel/backend/app/services/devices.py:303-333 | An attempt is lost only because another allocator inserted that very address after this one had read |
| `AddressPool.ExhaustedExactly` | panel/backend/app/services/devices.py:216-233 | Exhaustion is reported if and only if every client host was reserved in the set read |
| `DeviceLimit.LocalLimitHolds` | panel/backend/app/services/devices.py:191-213 | With lock, check, insert and commit interleaved and limits set by administrators, no commit takes the live count above the limit in force |
| `DeviceLimit.ImportedLimitHoldsExactly` | panel/backend/app/services/remnawave_sync.py:61-87 | A commit takes the owner above the limit in force if and only if the last import between its check and itself set a limit that the count had reached at the check |
| `DeviceLimit.ImportCanOvertake` | panel/backend/app/services/remnawave_sync.py:61-87 | A run in which an import lowers the limit under a create |
| `ArchiveNames.UniqueArchiveName` | panel/backend/app/services/node_config.py:220-239 | Terminates on every finite set after at most one attempt more than names are taken; the name is new, the preferred one if free and otherwise the first free numbered one |
| `ArchiveNames.BuildConfigsZip` | panel/backend/app/services/node_config.py:270-286 | Every buildable entry once, in order, under pairwise distinct names, and under its own name when that is still free |
| `ArchiveNames.CandidatesDiffer` | panel/backend/app/services/node_config.py:220-239 | Different counters give different names, none of them the preferred one |
| `ArchiveNames.CandidateIs` | panel/backend/app/services/node_config.py:220-239 | The counter goes before the last dot, so that the name keeps its suffix, or at the end of a name without one |
| `ArchiveNames.DecimalReadsBack` | panel/backend/app/services/node_config.py:220-239 | The counter is written with its decimal digits |
| `ArchiveNames.DecimalIsInjective` | panel/backend/app/services/node_config.py:220-239 | Different numbers are written differently |
| `ArchiveNames.TriedIsBounded` | panel/backend/app/services/node_config.py:220-239 | While all candidates were taken the counter is bounded by the number of names taken |

## Left out

- Fleet.OneNodeIsExclusive: leaves out the deletion of a node, whose tunnels stay in place by design; so do `FleetLimits` and `FleetGuards`. `PanelRuns` includes it.
- Requests that time out at the client and still take effect on the node later, and reports that arrive after their job ended.
- A transaction is one atomic step, except where a claim splits it: the sync result that commits halfway, the start request, and the create under the pool and limit models. The snapshot of a node is read atomically.
- Row locks are not modelled beyond the owner lock of a create, and no claim is made about deadlock: `_lock_owner_rows` may lock a smaller id in a later round.
- "Active implies installed" is not claimed: a stale heartbeat can report active for a peer that was removed.
- Node results: provision and heartbeat diagnostics, endpoint sessions, the table of raw samples and agent versions, which no rule reads.
- `peer.user_id` is folded into the device's owner; keys, pre-shared keys and ids are fresh abstract numbers; time is an integer and days are its quotient.
- Profile fields of imported accounts that no lifecycle rule reads, display names, and the check that traffic is reset by hand only.
- PanelDb.Database.NodeSyncResult: is one transaction; the commit in the middle of the endpoint, when a pass queues an operation, is split in two steps in `Fleet` (`ReportFirstHalf`, `ReportSecondHalf`).
- Sync operations queued by a pass appear as the returned sets of nodes; enqueueing itself is not modelled.
- Agent.PersistPeer: "\n" is the only line break and the white space is ASCII, while the agent also breaks lines at other control characters.
- AgentRefinement.PersistRefines: keys, pre-shared keys and addresses hold no white space, no bracket and (addresses) no comma, and the file is one in which editor and reader agree on headers and key lines; `ConfigText` and `AgentLayout` say which.
- AgentRefinement.UnpersistRefines: the same shape of file is required.
- AgentLive.LiveFollowsSaved: covers I1..I5, the only live settings the agent compares; a configuration must hold no line break and no peer header.
- Peers shown by `awg show` beyond the table, supervisor and process handling, temporary files and file locks.
- Operations.BodyRunsAtMostOnceExactly: publishing a retry and acknowledging the message are one step; only the start request is split into its read and its write.
- Operations.StatusMovesForwardExactly: leaves out the panel's `enqueue_failed`, which is written over any status.
- EventHub: the PostgreSQL listening connection, decoding of payloads and the generator loop of a stream; streams appear as their slots.
- EventSession.Session.RollbackWhole: takes it that the library raises no event for a rollback, or a close, of a session without a transaction.
- UserPageLoop: fetching, aborting and parsing are outcomes of a request, and the environment's tab and token are fields; callbacks the stream handles alone are methods of `UserStream.EventStream`.
- UserStream.EventStream: tokens are numbers, with one for the missing token; decoding of frames is left out.
- Migration: the downgrade works on values, as its set-based SQL does; types, indexes and other migrations are left out.
- AddressPool.RunKeeps: the insert of a device is atomic with its commit; `DeviceLimit` splits them.
- ArchiveNames.BuildConfigsZip: the archive's bytes, QR codes, rendering of configurations and `archive_component` are left out.
- Readiness and status views, MTProxy and Telegram proxy settings, webhooks, authentication, cryptography and the pages themselves: single-branch mappings, foreign calls or user interface.
