# Panel and node agents: a Dafny model of how they stay in agreement

A control panel manages proxy nodes. On every node an agent talks to the panel over a WebSocket that may
drop and reconnect at any time. This project models the parts of the two programs that have to agree across
that link, and across crashes, and proves what that agreement is.

| module | what it models |
|---|---|
| `Traffic`, `PendingBuffer` | usage counters and the agent's durable buffer of unacknowledged usage (`pending.go`) |
| `TrafficProtocol`, `TrafficDrain` | the ack-gated usage protocol between agent and panel as a transition system, with crashes, lost acks and reconnects |
| `BufferLoss`, `IngestErrors` | what the usage protocol does when the agent's buffer file is lost, and when the panel's store fails |
| `XrayConfig`, `Provisioning` | the generated Xray config, its user lists, the active users and their signature |
| `ApplySteps`, `LiveApply` | applying a pushed config by live user edits or by a restart: the single effects as a machine, and the agent that follows it |
| `BaselineCrash` | recovering the recorded baseline after a crash |
| `Hub`, `PanelSync` | the connection registry, the bounded write queue, the signature cache that skips pushes, and convergence of a node |
| `MapSums`, `StoreLedger` | the usage tables of the panel's database and the ingest of a batch into them |
| `UsageEndToEnd` | the usage protocol and the tables together: from a node's counters to a user's `data_used` |
| `AccessLog`, `AccessLogRuns` | the access-log tailer with its persisted offset, against reading the log once |
| `Calendar`, `MonthlyReset` | monthly quota resets over the Gregorian calendar |
| `Decimal`, `Strings`, `Sessions` | session tokens, their parsing, and revocation by epoch |
| `Limiter` | the login limiter against a specification over the history of calls |
| `SecretMigration` | at-rest encryption of secret columns and the migration of old rows |

State that the programs change in place is a class here (`PendingTraffic`, `Agent`, `Xray`, `NodeConn`,
`ConnTable`, `Panel`, `Store`, `AccessWatcher`, `LoginLimiter`, `SecretStore`). Each method is proved against
a function of values, or, for `Agent`, against the steps of a machine it carries along; the statements about whole
runs are lemmas about those functions and machines.

## Hypotheses

- A connection is FIFO, and a replaced connection delivers nothing more. One `ingestTraffic`, one `syncNode`
  and one `forceSyncNode` are single steps with one clock reading; store calls succeed (`IngestErrors` drops this for ingests).
- A save of the usage buffer that is reached succeeds, and the file is not lost (`BufferLoss` is about a lost one). A crash may fall before any save.
- SHA-256 is injective, so a hash is modelled by what is hashed. The MAC returns text without `|`; the AEAD
  opens what it sealed; base64 is a bijection. These are parameters with those properties as preconditions.
- Xray keys the users of an inbound by email; adding a present user or removing an absent one is an error.
  A gRPC call may fail with or without having had its effect.
- A node's usernames are unique, non-empty and free of `:` and of spaces, and UUIDs are free of spaces
  (`internal/panel/validate.go` enforces the usernames).

## Where the code does less than it says

- A restart that fails after a partial live apply leaves a stale baseline in memory (`ApplySteps.AgreementKeptExactly`:
  exactly the pushes for which this can happen), and a later push may then return nil without repairing Xray
  (`ApplySteps.RepairsExactly`: exactly the states in which that can happen).
- Two unfinished applies can make an old baseline hash match again. `BaselineCrash.WriteBoundExact` states the exact
  bound, at most one config write since the baseline was recorded; `PanelSync.RecoveredBaselineMisses` is a whole history.
- `docs/PROTOCOL.md` and `ingestTraffic` promise that a reset buffer is re-baselined. The next batch of a buffer that
  resumes at number n is acked and lost if the panel's last number, when the agent connects, happens to be n + 1, and only
  then (`BufferLoss.ResumedRun`; `BufferLoss.FreshBufferLosesBatch` is the simplest case).
- The hub acks a batch whose ingest met a store error. `IngestErrors` accounts for what is lost, and for what is counted
  twice, and says exactly when.
- A collect that finds the access log truncated to nothing resets its offset in memory only, so lines can be skipped after
  a restart (`AccessLogRuns.RestartAfterEmptyCollectLosesLines`; exact condition `AccessLogRuns.NoticedIsExact`). A collect
  that meets an unfinished last line ends one past the file (`AccessLogRuns.UnfinishedLineRereads`).
- The panel does not learn that an apply failed, so the convergence results speak of nodes whose last apply returned nil.
- An admin name that is deleted and used again counts its session epochs from zero (`Sessions.RecreatedAdmin`).
- `Hub.PushAll` (`internal/panel/hub.go:208`) would push without updating the signature cache; nothing calls it.

## Model

| member | source | states |
|---|---|---|
| `Traffic.MergeTotals` | internal/agent/pending.go:67-80 | merging items into the buffer adds, for every user and direction, exactly the bytes they report |
| `Traffic.MergeKeys` | internal/agent/pending.go:67-80 | exactly the users with reported bytes get an entry; items without bytes make none |
| `Traffic.ListedTotals` | internal/agent/pending.go:109-114 | a batch listing reports for every user exactly what the in-flight map holds, in whatever order the map is ranged over |
| `Traffic.ListingsPermute` | internal/agent/pending.go:109-114 | two listings of one in-flight map are permutations of each other |
| `PendingBuffer.CollectAddsBytes` | internal/agent/pending.go:83-91 | collecting raises the bytes held for each user by exactly what was reported |
| `PendingBuffer.PromoteKeepsBytes` | internal/agent/pending.go:96-108 | starting a batch moves bytes and neither creates nor drops any |
| `PendingBuffer.AckDropsOnlyItsBatch` | internal/agent/pending.go:117-125 | an ack of any other number, or with nothing in flight, changes nothing; the right one drops exactly the batch in flight |
| `PendingBuffer.PendingTraffic.Load` | internal/agent/pending.go:36-49 | a starting agent resumes the stored buffer, or a fresh one when nothing is stored |
| `PendingBuffer.PendingTraffic.Save` | internal/agent/pending.go:52-65 | the file becomes the whole buffer, or stays as it was when the write fails |
| `PendingBuffer.PendingTraffic.MergeInto` | internal/agent/pending.go:67-80 | the loop computes the merge, and every user's counters grow by the sum of its items |
| `PendingBuffer.PendingTraffic.CollectItems` | internal/agent/pending.go:83-91 | only pending bytes change; the file is written only when there was something to collect |
| `PendingBuffer.PendingTraffic.Batch` | internal/agent/pending.go:96-114 | returns the in-flight batch under its number, promoting pending bytes under the next number exactly when nothing is in flight |
| `PendingBuffer.PendingTraffic.Enumerate` | internal/agent/pending.go:109-113 | every in-flight entry is listed exactly once |
| `PendingBuffer.PendingTraffic.AckBatch` | internal/agent/pending.go:117-125 | for any other number, or with nothing in flight, the buffer and its file stay as they are; for the number in flight only the batch is cleared, and saved |
| `TrafficProtocol.CreditedPlusIgnored` | internal/panel/traffic.go:44-58 | a report splits, for each user, into credited bytes (assigned users) and ignored bytes (all others), with nothing left over |
| `TrafficProtocol.InvStep` | internal/agent/pending.go:83-125 | every step of agent, network, panel or crash keeps the protocol invariant: sequence agreement, queue contents, stable batches and byte conservation |
| `TrafficProtocol.ExactlyOnce` | internal/agent/pending.go:83-125 | after every run, per user and direction: bytes read = credited + ignored + pending + in flight and not yet applied + held only in memory (now, or at a crash) |
| `TrafficProtocol.NothingLostOtherwise` | internal/agent/agent.go:213-232 | a run loses bytes of some user, in some direction, if and only if a crash falls between reading bytes and saving them |
| `TrafficProtocol.SeqAgreement` | internal/panel/traffic.go:26-67 | the panel's last number is the buffer's number, or one less while a batch is in flight; no ack exceeds it; no older frame is waiting; batches 1..last are applied once each, in order |
| `TrafficProtocol.StableBatches` | internal/agent/pending.go:93-114 | over all frames of a run, numbers never decrease and equal numbers carry the same items up to order |
| `TrafficProtocol.NumbersNameBatches` | internal/agent/pending.go:96-125 | along every run and across reloads the stored number only grows, and a different in-flight batch has a larger number |
| `BufferLoss.ReplacedResumes` | internal/agent/agent.go:170-200 | a lost or replaced file leads to a connection with nothing buffered, whatever frames of the old connection the panel reads before it |
| `BufferLoss.ResumedRun` | internal/panel/traffic.go:22-40 | for every run after an agent connects with nothing buffered at number n: every batch from n + 1 on is applied exactly once and in order, except that batch n + 1 is skipped, and its bytes are in no ledger, if and only if the panel's last number at that connect was n + 1 |
| `BufferLoss.FreshBufferLosesBatch` | internal/panel/traffic.go:22-40 | after the first batch of a new node, losing the buffer file makes the next batch vanish, whatever both contain |
| `IngestErrors.ConservedWithErrors` | internal/panel/hub.go:154-158 | with ingests that return early, items that are not added, and numbers that are not recorded: bytes read + bytes of unrecorded ingests = those of the error-free protocol + skipped batches + failed items |
| `IngestErrors.SkippedMeaning` | internal/panel/traffic.go:27-63 | after every run, a batch is skipped if and only if it was assigned a number, is no longer in flight, and its number was never recorded |
| `IngestErrors.DuplicatesExactly` | internal/panel/traffic.go:32-34 | after every run, the next frame is taken for a duplicate if and only if its number is recorded, so an unrecorded ingest is repeated by the next frame of its batch |
| `IngestErrors.AckDropsUnrecorded` | internal/panel/hub.go:154-158 | an ack of the batch in flight drops it, and it is skipped if and only if its number is not recorded |
| `IngestErrors.NothingSkipped` | internal/panel/traffic.go:27-63 | nothing is skipped, failed or repeated unless an ingest met an error |
| `IngestErrors.GoneForGood` | internal/panel/traffic.go:27-41 | a skipped batch that no frame carries any more never comes back, whatever happens next |
| `IngestErrors.FailedIngestLosesBatch` | internal/panel/traffic.go:27-41 | a run for any first report of a new node whose ingest fails: acknowledged, applied nowhere, and gone for good |
| `IngestErrors.UnrecordedIngestDoubles` | internal/panel/traffic.go:59-63 | a run for any first report whose number is not recorded and whose ack is lost: its bytes are counted twice |
| `TrafficDrain.WorkStep` | internal/agent/agent.go:220-232 | every step over a reliable connection leaves less work, in any interleaving and any listing order, except a resend, which adds at most three steps |
| `TrafficDrain.QuietIsEmpty` | internal/agent/agent.go:195-255 | when nothing but resends can follow, nothing is buffered and nothing is under way |
| `TrafficDrain.Drain` | internal/agent/agent.go:195-255 | from every reachable state, every reliable run takes at most a computed number of steps plus four per resend and applies at most two more batches; once only resends can follow, the buffer is empty and every byte read is credited, ignored, or was lost to an earlier crash |
| `TrafficDrain.QuietFollows` | internal/agent/agent.go:195-255 | every reliable run can be continued to that point, without a resend |
| `TrafficDrain.ResendsDoNotDelay` | internal/agent/agent.go:220-230 | once a batch is on its way, it is acknowledged as soon as more acks have arrived than were ahead of it, however often it is resent |
| `XrayConfig.ParseClients` | internal/agent/live_grpc.go:51-95 | the loops split a config into its skeleton and the users of each managed inbound, and refuse exactly the documents without an inbounds array |
| `XrayConfig.UsersMeaning` | internal/agent/live_grpc.go:74-87 | a user has the uuid of the last entry with its email, and entries without an email are left out, for every client list |
| `XrayConfig.SetsMeaning` | internal/agent/live_grpc.go:61-91 | the users under a tag are those of the last managed inbound with that tag |
| `XrayConfig.SkeletonExactly` | internal/agent/live_grpc.go:48-91 | two configs have the same skeleton if and only if they differ in nothing but the client lists of managed inbounds |
| `XrayConfig.SettingsDecideSkeleton` | internal/nodeconf/nodeconf.go:28-128 | two built configs have the same skeleton if and only if every setting that shows in a config is the same, whatever their users |
| `XrayConfig.SkeletonFixesTags` | internal/agent/live_grpc.go:48-91 | configs with equal skeletons manage the same inbounds |
| `XrayConfig.StripTLSIfNoCert` | internal/agent/xray.go:31-65 | the loop drops TLS when, and only when, its certificate is missing |
| `XrayConfig.StripKeeps` | internal/agent/xray.go:45-60 | every inbound other than TLS is kept, in order, and no TLS inbound is |
| `XrayConfig.StripClients` | internal/agent/xray.go:31-65 | stripping removes the TLS user list and leaves every other inbound's users alone |
| `XrayConfig.BuildClients` | internal/nodeconf/nodeconf.go:35-128 | a built config carries the full user list under every served inbound and manages no other |
| `XrayConfig.BuildInbounds` | internal/nodeconf/nodeconf.go:28-128 | a config holds the API inbound, TLS exactly with a domain, REALITY exactly with destination, server name and key, each parameter in its place, and nothing else |
| `XrayConfig.BuildSkeleton` | internal/nodeconf/nodeconf.go:35-128 | two configs for the same settings differ in users only, so a user change never forces a restart |
| `XrayConfig.UsersAreClients` | internal/agent/live_grpc.go:74-87 | with unique emails the parsed users are exactly the listed (email, uuid) pairs |
| `XrayConfig.SameClientsSameUsers` | internal/agent/live_grpc.go:74-87 | the order of the client list does not matter |
| `ApplySteps.RunOutcome` | internal/agent/xray.go:70-99 | what one apply leaves behind from any state of the node: the file, the baselines, and an Xray that is restarted, fully patched, or half-way, with only users of the delta touched |
| `ApplySteps.LiveFinishes` | internal/agent/live_grpc.go:99-149 | if Xray has exactly those users of the delta that the baseline says, a live apply can run to its end and leaves the whole delta in place |
| `ApplySteps.RepairsExactly` | internal/agent/xray.go:70-99 | from any state, every nil return of a push means that Xray runs its config if and only if the push restarts, has a call rejected, or finds everything outside its delta already right |
| `ApplySteps.SettingsChangeRestarts` | internal/agent/live_grpc.go:102-104 | a push with other settings than the recorded ones never takes the live path: nil leaves exactly the new config running |
| `ApplySteps.AgreementKeptExactly` | internal/agent/xray.go:82-98 | a right baseline stays right after every run of an apply if and only if the config is refused, changes the skeleton, or changes no user; otherwise a run that leaves it stale is returned |
| `ApplySteps.FirstCallThenFailure` | internal/agent/xray.go:82-98 | for every push that touches a user: the first call takes effect, its report and the restart fail, and the old baseline stays |
| `LiveApply.Agent.Seed` | internal/agent/baseline.go:49-72 | the stored baseline is taken over exactly when its hash matches the config file, which is the crash step of the machine |
| `LiveApply.Agent.AddChanged` | internal/agent/live_grpc.go:119-133 | the loop moves the machine through exactly the additions and changes of one inbound, in any order, from any state of Xray; no call is rejected if Xray matches the baseline on the delta |
| `LiveApply.Agent.RemoveStale` | internal/agent/live_grpc.go:134-141 | the loop moves the machine through exactly the removals of one inbound; a failed call ends in the restart phase |
| `LiveApply.Agent.ApplyTag` | internal/agent/live_grpc.go:116-142 | one inbound's part of the delta is worked off, other inbounds are untouched |
| `LiveApply.Agent.TryLive` | internal/agent/live_grpc.go:99-149 | true only if no call was rejected and Xray is patched by the whole delta; false leaves the baseline alone and the machine restarting |
| `LiveApply.Agent.ApplyConfig` | internal/agent/xray.go:70-99 | from any state, whether or not the baseline is right: the call is one run of the machine and leaves that run's outcome; calls are rejected only where the baseline was wrong about the delta |
| `LiveApply.LastPushWins` | internal/agent/xray.go:70-99 | after any sequence of successful applies Xray runs the last config |
| `BaselineCrash.InvStep` | internal/agent/baseline.go:49-89 | every step of an apply, every crash and every restart of Xray keeps the baseline invariant |
| `BaselineCrash.SafeStep` | internal/agent/xray.go:70-99 | once a push that repairs is written, no call, failure, restart or Xray restart can make it end with nil on another config |
| `BaselineCrash.LiveDoneRight` | internal/agent/live_grpc.go:116-149 | when a safe live apply has no call left, Xray runs its config, even if Xray restarted in between |
| `BaselineCrash.CrashSafe` | internal/agent/baseline.go:49-89 | after every orderly run, with failed applies and crashes anywhere: a baseline the hash check trusts with at most one write outstanding is what Xray runs, and a nil return left Xray on its config |
| `BaselineCrash.PushCondition` | internal/agent/xray.go:70-99 | the condition on pushes is exact: where it holds every nil return is right, and where it fails there is a nil return that is not |
| `BaselineCrash.MoreWritesCanFool` | internal/agent/baseline.go:49-72 | for every larger number of outstanding writes, an orderly run after which the trusted baseline is wrong |
| `BaselineCrash.WriteBoundExact` | internal/agent/baseline.go:49-89 | trusting the hash is right after all orderly runs if and only if at most one write may be outstanding |
| `BaselineCrash.PushAfterFailedRestartCanFool` | internal/agent/xray.go:82-98 | the failing condition is reached: after a failed restart, pushing the recorded config again returns nil without a call and does not repair Xray |
| `Provisioning.BuildXrayConfig` | internal/panel/config.go:11-27 | the loop builds the config of the active users |
| `Provisioning.ActiveExactly` | internal/panel/models.go:41-52 | active means enabled, before the expiry if there is one, and below the limit if there is one |
| `Provisioning.ActivityEnds` | internal/panel/models.go:41-52 | an active user stays active, as time passes, exactly until the expiry |
| `Provisioning.ConfigProvides` | internal/panel/config.go:9-27 | under every served inbound the config holds exactly the (username, uuid) pairs of active users |
| `Provisioning.ActiveSignature` | internal/panel/traffic.go:127-138 | collects, sorts and prints the active pairs |
| `Provisioning.CanonicalSignature` | internal/panel/traffic.go:125-138 | two user lists, at two times and in any order, have the same signature if and only if they have the same active pairs |
| `Hub.RegistryExact` | internal/panel/hub.go:89-116 | over every interleaving, a node's entry is exactly its latest registered connection not yet unregistered, and a registered connection is closed exactly when it is not that entry |
| `Hub.LateUnregisterHarmless` | internal/panel/hub.go:98-109 | unregistering a displaced connection does not remove the newer one |
| `Hub.ConnTable.RegisterConn` | internal/panel/hub.go:89-96 | the new connection becomes the entry, the displaced one is closed, all entries stay open |
| `Hub.ConnTable.UnregisterConn` | internal/panel/hub.go:98-109 | the entry goes only if it is this very connection, which is closed either way |
| `Hub.NodeConn.TrySend` | internal/panel/hub.go:168-180 | queues in order exactly when open and not full, and reports whether it did |
| `Hub.NodeConn.Take` | internal/panel/hub.go:118-130 | the writer takes the oldest queued message |
| `PanelSync.Panel.PushConfig` | internal/panel/hub.go:184-205 | true exactly when the node is online, exists and has room; then the current config is queued last |
| `PanelSync.Panel.SyncNode` | internal/panel/traffic.go:147-165 | skips on an equal cached signature, caches only what was queued, and is the Sync event of the node it concerns |
| `PanelSync.Panel.ForceSyncNode` | internal/panel/traffic.go:170-187 | always pushes; a failed push drops the cache entry; it is the Force event of the node it concerns |
| `PanelSync.CacheStep` | internal/panel/traffic.go:147-187 | every panel, connection and agent step keeps: a cached signature stands for the last queued config, built from the current settings |
| `PanelSync.SkipSound` | internal/panel/traffic.go:140-165 | in every reachable state a skipped push would have loaded exactly like the last queued config, which is last on the current connection |
| `PanelSync.SyncQueuesChanges` | internal/panel/traffic.go:147-165 | a sync of an online node with room queues a push if and only if the set of active users differs from the last push |
| `PanelSync.NodeStep` | internal/agent/certwatch.go:36-48 | every step of panel, connection, agent and Xray, re-applies after a certificate change included, keeps: the node's file holds the last frame received, less TLS if the certificate was missing, and an apply that began safely stays safe |
| `PanelSync.Converged` | internal/panel/traffic.go:147-187 | for every history, with failed and half-way applies, re-applies, and agents that recover or reject baselines: if the last apply repaired and returned nil, every inbound the node should serve is there with exactly the users active now, except that TLS is absent if and only if its certificate was missing at that apply |
| `PanelSync.ConvergedOrderly` | internal/panel/traffic.go:147-187 | in orderly histories every frame repairs, so every online, drained node in sync serves exactly its active users |
| `PanelSync.UnsafeFrameCanMiss` | internal/agent/xray.go:70-99 | every frame that does not repair can be applied with nil and leave Xray on something else |
| `PanelSync.RecoveredBaselineMisses` | internal/agent/baseline.go:49-72 | a history that ends online, drained and in sync with an assigned user not served, because a baseline was recovered across two writes |
| `StoreLedger.UserLedgerStep` | internal/panel/store.go:1035-1106 | each operation keeps: data_used = the user's per-node rows + bytes removed by node deletions since its last reset |
| `StoreLedger.DayLedgerStep` | internal/panel/store.go:1035-1064 | each operation keeps, per day and direction: users' total = nodes' total + bytes removed by node deletions |
| `StoreLedger.Ledger` | internal/panel/store.go:1035-1106 | both ledgers hold after every sequence of adds, resets, user and node deletions |
| `StoreLedger.NodeGoneUserRows` | internal/panel/store.go:576-600 | deleting a node takes exactly its own row from each user's total |
| `StoreLedger.NodeGoneDayRows` | internal/panel/store.go:576-600 | deleting a node takes exactly its own row from each day's node total |
| `StoreLedger.OtherUserRows` | internal/panel/store.go:1091-1106 | clearing a user's rows zeroes that user's total and leaves every other total alone |
| `StoreLedger.CreditedUsage` | internal/panel/traffic.go:45-58 | a batch raises each assigned user's data_used by exactly the bytes it reports for that user |
| `StoreLedger.AddTrafficGrows` | internal/panel/store.go:1035-1064 | adding usage raises that user's data_used and total, and that day's total over users and over nodes, by exactly the amount, and no other total |
| `StoreLedger.AddTrafficRows` | internal/panel/store.go:1035-1064 | exactly one row of each table grows, by the amount in each direction: user and node, user and day, node and day |
| `StoreLedger.LedgerUsers` | internal/panel/store.go:972-993 | after every sequence of operations exactly the users created and not deleted since have a usage |
| `StoreLedger.Store.ResetTraffic` | internal/panel/store.go:1091-1106 | the user's usage is zero and exactly its node rows are gone; daily history and all other users stay |
| `StoreLedger.Store.RemoveUserRows` | internal/panel/store.go:972-993 | exactly this user and its node rows are gone |
| `StoreLedger.Store.RemoveNodeRows` | internal/panel/store.go:576-600 | exactly the rows filed under this node are gone; usage and daily history of users stay |
| `StoreLedger.RowsAreBooked` | internal/panel/traffic.go:44-58 | what a batch books, in terms of the report: per assigned user and direction the rows for the node and for the day grow by what the batch reports for that user, the node's row by the sum over assigned users, rows appear only for users with bytes, and nothing else changes |
| `StoreLedger.Store.IngestTraffic` | internal/panel/traffic.go:26-67 | a resend of the last batch or an unknown node changes nothing; any other batch is booked exactly as its report says, and its number recorded |
| `UsageEndToEnd.RunUsage` | internal/panel/traffic.go:26-67 | over every protocol run, reassignments included, a user's data_used grows by exactly the bytes the protocol counts as credited to that user |
| `UsageEndToEnd.UsageArrives` | internal/agent/agent.go:195-255 | after every run, every reliable run that goes on until only resends can follow brings a user's data_used to its start plus all bytes read from the node's counters, less those a crash caught before they were saved, and less those that arrived while the user was not assigned, of which there are none for a user who stays assigned |
| `AccessLog.ConsumedExact` | internal/agent/devices.go:167-195 | the offset advances by the bytes read, less dropped carriage returns, plus one for an unfinished last line |
| `AccessLog.TokensApart` | internal/agent/devices.go:164-168 | a newline-terminated text is read independently of what follows it |
| `AccessLog.TokensRoundTrip` | internal/agent/devices.go:164-168 | the lines read from a clean text, each with a newline, are the text again |
| `AccessLog.ConnsAreLines` | internal/agent/devices.go:169-190 | the connections of a device are the number of lines that count for it |
| `AccessLog.AccessWatcher.constructor` | internal/agent/devices.go:48-60 | a starting agent resumes at the stored position, or is unseeded |
| `AccessLog.AccessWatcher.Aggregate` | internal/agent/devices.go:167-194 | exactly the devices seen in the lines, each with its number of connections, its latest stamp and the inbound of its last line |
| `AccessLog.AccessWatcher.CollectDevices` | internal/agent/devices.go:125-206 | reads from the stored position, restarting on another or shrunken file; the position moves in memory and on disk as specified; the result aggregates the lines read |
| `AccessLogRuns.IncrementalIsBatch` | internal/agent/devices.go:125-206 | over every run of appends, rotations, truncations, collects and restarts, the lines reported are exactly those written after seeding and present at a later collect, once and in order; summed connections equal one pass over them |
| `AccessLogRuns.NoticedIsExact` | internal/agent/devices.go:146-153 | a collect of a clean file reports the unread lines if and only if a replacement of the file shows as another inode, a shorter file or a zero offset |
| `AccessLogRuns.UnfinishedLineRereads` | internal/agent/devices.go:149-195 | of two collects with nothing written between them the second reports nothing if and only if the log ends in a newline; otherwise the whole log is reported again |
| `AccessLogRuns.UnfinishedLineSplits` | internal/agent/devices.go:167-195 | text appended to an unfinished line loses its first character |
| `AccessLogRuns.RestartAfterEmptyCollectLosesLines` | internal/agent/devices.go:149-154 | a whole family of runs in which lines are skipped because the reset offset was not stored |
| `Calendar.CivilInverse` | internal/panel/traffic.go:214-215 | the date of a valid date's day number is that date, for all years |
| `Calendar.CivilValid` | internal/panel/traffic.go:214-215 | every day number has a valid date, and it is that date's day number |
| `Calendar.MonthIndexMonotone` | internal/panel/traffic.go:214-215 | later days never fall in earlier months |
| `Calendar.MonthLengths` | internal/panel/traffic.go:215 | the lengths of the twelve months, and the leap-year rule |
| `MonthlyReset.ComputedLength` | internal/panel/traffic.go:215 | the day before the first of the next month gives the month's length, in February of every year and in December |
| `MonthlyReset.UnixEpoch` | internal/panel/traffic.go:237 | seconds count from the first of January 1970 |
| `MonthlyReset.InstantOfMonth` | internal/panel/traffic.go:216-220 | the reset instant lies in the month of now, on the reset day clamped to the month's length |
| `MonthlyReset.AtMostOncePerMonth` | internal/panel/traffic.go:207-225 | over non-decreasing check times a user is reset at most once per calendar month |
| `MonthlyReset.ResetExactly` | internal/panel/traffic.go:207-250 | a month sees a reset if and only if some check falls in it at or after its reset instant and last_reset does not already cover that instant |
| `MonthlyReset.DueExactly` | internal/panel/traffic.go:210-224 | a reset is due if and only if resets are switched on, midnight of the clamped reset day has passed, and the last reset was before it |
| `MonthlyReset.DisabledNeverResets` | internal/panel/traffic.go:211-213 | with a reset day below one no check at any time resets |
| `MonthlyReset.CheckUsers` | internal/panel/traffic.go:230-250 | one pass zeroes and stamps exactly the due users, and leaves every other user, those with resets switched off included, as it was |
| `Decimal.IntRoundTrip` | internal/panel/auth.go:30-60 | every int64 survives formatting and parsing, and its text holds no separator |
| `Decimal.ParseIntAccepts` | internal/panel/auth.go:52-58 | exactly the texts of one optional sign, digits, and a value that fits are numbers |
| `Decimal.FormatExample` | internal/panel/auth.go:30-60 | decimal text with the most significant digit first: -120 both ways, and +007 |
| `Sessions.SessionRoundTrip` | internal/panel/auth.go:29-61 | a signed token verifies to exactly its role, subject and epoch if and only if it has not expired and holds no separator in role or subject |
| `Sessions.VerifiesExactly` | internal/panel/auth.go:39-61 | whatever the MAC: a text verifies as a session if and only if it is that session's fields followed by their MAC under this secret, and has not expired |
| `Sessions.PortalUserExactly` | internal/panel/portal.go:24-42 | the portal opens exactly for such a text of an existing account at its current epoch |
| `Sessions.RequireAuthExactly` | internal/panel/auth.go:107-126 | the admin side opens exactly for such a text of an existing admin at its current epoch |
| `Sessions.PortalTokenMeaning` | internal/panel/portal.go:24-42 | a portal token opens exactly its own account while unexpired and at the current epoch, and never the admin side |
| `Sessions.Revocation` | internal/panel/store.go:314-319 | over every run of bumps, deletions and other users' events, a token is accepted if and only if it has not expired and its user was neither bumped nor deleted since |
| `Sessions.PasswordChangeKeepsOwnSession` | internal/panel/portal.go:131-169 | changing the password keeps the re-issued session and ends the earlier ones |
| `Sessions.AdminTokenMeaning` | internal/panel/auth.go:107-126 | an admin token opens the admin side exactly while unexpired and at the current epoch, and never a portal account |
| `Sessions.AdminRevocation` | internal/panel/store.go:305-311 | while the account is not deleted, over every run of events, an admin token is accepted if and only if it has not expired and the epoch was not bumped |
| `Sessions.RecreatedAdmin` | internal/panel/store.go:358-369 | after an admin is deleted and the name used again, an earlier token of epoch k is accepted exactly while the new account has been bumped k times |
| `Limiter.LoginLimiter.IsBlocked` | internal/panel/auth.go:189-201 | answers from the entry, deleting it when expired |
| `Limiter.LoginLimiter.RecordFailure` | internal/panel/auth.go:204-222 | counts in the open window or opens a new one; above 4096 entries the loop removes exactly the expired ones |
| `Limiter.LoginLimiter.Clear` | internal/panel/auth.go:225-229 | forgets exactly this key |
| `Limiter.LimiterRefines` | internal/panel/auth.go:188-229 | with a non-decreasing clock the limiter answers exactly as counting the failures in the window opened by the first failure since the last reset or expiry; lazy deletion and sweep are unobservable |
| `Limiter.FailuresAreCalls` | internal/panel/auth.go:204-222 | the count of a window is the number of the failures in it |
| `SecretMigration.DecryptEncrypt` | internal/panel/crypt.go:58-91 | what was encrypted reads back, and a non-empty value is marked once a key is set |
| `SecretMigration.EncryptExactly` | internal/panel/crypt.go:52-76 | with a key, exactly the non-empty values that do not begin with the prefix are sealed; values without the prefix read as they are |
| `SecretMigration.PrefixKeepsMeaning` | internal/panel/store.go:257-262 | after every prefix of the migration's writes each secret still reads as the same plaintext |
| `SecretMigration.MigrationComplete` | internal/panel/store.go:229-264 | at the end every non-empty secret is marked and reads the same, and a second run has nothing to do |
| `SecretMigration.SecretStore.ReencryptColumn` | internal/panel/store.go:233-264 | the two loops migrate a column completely without changing what it says, and leave a migrated column alone |
| `SecretMigration.SecretStore.EncryptExisting` | internal/panel/store.go:200-227 | all three secrets keep their meaning and end up marked; nothing changes without a key |

## Left out

- 64-bit overflow of byte counters and batch numbers; integers are unbounded here (token fields are bounded, as parsed).
- Interleavings inside `syncNode`, `forceSyncNode` and `ingestTraffic`.
- PendingBuffer.PendingTraffic.Save: a failed write is modelled in the class; the protocol runs take reached saves to succeed.
- BufferLoss.ResumedRun: bytes still buffered in the lost file are outside the statement, which is about what is read afterwards.
- BaselineCrash.CrashSafe: orderly runs only; `PushCondition` and `WriteBoundExact` show that both halves of the condition
  are needed. Writing the baseline file is taken to succeed.
- PanelSync.Converged: a node whose last apply failed is not covered; the panel does not retry it. A re-apply takes the last
  config at the moment it starts; one that picked it up earlier and waited for a push to finish is not modelled.
- LiveApply.Agent.ApplyConfig: effects outside Xray (the nginx routing, the ACME domain file) and a failing write of
  config.json are not modelled.
- AccessLogRuns.IncrementalIsBatch: files are clean at each collect (newline-terminated, no carriage returns, lines below
  the scanner limit); the offset file is enabled and its writes succeed.
- The regular expression and time stamps of access-log lines (`accessRe`, `lineTime`) are parameters.
- Cryptographic primitives, base64 and bcrypt are parameters or absent; that a MAC cannot be guessed is not stated.
- UsageEndToEnd.UsageArrives: usernames keep their ids during the run, and usage is not reset meanwhile.
- MonthlyReset.CheckUsers: a failed store call in the loop, which skips that user until the next pass.
- `statsToItems`, device rows on the panel, throughput smoothing, host metrics: easy or display only.
- HTTP handlers, JSON encoding, subscription output (`renderClashTemplate`), the Telegram bot, backups and the web UI.
