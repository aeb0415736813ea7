# Verified models of the backend's self-contained algorithms

Ten parts of the repository carry an invariant that is worth more than the code around it. Each is modelled
here in Dafny, in the form its source has (classes and methods where the source updates state, step systems
where several processes interleave), and its hard properties are proved.

| part | files here |
|---|---|
| Snowflake IDs: bit layout, generator under an adversarial clock, Redis leases for node ids | `IntegerBits`, `SnowflakeIds`, `SnowflakeGenerator`, `SnowflakeCluster`, `NodeRegistry`, `SnowflakeLeases` |
| Sync inbox worker: claim, business transaction, acknowledgement | `InboxWorker`, `InboxRetries`, `InboxStore` |
| Join rows to nested or flat objects | `JoinRows`, `NestedJoin`, `JoinPaths`, `JoinFlat`, `JoinResults`, `JoinSerialize` |
| Cloud-node retention: lapse, retention period, restore, purge, sessions, requests | `CloudNodeRetention`, `CloudNodeCountdown`, `CloudNodeCredentials`, `CloudNodeContainers`, `CloudNodeSweep`, `CloudNodeRounds`, `CloudNodeRequests` |
| Tree builders | `ParentLists`, `TreeBuilder`, `TreeAgreement` |
| Folder migration into the knowledge base | `FolderPaths`, `FolderMigration`, `FolderRerun` |
| Credit rebase | `CreditKeys`, `CreditRebase`, `CreditLedger`, `CreditRun` |
| Redis snapshot digests and comparison | `Pairs`, `Chunks`, `SortedBytes`, `StreamIds`, `SnapshotDigest`, `Layouts`, `StreamRecuts`, `StreamTwins`, `SnapshotCompare` |
| Resumable growth migration | `GrowthCursor`, `GrowthChain` |
| Expiry reminders | `ExpiryReminders` |

`Options` holds the one shared datatype. `dafny verify dfyconfig.toml` checks everything.

## What is abstracted

* The database, Redis, hosts and the credit service are maps, sequences and answers. Every answer that the code
  can meet (lock refused, host unreachable, commit failed, commit succeeded but reported as failed) is an
  argument of the method or an event of the step system, so the results hold for all of them.
* Clock readings are arguments. The Snowflake generator gets an arbitrary sequence of readings; the lease
  protocol assumes one clock that never goes back, and says so.
* A transaction is one step, unless it calls a remote service in its middle: the purge of a cloud node is several.
  Between two steps, and between two clock readings or reads of a remote service, anything else may happen.
* Only the sweep locks a cloud node's row. Everybody else loads it, acts and writes later, and a column is written only
  if its value differs from the one loaded. A failure detail written anew is taken to differ from the old text.
* Streams are what Redis can return: every entry has an id `<ms>-<seq>` above the one before, and a field.
* The services behind the modelled code are taken from their own files: the inbox store and receipts service, the
  cloud-node service, the credit event service, the knowledge service.

## Where the code and its own words differ

Each of these is a lemma below, with the exact condition under which the promise holds.

* Snowflake: the heartbeat does not look at the answer of EXPIRE (`backend/utils/snowflake.py:89`). A renewal that
  comes late gives two holders of one pair and a repeated ID. A pair released and taken again repeats an ID, although
  every renewal was in time, exactly if an ID of the pair already carries the present millisecond.
* Inbox: a row marked `dead` has its effect committed exactly if some failure finished the row off after the commit, or
  an overtaken worker committed after the row was dead. The idempotency key is a concatenation with colons: an event
  shares its key with another exactly if its node id or client event id contains one; the receipt's identity check then
  blocks the second for good instead of swallowing it.
* Retention: the 30 days count from the mark. The container rested all that time exactly if no start was logged; an owner
  who starts and stops a retained node can lose its volume right after it was running. A purge that raises half-way and
  commits leaves the row in `deleting`, which no sweep collects; only an uncommitted one is tried again.
  `purge_agent_error` also counts nodes that were removed cleanly but carried an older failure detail.
* Stopped nodes: a row says `stopped` with its container running after an untrue report, after a start whose answer or
  commit was lost, after a stop written over a later start, when the host starts it, or when a restart that had loaded
  `starting` reaches the host after the sweep's stop. That one has nothing to write: every answer can be good and every
  transaction commit.
* Credentials: a purge ends one session, the one the row named when the purge loaded it, but a token refresh replaces the
  session without telling the row (`backend/common/security/jwt.py:138-171`). A session outlives the volume exactly if
  another one than the loaded one was accepted at the revocation, or one was issued after it (the exchange of a code does
  not look at the row's status), and nothing else ended it. Any node that has refreshed once is such a node.
* Authorization codes: a node is to have one good code at a time
  (`backend/app/hasn_hosting/service/authorization_code_service.py:68`). It has two exactly when a reauthorization commits
  its code beside one it had not found; two reauthorizations at once suffice.
* Join: the reverse lookup agrees with the graph exactly if no target has two sources; otherwise only the source declared
  last is looked up. The direct children of a primary object are found exactly if its key is there and not zero. The recursion
  ends exactly if no object is its own descendant. A flat class is overwritten exactly if a later one takes its key.
* Folder migration: a run with a broken parent chain cannot be repeated. The leftovers hang at the root without
  looking for an existing folder, so the rerun is refused and the whole transaction rolled back. Two leftovers
  of one name, or a leftover named like a root folder, make already the first run fail.
* Credit rebase: granting and revoking use different keys. When a recomputed delta changes sign both commands apply. Each
  executed row closes the gap and adds what the three reads behind it missed of each other: what was spent, what was
  paid and not delivered, and what the batch's own rows counted before they moved. With no order in flight the wallet
  is right exactly if all executed rows together add the gap once.
* Snapshot digest: streams write no field count, so two of them can feed the same bytes. Two streams in which only ids
  read as ids never do. Such a stream still has a twin, one with ids among its field names, exactly if the field names of
  three entries in a row, with the id and the values of the middle one in between, ascend. Whether any stream at all has
  one is decided by a decoder that lists all streams with its bytes.
* Growth migration: an owner whose commit succeeded but was reported as failed is committed again on retry, or is done
  although it lies above the reported cursor; without such an answer neither happens.
* Reminders: each threshold fires exactly as often as a sweep falls into its day, so "exactly once" needs exactly one.

## Model

| member | source | states |
|---|---|---|
| IntegerBits.OrOfDisjointAdds | backend/utils/snowflake.py:216-221 | OR of a shifted number and a smaller one is their sum, for integers of any sign |
| IntegerBits.AndMaskIsMod | backend/utils/snowflake.py:207-234 | AND with 2^k - 1 is the remainder modulo 2^k, for integers of any sign |
| SnowflakeIds.PackIsPositional | backend/utils/snowflake.py:215-221 | the shifted and ORed fields equal the positional sum, for all in-range fields |
| SnowflakeIds.ParseInvertsPack | backend/utils/snowflake.py:223-242 | `parse` recovers all four fields of every packed ID, also for clocks before the epoch |
| SnowflakeIds.PackIsInjective | backend/utils/snowflake.py:215-221 | distinct field tuples give distinct IDs |
| SnowflakeIds.FitsSignedColumnIff | backend/utils/snowflake.py:31-37 | an ID lies in [0, 2^63) exactly when its clock is not before the epoch and less than 2^41 ms after it |
| SnowflakeIds.PackOrder | backend/utils/snowflake.py:215-221 | on one node the order of IDs is the order of (timestamp, sequence) |
| SnowflakeGenerator.CallMovesForward | backend/utils/snowflake.py:193-213 | under any readings an issuing call moves (timestamp, sequence) strictly forward and stamps a time it really read |
| SnowflakeGenerator.RefusedIff | backend/utils/snowflake.py:196-203 | a call is refused exactly when its first reading lies more than the tolerance behind the last timestamp |
| SnowflakeGenerator.CallIssues | backend/utils/snowflake.py:193-221 | what a call issues: the next number of this millisecond or number zero of a later one after one reading; it waits exactly where the clock is behind within the tolerance or the numbers are used up, then for the first later reading |
| SnowflakeGenerator.NoNumberIsSkipped | backend/utils/snowflake.py:204-213 | over any run of calls each counter is the next number of its millisecond or zero of a later one |
| SnowflakeGenerator.IdsStrictlyIncrease | backend/utils/snowflake.py:184-221 | over any run of calls with any clock, refused calls included, the IDs of one node strictly increase |
| SnowflakeGenerator.Snowflake.Init | backend/utils/snowflake.py:125-165 | initialisation is idempotent; each refusal has its exact cause: one id without the other, no free pair, an id out of range; otherwise the generator is ready with those ids |
| SnowflakeGenerator.Snowflake.TillNextMs | backend/utils/snowflake.py:176-182 | the busy wait returns the first reading past the last timestamp and nothing else |
| SnowflakeGenerator.Snowflake.Generate | backend/utils/snowflake.py:184-221 | the next number of the same millisecond, or zero of a later one, or a wait exactly where there is none; the issued ID is greater than the one before and parses back to the state; a call that raises changes nothing |
| SnowflakeCluster.RunKeepsInv | backend/utils/snowflake.py:53-107 | scan, attempts, heartbeats, clock readings, release and crash in any interleaving keep the lease invariant |
| SnowflakeCluster.NeverTwoHolders | backend/utils/snowflake.py:53-107 | if renewals land before the lease lapses, no two processes hold one pair, ever |
| SnowflakeCluster.NeverTheSameId | backend/utils/snowflake.py:184-221 | if moreover a pair is granted only when none of its IDs carries the present millisecond, the whole cluster never issues one ID twice |
| SnowflakeCluster.SecondHolderIff | backend/utils/snowflake.py:74-94 | a step creates a second holder exactly when it grants a held pair whose key is gone, lapsed or deleted by the release of another |
| SnowflakeCluster.HandoverRepeatsIff | backend/utils/snowflake.py:74-118 | after any run a new holder that reads its clock at once returns sequence zero, which repeats an ID exactly if some ID of the pair carries this millisecond |
| SnowflakeCluster.LaterIsFresh | backend/utils/snowflake.py:96-107 | reusing a released pair in a later millisecond is enough for that |
| SnowflakeCluster.LateRenewalRepeatsAnId | backend/utils/snowflake.py:84-92 | witness: one late renewal, unnoticed, and two processes return the same ID |
| SnowflakeCluster.SameMillisecondHandoverRepeatsAnId | backend/utils/snowflake.py:96-118 | witness: release and reuse within a millisecond repeat an ID |
| NodeRegistry.Registry.Register | backend/utils/snowflake.py:74-77 | SET NX EX grants a key exactly when no unexpired one exists and touches no other |
| NodeRegistry.Registry.AcquireNodeId | backend/utils/snowflake.py:53-72 | the first free pair in order is taken; failure means that none of the 1024 was free |
| SnowflakeLeases.LeaseLasts | backend/utils/snowflake.py:74-94 | a grant, or a heartbeat while the key is there, keeps the key for exactly the time to live |
| SnowflakeLeases.LapsedStaysGrantable | backend/utils/snowflake.py:84-94 | once a key has lapsed, no run of heartbeats, clock readings, releases and crashes brings it back |
| SnowflakeLeases.SearchTakesFirstFree | backend/utils/snowflake.py:53-72 | in the interleaved system an undisturbed search takes the first free pair, as the method does |
| SnowflakeLeases.SearchGivesUp | backend/utils/snowflake.py:53-72 | and gives up when none is free |
| SnowflakeLeases.CallInSteps | backend/utils/snowflake.py:184-221 | in the interleaved system an undisturbed call, reading by reading, returns the ID the generator returns |
| InboxWorker.RunKeepsInv | backend/app/hasn/sync_inbox_worker.py:67-136 | any number of workers, lease lapses, crashes and lost commit answers keep rows, receipts and effects consistent |
| InboxWorker.EffectsOnceInOrder | backend/app/hasn/sync_inbox_worker.py:87-103 | each key's effect commits at most once, and the business tables equal each effect applied once in commit order |
| InboxWorker.AppliedRowHasItsOneEffect | backend/app/hasn_sync/adapters/sqlalchemy_store.py:246-273 | a row marked applied has exactly one committed effect, its own |
| InboxWorker.CanBeAppliedIff | backend/app/hasn_sync/adapters/sqlalchemy_store.py:166-245 | after any run an unfinished row can still be applied exactly when its key's receipt is free or its own |
| InboxWorker.RunKeepsRows | backend/app/hasn_sync/adapters/sqlalchemy_store.py:97-165 | accepted rows keep their envelope, finished rows stay finished, receipts never change |
| InboxWorker.DeadRowHasItsEffectIff | backend/app/hasn_sync/adapters/sqlalchemy_store.py:246-320 | after every run a dead row has its effect exactly if a failure finished it off after the commit or an overtaken worker committed after it was dead |
| InboxWorker.DeadRowMayHaveItsEffect | backend/app/hasn_sync/adapters/sqlalchemy_store.py:274-320 | for every event of a registered type (`backend/app/hasn/service/sync_business_handlers.py:418-430`) there is such a run |
| InboxWorker.KeysIdentifyEvents | backend/app/hasn_sync/adapters/sqlalchemy_store.py:236-245 | without colons in owner and node, equal keys mean the same event |
| InboxWorker.KeyIsSharedIff | backend/app/hasn_sync/adapters/sqlalchemy_store.py:236-245 | owner ids carrying no colon, an event shares its key with a different one exactly if its node id or client event id contains a colon; then also with one of the same owner |
| InboxWorker.SharedKeyBlocks | backend/app/hasn/service/hasn_sync_business_receipts_service.py:16-69 | of two events with one key the second to commit is never applied |
| InboxRetries.FailureIs | backend/app/hasn_sync/adapters/sqlalchemy_store.py:274-320 | a recorded failure makes the row dead exactly if it is permanent or the attempts are used up; otherwise it is put off by a delay that starts at one second and doubles up to 300 |
| InboxRetries.ClaimableIff | backend/app/hasn_sync/adapters/sqlalchemy_store.py:166-234 | a claimed row can be taken over exactly from the end of its lease, a failed one exactly from the end of its delay, an applied or dead one never |
| InboxRetries.UnregisteredWaits | backend/app/hasn_sync/adapters/sqlalchemy_store.py:166-234 | a row whose type no handler is registered for is never claimed, whatever the clock |
| InboxRetries.RowsAreTidy | backend/app/hasn_sync/adapters/sqlalchemy_store.py:166-320 | over every run a row is locked exactly while it is processed and has a next attempt exactly while it waits for one |
| InboxRetries.RowRests | backend/app/hasn_sync/adapters/sqlalchemy_store.py:166-320 | over any run a row stays as it is until it is claimed at such a time or the holder of its lease answers, whatever overtaken workers do |
| InboxRetries.DeadIff | backend/app/hasn/sync_inbox_worker.py:104-118 | after every run a row is dead exactly if at some step a permanent failure, or one after the last attempt, was recorded by the holder of its lease |
| InboxRetries.NoEarlyDeath | backend/app/hasn/sync_inbox_worker.py:104-118 | over every run without a permanent failure a dead row was tried max_attempts times and a waiting one fewer |
| InboxStore.Store.Reserve | backend/app/hasn/service/hasn_sync_business_receipts_service.py:16-69 | insert if absent; a key that belongs to another event is refused and nothing changes |
| InboxStore.Store.ProcessOne | backend/app/hasn/sync_inbox_worker.py:67-136 | one call moves the tables exactly as its three steps of the interleaved system do, on every path; the row has one attempt more and is applied, dead or put off, each exactly when; effect and receipt are both written or neither |
| CloudNodeCountdown.EveryPurgeFollowsAMark | backend/app/hasn_hosting/tasks.py:271-416 | over every run each purge comes more than 30 days after a committed mark with no restore since, against an owner not entitled under the lock |
| CloudNodeCountdown.EntitlementIsRespected | backend/app/hasn_hosting/tasks.py:271-416 | over every run each mark and each purge was made against an owner seen without entitlement under the lock, and each restore for one seen with it |
| CloudNodeCountdown.EntitledIsLeftAlone | backend/app/hasn_hosting/tasks.py:271-408 | entitlement seen under the lock ends retention and purge with row, host and log as they were; its absence ends a restore so |
| CloudNodeCountdown.DeadlineIsNotMoved | backend/app/hasn_hosting/tasks.py:271-316 | no number of further sweeps moves the deadline of a node that rests |
| CloudNodeCountdown.RestedBeforePurgeIff | backend/app/hasn_hosting/tasks.py:271-416 | between that mark and the purge the container never ran exactly if no start was logged; then every start lies more than 30 days before the purge |
| CloudNodeCountdown.LoggedStartIff | backend/app/hasn_hosting/service/cloud_node_service.py:702-880 | a step logs a start exactly if the host starts the container by itself, a request leaves it up, or an uncommitted restore does |
| CloudNodeCountdown.PurgeEndsIff | backend/app/hasn_hosting/service/cloud_node_service.py:882-975 | when a purge by the sweep ends, the row can be collected again exactly if nothing was committed, is stranded in `deleting` exactly if something raised and the rest was committed, and is `deleted` otherwise |
| CloudNodeCredentials.SessionsOverRun | backend/common/security/jwt.py:138-171 | conservation over every run: the accepted sessions are those of the start and all issued since by exchange or refresh, without those ended by refresh, revocation, logout or expiry |
| CloudNodeCredentials.OutlivesTheVolumeIff | backend/app/hasn_hosting/service/cloud_node_service.py:882-1030 | over every run a purge deletes the volume under an accepted session exactly if a session other than the one it had loaded was accepted at its revocation or one was issued after, and nothing ended it |
| CloudNodeCredentials.SlipsIff | backend/app/hasn_hosting/service/cloud_node_service.py:1007-1030 | a step leaves an accepted session behind a revocation or without a volume exactly if it is a revocation that misses one, or an exchange or refresh that comes after it |
| CloudNodeCredentials.NoneLeftBehindIff | backend/app/hasn_hosting/service/cloud_node_service.py:882-939 | over every run no session is ever left behind exactly if there is no such step |
| CloudNodeCredentials.CredentialGoesBeforeTheVolume | backend/app/hasn_hosting/service/cloud_node_service.py:882-939 | then no volume is gone while a session is still accepted, wherever the purge raises |
| CloudNodeCredentials.RefreshedSessionOutlives | backend/app/hasn/api/v1/onboarding.py:38-64 | from every state in which the row names an accepted session: after one token refresh the owner's deletion, with every answer good, revokes the dead session and the real one outlives the volume |
| CloudNodeCredentials.NewNodesSessionOutlives | backend/app/hasn_hosting/service/node_credential_service.py:72-110 | a run of a new node that does so |
| CloudNodeCredentials.NewNodesLateExchangeOutlives | backend/app/hasn_hosting/service/node_credential_service.py:72-110 | so does, in a run of a new node, the session of a code exchanged between revocation and deletion |
| CloudNodeContainers.StoppedButRunningIff | backend/app/hasn_hosting/service/cloud_node_service.py:702-880 | a step leaves a container running under a `stopped` row, with nothing under way to correct it, exactly in the listed ways: an untrue report, a restore or a request whose commit fails, a start whose answer is lost or that had loaded `starting`, a stop written over a later start, a start by the host itself |
| CloudNodeContainers.StoppedNodesDoNotRun | backend/app/hasn_hosting/tasks.py:271-316 | over every run the promise holds at every moment exactly if there is no such step; then a `stopped` row with no request under way has no running container |
| CloudNodeContainers.CommittedSweepsKeepThePromise | backend/app/hasn_hosting/tasks.py:271-416 | over any run of sweeps whose transactions commit the promise is kept, whatever requests are under way and whatever the host answers |
| CloudNodeContainers.RestartLosesItsWrite | backend/app/hasn_hosting/service/cloud_node_service.py:702-742 | a run of a new node with good answers and commits only: a restart that loaded `starting` writes no status after the sweep stopped the node |
| CloudNodeCountdown.PurgedSecondsAfterRunning | backend/app/hasn_hosting/service/cloud_node_service.py:702-742 | from every state at the deadline: a start and stop by the owner do not extend the 30 days |
| CloudNodeCountdown.NewNodePurgedSecondsAfterRunning | backend/app/hasn_hosting/service/cloud_node_service.py:702-742 | a run of a new node that shows it |
| CloudNodeCountdown.FailedPurgeIsNeverRetried | backend/app/hasn_hosting/service/cloud_node_service.py:958-975 | a row left in `deleting` is never touched by any later sweep |
| CloudNodeSweep.Fleet.RetainOne | backend/app/hasn_hosting/tasks.py:271-316 | the row, the container and the counter after retaining one candidate, for every lock, entitlement and host answer |
| CloudNodeSweep.PurgeLocked | backend/app/hasn_hosting/service/cloud_node_service.py:882-939 | the purge step by step, for every place where it can raise |
| CloudNodeSweep.Fleet.RestoreOne | backend/app/hasn_hosting/tasks.py:337-377 | the same for restoring one candidate; a failed start keeps the countdown cleared |
| CloudNodeSweep.Fleet.PurgeOne | backend/app/hasn_hosting/tasks.py:399-416 | the same for purging one candidate |
| CloudNodeSweep.Fleet.Sweep | backend/app/hasn_hosting/tasks.py:481-499 | a round acts on every node as retain, restore, purge in this order, and every total of the summary is the number of such verdicts |
| CloudNodeSweep.Fleet.RunPhases | backend/app/hasn_hosting/tasks.py:487-496 | the three phases compose: rows, verdict totals and the residues that get counted |
| CloudNodeSweep.SweepIsAFixedPoint | backend/app/hasn_hosting/tasks.py:481-499 | in a frozen world a second round changes no status or deadline and reports no success |
| CloudNodeSweep.LastDayRenewalSurvives | backend/app/hasn_hosting/tasks.py:399-408 | an owner seen entitled by the restore or by the purge's own check keeps the volume in this round |
| CloudNodeSweep.PurgedIff | backend/app/hasn_hosting/tasks.py:399-433 | a round purges exactly the overdue, locked, not restored rows of owners without entitlement while the host is healthy |
| CloudNodeSweep.CountedAsAgentErrorIff | backend/app/hasn_hosting/tasks.py:436-450 | a purged node counts as residue exactly when the host failed or its row already carried a failure detail |
| CloudNodeSweep.RoundIsARun | backend/app/hasn_hosting/tasks.py:481-499 | for each node a committed round is a run of the interleaved system, so the results over runs cover it |
| CloudNodeRounds.MarkedIff | backend/app/hasn_hosting/tasks.py:271-316 | the retain phase marks exactly the collected, locked nodes without entitlement under the lock whose host stopped the container or no longer has it, and gives them 30 days |
| CloudNodeRounds.EntitledKeepsRowAndContainer | backend/app/hasn_hosting/tasks.py:277-278 | an owner entitled when collected or when locked keeps row and container |
| CloudNodeRounds.StopAnswersDecide | backend/app/hasn_hosting/tasks.py:248-289 | a refusal leaves a failure detail, an unreachable host no trace on the row |
| CloudNodeRounds.RestoredIff | backend/app/hasn_hosting/tasks.py:337-377 | exactly the locked nodes under a countdown whose owner is entitled lose it; the host decides between starting and failed |
| CloudNodeRounds.MarkedAre | backend/app/hasn_hosting/tasks.py:481-499 | the totals of marked, refused and unreachable nodes are the numbers of such nodes |
| CloudNodeRounds.RestoredAre | backend/app/hasn_hosting/tasks.py:481-499 | the same for restored nodes and failed starts, marked in this round or before |
| CloudNodeRounds.PurgedAre | backend/app/hasn_hosting/tasks.py:481-499 | the same for purged nodes, raised purges, and those left to a healthier host |
| CloudNodeRounds.PurgeLeaves | backend/app/hasn_hosting/service/cloud_node_service.py:882-975 | what a round leaves of a node it purges, for every answer and every place where it raises: status, deadline, credential, container and volume; other nodes leave the round as restoring left them |
| CloudNodeRequests.NewNodes | backend/app/hasn_hosting/service/cloud_node_service.py:601-696 | a new node has one code and no session, and is starting exactly if the host said so, else failed with a detail, whatever the host really did |
| CloudNodeRequests.StartsLeaveItStarting | backend/app/hasn_hosting/service/cloud_node_service.py:702-833 | start, restart and resize leave the node starting, its container up, its failure detail gone and all else as it was |
| CloudNodeRequests.StopLeavesItStopped | backend/app/hasn_hosting/service/cloud_node_service.py:702-748 | a stop changes status and container only; countdown, session and codes stay |
| CloudNodeRequests.ReauthorizeMintsOneCode | backend/app/hasn_hosting/service/cloud_node_service.py:836-880 | on a failed node the codes found are revoked and one is minted; on others nothing happens |
| CloudNodeRequests.ReportOverwrites | backend/app/hasn_hosting/service/cloud_node_service.py:1051-1105 | a report replaces status and failure detail whatever they were, unless it says `online` |
| CloudNodeRequests.LogoutEndsTheRecorded | backend/app/hasn/api/v1/app/hasn_auth_api.py:404-422 | a logout ends the recorded session and no other |
| CloudNodeRequests.ExchangeRecordsItsSession | backend/app/hasn_hosting/service/node_credential_service.py:72-110 | an exchange uses up one code, issues one session and records it; a node that is up keeps its status |
| CloudNodeRequests.ErrorLeavesTheRow | backend/app/hasn_hosting/service/cloud_node_service.py:714-728 | on an error of the host the row stays, while container and session may have changed all the same |
| CloudNodeRequests.LateStatus | backend/app/hasn_hosting/service/cloud_node_service.py:702-880 | a request overtaken by others writes its status over whatever stands there, unless it is the one that was loaded |
| CloudNodeRequests.LateDetail | backend/app/hasn_hosting/service/cloud_node_service.py:702-880 | a failure detail goes only through a writer that had loaded one |
| CloudNodeRequests.OwnersDeletion | backend/app/hasn_hosting/service/cloud_node_service.py:882-975 | an owner's deletion retires the row exactly if nothing raises and it commits; otherwise the row is as before, whatever was ended and removed on the way |
| CloudNodeRequests.LatePurge | backend/app/hasn_hosting/service/cloud_node_service.py:882-939 | a deadline or session recorded after the deletion had loaded none is not cleared |
| CloudNodeRequests.RowIsHeld | backend/app/hasn_hosting/tasks.py:399-416 | while a purge holds the row no sweep step, write or second deletion goes on |
| CloudNodeRequests.OthersWait | backend/app/hasn_hosting/service/authorization_code_service.py:66-137 | while a code is exchanged, or codes are replaced, nobody else exchanges or replaces one |
| CloudNodeRequests.OneHolderAtATime | backend/app/hasn_hosting/service/authorization_code_service.py:66-137 | over every run at most one request holds codes |
| CloudNodeRequests.OneCodeIff | backend/app/hasn_hosting/service/authorization_code_service.py:66-110 | over every run at most one code is good exactly if no reauthorization commits its code beside one it had not found |
| CloudNodeRequests.ReauthorizedTwiceHasTwoCodes | backend/app/hasn_hosting/service/authorization_code_service.py:66-110 | from every failed node whose code has lapsed, two reauthorizations at once leave two good codes |
| JoinRows.ParseRelationships | backend/utils/serializers.py:124-157 | graph and reverse lookup after the loop, later declarations replacing earlier ones |
| JoinRows.GraphIsDeclared | backend/utils/serializers.py:124-157 | the relations of a class are its declared targets in the order of their first declarations, each with the kind declared last |
| JoinRows.ReverseMatchesGraph | backend/utils/serializers.py:152-153 | with one source per target the reverse lookup and the graph agree |
| JoinRows.ReverseAgreesIff | backend/utils/serializers.py:152-153 | the reverse lookup agrees with every edge of the graph exactly if each target has one source |
| JoinRows.ClassIndex | backend/utils/serializers.py:206-219 | every class seen gets the column of its first occurrence, row by row |
| JoinRows.BuildHierarchy | backend/utils/serializers.py:263-300 | the index built in one pass equals the plain filter over the rows at every (main, class, parent) key, for any rows |
| JoinRows.OnlyTargetsAreIndexed | backend/utils/serializers.py:279-298 | the fallback to the primary object is never taken for a class that a relation leads to, and objects of other classes are not indexed |
| JoinRows.DedupeObjects | backend/utils/serializers.py:167-175 | the loop with its seen-set computes the deduplication |
| JoinRows.DedupeKeepsFirsts | backend/utils/serializers.py:167-175 | exactly the first object of each id survives, in order of first appearance, and nothing without an id |
| NestedJoin.RecursiveBuild | backend/utils/serializers.py:336-363 | where a rank falls from object to child the recursion ends and returns the nested trees the children define, also on cyclic relation graphs |
| NestedJoin.RecursionEndsIff | backend/utils/serializers.py:336-363 | such a rank exists exactly if nothing below the object is its own descendant |
| JoinPaths.FieldsAre | backend/utils/serializers.py:346-374 | an object has one field for each relation of its class; a to-many field holds every child, a to-one field the first listed child with an id, nested as that child defines, and is empty exactly if no child has one |
| JoinPaths.PathsAreKept | backend/utils/serializers.py:332-374 | with relations of any kinds the output contains a path exactly when every hop is a relation that keeps that child |
| JoinPaths.PathsAreLinks | backend/utils/serializers.py:332-374 | with to-many relations the output contains a path exactly when every hop is a relation to a listed child |
| JoinPaths.PathsAreAlwaysLinked | backend/utils/serializers.py:356-372 | with to-one relations, which keep one child, still no path is invented |
| JoinPaths.SiblingsInOrderOfAppearance | backend/utils/serializers.py:336-363 | siblings are the first objects of their ids in order of appearance, none missing, each with its own fields |
| JoinSerialize.SelectJoinSerialize | backend/utils/serializers.py:185-401 | the whole pipeline: nothing without a primary object, flat results without relations, otherwise nested results, one for each primary object; no object may be its own descendant |
| JoinSerialize.EndsIff | backend/utils/serializers.py:332-374 | the recursion ends for every primary object exactly under that condition |
| JoinFlat.GroupChildren | backend/utils/serializers.py:221-242 | the children of each primary object, grouped by class in order of first appearance |
| JoinFlat.BucketsFilter | backend/utils/serializers.py:221-242 | the groups hold exactly the objects a plain filter over the rows finds, one group for each class |
| JoinFlat.BuildFlat | backend/utils/serializers.py:303-330 | the fields of a flat result: singular or plural key, the deduplicated objects |
| JoinFlat.FlatShowsChildrenIff | backend/utils/serializers.py:303-330 | a class comes out as the first object of each id exactly as the rows show them unless a later class takes its key; then it is overwritten |
| JoinFlat.EveryClassIsShown | backend/utils/serializers.py:303-330 | every class the rows show beside a primary object gets its key, and shows those objects unless a later class takes the key |
| JoinFlat.PluralsCollide | backend/utils/serializers.py:303-330 | a family of rows where two objects of a class and one of a class named like its plural come out as that one alone |
| JoinResults.OneResultPerMainId | backend/utils/serializers.py:376-399 | one result per primary id, in order of first appearance |
| JoinResults.ListedIffShown | backend/utils/serializers.py:282-300 | a child is indexed under a parent exactly when some row shows both |
| JoinResults.OutputPathsAreRowPaths | backend/utils/serializers.py:263-374 | for relations of any kinds a path is in the output of a primary object exactly when each hop is a declared relation some row of it shows, for a to-one relation the first row that shows any |
| JoinResults.EveryRowChainAppears | backend/utils/serializers.py:263-374 | every chain of non-null objects of a row along to-many relations appears whole in the output |
| JoinResults.LastSourceListsIff | backend/utils/serializers.py:273-300 | an object lists a child exactly if rows show it, as the kind wants it, beside an object of the source declared last with the same key; so none under an earlier source whose key no such object has |
| JoinResults.LaterSourceWins | backend/utils/serializers.py:153 | witness: of two sources of one target the earlier loses its children |
| JoinResults.ChildrenAreFoundIff | backend/utils/serializers.py:263-300 | among any rows, with any number of primary objects, the direct children of one are found exactly if its key is there and not zero |
| JoinResults.ZeroKeyLosesItsChildren | backend/utils/serializers.py:115-116 | a primary key of zero is grouped under one key and indexed under another, so its children are not found, whatever the other rows |
| ParentLists.RecursionEndsIff | backend/utils/build_tree.py:53-68 | the recursion from a parent ends exactly when the parent is not its own ancestor; from the roots it always ends |
| TreeBuilder.TraversalToTree | backend/utils/build_tree.py:25-50 | after one pass every node has exactly its children and the result exactly roots and orphans, in list order |
| TreeBuilder.RecursiveToTree | backend/utils/build_tree.py:53-68 | terminates by the ids not yet on the path, returns the children of the parent and settles everything below it |
| TreeAgreement.GetTreeData | backend/utils/build_tree.py:71-97 | both builders leave nodes that spell out the forest of the list: with orphans as roots, or below the given parent |
| TreeAgreement.TraversalRepresents | backend/utils/build_tree.py:25-50 | the linked nodes spell out the forest of the list with orphans re-rooted, sibling order included |
| TreeAgreement.RecursiveRepresents | backend/utils/build_tree.py:53-68 | the settled nodes spell out the forest below the parent; on the re-rooted list this is the same forest |
| TreeAgreement.InForestIff | backend/utils/build_tree.py:53-68 | a node is in the forest exactly if its chain of parents ends at a root |
| TreeAgreement.InRerootedForestIff | backend/utils/build_tree.py:25-50 | the linker keeps exactly the nodes whose chain of parents ends at a root or at an orphan |
| TreeAgreement.CyclesAreOmitted | backend/utils/build_tree.py:53-68 | a node on a parent cycle is in no tree of the forest |
| TreeAgreement.CyclesSurviveRerooting | backend/utils/build_tree.py:25-50 | re-rooting orphans breaks no cycle, so the linker omits them as well |
| FolderMigration.KnowledgeBase.CreateFolder | backend/app/hasn_knowledge/service/knowledge_service.py:783-809 | a missing parent or a sibling of the name is refused without change, otherwise one row is added |
| FolderMigration.PlaceFolder | scripts/migrate_huanxing_docs_to_knowledge.py:86-109 | a folder whose parent is mapped gets an image of its name below the parent's image; the call never raises |
| FolderMigration.Pass | scripts/migrate_huanxing_docs_to_knowledge.py:84-111 | a pass shrinks what is left, or everything left is blocked |
| FolderMigration.PlaceAll | scripts/migrate_huanxing_docs_to_knowledge.py:81-111 | the bound of len + 1 passes never bites: the loop stops with nothing left or without progress, and mapped are exactly the folders that reach a root |
| FolderPaths.LeftOutIff | scripts/migrate_huanxing_docs_to_knowledge.py:112-113 | the folders that reach no root are exactly those whose parents lead out of the list or into a cycle |
| FolderMigration.HangLeftovers | scripts/migrate_huanxing_docs_to_knowledge.py:112-116 | succeeds exactly when the leftovers' names are distinct and free at the root |
| FolderMigration.Migrate | scripts/migrate_huanxing_docs_to_knowledge.py:36-116 | completes exactly under a condition on the input; then every old folder has an image and only what was needed was created; otherwise nothing is |
| FolderRerun.SameImageIff | scripts/migrate_huanxing_docs_to_knowledge.py:91-109 | two well-founded folders share an image exactly when they have the same name path |
| FolderRerun.PathsAfterMigration | scripts/migrate_huanxing_docs_to_knowledge.py:81-116 | the name paths afterwards are those before, those of the old folders, and the leftovers at the root; no others |
| FolderRerun.RerunChangesNothing | scripts/migrate_huanxing_docs_to_knowledge.py:91-101 | without broken chains and with distinct sibling names a second run creates nothing and yields the same map |
| FolderRerun.RerunWithLeftoversIsRefused | scripts/migrate_huanxing_docs_to_knowledge.py:112-116 | after a completed run a second one completes exactly when there were no leftovers |
| CreditKeys.KeysIdentify | backend/app/billing/service/credit_grant_event_service.py:85-92 | a key stands for one batch, one user and one direction, whatever the batch name contains |
| CreditKeys.OwnEventsAreCountedAgain | backend/scripts/rebase_credit_baseline.py:195-209 | the batch's own events match the key patterns of the entitlement query |
| CreditKeys.CountsIff | backend/scripts/rebase_credit_baseline.py:195-209 | what stands before the first colon of a key decides: admin, bonus and signup count, nothing else does |
| CreditRebase.BuildBaseline | backend/scripts/rebase_credit_baseline.py:114-168 | automatic exactly when consumption is attributed, within the entitlement, and the balance was read; the delta carries that balance to the target |
| CreditRebase.ComputeBaselines | backend/scripts/rebase_credit_baseline.py:247-276 | both lists in user order; a missing number anywhere aborts the whole computation |
| CreditRebase.ListedOnceIff | backend/scripts/rebase_credit_baseline.py:262-276 | every user is on exactly one list, on the automatic one exactly when its answers decide everything |
| CreditRebase.Outbox.ApplyBaselines | backend/scripts/rebase_credit_baseline.py:327-364 | the outbox after the loop, one transaction per user, and the summary |
| CreditRebase.OutboxAfter | backend/app/billing/service/credit_grant_event_service.py:120-191 | existing events stay as they are; each user with a non-zero delta has one command, with that amount |
| CreditRebase.NewEventsAre | backend/scripts/rebase_credit_baseline.py:335-360 | a new event is exactly the grant of a positive or the revocation of a negative delta, of that amount, under that user's key, of a user whose transaction does not fail |
| CreditRebase.TallyIs | backend/scripts/rebase_credit_baseline.py:327-364 | the summary counts the users granted to, revoked from, skipped and failed |
| CreditRebase.RepeatIsOneRun | backend/scripts/rebase_credit_baseline.py:335-364 | a run broken off after any users with any failures and repeated with the same baselines equals one undisturbed run; recomputed baselines are the subject of CreditLedger |
| CreditRun.ReadsBuildTheBaseline | backend/scripts/rebase_credit_baseline.py:262-274 | the reads of the per-user ledger end with the delta of `build_baseline`, or manual with it |
| CreditRun.ApplyActsOnOneUser | backend/scripts/rebase_credit_baseline.py:336-360 | applying a baseline acts alike on ledger and outbox and leaves other users' keys alone |
| CreditLedger.GapOverRun | backend/scripts/rebase_credit_baseline.py:114-168 | conservation over every run: what is owed beyond the orders in flight, had the batch moved nothing, never changes |
| CreditLedger.RowsAreWrittenOnce | backend/app/billing/service/credit_grant_event_service.py:137-145 | a key once used keeps its amount for ever, whatever reruns compute |
| CreditLedger.AdjustedExactlyOnce | backend/scripts/rebase_credit_baseline.py:327-364 | any number of runs and crashes, spending and orders at any time that leaves each completed read clean: the wallet is adjusted by the gap or not at all, and once adjusted equals entitlement minus consumption minus the orders in flight |
| CreditLedger.RerunComputesTheSameDelta | backend/scripts/rebase_credit_baseline.py:195-214 | a rerun after success computes the same delta again, plus the orders in flight, not zero |
| CreditLedger.NextPassComputesTheSame | backend/scripts/rebase_credit_baseline.py:195-214 | from every fresh state with a debt one pass settles it, and the next pass computes the same delta again |
| CreditLedger.WalletIsRightIff | backend/scripts/rebase_credit_baseline.py:262-274 | over every run, with either key, both or none in use: the wallet, orders in flight included, is above entitlement minus consumption by the gap times the number of executed rows less one, plus what the reads behind these rows missed; with no order in flight it is right exactly if that is zero |
| CreditLedger.BothKeysRightIff | backend/app/billing/service/credit_grant_service.py:331-382 | over every run in which both rows are executed it is right exactly if what their reads missed undoes the gap |
| CreditLedger.OneKeyRightIff | backend/scripts/rebase_credit_baseline.py:262-274 | over every run with one key in use it is off by what was spent between the reads plus what was pending at them, and right exactly if the two cancel |
| CreditLedger.RerunAbsorbedIff | backend/app/billing/service/credit_grant_service.py:331-382 | with one key in use a computed delta changes no row exactly when it has not the opposite sign |
| CreditLedger.RerunOverRunsAbsorbedIff | backend/scripts/rebase_credit_baseline.py:262-364 | after every run with one key in use another pass takes the other key exactly if the gap, the orders in flight and the rows counted but not moved together have the opposite sign |
| CreditLedger.RerunAppliesBothKeys | backend/app/billing/service/credit_grant_service.py:331-382 | a family of runs in which a rerun applies the other key as well |
| CreditLedger.PaidOrderIsCreditedTwice | backend/scripts/rebase_credit_baseline.py:175-192 | whatever the wallet was, an order paid before the reads and delivered after leaves it too high by that order |
| Pairs.ReadInvertsFlat | deploy/redis8/verify_snapshot.py:87-96 | pairs written one after the other are read back |
| Chunks.ChunksAreRead | deploy/redis8/verify_snapshot.py:55-62 | a stream of length-prefixed chunks is read back to the same chunks |
| Chunks.ReadStreamsAreChunks | deploy/redis8/verify_snapshot.py:55-62 | whatever reads as chunks is the stream of those chunks |
| SortedBytes.Sort | deploy/redis8/verify_snapshot.py:77-79 | the sorted list of a set in Python's order on bytes |
| SortedBytes.AscendingIsUnique | deploy/redis8/verify_snapshot.py:77-94 | there is only one ascending list of a set, so the order of iteration does not matter |
| SnapshotDigest.WriteSequence | deploy/redis8/verify_snapshot.py:60-62 | feeds exactly the chunks of the values |
| SnapshotDigest.DigestHash | deploy/redis8/verify_snapshot.py:92-96 | feeds the pairs in field order |
| SnapshotDigest.DigestStream | deploy/redis8/verify_snapshot.py:99-108 | feeds id and sorted fields entry after entry |
| SnapshotDigest.DigestValue | deploy/redis8/verify_snapshot.py:121-129 | the bytes fed for a value are its tag and payload chunks |
| SnapshotDigest.DecodeInvertsEncoding | deploy/redis8/verify_snapshot.py:55-129 | the decoder recovers type and contents of every string, list, set, sorted set and hash |
| SnapshotDigest.EncodingIdentifies | deploy/redis8/verify_snapshot.py:55-129 | equal bytes mean equal values, and a stream shares its bytes with no other type |
| SnapshotDigest.StreamsEqualIff | deploy/redis8/verify_snapshot.py:99-108 | two streams with equal bytes are equal exactly when their entries have equal field counts |
| SnapshotDigest.StreamsCollide | deploy/redis8/verify_snapshot.py:99-108 | a family of colliding streams with ascending ids: three entries against one |
| SnapshotDigest.ACollision | deploy/redis8/verify_snapshot.py:99-108 | a concrete pair of colliding streams with ids 1-0, 2-0, 3-0 |
| StreamTwins.IdFreeStreamsAreUnique | deploy/redis8/verify_snapshot.py:99-108 | two streams with no field name or value that reads as an id have equal bytes exactly when they are equal, whatever their field counts |
| StreamTwins.IdFreeTwinIff | deploy/redis8/verify_snapshot.py:99-108 | a stream without such fields shares its bytes with another exactly if three entries in a row can be read as one: the outer field names with the middle id and values between them ascend |
| StreamTwins.MergeableHasTwin | deploy/redis8/verify_snapshot.py:99-108 | three such entries give a twin whatever the fields |
| StreamRecuts.StreamsAreAll | deploy/redis8/verify_snapshot.py:99-108 | a list decoder finds exactly the streams with valid ids that are laid out as given chunks |
| StreamRecuts.TwinIff | deploy/redis8/verify_snapshot.py:99-108 | any stream shares its bytes with another one Redis can hold exactly if that decoder finds more than one for it |
| SnapshotCompare.SnapshotKey | deploy/redis8/verify_snapshot.py:136-157 | which keys are left out, and what the snapshot of the others holds |
| SnapshotCompare.CompareDatabase | deploy/redis8/verify_snapshot.py:186-225 | the errors are exactly the differences, type differences hiding content and expiry |
| SnapshotCompare.NoIssueIff | deploy/redis8/verify_snapshot.py:180-214 | no error means equal sizes and keys and per key equal type, equal bytes and matching expiry, and conversely |
| SnapshotCompare.ErrorsOfAKey | deploy/redis8/verify_snapshot.py:186-214 | of a shared key a different type is reported alone; otherwise contents and expiry each if they differ, expiry by more than 15 s or on one side only |
| SnapshotCompare.NoIssueMeansSameValues | deploy/redis8/verify_snapshot.py:186-214 | no error means equal contents for every key that is not a stream |
| GrowthCursor.CommittedOnceIff | backend/scripts/migrate_growth_projects.py:87-116 | at most max_retries + 1 attempts; done means committed; committed once, or not at all when failed, exactly when no answer was lost |
| GrowthCursor.AttemptsAre | backend/scripts/migrate_growth_projects.py:87-116 | attempts go on exactly while they fail for the moment and retries are left; an owner is done exactly if an attempt within the retries is committed with only passing failures before it |
| GrowthCursor.CommitsAre | backend/scripts/migrate_growth_projects.py:87-116 | it is committed as often as an attempt took effect, acknowledged or not |
| GrowthCursor.WalkIs | backend/scripts/migrate_growth_projects.py:150-204 | a run treats the owners up to the first that does not succeed, and counts the reports that differ up to there |
| GrowthCursor.Migration.NextOwnerIds | backend/scripts/migrate_growth_projects.py:51-84 | the first batch_size candidates above the cursor in ascending order |
| GrowthCursor.Migration.MigrateOne | backend/scripts/migrate_growth_projects.py:87-116 | the retry loop ends at the first attempt that needs no other or is the last allowed, and succeeds exactly if it is committed, with that many commits |
| GrowthCursor.Migration.RunBatches | backend/scripts/migrate_growth_projects.py:150-204 | after every owner what is committed is what the owners so far commit, and the cursor is at the last of them; the batching has no effect |
| GrowthCursor.Migration.Run | backend/scripts/migrate_growth_projects.py:128-230 | rejected arguments change nothing; otherwise all owners are treated exactly if all succeed, else those before the first that does not, which is reported, or one given owner, or only reported on in shadow mode, and the cursor points behind the last of them |
| GrowthChain.EveryMomentIsResumable | backend/scripts/migrate_growth_projects.py:112-204 | without lost answers, after every owner what is committed is exactly the owners up to the cursor, each once |
| GrowthChain.ChainCommitsEachOnce | backend/scripts/migrate_growth_projects.py:150-204 | a chain of resumed runs commits exactly the candidates between start and last cursor, each once, in order |
| GrowthChain.ChainCovers | backend/scripts/migrate_growth_projects.py:112-116 | even with lost answers everything at or below the cursor is done, and above it at most the next owner |
| GrowthChain.UnlimitedRunFinishes | backend/scripts/migrate_growth_projects.py:155-204 | a run without batch limit and without failure reaches the last candidate |
| GrowthChain.ChainMovesOn | backend/scripts/migrate_growth_projects.py:155-204 | a run of a chain without a failing owner moves the cursor by exactly the batches it is allowed, or to the end |
| ExpiryReminders.DaysUntilIs | backend/app/billing/tasks.py:116-121 | a number of days is left exactly during one half-open window of a day |
| ExpiryReminders.WindowIff | backend/app/billing/tasks.py:190-199 | the query's window holds exactly while 1 to 7 days are left |
| ExpiryReminders.Billing.Remind | backend/app/billing/tasks.py:181-254 | one notice per due row, in row order |
| ExpiryReminders.Billing.Sweep | backend/app/billing/tasks.py:257-335 | reminders on the rows as they were, then everything overdue expires; the counters are the numbers of notices and of overdue rows |
| ExpiryReminders.EachThresholdOnce | backend/app/billing/tasks.py:111-113 | sweeps a day apart remind of each threshold not above the days left exactly once, in order |
| ExpiryReminders.DailySweepsRemindOnce | backend/app/billing/tasks.py:181-254 | over the whole table every row first seen 7 or more days ahead gets exactly 7, 3, 1 |
| ExpiryReminders.RemindedAsOftenAsSwept | backend/app/billing/tasks.py:181-254 | for sweeps at any ascending times each threshold of each row fires exactly as often as a sweep falls into the day that begins so many days before expiry |
| ExpiryReminders.DropsByOneIff | backend/app/billing/tasks.py:111-113 | the days left drop by exactly one for every expiry only at gaps of exactly a day |
| ExpiryReminders.LongerGapSkips | backend/app/hasn_hosting/tasks.py:77-82 | witness: a longer gap skips a reminder |
| ExpiryReminders.ShorterGapRepeats | backend/app/hasn_hosting/tasks.py:456-475 | witness: a shorter gap sees a threshold twice |
| ExpiryReminders.EveryRowAfterSweeps | backend/app/billing/tasks.py:181-335 | after sweeps at any times a row of the table has expired exactly if it had, or it counts and some sweep came after its date; inactive, uncounted and unreachable rows got no notice, and every notice names 7, 3 or 1 days |

## Left out

- Snowflake nodes with fixed ids beside leased ones, `generate` after a release, and an interrupt during the busy wait; the process scan of Redis keys is an arbitrary set.
- The polling loop, probe and signal handling of the inbox worker, and the retention of old receipts.
- Writes of a node's row by its administration pages, and the owner binding and presence that a purge removes beside the session.
- CloudNodeRequests.OneCodeIff: a revocation of codes that waits for another transaction is taken to see what that one committed; statement snapshots are not modelled.
- The purge of all nodes of a deleted account, which differs from the sweep's only in having no deadline; rolling updates, whose starts are among those of the host itself.
- Notifications, event records and log text of the hosting sweep; its reminder phase uses the arithmetic proved for the billing sweep.
- Parsing of relation strings, custom field names (two relations under one output key), named tuples, column introspection and the unwrapping of a single result of the join serializer.
- JoinSerialize.SelectJoinSerialize: rows in which an object is its own descendant, where the recursion does not end, and an empty first row, which raises.
- Sorting of tree nodes and the menu variant of the tree builder; duplicate ids, where the linker compares dictionaries by content.
- The documents of the folder migration, and its loop over users: one refused leftover rolls back all users, since they share the transaction.
- Retry limits and dead letters of the credit outbox appear only as rows that are never executed or never settled.
- CreditLedger.AdjustedExactlyOnce: amounts are whole steps of 10^-5 credit, so the rounding of finer amounts in `format_credits` is not modelled.
- SnapshotCompare.NoIssueMeansSameValues: compares the bytes fed to SHA-256 and takes the hash as injective; the text of `float.hex()` stands for a score.
- Memory summaries, connection handling, duplicate keys of SCAN and unsupported or vanished keys that make the snapshot script raise.
- GrowthCursor.Migration.Run: the candidates do not change between resumed runs; counts of quarantined rows are not modelled.
- ExpiryReminders.Billing.Sweep: change events to owners after the commit, and the deduplication key, are not modelled; rows do not change between sweeps except by expiry.
- Routers, middleware, settings, permission tables, pagination and migrations: no algorithm, or a finite table.
