# Relay node: crash recovery, verified

A Dafny model of the parts of the relay node whose correctness is a matter of whole runs rather than of single
functions: how traffic is counted, sealed, sent and billed; how configs from the Panel are accepted, applied, recorded
and recovered; and three smaller state machines (uninstall completion, credential bootstrap, host tuning). `dafny
verify dfyconfig.toml` checks everything.

## How it is built

The protocols appear in two forms. One is imperative, a class whose methods change fields the way the source changes
memory and files, step by step. The other is a function or step relation over values, which the methods' postconditions
name and about which the theorems are proved. For the counters, where threads interleave, the step machine is the finer
of the two, and `CounterRefinement` proves that it does what the methods say whenever a lock holder is left alone; the
pipeline around it shares the spool's records and reservation with the imperative spool. Whatever the node cannot decide (does a write
succeed, does a sync fail, what does the Panel answer, which sites become active) is an environment value over which
the theorems quantify. A crash is modelled by the *trace*: every durable state an operation passes through is listed,
and the process may stop in any of them. Torn writes occur only in temporary files; renames are atomic.

| files | content |
|---|---|
| `CounterRace`, `TrafficPipeline` | Traffic accounting as step relations: lock-free counter operations interleaved with snapshot, commit and prune; access-log batches, spool, network, Panel and crashes around them. |
| `CounterRefinement` | The step machine of the counters refines the methods of the counter map. |
| `TrafficCounter`, `Spool`, `SpoolNames`, `SpoolSequence`, `StrictReporter` | The same code imperatively: the counter map, the spool directory, one strict report. |
| `CrashImages`, `InstallRefinement` | Which directories a crash can leave; the imperative install as steps of the pipeline. |
| `NginxCheckpoint`, `LogAccounting` | Access-log batches, cursor proofs and checkpoint recovery over whole runs of the ingester; ingester and pipeline together. |
| `SiteChecks`, `NodeConfig`, `EffectiveConfig` | Site checks and config validation, and the effective config with dependency-withheld listeners. |
| `LkgCache` | The last-known-good cache: primary, backup, temporary files. |
| `Reconciliation`, `ReconciliationSafety`, `ReconciliationVerdicts`, `ReconciliationRuns`, `Reconcilers` | One reconciliation as a function, what it keeps, when exactly it succeeds, whole runs with restarts, and the reconciler class. |
| `Uninstall`, `Credential`, `WireFormat`, `HostTuning` | The smaller machines and the wire format. |
| `TrafficModel`, `SortedByKey`, `Traces`, `Wrappers` | Shared vocabulary. |

## Assumptions

- The Panel applies a batch id at most once and acknowledges only what it has applied.
- A listener apply is all-or-nothing and sets the current config; certificate work only adds active sites; a site
  cleanup removes only unreferenced sites, and all of them if it reports success. A repair changes neither which config
  is current nor which sites are active, and active sites outlive the process.
- Runs start with an empty cache, or with one whose recoverable config has all its required sites active.
- Panel snapshots carry positive revisions, as the polling path demands (crates/node/src/poller.rs, line 91).
- Cache loads whose result is used for recovery can read the files whose content is good, and the load before an apply
  does not overwrite a healthy primary; `LkgCache.UnreadablePrimaryIsReplaced` says exactly when one would, and
  `ReconciliationRuns.AcknowledgedSurvivesLoadIff` exactly what is lost then.
- The config fingerprint is the sorted content itself, hence free of collisions; the payload digest is the payload.

## Where the code does not do what one might expect

- Rebuilding an effective config from itself is a fixed point exactly if no rule id has both a ready required listener
  and a withheld one; otherwise every rebuild adds copies (`EffectiveConfig.RebuildIsFixedPoint`, `SharedRuleGrows`,
  `DuplicationExample`).
- If the directory sync after removing an acknowledged batch fails, one batch more than the confirmed ones has left the
  directory (`Spool.DrainRemovesAcknowledgedPrefix` has both cases).
- If a healthy primary's bytes cannot be read for the backup, a commit fails and leaves its temporary file behind; every
  other failure after that file was written tries to remove it (`LkgCache.CommitCleansUp`).
- Checkpoint recovery without a cursor identity would select a sendable first range again; it is the only exception
  (`NginxCheckpoint.ReadyIsReplayedOnlyWithoutIdentity`, `IdentityIsNeeded`).
- Untrusted or missing input changes the reconciler's status (and nothing else); stale and conflicting snapshots do not
  even change that.
- A transient read error on a healthy primary cache makes a load fall back to the older backup and overwrite the
  primary with it, so an acknowledged revision can be lost (`LkgCache.UnreadablePrimaryIsReplaced`,
  `OneFailedReadGoesBack`, `ReconciliationRuns.AcknowledgedSurvivesLoadIff`, `FailedReadLosesAcknowledged`).
- After a failed retirement the uninstall retry units are restored only if reload or credential retirement failed; a
  failure between removing the two units, or after retirement, leaves none (`Uninstall.RetryAfterFailure`).
- The credential helper's phase change accepts any next phase (`Credential.SetPhaseAdvancesIffAsked`).
- Host tuning saves any original value but restores only names of letters, digits and underscores, and cleanup does
  not read back: if the kernel ignores a restored value, the baseline is gone and a later ensure saves our own value as
  the original (`HostTuning.CleanupSucceedsIff`, `CleanupKeptIff`, `DeceptionForgetsTheOriginal`).

## Model

| member | source | states |
|---|---|---|
| CounterRace.StepKeepsInv | crates/node/src/reporter.rs:59-67 | Every atomic step of any thread (add, handle drop, each single load of a sweep, each subtraction of a commit) keeps the counter invariant; counters never go below zero. |
| CounterRace.StepConserves | crates/node/src/reporter.rs:140-158 | Under every interleaving only traffic adds to the bytes that are not sealed and only sealing takes some out; no step loses or invents one. |
| CounterRace.SealingBalance | crates/node/src/reporter.rs:1694-1704 | Sealing a held snapshot moves exactly the captured bytes out of what is unsealed. |
| CounterRace.UnsealedIsNonNegative | crates/node/src/reporter.rs:317-322 | What commit still has to subtract never exceeds what the live map holds: no underflow. |
| CounterRace.RemovedEntriesAreFinished | crates/node/src/reporter.rs:174-178 | An entry that left the map holds zero bytes, has no handle, and nobody ever writes to it again in any continuation, through any further snapshots, seals, commits and prunes. |
| CounterRace.HeldSnapshotStaysCovered | crates/node/src/reporter.rs:308-316 | In any run of snapshots, seals and commits, each captured entry keeps its generation and at least the captured bytes until commit has taken them. |
| CounterRace.CountersFirstLosesBytes | crates/node/src/reporter.rs:170-178 | The live-handles-first load order is needed: wherever a sweep comes to an empty entry with one handle left, the opposite order can unmap it with bytes in it; the order of the code keeps it. |
| CounterRace.StepGuardFrame | crates/node/src/reporter.rs:82-90 | Traffic and prune never open, replace or release a held snapshot: the snapshot gate. |
| CounterRace.HandlesAreCounted | crates/node/src/reporter.rs:59-68 | An entry's live handles are exactly those acquired and not yet dropped: no other step of any thread changes their number, and no entry is reused for a new one. |
| CounterRefinement.UndisturbedSnapshot | crates/node/src/reporter.rs:166-226 | The single loads of a snapshot, in any order of the entries and with nobody else running, sweep exactly the finished entries and capture exactly the oldest revision with bytes. |
| CounterRefinement.UndisturbedCommit | crates/node/src/reporter.rs:304-344 | The single subtractions and loads of a commit, in any order, leave exactly the map the method leaves. |
| CounterRefinement.UndisturbedPrune | crates/node/src/reporter.rs:256-266 | The single loads of a prune leave exactly what the method leaves for that rule. |
| CounterRefinement.UndisturbedHandleAt | crates/node/src/reporter.rs:125-133 | Acquiring a handle in the step machine is one more live handle of that key in the map, created if it is missing. |
| CounterRefinement.UndisturbedAddAt | crates/node/src/reporter.rs:140-158 | Adding in the step machine adds exactly those bytes to that key in the map. |
| CounterRefinement.LockStepIsNearer | crates/node/src/reporter.rs:166-226 | Whatever other threads do in between, each step of a sweep, snapshot or commit brings its end nearer, so the lock is given back. |
| CounterRefinement.LockHolderFinishes | crates/node/src/reporter.rs:166-226 | From every state the invariant allows, the lock holder left alone ends; the undisturbed runs exist. |
| TrafficPipeline.StepKeepsInv | crates/node/src/reporter.rs:1670-1815 | Every step of the whole pipeline, including crash and restart, keeps gates, reservation, spool, history, conservation and billing invariants. |
| TrafficPipeline.CapturedStaysMapped | crates/node/src/reporter.rs:308-316 | In every reachable state of the pipeline, what a report has captured and not yet subtracted is still mapped to the same generation with at least those bytes. |
| TrafficPipeline.RemovedStaysFinished | crates/node/src/reporter.rs:174-178 | Through any number of reports while the process lives, an entry that left the map stays empty, without handles and unmapped. |
| TrafficPipeline.NoByteIsLostOrBilledTwice | crates/node/src/reporter.rs:1694-1728 | In every reachable state, per revision, rule and direction: bytes added, through the counters or from the access log, = bytes only in memory + sealed and waiting + billed + lost from memory at crashes; unbilled batches are still on disk. |
| TrafficPipeline.DrainedMeansBilled | crates/node/src/reporter.rs:1733-1752 | With an empty spool the Panel has billed everything that is neither still in memory nor lost by a crash. |
| TrafficPipeline.OverlapOnlyWhileCommitting | crates/node/src/reporter.rs:1697-1703 | Bytes are sealed and still live only while the report's holder is committing, never in a poisoned process, where an uncertain file does not count as sealed. |
| TrafficPipeline.PoisonStopsReporting | crates/node/src/reporter.rs:1825-1831 | After an uncertain install only traffic, late deliveries and a crash remain possible. |
| TrafficPipeline.FirstAcksAreFifo | crates/node/src/reporter.rs:1730-1752 | Batches of the counters and of the access log are first acknowledged in one strictly increasing sequence order, the legacy file first; everything older than an acknowledged batch has been applied. |
| TrafficPipeline.WaitingBlocksTheQueue | crates/node/src/reporter.rs:1755-1768 | An access-log batch whose cursor is not durable is on disk, has never been sent, and nothing newer has been acknowledged. |
| TrafficPipeline.AfterSnapshotIff | crates/node/src/reporter.rs:1694-1728 | In every reachable state a report goes from its snapshot straight to the drain exactly if no byte was captured, and to a seal exactly if one was and a number is left. |
| TrafficPipeline.DrainGoesOn | crates/node/src/reporter.rs:1733-1768 | In every reachable state a drain over a non-empty spool can send exactly its oldest file, and cannot only if that is a log batch waiting for its cursor. |
| TrafficPipeline.SavedNumberIsUsedUp | crates/node/src/reporter.rs:972-995 | A step that saves a reservation uses up the least number never used, whether its batch comes to be or not; no other step, a crash included, moves the reservation. |
| TrafficPipeline.RemovalFollowsAck | crates/node/src/reporter.rs:1790-1802 | A file disappears only as the oldest one, after the Panel applied exactly that batch. |
| TrafficPipeline.ResendsAreIdentical | crates/node/src/reporter.rs:1769-1781 | Over any failures and restarts whatever is sent again for a sequence number or batch id is the same batch. |
| TrafficPipeline.SealedSequencesIncrease | crates/node/src/reporter.rs:972-995 | A newly sealed batch has a number above every batch ever sealed, deleted ones included, and below the persisted reservation. |
| TrafficPipeline.LoaderAcceptsTheSpool | crates/node/src/reporter.rs:1250-1265 | The reservation file exists and lies beyond every batch in every reachable state, as the loader demands. |
| TrafficPipeline.CrashLoss | crates/node/src/reporter.rs:1041-1140 | A crash loses exactly what was only in memory, less the counters' batch whose file survives, and nothing of the access log. |
| TrafficPipeline.StepBillsOnce | crates/node/src/reporter.rs:1547-1564 | The Panel's totals are the sealed batches it has applied, each counted once, however often requests are delivered. |
| TrafficCounters.CommitSubtractsExactly | crates/node/src/reporter.rs:300-344 | Commit subtracts the captured amounts and nothing else; bytes that arrived in between stay, and an entry that goes has no handle. |
| TrafficCounters.NextSnapshotIsLater | crates/node/src/reporter.rs:184-191 | Once a revision's capture is committed, the next snapshot takes a later revision. |
| TrafficCounters.TrafficCounter.HandleAt | crates/node/src/reporter.rs:125-133 | Acquiring a handle creates the entry if needed and counts one more live handle, nothing else changes. |
| TrafficCounters.TrafficCounter.AddAt | crates/node/src/reporter.rs:140-158 | Adds exactly the given bytes to one entry, creating it on first use. |
| TrafficCounters.TrafficCounter.Retain | crates/node/src/reporter.rs:256-266 | Drops exactly the entries (of one rule or of all) with no bytes and no handle. |
| TrafficCounters.TrafficCounter.Snapshot | crates/node/src/reporter.rs:166-226 | After the sweep: empty exactly if there are no bytes, otherwise the nonzero entries of the oldest revision that has any, in rule order. |
| TrafficCounters.TrafficCounter.Commit | crates/node/src/reporter.rs:304-344 | The loop over captured entries leaves exactly the map after subtracting every capture that still belongs to its generation. |
| SpoolSequence.ReserveSequence | crates/node/src/reporter.rs:972-987 | A reserved number is positive, above every committed file and at least the persisted reservation. |
| SpoolSequence.ReservesTheLeast | crates/node/src/reporter.rs:972-987 | A reservation succeeds exactly if a 64-bit number with a successor is left above all files and reservations, and takes the least one never used. |
| Spool.ReservationOutcome | crates/node/src/reporter.rs:972-995 | A number is handed out exactly if one is left and its reservation is durable; a save that reached the file without its sync still moves the reservation. |
| SpoolNames.ParseInvertsFilename | crates/node/src/reporter.rs:934-943 | The 20-digit file name of every nonzero 64-bit number parses back to it. |
| SpoolNames.FilenameInvertsParse | crates/node/src/reporter.rs:934-943 | Every name that parses is the name of the number it parses to. |
| Spool.SpoolDirectory.List | crates/node/src/reporter.rs:950-970 | Lists every committed file once, in increasing order; fails exactly if a foreign name is present. |
| Spool.SpoolDirectory.Reserve | crates/node/src/reporter.rs:972-995 | The reservation is persisted before the number is handed out, the number names no file, and a failed save hands out nothing. |
| Spool.WriteVerdict | crates/node/src/reporter.rs:1104-1133 | Over every directory a crash can leave: a write ends clean exactly if none of them holds the batch, installed only if all of them do, and demands a restart in every other case. |
| Spool.SpoolDirectory.WriteRecord | crates/node/src/reporter.rs:1041-1141 | Installs a record under its own name without replacing any file; a failure is clean exactly if no crash can leave the batch behind, and demands a restart exactly if the linked file was neither verified nor taken back for certain. |
| Spool.SpoolDirectory.SealBatch | crates/node/src/reporter.rs:1143-1185 | Seals exactly if a number is left, the reservation is saved and every step of the install works; a sealed batch is one more file under a number above all files and the reservation, a clean failure leaves all files as they were. |
| InstallRefinement.InstallRefinesPipeline | crates/node/src/reporter.rs:1104-1133 | For every failure of the writes the install does what the pipeline's rolled-back, verified or poisoned install does, and leaves to a crash exactly what the pipeline does. |
| Spool.SpoolDirectory.LoadQueue | crates/node/src/reporter.rs:1223-1266 | Accepts exactly the directories whose files carry their own numbers below the saved reservation, every one these methods wrote among them, and then yields all batches in strictly increasing order. |
| Spool.SpoolDirectory.RemoveBatch | crates/node/src/reporter.rs:1347-1369 | A batch is removed only if its file still holds exactly that batch; nothing else is removed. |
| Spool.AckIsExact | crates/node/src/reporter.rs:1547-1564 | A reply is taken as the acknowledgement of a batch exactly if it is the Panel's answer for that id and content in this version. |
| Spool.OneReplyOneBatch | crates/node/src/reporter.rs:1547-1564 | No reply acknowledges two batches that differ in id or content. |
| Spool.SpoolDirectory.Drain | crates/node/src/reporter.rs:1730-1815 | The drain loop does what `DrainFrom` says, legacy batch first, and takes exactly the files of the removed prefix off the disk; if the Panel acknowledges only what it has applied, it removes only applied batches. |
| Spool.UndisturbedDrainIsExact | crates/node/src/reporter.rs:1752-1761 | If every send succeeds within the budget, exactly the first min(n, L) batches go, and the result is Current exactly if n is at most L. |
| Spool.DrainRemovesAcknowledgedPrefix | crates/node/src/reporter.rs:1762-1813 | Whatever fails, a prefix is removed, every removed batch was ready and acknowledged by the Panel with its own id and content, and it is the confirmed prefix unless the last removal reached the disk without its sync. |
| Spool.StoppedMeansFailure | crates/node/src/reporter.rs:1752-1802 | A drain stops early only for a batch that was not ready, not acknowledged or not durably removed; a backlog remains only for the limit or, after the first batch, the budget. |
| StrictReporter.Reporter.SealNext | crates/node/src/reporter.rs:1694-1721 | Seals all bytes of the oldest revision that has any, exactly if a number is left and every write works; bytes before = bytes left + bytes sealed; the process is poisoned exactly if the install stays in doubt. |
| StrictReporter.Reporter.Report | crates/node/src/reporter.rs:1670-1831 | A poisoned process does nothing. Otherwise the drain runs exactly if a batch was sealed or there was nothing to seal, bytes only move into the sealed batch, only acknowledged batches leave the disk, and if all sends succeed within the limit the spool is empty and the report Current. |
| StrictReporter.UndisturbedDrainEmpties | crates/node/src/reporter.rs:1730-1752 | If every batch is ready, acknowledged and durably removed within limit and budget, the drain leaves no file and ends Current. |
| NginxCheckpoint.RecoverCheckpoint | crates/node/src/reporter.rs:1371-1419 | Returns the only batch that claims the cursor; fails exactly on two claims or on history without cursor identity and without a first range. |
| NginxCheckpoint.ReadinessIsPermanent | crates/node/src/reporter.rs:1311-1345 | A sendable batch stays sendable as cursor and committed sequence advance. |
| NginxCheckpoint.SendReadyIff | crates/node/src/reporter.rs:1311-1345 | A log batch may be sent exactly if its range is behind the durable cursor and its number is committed; neither alone suffices. |
| NginxCheckpoint.ReadyIsReplayedOnlyWithoutIdentity | crates/node/src/reporter.rs:1388-1397 | Recovery from the proving cursor or any later one selects a sendable batch exactly if that cursor has no identity and the batch is the very first range. |
| NginxCheckpoint.IdentityIsNeeded | crates/node/src/reporter.rs:1396 | A concrete sendable batch that recovery would select once the cursor's identity is gone. |
| NginxCheckpoint.StepKeepsInv | crates/node/src/forwarder/nginx_sni_traffic.rs:427-495 | Opening generations, sealing, cursor writes that fail, recovery, removal and crashes keep: all sealed ranges but at most one are behind the cursor. |
| NginxCheckpoint.PositionKeptIff | crates/node/src/forwarder/nginx_sni_traffic.rs:172-198 | The position in the log is kept exactly if the same file is there and no shorter than what was read; otherwise a new generation starts at 0. |
| NginxCheckpoint.NoLogByteIsSealedTwice | crates/node/src/forwarder/nginx_sni_traffic.rs:498-560 | Over any failures and restarts the sealed ranges of one log generation are disjoint. |
| NginxCheckpoint.RecoveryIsUnambiguous | crates/node/src/forwarder/nginx_sni_traffic.rs:386-424 | In every reachable state at most one batch claims the cursor, and the cursor is never missing while batches exist. |
| NginxCheckpoint.SendableIffNotReplayed | crates/node/src/reporter.rs:1311-1345 | In every reachable state a queued batch is sendable exactly if recovery would not select it. |
| NginxCheckpoint.OnceSendableNeverReplayed | crates/node/src/reporter.rs:1371-1419 | A batch that was sendable once is never selected again in any continuation of the run. |
| LogAccounting.StepKeepsInv | crates/node/src/forwarder/nginx_sni_traffic.rs:427-495 | Ingester and pipeline stepping together under the report gate, through uncertain installs, failed cursor writes, removals, crashes and recovery, agree on history, files and on what may be sent. |
| LogAccounting.EveryRangeIsBilledAtMostOnce | crates/node/src/forwarder/nginx_sni_traffic.rs:479-494 | In every reachable state a sealed log range is one record: on disk and queued until the Panel has applied it, and from then on never selected by recovery again. |
| LogAccounting.BlockedIsRecoverable | crates/node/src/reporter.rs:1755-1768 | In every reachable state the batches that hold up the queue are exactly those the next recovery selects. |
| LogAccounting.IngesterGoesOn | crates/node/src/forwarder/nginx_sni_traffic.rs:386-424 | In every reachable state with a free gate and a live process, recovery is done exactly if no installed batch starts at the cursor, and the cursor can be moved over any that does. |
| LogAccounting.NewRangeCanBeSealed | crates/node/src/forwarder/nginx_sni_traffic.rs:498-560 | In every reachable state with a free gate the ingester can seal what is new in the log; the batch is then on disk, both halves stop exactly if the cursor write failed, and the batch waits exactly if that write did not persist. |
| LogAccounting.RangesAreBilledInOrder | crates/node/src/reporter.rs:1311-1345 | Sealed ranges of one generation never overlap, and one is acknowledged only when all earlier ones have been applied. |
| SiteChecks.ValidDomainIsNormal | crates/node/src/poller.rs:827-840 | An accepted server name is in lower case and without a trailing dot already. |
| SiteChecks.CoversIff | crates/shared/src/reconciliation.rs:7-23 | A certificate covers an accepted server name exactly if its normalized domain is that name or the wildcard of its direct parent. |
| SiteChecks.DomainIff | crates/node/src/poller.rs:827-840 | A server name is accepted exactly if it has at most 253 characters and a dot and each of its labels is well formed. |
| SiteChecks.SiteIdIff | crates/node/src/poller.rs:793-800 | A site id is accepted exactly if it has 1 to 64 letters, digits, hyphens and underscores. |
| NodeConfig.CheckProxyModes | crates/shared/src/protocol.rs:407-432 | Accepts exactly the listener lists with PROXY protocol only on the SNI transport and one mode per SNI port. |
| NodeConfig.ListenerRefusedIff | crates/node/src/poller.rs:763-786 | A listener is refused exactly for port 0, no target, or a target or required server name that is empty after trimming. |
| NodeConfig.CheckSites | crates/node/src/poller.rs:788-819 | Accepts exactly the site lists whose enabled sites have a well-formed id, server name, port, covering certificate, address and renewal time, with distinct ids and SNIs. |
| NodeConfig.ValidateConfig | crates/node/src/poller.rs:763-825 | Accepts exactly the valid configs, by all three groups of checks. |
| NodeConfig.ValidityFollowsFingerprint | crates/shared/src/reconciliation.rs:103-150 | Configs with equal fingerprints are accepted alike, in whatever order their entries come. |
| EffectiveConfig.BuildEffectiveConfig | crates/node/src/poller.rs:517-595 | Builds an effective config, its referenced SNIs and whether anything is withheld, whatever order the hash set yields the extra sites in. |
| EffectiveConfig.RequiredListenersHaveActiveSites | crates/node/src/poller.rs:531-564 | Safe: every required listener of the result has an active SNI, whatever the previous config was. |
| EffectiveConfig.EffectiveRunsExactly | crates/node/src/poller.rs:531-564 | A listener runs exactly if it is desired and ready, or was required before with a still active site and its rule has a withheld listener. |
| EffectiveConfig.EffectiveSnis | crates/node/src/poller.rs:569-587 | The enabled SNIs of the result are the desired ones and those old ones that what runs still requires. |
| EffectiveConfig.NothingWithheldIsExact | crates/node/src/poller.rs:531-541 | Exact: with nothing withheld the result is the desired config, order included. |
| EffectiveConfig.EnabledSitesArePreserved | crates/node/src/poller.rs:564-587 | If every required SNI of the previous config had an enabled site, so has every one of the result. |
| EffectiveConfig.ServedConfigIsItsOwnEffect | crates/node/src/poller.rs:246-264 | Local recovery does not alter a config whose sites are enabled in it and still active. |
| EffectiveConfig.RebuildIsFixedPoint | crates/node/src/poller.rs:542-564 | Rebuilding from the own result gives the same listeners and sites exactly if no rule is both ready and withheld. |
| EffectiveConfig.OneListenerPerRule | crates/node/src/poller.rs:542-545 | One listener per rule id excludes that case. |
| EffectiveConfig.SharedRuleGrows | crates/node/src/poller.rs:542-564 | Otherwise each rebuild adds all ready listeners of the shared rule once more. |
| EffectiveConfig.DuplicationExample | crates/node/src/poller.rs:542-564 | Two listeners of one rule, one ready: the rebuild runs the ready one twice. |
| LkgCache.CacheDirectory.CommitRecord | crates/node/src/poller.rs:723-761 | The commit passes through exactly the listed disk states for every failure; in each a restart recovers the old authority or exactly the new record, at the end the new one exactly if it replaced the primary, and it succeeds exactly if every step works. |
| LkgCache.CacheDirectory.LoadState | crates/node/src/poller.rs:636-684 | The load with its repair of the primary passes through exactly the listed states and returns what they say. |
| LkgCache.CommitIsCrashAtomic | crates/node/src/poller.rs:723-761 | Stopped anywhere in a commit, the next load finds the old authority or exactly the new record with its revision and fingerprint; never nothing if there was something. |
| LkgCache.CommitSucceedsIff | crates/node/src/poller.rs:723-761 | A commit succeeds exactly if the config is valid, the temporary file was written and read back, a healthy readable primary was saved as backup, and the rename was done and synced; it touches the primary exactly if all but that sync went well. |
| LkgCache.CommitCleansUp | crates/node/src/poller.rs:739-761 | After a commit the temporary file is left exactly if the primary was not replaced and the file could not be removed, or the bytes of a healthy primary could not be read. |
| LkgCache.ReadInvertsWrite | crates/node/src/poller.rs:853-882 | What was written is read back as it is, in the present and in the older format, exactly if its config is valid and its fingerprint its own. |
| LkgCache.CommitOutcome | crates/node/src/poller.rs:755-760 | Success means the new record is the primary; failure leaves the old authority unless only the sync after the rename failed. |
| LkgCache.PreviousStaysRecoverable | crates/node/src/poller.rs:747-753 | A commit over a healthy primary keeps it as the backup a damaged primary falls back to. |
| LkgCache.CorruptPrimaryLeavesBackup | crates/node/src/poller.rs:745-753 | A corrupt primary is never copied over the backup, by commit or load. |
| LkgCache.LoadFindsAuthority | crates/node/src/poller.rs:636-684 | A load returns the recoverable record exactly if the files it depends on could be read. |
| LkgCache.LoadSourceIff | crates/node/src/poller.rs:636-684 | Whether a load says primary, repaired from backup, backup fallback or nothing, exactly by what could be read and written. |
| LkgCache.LoadingTwiceIsStable | crates/node/src/poller.rs:686-695 | A load that does not overwrite a healthy primary, stopped anywhere and repeated, returns the same record. |
| LkgCache.UnreadablePrimaryIsReplaced | crates/node/src/poller.rs:655-667 | A load changes what can be recovered exactly if a healthy primary could not be read, the backup is another record and readable, and its repair reaches the rename, reported as repaired or not. |
| LkgCache.OneFailedReadGoesBack | crates/node/src/poller.rs:655-667 | For any newer primary and older backup, one failed read of the primary leaves the older revision as what is recovered. |
| LkgCache.EveryRecordHasOrigin | crates/node/src/poller.rs:636-761 | Over any history of commits and loads, each stopped anywhere, with any failed reads: each file says nothing, what one of the two said at first, or a record whose commit was attempted; what could be recovered never becomes nothing. |
| LkgCache.AuthorityHasProvenance | crates/node/src/poller.rs:853-882 | Over any history without an overwriting load, what is recovered is the initial authority or a record whose commit was attempted, never nothing. |
| Reconcilers.Reconciler.ApplyPanelSnapshot | crates/node/src/poller.rs:226-363 | Load, build, switch listeners, commit, clean up: exactly the states and outcome of the specification, with an effective config built from what was loaded. |
| Reconcilers.Reconciler.RetryFinalization | crates/node/src/poller.rs:486-515 | Commits only what is uncommitted, then cleans up, and keeps what has been achieved. |
| Reconcilers.Reconciler.ReconcileInput | crates/node/src/reconciler.rs:589-931 | Every input leaves the fields, the node and the verdict that the specification function says; if the host does its part, the invariant is kept, each state passed through is safe, converged means agreement, and verdict, status, memory and node are exactly what the steps that worked imply. |
| ReconciliationRuns.LoadedRecordIsAccepted | crates/node/src/reconciler.rs:113-158 | Whatever the cache reader accepts becomes a trusted local-recovery snapshot unchanged. |
| ReconciliationSafety.LetThroughIff | crates/node/src/reconciler.rs:113-158 | A snapshot is let through exactly if its config is valid and, from the Panel with a revision, its fingerprint is that of the config. |
| ReconciliationSafety.PanelKeepsInv | crates/node/src/reconciler.rs:613-747 | A Panel snapshot, on every branch, keeps the invariant, and each state on the way is safe with a recoverable revision that does not go back. |
| ReconciliationSafety.LocalKeepsInv | crates/node/src/reconciler.rs:613-616 | Local recovery keeps it too and never raises the highest revision of a running node. |
| ReconciliationSafety.EveryInputIsGuaranteed | crates/node/src/reconciler.rs:589-931 | Each input the checks let through keeps the invariant, is safe at every state, and converges only with runtime, primary LKG and desired config in agreement. |
| ReconciliationVerdicts.PanelIsExact | crates/node/src/reconciler.rs:659-931 | An accepted Panel snapshot succeeds exactly if the steps of its path work: commit and cleanup for a pending one, health in the end for a settled one, listeners, commit and cleanup otherwise; then it converges exactly if nothing is withheld, and leaves exactly the stated memory and runtime. |
| ReconciliationVerdicts.LocalIsExact | crates/node/src/reconciler.rs:665-694 | Local recovery succeeds exactly if the pending or running config is healthy in the end, or nothing ran and the valid recovered config was applied; what it changes and reports, exactly. |
| ReconciliationVerdicts.EveryInputIsExact | crates/node/src/reconciler.rs:589-931 | The exact verdict, status and effect of every input, ignored and untrusted ones included. |
| ReconciliationVerdicts.CooperationConverges | crates/node/src/reconciler.rs:695-931 | On a host that does everything asked of it, every accepted snapshot with nothing withheld converges, and what runs is the desired config. |
| ReconciliationVerdicts.DriftIsApplied | crates/node/src/reconciler.rs:756-783 | A runtime that is not what was applied last for this snapshot is never just looked at; the snapshot is applied. |
| ReconciliationVerdicts.PreservesIff | crates/node/src/reconciler.rs:360-383 | A failed poll leaves a node alone exactly if it last reported convergence, still agrees with what it settled on, and is healthy. |
| ReconciliationSafety.ConvergedIsHonest | crates/node/src/reconciler.rs:695-747 | "Converged" from fresh apply, pending retry or inspection means runtime, primary LKG and desired config agree at that revision. |
| ReconciliationSafety.PreservedStateAgrees | crates/node/src/reconciler.rs:360-383 | So does the decision to leave a converged node alone after a failed poll. |
| ReconciliationSafety.OnlyThePanelConverges | crates/node/src/reconciler.rs:774-783 | Local recovery and missing input never end as converged or withheld. |
| ReconciliationSafety.IgnoredLeavesEverything | crates/node/src/reconciler.rs:275-293 | A snapshot is ignored exactly if it is older or reuses the latest revision for another fingerprint; then memory, status, runtime and cache are unchanged. |
| ReconciliationSafety.UntrustedOnlyReports | crates/node/src/reconciler.rs:596-612 | Untrusted or missing input changes the status only. |
| ReconciliationSafety.LocalRecoveryRespectsPending | crates/node/src/reconciler.rs:665-694 | While an apply is pending, local recovery changes neither runtime nor cache nor memory. |
| ReconciliationSafety.LocalRecoveryOnlyStartsUp | crates/node/src/reconciler.rs:756-775 | Local recovery never touches the cache and never replaces a running config. |
| ReconciliationSafety.PendingEndsByItsOwnSnapshot | crates/node/src/reconciler.rs:695-749 | A pending apply is completed only by its own revision and fingerprint, without reapplying, or superseded by a newer revision. |
| ReconciliationSafety.AcknowledgedMeansRecorded | crates/node/src/reconciler.rs:727-731 | A Panel revision is acknowledged only when exactly that revision is committed together with what runs. |
| ReconciliationSafety.RecoveredMeansRecoverable | crates/node/src/reconciler.rs:902-906 | A recovered revision is acknowledged only for a node that ran nothing, and is recoverable. |
| ReconciliationRuns.RoutesNeverOutliveSites | crates/node/src/poller.rs:282-363 | In every reachable state and every state passed through, crashes included, each required SNI of the running and of the recoverable config has an active site. |
| ReconciliationRuns.AcknowledgedIsRecoverable | crates/node/src/reconciler.rs:727-732 | Wherever a crash falls, the recoverable revision is at least the highest revision ever acknowledged. |
| ReconciliationRuns.AcknowledgedSurvivesLoadIff | crates/node/src/poller.rs:655-667 | In every reachable state, a load with any failed reads loses an acknowledged revision exactly if it overwrites a healthy primary with a backup older than that revision. |
| ReconciliationRuns.FailedReadLosesAcknowledged | crates/node/src/poller.rs:655-667 | For every revision from 2 on, a reachable state and one failed read after which the acknowledged revision can no longer be recovered. |
| ReconciliationRuns.OlderThanAcknowledgedIsIgnored | crates/node/src/reconciler.rs:618-658 | After any restarts a Panel snapshot older than an acknowledged revision changes nothing at all. |
| ReconciliationRuns.EqualRevisionsAreEqualConfigs | crates/node/src/reconciler.rs:275-293 | Two snapshots accepted by one process with the same revision have the same fingerprint. |
| ReconciliationRuns.HighestNeverDecreases | crates/node/src/reconciler.rs:659-663 | The highest revision never decreases while the process lives. |
| ReconciliationRuns.PendingAlwaysEndsByItsOwnSnapshot | crates/node/src/reconciler.rs:695-749 | Over any run a pending apply is completed only by its own revision and fingerprint, without reapplying, or superseded by a newer revision; any other delivery changes nothing. |
| ReconciliationRuns.AcknowledgedIsAlwaysRecorded | crates/node/src/reconciler.rs:727-731 | Over any run a delivery acknowledges exactly its own revision, and only once it is committed together with what runs. |
| ReconciliationRuns.ConvergedAlwaysAgrees | crates/node/src/reconciler.rs:853-931 | In every reachable state a delivery that ends as converged leaves agreement and a status that says so. |
| ReconciliationRuns.PreservedAlwaysAgrees | crates/node/src/main.rs:62-76 | In every reachable state a preserved node is in agreement. |
| ReconciliationRuns.RecoveryNeverTouchesPending | crates/node/src/main.rs:77-110 | Recovery of anything this process ever loaded, however late, leaves a pending apply alone. |
| Uninstall.Finalizer.AttemptCompletion | crates/node/src/lifecycle.rs:1427-1475 | One attempt persists, cleans up and reports in exactly the listed order, for every failure of its writes. |
| Uninstall.Finalizer.RetireFinalizer | crates/node/src/lifecycle.rs:1268-1330 | Retry units, credentials, executable and receipt go in order, and a failed retirement restores the units, state by state. |
| Uninstall.Finalizer.RunTick | crates/node/src/lifecycle.rs:1477-1502 | A tick passes through exactly the states of its specification; each is one the next tick can start from, and it finishes exactly if every step works, which leaves neither receipt, executable nor retry units. |
| Uninstall.TickFinishesIff | crates/node/src/lifecycle.rs:1477-1502 | A tick finishes exactly if the completion is acknowledged, every step of the retirement works and the Panel takes the final report. |
| Uninstall.UnfinishedIff | crates/node/src/lifecycle.rs:1427-1475 | Without an acknowledgement an attempt is unfinished, rather than failed, exactly if everything could be read and saved. |
| Uninstall.PersistedReceiptsAreConsistent | crates/node/src/lifecycle.rs:1442-1474 | In every receipt ever persisted acknowledged implies cleaned implies destruction started. |
| Uninstall.CleanupIsNotRepeated | crates/node/src/lifecycle.rs:1442-1456 | Once success is persisted the cleanup never runs again, over any retries and crashes. |
| Uninstall.SuccessFollowsCleanup | crates/node/src/lifecycle.rs:1457-1467 | Success is reported only after a cleanup that succeeded. |
| Uninstall.FinalReportIsLast | crates/node/src/lifecycle.rs:1492-1502 | The final report is sent at most once, after credentials were retired and the receipt removed. |
| Uninstall.FailureKeepsReceipt | crates/node/src/lifecycle.rs:1296-1310 | A returned error keeps the receipt; one from reload or retirement also keeps the executable. |
| Uninstall.RetryAfterFailure | crates/node/src/lifecycle.rs:1283-1315 | After an error the retry units are in place exactly if they were not touched yet or the restoration after reload or retirement succeeded. |
| Credential.Bootstrap.EnsureLocalState | scripts/relay-node-credential-state.py:239-294 | State file first, then the secret, then the phase that says so: exactly the listed states, with both consistency errors. |
| Credential.Bootstrap.RunOnce | scripts/relay-node-pool-migrate.py:150-217 | A run passes through exactly the states of its specification; each keeps the invariant and extends what was there, neither consistency error occurs, and it succeeds exactly if every step still needed works. |
| Credential.RerunIsNeverStuck | scripts/relay-node-credential-state.py:247-285 | From a crash after any durable step, running again never reports an orphaned or a missing secret. |
| Credential.OneIdentity | scripts/relay-node-pool-migrate.py:158-200 | Everything ever presented carries one credential id, one secret and one nonce of each kind. |
| Credential.PhaseOnlyAdvances | scripts/relay-node-pool-migrate.py:186-205 | Over all runs the phase only advances and what is on disk stays. |
| Credential.DescriptorFollowsIdentityCheck | scripts/relay-node-pool-migrate.py:206-214 | A runtime descriptor exists only for the confirmed credential, after its identity check passed. |
| Credential.RerunCompletes | scripts/relay-node-pool-migrate.py:63-79 | Whatever was interrupted, one run with cooperating Panel and disk completes, also when the activation reply was lost before. |
| Credential.RunIsExact | scripts/relay-node-pool-migrate.py:150-217 | A run succeeds exactly if each step that is not done yet works, sends exactly the requests it still needs in order, and leaves exactly the stated files. |
| Credential.EnsureErrorsIff | scripts/relay-node-credential-state.py:247-285 | The two consistency errors: a secret without state, and a state past its first phase without secret, and in no other case. |
| Credential.SetPhaseAdvancesIffAsked | scripts/relay-node-credential-state.py:297-303 | The helper's phase change advances exactly if the requested phase is later than the expected one. |
| Credential.SetPhaseCanGoBack | scripts/relay-node-credential-state.py:297-303 | Asked for an earlier phase it goes back. |
| Credential.ScriptedChangesAdvance | scripts/relay-node-credential.sh:311-336 | The two changes the script asks for advance and keep the invariant. |
| WireFormat.DecodeInvertsEncode | scripts/relay-node-credential-state.py:91-107 | Decoding inverts encoding for every 32 bytes and every prefix. |
| WireFormat.AcceptedIffEncoding | scripts/relay-node-credential-state.py:95-107 | A value is accepted, and means given bytes, exactly if it is the prefix and the encoding of those 32 bytes. |
| WireFormat.AcceptedIffCanonical | scripts/relay-node-credential-state.py:95-107 | The accepted strings are exactly 43 url-safe characters whose left-over bits are zero. |
| WireFormat.LenientDecoderTakesMore | scripts/relay-node-credential-state.py:101-106 | Without encoding again every secret would have a second accepted spelling. |
| WireFormat.SextetsSurvive | scripts/relay-node-credential-state.py:105 | Decoding six-bit groups and encoding again is lossless exactly if the left-over bits are zero. |
| WireFormat.ThreeBytesFourGroups | scripts/relay-node-credential-state.py:91-107 | Three bytes are the four six-bit groups of section 4 of RFC 4648, most significant first, whatever follows. |
| WireFormat.TwoBytesThreeGroups | scripts/relay-node-credential-state.py:91-107 | Two bytes at the end are three groups. |
| WireFormat.AlphabetOrder | scripts/relay-node-credential-state.py:91-107 | The letters are those of section 5 of RFC 4648 in order. |
| WireFormat.PreimageIsInjective | scripts/relay-node-credential-state.py:220-236 | Two different identities or secrets never share a verifier preimage. |
| WireFormat.PreimageReadsBack | scripts/relay-node-credential-state.py:220-236 | Read in the order length, id, signed group, length, node id, secret, with numbers most significant byte first, the preimage yields exactly what went in. |
| HostTuning.TunedHost.Ensure | crates/node/src/bbr.rs:128-208 | Looks first, saves the originals, switches, reads back, persists: exactly the listed states for every failure, none of them without a baseline of the original values. |
| HostTuning.TunedHost.CleanUp | crates/node/src/bbr.rs:231-268 | Restores and removes in order: exactly the listed states for every failure; unless the kernel ignores a value it accepted, the originals are in force or still saved in each. |
| HostTuning.EnsureKept | crates/node/src/bbr.rs:128-208 | Nothing changes without a baseline of the originals, foreign files are never touched, and success means both values and the drop-in are ours. |
| HostTuning.EnsureSucceedsIff | crates/node/src/bbr.rs:128-208 | An ensure succeeds exactly if each step it needs works, and leaves exactly both values, the drop-in, the modules file if one was loaded, and the baseline. |
| HostTuning.BaselineIsOriginal | crates/node/src/bbr.rs:210-223 | Over any ensures and cleanups, failures, repetitions and crashes, the baseline holds the values the host had at first or nothing has been changed. |
| HostTuning.FailedSwitchIsTakenBack | crates/node/src/bbr.rs:170-200 | A failed switch whose undo works leaves both values as they were. |
| HostTuning.CleanupRestores | crates/node/src/bbr.rs:231-268 | A successful cleanup removes exactly our files and puts back both originals exactly if the kernel took what it accepted. |
| HostTuning.CleanupKeptIff | crates/node/src/bbr.rs:231-268 | A cleanup, stopped anywhere, keeps the originals in force or saved exactly if it does not succeed over a value the kernel ignored. |
| HostTuning.DeceptionForgetsTheOriginal | crates/node/src/bbr.rs:231-268 | On every untouched host such a cleanup between two ensures makes our own value the saved original. |
| HostTuning.CleanupSucceedsIff | crates/node/src/bbr.rs:240-247 | Undisturbed, a cleanup succeeds exactly if both saved names are restorable. |
| HostTuning.RestorableIff | crates/node/src/bbr.rs:240-247 | A saved name can be restored exactly if it is not empty and has only letters, digits and underscores. |
| HostTuning.CleanupSucceedsExactly | crates/node/src/bbr.rs:231-268 | A cleanup succeeds exactly if what was saved is restorable and not refused, and everything of ours could be removed. |
| HostTuning.UnrestorableExample | crates/node/src/bbr.rs:240-247 | A saved name with a dash is never restored. |
| HostTuning.OperatorValuesStay | crates/node/src/bbr.rs:248-255 | Values that are no longer ours are left alone. |
| HostTuning.TuningIsReversible | crates/node/src/bbr.rs:225-268 | From an untouched host, after any ensures and cleanups with any failures, a successful cleanup restores its values exactly if the kernel took what it accepted. |

## Left out

- NodeConfig.CheckSites: whether an address parses as an IP address is part of the value, because no parser is modelled.
- TrafficCounters.TrafficCounter.Commit: runs alone under the map lock; what slips in between its steps is the subject of `CounterRace`.
- Spool.SpoolDirectory.Reserve: the temporary file of the reservation is not a separate state, because its rename is atomic.
- ReconciliationRuns.OlderThanAcknowledgedIsIgnored: Panel snapshots with revision 0 are excluded, because the code always accepts them.
- Uninstall.RetryAfterFailure: a crash between removing and restoring the retry units is not covered, because only returned errors restore them.
- LogAccounting.EveryRangeIsBilledAtMostOnce: one source; what the lines of a range add up to is the caller's choice, because parsing and attribution are not modelled.
- NginxCheckpoint.NoLogByteIsSealedTwice: one source at a time, and a log file is what its identity and length say; the source-history marker is not modelled.
- Counters are unbounded; wrap-around of 64-bit counters and weak memory ordering are not modelled, steps are sequentially consistent.
- Legacy group-token reporting (not exactly-once) and the destructive drain that production code does not use.
- The effective config is not claimed to pass validation: a kept old listener or site can clash with a new one.
- Transport, timeouts, TLS, the forwarder, the site manager, systemd and nginx: represented by their answers only.
- File owners, modes and symbolic links, and JSON: a file holds valid or corrupt content.
- SHA-256 and the observed-runtime evidence strings; the time of the last success in the status; the interim "repairing" status, which is overwritten before anybody can read it.
- HTTP response classification of the credential helper, and its lock file.
- Metrics, public-IP probing, diagnosis, heartbeats, residue clean-up scripts, release scripts and the web frontend.
