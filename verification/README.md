# Verification of vmbackupd's crash-safe protocols and calendars

vmbackupd is a daemon that backs up virtual machines. It decides when a backup is due, runs it as an
external libvirt job, publishes the result as a bundle directory, retires old bundles, restores received
chains, and keeps its journal in a database whose schema it migrates. Almost all of this can be cut short by
the death of the process. This project models those parts and proves what every interruption leaves true.

A crash is modelled in one way throughout: an object carries `fuel`, the number of changing system calls or
commits that the process still completes. The next one reports a death and changes nothing. Contracts hold
for every amount of fuel, and the drivers (`PurgeAcrossCrashes`, `ReclaimAcrossCrashes`, `History`, `Run`,
`EnsureAcrossCrashes`) repeat an operation over arbitrary successions of processes.

## How the project is organised

- Calendars: `Slots` (coalescing over any set of instants), `SortedSeqs`, `TimeZones` (a zone as a piecewise
  constant offset, with gaps and overlaps), `WallSlots`, `SchedulePolicies`, `ChainSchedules`. Instants and
  wall readings are integers in microseconds.
- Bundles: `BundlePaths` (the four path namespaces), `FileSystem` (a directory tree and its system calls),
  `BundleTrees` (the two validators), `BundlePublish`, `BundleQuarantine`, `BundlePurge`, `ReclaimExecution`
  (the executor that drives one reclaim through all its commits), `Budgets`.
- Catalog: `Catalogs` (parent links), `Chains` (what recording and deleting keep), `Retention`,
  `BackupPlanning` (FULL or incremental, and whole histories).
- Execution: `ExternalJobs` (the job and what can be seen of it), `LocalBackupRun` (the compact executor),
  `LibvirtExecution` (the external job protocol).
- Restore: `RestoreImages` (flattening a chain), `ReceivedRestore` (validation and life of an operation).
- Facts and schema: `BundleSpellings` (how an ID is written), `Capacity`, `ReclaimJournal`, `SchemaMigration`.
- `Wrappers` holds `Option` and `Result`.

## What the code does not do

Some properties turned out narrower than one might expect. The model keeps the code as it is, and the
contracts say exactly when the property holds.

- A restore point can only be deleted while its run is in SUCCESS (src/vmbackupd/backup_catalog_v2.py:46-47),
  but an error of the retention that follows a FULL turns the run of the FULL that was just catalogued into
  FAILED (src/vmbackupd/runtime_v2.py:107-121). So one directory that cannot be removed just once is enough:
  the new FULL can then never be deleted, and once it is surplus, retention and space reclaim stop at it for
  ever, and every later FULL that meets it fails as well. `Retention.LocalCatalog.EnforceRetention` states
  exactly when the promised number of chains remains, `BackupPlanning.RunBackup` exactly when a run fails in
  this way, `BackupPlanning.StalledRetention` that no later run ever deletes the chain or a newer one, and
  `BackupPlanning.FailedRunBlocksRetention` and `BackupPlanning.OnePassingError` are concrete cases.
- The compact executor records every error of its start call as a rejection
  (src/vmbackupd/local_backup_v2.py:331-343). A call that timed out after the job was accepted leaves a FAILED
  run without a recovery mark while the job writes: `LocalBackupRun.UnmarkedWriter` is that run, and
  `LocalBackupRun.Run` says that a FAILED run with an active writer carries the mark exactly when its start
  was not recorded as rejected.
- The external job protocol records an outcome (COMPLETED or UNKNOWN) and moves or marks the run in separate
  commits. A death in between leaves a run that nothing moves any more, and so does an operator who resumes a
  run whose outcome is on record. `LibvirtExecution.Step` says that exactly these events do so and that it is
  for ever; `DiedAfterCompletion`, `DiedInQuarantine` and `ResumedTooLate` reach the state. In the same way a
  death between the recovery of a reclaim and the transition of its run leaves a run that only an operator
  who gives it up can move (`DiedAfterReclaimRecovery`).
- The inspector of published bundles ignores devices, while the purger's validator demands that every file is
  on the device of the bundle directory. Quarantine relies on the first, and every later step of a reclaim on
  the second. So a bundle on two devices is moved aside and then stays there, even if no process ever dies:
  `BundleQuarantine.EvidenceSurvivesTheMove` gives the exact condition, `ReclaimExecution.ReclaimAcrossCrashes`
  says that a reclaim completes exactly for bundles on one device, and `TwoDeviceBundle` is a concrete bundle.
- A symbolic link on the way to a bundle raises an error that the capacity collector does not catch, so that
  one such bundle ends the whole collection: `Capacity.Collect` states exactly when, and
  `Capacity.LinkEndsCollection` is such a tree.
- The capacity collector compares bundle IDs as texts (src/vmbackupd/capacity.py:54-66) but inspects the path
  that a text names, in which empty and `.` components say nothing. One bundle under two spellings is counted
  twice (`Capacity.CountedTwice`). `Capacity.DirectoriesAreCountedOnce` proves that the report is what the
  counted directories allocate if and only if no directory with bytes is counted under two spellings; IDs as
  publication writes them meet that (`Capacity.PrintedIsSpeltOnce`).

The repository behind the external job protocol is no longer part of the source: in
src/vmbackupd/repository_v2.py:1456-1500 and 2574-2625 its operations are placeholders. The model takes their
effects from the calls and from tests/test_libvirt_execution.py and tests/test_runtime_hardening.py:290-430.

## Model

| member | source | states |
|---|---|---|
| Slots.PathIndependence | src/vmbackupd/models.py:440-491 | Splitting a downtime at any tick gives slot counts that add up and the same final cursor as one call |
| Slots.SplitAdvance | src/vmbackupd/models.py:440-491 | The same law with the backlog cap: whenever the uncut advance is accepted, both halves are accepted and add up to it |
| TimeZones.Zone.FirstIsFirst | src/vmbackupd/models.py:315-344 | The instant to which a wall reading resolves is the least instant whose local clock has reached that reading, inside gaps and overlaps alike |
| TimeZones.Zone.FoldsFindEveryInstant | src/vmbackupd/models.py:315-344 | Reading a wall time with both folds finds every instant that shows it |
| TimeZones.Zone.GapHasNoInstant | src/vmbackupd/models.py:380-398 | A reading inside a spring-forward gap is shown by no instant |
| TimeZones.Zone.MinutesToGapEnd | src/vmbackupd/models.py:380-398 | The end of a gap lies a whole number of minutes, at most a day, after any minute reading inside it, so the minute search ends |
| TimeZones.Zone.FarReadingIsLater | src/vmbackupd/models.py:421-438 | A reading a whole local day or more ahead is reached strictly later, which bounds the search over dates |
| WallSlots.NextByReading | src/vmbackupd/models.py:400-438 | The first due instant after a value is the one of the first reading that is not yet due, although clocks may go back |
| WallSlots.DueWhenReached | src/vmbackupd/models.py:346-398 | A time of day falls due at the first instant at which the local clock has reached the date, the hour and the minute; outside a gap the clock then shows exactly these |
| SchedulePolicies.ValidLocalCandidates | src/vmbackupd/models.py:315-344 | The candidates of a wall reading are exactly the instants that show it, in ascending order |
| SchedulePolicies.SchedulePolicy.DailySlotForDate | src/vmbackupd/models.py:346-398 | The daily slot of a date is the least instant at which the local clock has reached that date, hour and minute, and shows them unless no instant does; it always exists |
| SchedulePolicies.SchedulePolicy.NextRunAfter | src/vmbackupd/models.py:400-438 | The next run is the least slot strictly after the value over all dates, when the clock reaches the configured hour and minute of some date, and the search ends within three dates |
| SchedulePolicies.SlotsAre | src/vmbackupd/models.py:346-398 | The DAILY slots are the first instants at which the local clock reaches the hour and minute on each date, those of INTERVAL whole intervals from the cursor |
| SchedulePolicies.SchedulePolicy.AdvanceDue | src/vmbackupd/models.py:440-491 | The coalesced count is one plus the slots in (due, now], the cursor is the least slot after now, and a future due time or an absurd backlog is refused |
| SchedulePolicies.SplitDowntime | src/vmbackupd/models.py:440-491 | Path independence for both kinds of policy, including the INTERVAL slots that are anchored at the cursor itself |
| SchedulePolicies.IntervalClosedForm | src/vmbackupd/models.py:458-476 | The INTERVAL closed form equals iterating the next run one interval at a time |
| ChainSchedules.LocalCandidate | src/vmbackupd/chain_schedule_v2.py:57-76 | The second resolver of wall times yields the same least instant as the daily policy, which shows the date, hour and minute unless no instant does |
| ChainSchedules.TextOrderIsTimeOrder | src/vmbackupd/chain_schedule_v2.py:39-48 | Sorting HH:MM texts is sorting times |
| ChainSchedules.TextIsShown | src/vmbackupd/chain_schedule_v2.py:13-22 | The HH:MM text of an hour and a minute is accepted, and names the time that a clock shows as these |
| ChainSchedules.AcceptedTextsAreTimes | src/vmbackupd/chain_schedule_v2.py:13-22 | Nothing else is accepted |
| ChainSchedules.WeekdaysRepeat | src/vmbackupd/chain_schedule_v2.py:79-92 | A date has a weekday exactly when it is whole weeks from that weekday in the week of Monday 1970-01-05 |
| ChainSchedules.ValidateIncrementalTimes | src/vmbackupd/chain_schedule_v2.py:39-54 | One to four valid times are accepted, and come out ascending, without duplicates, and with nothing lost |
| ChainSchedules.Schedule.NextFullAfter | src/vmbackupd/chain_schedule_v2.py:79-92 | The next FULL is the least slot strictly after the value over all dates, on a date whole weeks from the configured weekday of a known week and when the clock reaches its hour and minute, found within nine of the fifteen dates searched, so the error is unreachable |
| ChainSchedules.Schedule.ScanDate | src/vmbackupd/chain_schedule_v2.py:95-106 | The scan of one date finds the least slot after the value, or shows that the whole date is due; a date two days ahead always has one |
| ChainSchedules.Schedule.NextIncrementalAfter | src/vmbackupd/chain_schedule_v2.py:95-106 | The next incremental is the least instant strictly after the value over all dates and all times, with times in one gap coalescing, found within three dates |
| ChainSchedules.Schedule.AdvanceCursor | src/vmbackupd/chain_schedule_v2.py:120-133 | The cursor ends strictly after now and the count is the cursor plus the distinct slots in (cursor, now], below the cap |
| ChainSchedules.SlotsAre | src/vmbackupd/chain_schedule_v2.py:79-106 | The FULL slots are the first instants at which the local clock reaches the hour and minute on the dates of the weekday, the INCREMENTAL ones those at the given times of every date |
| ChainSchedules.SingleTimeIsDaily | src/vmbackupd/chain_schedule_v2.py:95-106 | With one time the chain calendar has exactly the slots of the DAILY policy |
| ChainSchedules.ResolversAgree | src/vmbackupd/chain_schedule_v2.py:95-106 | The chain calendar's search and the daily policy's search, written separately, return the same instant |
| BundlePaths.PrintedStampParses | src/vmbackupd/bundle.py:123-128 | The UTC stamp in a bundle name reads back |
| BundlePaths.MonthsAreGregorian | src/vmbackupd/bundle.py:418-422 | The dates that are read are those of the Gregorian calendar |
| BundlePaths.UuidIsGrouped | src/vmbackupd/bundle.py:35-44 | An ID in a path is five groups of hexadecimal digits |
| BundlePaths.PublishedPathRoundTrips | src/vmbackupd/bundle.py:396-433 | Validating a printed path recovers the lower-cased IDs and the second, so printing is injective on them |
| BundlePaths.PublishedPathReads | src/vmbackupd/bundle.py:123-128 | The components of a published path read as the VM, the year, the month, and a name of stamp and run |
| BundlePaths.AcceptedPathsAreCanonical | src/vmbackupd/bundle.py:396-433 | Validation accepts exactly the canonical published paths |
| BundlePaths.ReclaimNamesAreOrdinary | src/vmbackupd/bundle.py:46-121 | The name under which a bundle is reclaimed is a UUID or a pair of digests, hence never `.purging` |
| BundlePaths.NamespacesNeverNest | src/vmbackupd/bundle.py:52-128 | The incoming, final, quarantine and purging namespaces never overlap and no path of one lies below a path of another |
| FileSystem.EntryElsewhere | src/vmbackupd/bundle.py:435-464 | Changing one directory entry is invisible at every unrelated path |
| FileSystem.RenameCarries | src/vmbackupd/bundle.py:856-870 | A rename carries the whole directory to its new name and changes nothing else |
| FileSystem.OpenOrCreate | src/vmbackupd/bundle.py:649-690 | A directory is opened or created, and a link or file of that name is refused |
| BundleTrees.AllocatedWithout | src/vmbackupd/bundle.py:516-527 | The byte total of a directory does not depend on the order in which its files are visited |
| BundleTrees.InspectFiles | src/vmbackupd/bundle.py:516-589 | The files are measured exactly when all are regular, non-empty, single-linked and of known allocation |
| BundleTrees.InspectBundle | src/vmbackupd/bundle.py:309-353 | The inspector accepts exactly the complete trees and reports their allocated bytes and file count |
| BundleTrees.Inspect | src/vmbackupd/bundle.py:309-353 | The inspector accepts exactly complete trees at canonical published paths |
| BundleTrees.ValidateFiles | src/vmbackupd/bundle.py:1396-1461 | The purger measures files exactly when they are sound and on the device of the bundle |
| BundleTrees.ValidateCompleteTree | src/vmbackupd/bundle.py:1463-1557 | The purger accepts exactly the complete single-device trees, with the same byte total as the inspector, and only with the expected one |
| BundleTrees.ValidateRemainingTree | src/vmbackupd/bundle.py:1559-1624 | The check of a partly purged tree accepts exactly what a purge may leave |
| BundlePublish.AtomicWrite | src/vmbackupd/bundle.py:152-171 | A metadata file appears under its name complete or not at all; an existing file is never overwritten, until then no other entry changes, and a temporary file in the way is removed by the attempt that it fails |
| BundlePublish.WriteMetadata | src/vmbackupd/bundle.py:232-236 | The metadata directory ends with exactly the three files |
| BundlePublish.OpenChain | src/vmbackupd/bundle.py:177-209 | The directories above the final path are opened or created, refused exactly when something else is in the way, and nothing else changes |
| BundlePublish.AssembledIsComplete | src/vmbackupd/bundle.py:309-353 | A published bundle is one that the inspector accepts exactly when its disks and the written metadata are sound |
| BundlePublish.Publish | src/vmbackupd/bundle.py:221-283 | At every crash the final path holds what it held before or the whole bundle; publication succeeds exactly under its conditions and touches no unrelated path |
| BundleQuarantine.OpenOperation | src/vmbackupd/bundle.py:692-737 | Opening an operation's directory can only create that directory |
| BundleQuarantine.Quarantine | src/vmbackupd/bundle.py:739-952 | A valid bundle is moved by one rename and the evidence is its bytes, device and inode; any other outcome leaves it published |
| BundleQuarantine.InspectQuarantine | src/vmbackupd/bundle.py:1050-1136 | Evidence is read back exactly from complete single-device bundles |
| BundleQuarantine.EvidenceSurvivesTheMove | src/vmbackupd/bundle.py:1050-1136 | After the rename the same evidence is reconstructible, and accepted by a purge, exactly for single-device bundles |
| BundleQuarantine.TwoDeviceBundle | src/vmbackupd/bundle.py:309-353 | A concrete bundle that the inspector accepts and the purger's validator refuses |
| BundleQuarantine.SourcePresent | src/vmbackupd/bundle.py:955-1047 | The walk finds the source directory exactly when it is there, and absence only when it is absent |
| BundleQuarantine.PresenceTells | src/vmbackupd/bundle.py:1756-1812 | The two deterministic names tell a bundle that is still published from one that was moved aside |
| BundleQuarantine.RetireBundle | src/vmbackupd/reclaim_execution.py:421-524 | Whatever a crash left, the next attempt records exactly the evidence of the published bundle; it declines exactly a moved two-device bundle |
| ReclaimExecution.VerifyQuarantined | src/vmbackupd/reclaim_execution.py:563-619 | The inspection before each later step passes exactly for bundles on one device |
| ReclaimExecution.Retire | src/vmbackupd/reclaim_execution.py:364-528 | The evidence that is committed is that of the bundle; the step halts exactly for a moved bundle on two devices |
| ReclaimExecution.CommitQuarantined | src/vmbackupd/reclaim_execution.py:272-297 | QUARANTINED, CATALOG_REMOVED and the purge intents are committed one by one, each after an inspection |
| ReclaimExecution.PurgeBundle | src/vmbackupd/reclaim_execution.py:656-734 | A bundle whose purge intent is committed is purged, or was already, and is then recorded as purged |
| ReclaimExecution.Advance | src/vmbackupd/reclaim_execution.py:217-338 | Each stage does exactly its part of the work, and only bundles on two devices ever halt |
| ReclaimExecution.Reclaim | src/vmbackupd/reclaim_execution.py:217-338 | One process continues a reclaim from the journal and the tree, and either completes it or leaves exactly that much less work |
| ReclaimExecution.ReclaimAcrossCrashes | src/vmbackupd/reclaim_execution.py:125-338 | A reclaim completes under any succession of crashes exactly when the bundle is on one device and the processes together could do all calls and commits; a bundle on two devices is moved aside and stays |
| BundlePurge.UnlinkFiles | src/vmbackupd/bundle.py:1626-1710 | Files are removed one at a time; every file that is gone had passed the check, and what is left is a part of what was there |
| BundlePurge.PurgeChildDirectory | src/vmbackupd/bundle.py:1663-1723 | A child directory shrinks file by file and goes last, an interruption leaves it acceptable, and one with unexpected names is refused untouched |
| BundlePurge.PurgeRemainingTree | src/vmbackupd/bundle.py:1725-1754 | A partly removed tree stays acceptable and loses one entry per changing call |
| BundlePurge.Claim | src/vmbackupd/bundle.py:1866-2036 | The bundle is claimed by one rename, refused exactly when it does not match the evidence |
| BundlePurge.Finish | src/vmbackupd/bundle.py:2071-2115 | A claimed bundle is removed completely or stays claimed, and is never refused |
| BundlePurge.Purge | src/vmbackupd/bundle.py:1814-2132 | A purge is refused exactly when neither the waiting bundle nor its claimed remainder matches the evidence; otherwise it removes the bundle with exactly the remaining work, or leaves a state that the same call accepts, changing nothing but the two names and `.purging` |
| BundlePurge.PurgeObject | src/vmbackupd/bundle.py:1839-1857 | A purge names exactly the controlled quarantine path of its identity |
| BundlePurge.PurgeAcrossCrashes | src/vmbackupd/bundle.py:1814-2132 | From every state that crashes leave, repeating the purge ends with the bundle gone, exactly when the budgets add up to the remaining entries and renames |
| Catalogs.LineageIsUnique | src/vmbackupd/repository_v2.py:1993-2028 | Parent links lead to a FULL in at most one way |
| Catalogs.LineageHasNoCycle | src/vmbackupd/repository_v2.py:1993-2028 | A path of parent links to a FULL visits no point twice |
| Catalogs.ResolveLineage | src/vmbackupd/repository_v2.py:1993-2028 | For any catalog, even with circular links, a lineage is found exactly when the links reach an available FULL, with its chain and depth |
| Chains.DeletingKeepsOrder | src/vmbackupd/backup_catalog_v2.py:38-83 | Deleting any points, by any rule, keeps the shape of the catalog |
| Chains.LinkedWithoutLeaf | src/vmbackupd/local_backup_v2.py:96-102 | Deleting a point that no other continues orphans no incremental |
| Chains.CompleteHasLineage | src/vmbackupd/repository_v2.py:2030-2060 | The newest point of a complete chain has a lineage, whose chain and depth are the recorded ones |
| Chains.LineageMakesComplete | src/vmbackupd/repository_v2.py:2030-2060 | A lineage of the newest point makes its chain complete |
| Chains.CompleteIsNewest | src/vmbackupd/local_backup_v2.py:136-204 | The FULL behind the newest point, when its lineage is complete, is the newest FULL |
| Chains.FullsWithoutOldest | src/vmbackupd/local_backup_v2.py:112-121 | Deleting the oldest chain leaves exactly the other FULLs |
| Chains.OldestIsNotNewest | src/vmbackupd/local_backup_v2.py:112-121 | While a second FULL exists, deleting any part of the oldest chain leaves the newest complete chain alone |
| Retention.ListChain | src/vmbackupd/repository_v2.py:2090-2151 | The members of a chain are its descendants and the points with its ID, newest first and the FULL last |
| Retention.ListFulls | src/vmbackupd/repository_v2.py:2062-2088 | The candidates for reclaim are the FULLs, oldest first |
| Retention.LocalCatalog.DeletePoint | src/vmbackupd/backup_catalog_v2.py:38-83 | Deletion fails exactly for a missing point, a run not in SUCCESS, or a bundle that cannot be removed; the row outlives the directory, no other point becomes deletable or undeletable, and enough steps finish |
| Retention.LocalCatalog.RemoveTree | src/vmbackupd/backup_catalog_v2.py:70-73 | A directory shrinks entry by entry, down to where its removal raises |
| Retention.LocalCatalog.DeleteChain | src/vmbackupd/local_backup_v2.py:91-102 | A chain goes newest point first and stops at a point that cannot be deleted, exactly when there is one; at every end no incremental is orphaned, only this chain has lost points, and its FULL goes last |
| Retention.DeletableMeans | src/vmbackupd/local_backup_v2.py:112-134 | The chains that can be deleted one after the other are those before the first that holds a point that cannot |
| Retention.DeletableLater | src/vmbackupd/local_backup_v2.py:112-134 | Deleting chains that can be deleted leaves that many fewer, and blocks or frees no other |
| Retention.LocalCatalog.ReclaimForSpace | src/vmbackupd/local_backup_v2.py:104-122 | Oldest chains are deleted only while space is short, at least the minimum stay, and the newest complete chain is untouched at every crash; it fails exactly when it comes, still short, to a chain that cannot be deleted |
| Retention.LocalCatalog.EnforceRetention | src/vmbackupd/local_backup_v2.py:124-134 | With steps enough, exactly min(n, max(minimum, retain)) chains remain, the newest, if and only if every surplus chain can be deleted; otherwise the first that cannot stays with every newer one |
| BackupPlanning.LatestPoint | src/vmbackupd/repository_v2.py:2030-2060 | The latest point carries its recorded chain and depth, and has a lineage exactly when its chain is complete |
| BackupPlanning.PlanRun | src/vmbackupd/local_backup_v2.py:136-204 | The whole decision between FULL, incremental and each refusal, for every request |
| BackupPlanning.PlannedPointFits | src/vmbackupd/local_backup_v2.py:189-204 | A planned point still fits the catalog after space reclaim, and makes its chain complete |
| BackupPlanning.MakeRoom | src/vmbackupd/local_backup_v2.py:136-290 | The plan and the space reclaim: an incremental is planned exactly when none was ruled out and the newest chain can be continued, each refusal occurs exactly in its case, the parent of a planned incremental survives, and the run goes on only with space enough after exactly the chains that were needed |
| BackupPlanning.SecureSpace | src/vmbackupd/local_backup_v2.py:104-290 | The space is there after exactly the deletions that were needed, or the run ends: because the chain that would have to go next cannot be deleted, or because nothing more may go |
| BackupPlanning.RunPlanned | src/vmbackupd/local_backup_v2.py:136-451 | The point that is recorded is the planned one with the checkpoint of this backup, and only a backup that failed refuses the run |
| BackupPlanning.DeletableRecorded | src/vmbackupd/local_backup_v2.py:124-134 | A new FULL does not change which older chains can be deleted |
| BackupPlanning.RecordAndRetain | src/vmbackupd/local_backup_v2.py:437-451 | A catalogued FULL ends its run in FAILED exactly when its retention meets a chain that cannot be deleted |
| BackupPlanning.RunBackup | src/vmbackupd/local_backup_v2.py:136-451 | A run makes an incremental exactly when none was ruled out and the newest chain can be continued, and is refused for its kind exactly when that kind cannot be had; a point is recorded only when the space sufficed and the backup succeeded; a recorded incremental has the next sequence within the limit and a complete parent path, its parent survived the reclaim; a run that recorded a FULL deletes exactly the surplus, or ends in FAILED exactly when some surplus chain cannot be deleted |
| BackupPlanning.History | src/vmbackupd/local_backup_v2.py:58-134 | Over every history of runs, operator deletions and crashes the catalog keeps its shape, without operator deletions no incremental is ever orphaned, and a point whose run is not in SUCCESS stays for ever |
| BackupPlanning.StalledRetention | src/vmbackupd/local_backup_v2.py:124-134 | Once a chain holds a point whose run is not in SUCCESS, no run ever deletes its FULL or a newer one |
| BackupPlanning.FailedRunBlocksRetention | src/vmbackupd/backup_catalog_v2.py:46-47 | Two FULLs, the older of a FAILED run, and one to keep: retention fails and both stay |
| BackupPlanning.OnePassingError | src/vmbackupd/runtime_v2.py:107-121 | One removal that raises makes the run of the new FULL FAILED, which starts this |
| RestoreImages.OverlayIsUnique | src/vmbackupd/received_restore_v2.py:254-275 | There is one disk whose every cluster comes from the newest point that stores it |
| RestoreImages.MergedIsOverlay | src/vmbackupd/received_restore_v2.py:254-275 | The materialized content is that disk |
| RestoreImages.MergedReadsLikeTheChain | src/vmbackupd/received_restore_v2.py:254-275 | It equals reading through the whole backing chain |
| RestoreImages.Staging.AddLayer | src/vmbackupd/received_restore_v2.py:260-270 | Copy, rebase, convert and two removals replace the flat image by the next one and leave nothing else |
| RestoreImages.Staging.MaterializeDisk | src/vmbackupd/received_restore_v2.py:254-275 | The folder gains exactly the finished disk; no intermediate image remains |
| RestoreImages.Staging.MaterializeAll | src/vmbackupd/received_restore_v2.py:331-332 | The staging folder ends with exactly the finished disks, exactly when every image is there and the tools last |
| ReceivedRestore.ValidateChain | src/vmbackupd/received_restore_v2.py:82-121 | Exactly the unbroken chains from a FULL with matching metadata and one disk set are accepted |
| ReceivedRestore.BuildDisks | src/vmbackupd/received_restore_v2.py:331-332 | A chain is built into its restored folder exactly when it is valid, every image is there and the tools last |
| ReceivedRestore.RestoreOperation.Materialize | src/vmbackupd/received_restore_v2.py:328-345 | The target folder is absent or fully materialized in every state, and appears exactly when the disks can be built and the description fits; an existing staging folder prevents it, and an attempt that stops on the way leaves one |
| ReceivedRestore.RestoreOperation.Define | src/vmbackupd/received_restore_v2.py:349-363 | The domain is defined once, and the operation goes on only when it is visible and its observed UUID is the planned one |
| ReceivedRestore.RestoreOperation.Launch | src/vmbackupd/received_restore_v2.py:364-376 | STARTING is persisted before the one start, and no failed start ends in SUCCESS; says what each number of steps leaves |
| ReceivedRestore.RestoreOperation.Advance | src/vmbackupd/received_restore_v2.py:311-383 | With steps enough an operation succeeds exactly when nothing is in the way, and it fails only for a cause; a target appears only at a safe place for a free name, and a domain is defined only if also its description and the access to its files worked out |
| ReceivedRestore.RestoreOperation.RecoverStartup | src/vmbackupd/received_restore_v2.py:61-70 | A restart fails exactly the operations in unsafe states and leaves the others alone |
| ReceivedRestore.Run | src/vmbackupd/received_restore_v2.py:61-80 | Over every schedule of ticks, deaths and restarts: at most one define, of a permitted restore, and one start, a target absent or complete, and SUCCESS only if the observed UUID was the planned one |
| LibvirtExecution.BackupRun.Launch | src/vmbackupd/libvirt_execution.py:1487-1513 | Whenever the start call was made, even if the process then died, START_REQUESTED or its outcome is on record, unless the answer was a definite rejection; only the call starts a writer |
| LibvirtExecution.BackupRun.SecureSpace | src/vmbackupd/libvirt_execution.py:1084-1193 | A start goes on exactly with space enough and no reclaim that needs recovery; with steps enough the run waits in RECOVERING exactly for a reclaim that broke now or before |
| LibvirtExecution.BackupRun.Start | src/vmbackupd/libvirt_execution.py:1368-1513 | A start is refused, rejected, running, or ambiguous, and states exactly when it is which; an existing staging directory prevents a second call |
| LibvirtExecution.BackupRun.Quarantine | src/vmbackupd/libvirt_execution.py:2063-2071 | An outcome that may still be running becomes UNKNOWN and requires recovery |
| LibvirtExecution.BackupRun.ReconcileStartRequested | src/vmbackupd/libvirt_execution.py:1515-1532 | A requested start counts as running on an active identity match, with steps enough, and only then; anything else but an inspection that raises makes it UNKNOWN |
| LibvirtExecution.BackupRun.PollRunning | src/vmbackupd/libvirt_execution.py:1534-1585 | A run is accepted as completed exactly on a successful completed backup in an idle domain, with a recorded match or ownership in this step; says after which commits a death leaves which state |
| LibvirtExecution.BackupRun.AdvanceBackup | src/vmbackupd/libvirt_execution.py:874-889 | A failed start leads to cleanup only while no start was requested or it was rejected; with steps enough the outcome of every start, inspection and completion is determined |
| LibvirtExecution.BackupRun.AdvanceRun | src/vmbackupd/libvirt_execution.py:601-657 | With steps enough a step takes the run, its job and its mark exactly where the conditions that it meets say: from TRANSFERRING to VERIFYING, on to FINALIZING exactly after a passed verification, to SUCCESS exactly after the publication, and to recovery otherwise. Whenever the process dies, no step but the accepting poll enters TRANSFERRING, a begin is issued only once, the ownership token is consumed, and a step leaves the run stuck exactly when the process dies between two commits that belong together |
| LibvirtExecution.BackupRun.AdvanceCleanup | src/vmbackupd/libvirt_execution.py:1761-1828 | Staged files are removed only when no start was requested, it was rejected, or the domain is proved idle now; with steps enough a safe cleanup ends in FAILED and exactly an unsafe one is marked |
| LibvirtExecution.BackupRun.RecoveryFail | src/vmbackupd/application.py:2171-2264 | The operator can authorize cleanup exactly of a run that requires recovery and has not ended, on an idle domain |
| LibvirtExecution.BackupRun.ResumeRecovery | src/vmbackupd/libvirt_execution.py:1195-1219 | A run goes back to BACKING_UP, without its mark, only when this call itself recovers its reclaim; a death between the two leaves a run that it never moves again |
| LibvirtExecution.Step | src/vmbackupd/libvirt_execution.py:593-657 | An event leaves a run stuck exactly when the process dies between two commits that belong together or an operator resumes a run whose outcome is on record; only a tick that sees a successful completed backup, with a recorded match or ownership, takes a run past its transfer |
| LibvirtExecution.Run | src/vmbackupd/libvirt_execution.py:593-657 | Over every schedule of steps, crashes and operator decisions: at most one begin, an active writer always keeps its staging, no run past TRANSFERRING has an active writer, every such run has among the events the tick that saw it completed and the match or ownership that identified it, and a stuck run stays stuck |
| LibvirtExecution.Complete | src/vmbackupd/libvirt_execution.py:593-657 | A run whose job was begun and whose later steps work ends in SUCCESS, unmarked, if its job is seen active or completes under the process that started it |
| LibvirtExecution.HealthyRun | src/vmbackupd/libvirt_execution.py:593-657 | So does a new run, after one begin |
| LibvirtExecution.DiedAfterCompletion | src/vmbackupd/libvirt_execution.py:1569-1577 | A run that died after recording COMPLETED stays in BACKING_UP |
| LibvirtExecution.DiedInQuarantine | src/vmbackupd/libvirt_execution.py:2063-2071 | A run that died after recording UNKNOWN stays in BACKING_UP, with its job still writing |
| LibvirtExecution.ResumedTooLate | src/vmbackupd/application.py:2116-2151 | An operator who resumes an UNKNOWN run leaves it in BACKING_UP |
| LibvirtExecution.DiedAfterReclaimRecovery | src/vmbackupd/libvirt_execution.py:1195-1219 | A run that died after its reclaim was recovered stays in RECOVERING |
| LocalBackupRun.LocalRun.PrepareAndStart | src/vmbackupd/local_backup_v2.py:136-349 | The start needs the checks and the staging, a recorded request prevents any other, and with steps enough the answer of the call is on record |
| LocalBackupRun.LocalRun.Launch | src/vmbackupd/local_backup_v2.py:315-349 | The request is on record before the call and its answer after; any error of the call is recorded as a rejection, also when the job was started; says what each number of steps leaves |
| LocalBackupRun.LocalRun.Poll | src/vmbackupd/local_backup_v2.py:351-374 | Verification begins on completion evidence, an active job of this run changes nothing, and exactly everything else raises |
| LocalBackupRun.LocalRun.CheckDisks | src/vmbackupd/local_backup_v2.py:376-402 | The disks pass exactly when each is the prepared file with an image of the planned size |
| LocalBackupRun.LocalRun.VerifyAndPublish | src/vmbackupd/local_backup_v2.py:376-451 | A point is catalogued only after every disk matched; with steps enough the run ends in SUCCESS exactly when everything is in order |
| LocalBackupRun.LocalRun.Publish | src/vmbackupd/local_backup_v2.py:424-451 | FINALIZING is persisted before the one publication, and this before SUCCESS; says what each number of steps leaves |
| LocalBackupRun.LocalRun.Fail | src/vmbackupd/runtime_v2.py:107-121 | A run that fails is marked for recovery exactly when its recorded phase is START_REQUESTED or RUNNING |
| LocalBackupRun.LocalRun.Tick | src/vmbackupd/runtime_v2.py:97-124 | With steps enough a tick takes the run to the state that follows if everything is in order there, in BACKING_UP a job that is active or completed, and otherwise to FAILED; it takes the job for completed only on completion evidence of its own, and publishes and catalogues only verified disks that match; a start call that raised leaves a FAILED run without a mark |
| LocalBackupRun.Run | src/vmbackupd/local_backup_v2.py:58-72 | Over every schedule of ticks, crashes, reschedulings and job endings: one begin, one publication, never under an active writer and never without a tick among the events that saw the job completed; what was catalogued stays; a FAILED run with an active writer carries the recovery mark exactly when its start was not recorded as rejected |
| LocalBackupRun.HealthyRun | src/vmbackupd/local_backup_v2.py:58-72 | A new run whose ticks find everything in order, however many of them see its job active, ends in SUCCESS, unmarked, after one begin and one publication, with its verified disks catalogued |
| LocalBackupRun.UnmarkedWriter | src/vmbackupd/local_backup_v2.py:331-343 | A start call that timed out after the job was accepted leaves a FAILED run without a mark while the job writes |
| BundleSpellings.PublishedIsNormal | src/vmbackupd/bundle.py:396-433 | A canonical path is its own spelling |
| BundleSpellings.AnotherSpelling | src/vmbackupd/bundle.py:309-312 | Every canonical path has other spellings, which name the same path |
| Capacity.DuplicateBundles | src/vmbackupd/capacity.py:54-66 | Exactly the texts that more than one point gives as its bundle |
| Capacity.ClosedChainProblem | src/vmbackupd/capacity.py:121-152 | Exactly the linear chains whose bundles are their own pass |
| Capacity.Measure | src/vmbackupd/capacity.py:88-104 | The loop's sum is the bytes of a set of bundles; it raises exactly at a link that comes before any bundle that cannot be inspected |
| Capacity.Collect | src/vmbackupd/capacity.py:35-118 | Bytes are reported exactly for closed linear chains with unshared, inspectable bundles; ambiguous input, or a link before a bundle that is inspected, ends the collection |
| Capacity.BytesAreCountedOnce | src/vmbackupd/capacity.py:35-118 | The reported bytes of all chains together are those of a set of bundle IDs, each counted once |
| Capacity.CountedBundlesAreSeparate | src/vmbackupd/capacity.py:35-118 | The counted IDs name separate directories of the tree, none below another, the same one only under two spellings, each counted with the bytes that its files allocate |
| Capacity.DirectoriesCounted | src/vmbackupd/capacity.py:54-97 | The bytes of a set of IDs are at least those of their directories, and equal exactly when no directory with bytes has two of them |
| Capacity.DirectoriesAreCountedOnce | src/vmbackupd/capacity.py:35-118 | What all chains report together is what the counted directories allocate if and only if none with bytes is counted under two spellings, and never less |
| Capacity.PrintedIsSpeltOnce | src/vmbackupd/bundle.py:52-128 | IDs as publication writes them meet this condition |
| Capacity.CountedTwice | src/vmbackupd/capacity.py:54-97 | Any inspectable bundle, referred to by two chains in two spellings, is reported in full by both |
| Capacity.LinkEndsCollection | src/vmbackupd/capacity.py:88-104 | A link in place of the directory of all bundles ends the collection of a correct catalog |
| ReclaimJournal.Migrate7To8 | docs/schema_v1_legacy.py:1976-2047 | A journal that may be in the middle of a purge is refused; any other keeps every row |
| ReclaimJournal.OperationKeysAre | docs/schema_v1_legacy.py:136-164 | The operations have as many IDs, and as many pairs of run and purpose, as rows |
| ReclaimJournal.ChainKeysAre | docs/schema_v1_legacy.py:166-173 | The chains of an operation have distinct IDs and positions |
| ReclaimJournal.FirstKeysAre | docs/schema_v1_legacy.py:175-190 | Up to version 18 the bundles of an operation have distinct restore points and distinct sources |
| ReclaimJournal.SecondKeysAre | docs/schema_v1_legacy.py:2521-2530 | In version 19 their sources are distinct |
| ReclaimJournal.ThirdKeysAre | docs/schema_v1_legacy.py:2606-2610 | From version 20 on their pairs of destination and source are |
| ReclaimJournal.Migrate17To18 | docs/schema_v1_legacy.py:2359-2481 | Every operation, chain and bundle survives once; an operation becomes one for capacity and keeps every other column, but for the error and the recovery state of a completed one |
| ReclaimJournal.Migrate18To19 | docs/schema_v1_legacy.py:2485-2568 | The wider key keeps every bundle |
| ReclaimJournal.JoinRow | docs/schema_v1_legacy.py:2617-2646 | The join yields each bundle exactly once |
| ReclaimJournal.Migrate19To20 | docs/schema_v1_legacy.py:2573-2664 | Every bundle gains its operation's destination, and none is dropped or doubled |
| ReclaimJournal.BundleKeysWiden | docs/schema_v1_legacy.py:2485-2664 | The old keys imply each new primary key, so no insert can conflict |
| ReclaimJournal.Upgrade | docs/schema_v1_legacy.py:2359-2664 | From every journal that satisfies the keys and references of version 17 the rebuilds succeed; each operation keeps every column, but gains the capacity purpose and, when completed, loses its error and recovery state; chains and bundles are conserved |
| ReclaimJournal.UpgradeConservesBytes | docs/schema_v1_legacy.py:2359-2664 | Chain sums still equal each operation's expected total, and bundle sums are unchanged |
| SchemaMigration.Connection.MigrateVersion | docs/schema_v1_legacy.py:2860-2894 | A step commits its data with its version, after the check before a commit, or nothing |
| SchemaMigration.DriverCoheres | docs/schema_v1_legacy.py:2846-2881 | The two tables of checks, on entry and before a commit, hold the same check for each of the versions one to six and none for any other, so that what a step commits is let in again |
| SchemaMigration.DriverResumes | docs/schema_v1_legacy.py:2742-2896 | With these tables every migration can be resumed after any of its commits |
| SchemaMigration.Connection.MigrateVersions | docs/schema_v1_legacy.py:2858-2894 | The loop leaves the content that an uninterrupted climb has after as many commits, with the same end |
| SchemaMigration.Connection.AdoptVersionOne | docs/schema_v1_legacy.py:2764-2815 | An older or version-one database is adopted without changing its target |
| SchemaMigration.Connection.EnsureCurrentSchema | docs/schema_v1_legacy.py:2742-2896 | Creation, adoption and migration reach the target of an uninterrupted run, or refuse exactly the databases that have none |
| SchemaMigration.EnsureAcrossCrashes | docs/schema_v1_legacy.py:2742-2896 | Crashing anywhere and rerunning ends in the same database, exactly when the runs together commit every step, if every version on the way is let in again |
| SchemaMigration.CrashIntoRefusal | docs/schema_v1_legacy.py:2841-2896 | If some version on the way is not let in again, a crash right after its commit leaves a database that every later run refuses |

## Left out

- FULL and incremental texts: the parser accepts the Unicode digits that `str.isdigit` accepts; the model reads ASCII digits only.
- Calendar ranges: years outside 1000 to 9999, the limits of the datetime type, zone offsets that are not whole minutes, transitions closer than two days apart or shifts of more than a day.
- Stamps in bundle names with unpadded fields: the code parses some and then refuses them because they do not print back; the model refuses them when parsing.
- Float rounding of interval lengths and percentages.
- Durability of directory entries: an fsync is taken to succeed, and a completed call to be durable.
- Other processes that change the backup root between a check and its use, and symbolic links above the root.
- Mount points inside a bundle (a busy directory cannot be renamed or removed).
- The roll-back branches that run when a directory entry changed identity during the call itself.
- Retention.ListChain: models the query on catalogs that the code itself wrote; sequence numbers that older versions wrote wrongly are not modelled.
- Retention.LocalCatalog.DeletePoint: the steps that a deletion takes are an upper bound, since a point without remote copies needs no mark; points that are not AVAILABLE or not on local storage are not modelled.
- Retention.LocalCatalog.DeleteChain: a FULL without a chain ID, which the code deletes alone.
- Points created within the same clock tick, whose order is by ID.
- BackupPlanning.RunBackup: two runs of one job, or an operator deletion during a run, are not interleaved; a run is taken to leave SUCCESS only by an error of its own retention.
- BackupPlanning.PlanRun: the refusal of unknown request texts.
- Capacity.Collect: the order in which facts are reported, and other spellings of the backup root itself, which would act like those of the path below it.
- RestoreImages: clusters that qemu-img rewrites as holes, image formats, and disk names that collide with the names of intermediate images.
- ReceivedRestore.ValidateChain: a FULL in the middle of a chain is not rejected by the code, and so not by the model.
- Resolution of the restore target inside registered storage, and the rewriting of the domain description.
- LibvirtExecution.BackupRun.Start: a start command that outlives the daemon and takes effect later is not modelled; a reclaim that requires recovery yields no start decision; the commits that prepare the staged files are a number of steps.
- LibvirtExecution.BackupRun.ResumeRecovery: the transition back is taken to clear the recovery mark, as tests/test_runtime_hardening.py:392-428 show for the same transition.
- LocalBackupRun.LocalRun.Poll: an inspection that reports no job while the job writes.
- LibvirtExecution.BackupRun.AdvanceFinish: the checks of the staged files are one outcome.
- ReclaimExecution.Advance: operations of several bundles, bundles on remote storage, the checks of the repository at each commit, and the commit that asks for recovery after a halt.
- ReclaimJournal: SQLite's own renaming of foreign keys, column fingerprints and trigger texts.
- SchemaMigration.Connection.EnsureCurrentSchema: two processes that migrate at once.
- Cockpit, the command line, configuration, SSH transport and receivers, replica transfer.
