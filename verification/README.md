# Verified model of the HeteroCloud Flash control plane

This project models the parts of the Flash control plane whose guarantees span whole runs, whole lists or exact
arithmetic, and proves them in Dafny. `dafny verify dfyconfig.toml` checks everything.

Kubernetes is modelled as a map from names to a resourceVersion and a value. A write that carries a stale version
fails, and a version is never reused. The clock never goes back. An S3 bucket is a map, and an operation on it may stop
after any PUT or DELETE. A run is a list of events, and a run theorem holds for every list.

- **GPU leases** (`GpuTypes`, `GpuProtocol`, `GpuAttempts`, `GpuCounterexamples`, `GpuChoice`, `GpuFairness`). Any number
  of scheduler replicas read jobs and devices and write them back. Each event is one API call of one replica, a clock
  tick, a crash or an outside change.
- **Backup destination lock** (`BackupLock`, `BackupController`, `BackupProtocol`, `BackupRefinement`, `BackupGuarantees`,
  `BackupHistory`). One controller loop moves the lock annotation and the target of a volume. `BackupProtocol` makes one
  API call at a time, and before every call snapshots become ready or go, claims are replaced by new or restored ones,
  the destinations flag is switched or the controller restarts. `BackupLock` is a reconciliation as a whole, `BackupController` the same on
  mutable fields, and `BackupRefinement` shows that uninterrupted calls add up to it.
- **Offsite store** (`Offsite`, `OffsiteWorker`, `ExportLease`). Copy, prune and restore of a content-addressed bucket,
  and the lease that serializes exporters. `OffsiteWorker` sends the requests one by one and may lose the connection.
- **Capacity admission** (`CapacityRequests`, `CapacityNode`, `CapacityStorage`, `CapacityLedger`). What a Pod needs, which
  node or storage nodes can take it, and the compare-and-swap ledger shared by webhook replicas.
- **CIDR policies** (`Cidr`, `CidrAggregate`, `CidrPolicy`). Prefixes are those of section 3.1 of RFC 4632 and section 2.3
  of RFC 4291. The aggregate operation of the address library is given a definition of its own, a binary trie.
- **Metering and disks** (`Metering`, `WeeklyTotals`, `Storage`, `Quantity`). Weekly meters, quota totals, the split of a
  disk budget, and the parser of storage quantities. Saturation and 64-bit and 128-bit limits are written out.

`Wrappers` and `Orderings` hold shared types, a lexicographic order and a stable sort.

## Where the code falls short of its promise

- A renewal re-reads the device without looking at its holder again, so it can overwrite another job's live lease.
  `StaleRenewalClobbers` is such a run, `RenewalClobbersIff` is the exact condition, and `RunNeverClobbers` covers every
  run whose renewals find the device their own or unleased.
- Replicas that reserve from the same job version may be given the same device. In every run this takes a lapsed lease, an
  accepted release or give-back, or a deletion of the device in between (`SecondGrantFollowsLoss`). Each of these happens
  (`GrantedTwiceAfterLapse`, `GrantedTwiceAfterRelease`, `GrantedTwiceAfterDeletion`). The release is the granted job's
  own where renewals re-check the holder (`SecondGrantFollowsOwnLoss`), and otherwise may be another job's
  (`GrantedTwiceAfterForeignRelease`).
- A release compares only the job, so a give-back clears a published device exactly when the job's assignment names it by
  then (`GiveBackUnpublishesIff`). This happens to a loser that outlived its lease
  (`LapsedAttemptClearsPublishedDevice`), and to a winner that lost the answer to its patch
  (`LostAnswerClearsPublishedDevice`).
- A snapshot names its claim, so one whose claim is replaced between the check of its uid and its creation reads the new
  disk and goes where that points. `TakingMissesIff` is the exact condition. A tenant's backup may so end up on the
  default target (`ReplacedClaimMissesTenant`), and a backup for the default target with a tenant
  (`RestoredClaimDivertsToTenant`). Apart from that every transfer goes as asked (`RunSendsTransfersAsAskedIff`), and none
  is redirected once it has begun (`StepNeverRedirects`).
- A storage update that stops between the claim and the Deployment can leave the disk over its last budget.
  `BudgetLeftIff` and `RunWithinBudgetIff` are the exact conditions, and `InterruptedGrowthExceedsBudget` is such a run.

## Model

| member | source | states |
|---|---|---|
| `GpuProtocol.ActivityKept` | src/gpu_scheduler.rs:264-425 | whatever other replicas and administrators do, what a replica has read stays either current or recognizably stale |
| `GpuProtocol.StepPreservesFenced` | src/gpu_scheduler.rs:264-714 | every API call, crash and outside change keeps the fencing invariant: equal versions mean equal contents |
| `GpuProtocol.RunFenced` | src/gpu_scheduler.rs:264-714 | the fencing invariant holds after every run |
| `GpuProtocol.RenewalClobbersIff` | src/gpu_scheduler.rs:575-586 | an accepted renewal overwrites somebody's live lease exactly when the device it re-read is leased to another job |
| `GpuProtocol.AtomicRenewalIsOwn` | src/gpu_scheduler.rs:549-586 | validating and renewing one and the same device version always renews the own lease |
| `GpuProtocol.StepNeverClobbers` | src/gpu_scheduler.rs:512-660 | no reserve, release, give-back, reclaim, health refresh or renewal that re-checks the holder replaces or clears another job's unexpired reservation |
| `GpuProtocol.RunNeverClobbers` | src/gpu_scheduler.rs:383-660 | the same at every step of every run from the empty system whose accepted renewals find the device their own or unleased |
| `GpuAttempts.LeakFreeByStep` | src/gpu_scheduler.rs:389-425 | a step that reserves nothing new and forgets nothing still reserved keeps every reservation accounted for |
| `GpuAttempts.RunLeakFree` | src/gpu_scheduler.rs:389-425 | in every run whose accepted renewals are of the own lease, each reserved device is published by its job or held by an attempt that has not finished or was abandoned |
| `GpuAttempts.SettledJobHoldsOnlyItsPublishedDevice` | src/gpu_scheduler.rs:389-421 | once every attempt of a job has published or given back, the only device reserved for it is the published one |
| `GpuAttempts.RunPatchesEachVersionOnce` | src/gpu_scheduler.rs:448-475 | of all replicas that worked from one version of a job, at most one publishes |
| `GpuAttempts.StepKeepsReservation` | src/gpu_scheduler.rs:512-547 | while a lease is unexpired no step that re-checks the holder and is not its own job's changes the reservation or grants the device |
| `GpuAttempts.ReservationStands` | src/gpu_scheduler.rs:512-660 | over any run whose accepted renewals find the device their own or unleased, until the lease runs out or an accepted call of its own job touches it, the reservation is unchanged and no attempt is granted the device |
| `GpuAttempts.HolderStands` | src/gpu_scheduler.rs:512-660 | in every run whose accepted renewals find the device their own or unleased, a job that was granted a device holds its lease for as long as it neither lapses nor is given up by that job nor the device is deleted |
| `GpuAttempts.SecondGrantFollowsOwnLoss` | src/gpu_scheduler.rs:116-124 | in those runs only the job that was granted the device can be the one that let it go before the second grant |
| `GpuAttempts.SecondGrantFollowsLoss` | src/gpu_scheduler.rs:116-124 | in every run, whatever renewals do, a device is granted a second time only if in between a lease on it ran out, some job's release or give-back of it was accepted, or it was deleted |
| `GpuAttempts.GiveBackUnpublishesIff` | src/gpu_scheduler.rs:603-635 | an accepted give-back leaves a published device unreserved exactly when the job's current assignment names that device |
| `GpuAttempts.RunLeasesShort` | src/gpu_scheduler.rs:512-547 | at every moment of every run each lease ends within ninety seconds |
| `GpuAttempts.AbandonedReservationLapses` | src/gpu_scheduler.rs:512-547 | a reservation that a crashed attempt left behind and nobody renews has lapsed ninety seconds later |
| `GpuCounterexamples.StaleRenewalClobbers` | src/gpu_scheduler.rs:575-586 | a run after which a renewal overwrites another job's live lease |
| `GpuCounterexamples.LapsedAttemptClearsPublishedDevice` | src/gpu_scheduler.rs:389-421 | a run after which the losing attempt has cleared the device that the winner published |
| `GpuCounterexamples.LostAnswerClearsPublishedDevice` | src/gpu_scheduler.rs:395-413 | a run at one instant in which an attempt gives back the device it has published, because the answer to its patch was lost |
| `GpuCounterexamples.GrantedTwiceAfterLapse` | src/gpu_scheduler.rs:116-124 | a run that grants one device twice from one job version because the lease ran out |
| `GpuCounterexamples.GrantedTwiceAfterRelease` | src/gpu_scheduler.rs:603-635 | a run that does so at one instant, because the job's own release came between |
| `GpuCounterexamples.GrantedTwiceAfterDeletion` | src/gpu_scheduler.rs:383-389 | a run that does so at one instant, because the device was deleted and added again |
| `GpuCounterexamples.GrantedTwiceAfterForeignRelease` | src/gpu_scheduler.rs:575-635 | a run that grants one device twice from one job version although that job's lease did not run out, it gave nothing up and the device stayed: a stale renewal made it another job's, which released it |
| `GpuChoice.CandidatesExact` | src/gpu_scheduler.rs:126-155 | the candidates are exactly the visible, free, healthy devices of the right type, least recently allocated first |
| `GpuChoice.LastServed` | src/gpu_scheduler.rs:204-226 | the result is attained by some device that served the principal and bounds all of them |
| `GpuChoice.PendingSchedulable` | src/gpu_scheduler.rs:183-187 | keeps exactly the pending jobs that some device can serve |
| `GpuChoice.FirstPerPrincipal` | src/gpu_scheduler.rs:188-195 | keeps one job per principal and drops only jobs that a kept one of the same principal precedes in the queue |
| `GpuChoice.NextSchedulableJob` | src/gpu_scheduler.rs:178-202 | sort, keep one per principal and sort again equals the single minimum over all schedulable jobs; none is returned only if there is none |
| `GpuChoice.ListingOrderIsIrrelevant` | src/gpu_scheduler.rs:169-226 | the choice is the same for every order of jobs and devices |
| `GpuChoice.LaterServedOrganizationWaits` | src/gpu_scheduler.rs:178-226 | an organization served later than another is not chosen while the other has a schedulable job |
| `GpuFairness.GrantCountsAsService` | src/gpu_scheduler.rs:512-547 | a reservation makes its organization and subject count as served at that time or later |
| `GpuFairness.GrantLeavesOthers` | src/gpu_scheduler.rs:512-547 | a reservation never makes another organization look more recently served |
| `GpuFairness.ServedOrganizationYields` | src/gpu_scheduler.rs:178-226 | an organization just given a device is not chosen again while one not served since has a schedulable job |
| `BackupProtocol.ReadStage` | src/backups.rs:697-825 | whatever a call reads, the next stage of the reconciliation is justified by it |
| `BackupProtocol.LockKeepsSound` | src/backups.rs:788-825 | taking the lock of a volume, with no other unfinished snapshot of its claim listed, keeps every transfer from its backup's own disk on the asked target |
| `BackupProtocol.UnlockKeepsSound` | src/backups.rs:697-722 | so does releasing a lock whose holder's transfer is over |
| `BackupProtocol.TakeKeepsSound` | src/backups.rs:915-929 | a new transfer that finds its backup's disk goes where the backup asked, and one that finds another disk finds it unlocked |
| `BackupProtocol.SoundEvolves` | src/backups.rs:697-973 | no change made by others between two calls, including claims restored onto any target, takes a transfer off the asked target |
| `BackupProtocol.StageEvolves` | src/backups.rs:827-973 | no change made by others between two calls invalidates what the controller has established |
| `BackupProtocol.StepKeepsInvariant` | src/backups.rs:827-1006 | every call, crash and outside change keeps the invariant |
| `BackupProtocol.RunStaysOnCourse` | src/backups.rs:697-1006 | in every run, with events between any two calls, every transfer in flight from its backup's own disk goes where the backup asked |
| `BackupGuarantees.RunSendsTransfersAsAskedIff` | src/backups.rs:697-1006 | in every run a transfer in flight goes where its backup asked exactly when, as its snapshot was created, the claim's name was not held by another disk that pointed elsewhere |
| `BackupGuarantees.TransferWasTaken` | src/backups.rs:915-929 | every transfer in flight was started by a creation of its snapshot since which it has been in flight |
| `BackupGuarantees.StepNeverRedirects` | src/backups.rs:697-973 | no step of any kind changes the disk or the target of a transfer that stays in flight |
| `BackupGuarantees.TakingMissesIff` | src/backups.rs:915-929 | a new transfer misses its target exactly when the claim was replaced since it was verified and the disk that has its name now points elsewhere |
| `BackupGuarantees.ReplacedClaimDecides` | src/backups.rs:915-929 | replacing the claim at that point, in any state, sends the transfer where the new disk points, whichever target the backup asked for |
| `BackupGuarantees.ReplacedClaimMissesTenant` | src/backups.rs:915-929 | a run from the empty cluster that sends a tenant's backup to the default target |
| `BackupGuarantees.RestoredClaimDivertsToTenant` | src/backups.rs:588-618 | a run from the empty cluster that sends a backup for the default target to a tenant, because its claim was replaced by one restored from there |
| `BackupGuarantees.RunningTransferKeepsLock` | src/backups.rs:697-825 | a transfer that holds the lock keeps it until its snapshot is ready or gone, whatever is called in between |
| `BackupHistory.StepKeepsOrdered` | src/backups.rs:827-1006 | every step keeps the history in order: an error with a snapshot is final, and a tenant backup holds its lock until it is finished |
| `BackupHistory.RunNeverRetakes` | src/backups.rs:895-914 | in every run, with events between any two calls, a finished backup whose snapshot is lost is never taken again |
| `BackupRefinement.ReconcileFinishes` | src/backups.rs:827-1006 | the calls of a reconciliation, when nothing comes between them, do exactly what the reconciliation as a whole does |
| `BackupRefinement.ReconcileKeepsInvariant` | src/backups.rs:827-973 | one whole reconciliation keeps every transfer in flight from its backup's own disk on the asked target |
| `BackupRefinement.PassKeepsInvariant` | src/backups.rs:975-1006 | so does one pass over any listing |
| `BackupController.Controller.ReleaseTargetLock` | src/backups.rs:697-724 | the in-place release has the specified effect and answer |
| `BackupController.Controller.AcquireTargetLock` | src/backups.rs:726-825 | the in-place acquire has the specified effect and answer |
| `BackupController.Controller.ReconcileDeletion` | src/backups.rs:827-973 | the deletion path has the specified effect and answer |
| `BackupController.Controller.TakeAndReport` | src/backups.rs:827-973 | the snapshot path has the specified effect and answer |
| `BackupController.Controller.ReconcileOne` | src/backups.rs:827-973 | one reconciliation has the specified effect and answer |
| `BackupController.Controller.ReconcileListed` | src/backups.rs:975-1006 | a lasting failure is recorded as phase error, as specified |
| `BackupController.Controller.RunPass` | src/backups.rs:975-1006 | one pass over any listing is the fold of its reconciliations and keeps every transfer in flight from its backup's own disk on the asked target |
| `Offsite.CopyItemsOk` | ops/offsite.py:155-185 | along a copy every record is backed by stored content and the requests sent give the objects the copy sees |
| `Offsite.CopyKeepsComplete` | ops/offsite.py:155-185 | however many requests of a copy get through, every catalog present is complete |
| `Offsite.CatalogPhaseLeavesRetained` | ops/offsite.py:214-246 | after the catalog phase exactly the retained catalogs are left, unchanged |
| `Offsite.TwoPhaseDeletesKeepComplete` | ops/offsite.py:214-246 | deleting catalogs first and then only objects no remaining catalog lists keeps every catalog complete at every prefix |
| `Offsite.PruneKeepsComplete` | ops/offsite.py:214-246 | however many requests of a prune get through, and whatever it read of each lease, every catalog present is complete |
| `Offsite.ExecutionIsAPrefix` | ops/offsite.py:155-246 | an operation interleaved with lease requests of restores leaves the objects and catalogs of a prefix of its plan |
| `Offsite.OperationKeepsComplete` | ops/offsite.py:155-246 | an interrupted copy or prune, with restores interleaved also while it reads the leases, keeps every catalog complete |
| `Offsite.RunKeepsCatalogsComplete` | ops/offsite.py:155-246 | from an empty store, after every request of every sequence of such operations, every catalog is complete |
| `Offsite.PruneSparesNewestAndLeased` | ops/offsite.py:214-246 | a pruned catalog is outnumbered by `keep` newer ones, and no lease that was read as unexpired names it |
| `Offsite.OrderIsExact` | ops/offsite.py:214-246 | the prune order is by age and loses and repeats no catalog |
| `Offsite.RestoreGeneration` | ops/offsite.py:188-211 | a restore succeeds exactly on an empty bucket with every object readable, and then holds what was read |
| `Offsite.CopyRecordsItems` | ops/offsite.py:155-185 | a successful copy records every source object, in order, with its size and digest |
| `Offsite.ReadableMeansSameBodies` | ops/offsite.py:188-211 | objects that pass the restore's checks have the contents that were copied |
| `Offsite.RestoreReproducesSource` | ops/offsite.py:155-246 | a committed catalog restores to exactly the source at copy time, from any reachable stores that still hold it |
| `OffsiteWorker.Bucket.Send` | ops/offsite.py:76-115 | a request takes effect exactly when the connection still holds |
| `OffsiteWorker.Bucket.CopyGeneration` | ops/offsite.py:155-185 | what the copy loop sends is the plan cut off where the connection ends, and it commits exactly when all of it got through |
| `OffsiteWorker.Bucket.CopyObject` | ops/offsite.py:160-182 | one object is checked, uploaded if new, and verified as specified |
| `OffsiteWorker.Bucket.PruneCatalogs` | ops/offsite.py:214-246 | what the prune loops send is the plan cut off where the connection ends |
| `OffsiteWorker.Bucket.ExpireLeases` | ops/offsite.py:214-246 | expired leases are deleted in listing order and the others collected |
| `OffsiteWorker.Bucket.RetainCatalogs` | ops/offsite.py:214-246 | unretained catalogs are deleted newest first, and the digests of the retained ones are collected |
| `OffsiteWorker.Bucket.VisitNewestFirst` | ops/offsite.py:214-246 | the same for one given order |
| `OffsiteWorker.Bucket.CollectObjects` | ops/offsite.py:214-246 | objects past their grace time that no retained catalog lists are deleted |
| `ExportLease.StepKeepsInvariant` | ops/offsite.py:277-289 | every read, check, stamp and fenced write keeps a live renewal's lease in place |
| `ExportLease.RunKeepsInvariant` | ops/offsite.py:277-324 | the invariant holds after every interleaving |
| `ExportLease.AtMostOneExporter` | ops/offsite.py:277-324 | at any instant at most one identity has an accepted, unreleased renewal less than 180 seconds old |
| `CapacityRequests.ComputeRequests` | ops/capacity.py:109-127 | per resource the result less overhead is the peak of the startup timeline, reached and never exceeded, for exactly the resources mentioned |
| `CapacityRequests.SumContainers` | ops/capacity.py:112-114 | the regular containers' requests are added up per resource |
| `CapacityRequests.ScanInits` | ops/capacity.py:115-122 | the init pass yields the peak of the init stages and the sum of the sidecars |
| `CapacityNode.SelectNode` | ops/capacity.py:194-266 | the loop over the nodes computes the specified choice or refusal |
| `CapacityNode.BestIsGreatest` | ops/capacity.py:255-262 | no node that fits ranks above the choice, and a refusal means that none fits |
| `CapacityNode.BestFits` | ops/capacity.py:199-262 | the choice is the verdict of one of the nodes |
| `CapacityNode.AdmissionKeepsCompute` | ops/capacity.py:204-217 | adding an admitted reservation keeps every resource within allocatable |
| `CapacityNode.AdmissionKeepsDisk` | ops/capacity.py:183-266 | after an admission both filesystems keep their floor with everything promised taken away |
| `CapacityNode.AdmissionKeepsPods` | ops/capacity.py:218-220 | after an admission bound plus pending Pods are within the node's limit |
| `CapacityNode.FitsIff` | ops/capacity.py:183-255 | a node takes a Pod exactly when it is eligible, images and metrics are in order, and the ledger with the reservation added keeps every budget asked of it |
| `CapacityStorage.FindSlot` | ops/capacity.py:408-426 | the disk loop yields the node's first fitting disk, if any |
| `CapacityStorage.GrantStorage` | ops/capacity.py:374-440 | the loop over the storage nodes computes the specified grant or refusal |
| `CapacityStorage.SlotsExact` | ops/capacity.py:406-426 | the eligible entries are exactly those of the nodes with a fitting disk |
| `CapacityStorage.TopIsGreatest` | ops/capacity.py:427 | no eligible node that is passed over has more spare space than one that is taken |
| `CapacityStorage.GrantIsReplicated` | ops/capacity.py:374-440 | a grant names distinct nodes, all or one fewer than desired, never one where two are desired, each with room for the growth |
| `CapacityLedger.PruneLedger` | ops/capacity.py:354-372 | the prune loop keeps exactly the reservations that have not expired |
| `CapacityLedger.PrunedKeeps` | ops/capacity.py:354-372 | a reservation survives pruning exactly when its own rule does not apply |
| `CapacityLedger.DecisionSafe` | ops/capacity.py:442-478 | deciding on a safe ledger and writing the result gives a safe ledger |
| `CapacityLedger.StepSafe` | ops/capacity.py:442-478 | every read, decision, fenced write and abandoned attempt keeps the ledger safe |
| `CapacityLedger.RunSafe` | ops/capacity.py:354-478 | for any interleaving of replicas: compute and Pod count within allocatable, disk floors kept on nodes that admitted, storage floors kept on charged nodes |
| `CapacityLedger.RunKeepsOnePerRequest` | ops/capacity.py:442-478 | the ledger never holds two reservations for one identity |
| `CapacityLedger.StepKeepsAdmission` | ops/capacity.py:442-478 | a step removes a reservation only if it read it as expired or re-evaluates its own request |
| `CapacityLedger.RunKeepsAdmission` | ops/capacity.py:442-478 | over any run no admission is lost otherwise, however many replicas write |
| `CapacityLedger.RepeatIsAnswered` | ops/capacity.py:447-451 | repeating a request that was just admitted is answered from the ledger and changes nothing |
| `Cidr.ContainmentIsRangeInclusion` | src/domain.rs:543-545 | prefix containment is inclusion of first and last address |
| `Cidr.OverlapIffSharedAddress` | src/domain.rs:543-545 | two networks overlap exactly when they share an address |
| `Cidr.DifferenceExact` | src/domain.rs:804-826 | subtraction leaves exactly the allowed addresses outside the denied network, in disjoint parts, as many as the prefix lengths differ |
| `Cidr.SubtractNetwork` | src/domain.rs:804-826 | the recursion terminates, appends the difference, and never reports "cannot be subdivided" for valid networks |
| `CidrAggregate.InsertExact` | src/domain.rs:701-728 | inserting a prefix adds exactly its addresses and keeps the trie merged |
| `CidrAggregate.AggregateExact` | src/domain.rs:701-728 | aggregation keeps the union, yields disjoint networks and never lengthens the list |
| `CidrAggregate.AggregateIsCanonical` | src/domain.rs:701-728 | the aggregate depends only on which addresses are covered |
| `CidrAggregate.NormalFormIsUnique` | src/domain.rs:701-728 | two merged tries with the same addresses are equal |
| `CidrPolicy.BitsReadBack` | src/domain.rs:28-46 | the constants' bits are the binary expansion of their numbers |
| `CidrPolicy.SubtractedExact` | src/domain.rs:701-728 | subtracting one denial from a whole list removes exactly its addresses |
| `CidrPolicy.EffectiveIsExact` | src/domain.rs:701-728 | the effective sources are exactly the allowed addresses that no denial covers |
| `CidrPolicy.SubtractFromAll` | src/domain.rs:716-724 | the loop computes the subtraction, or fails exactly when it lists more than 4096 networks |
| `CidrPolicy.DenyAll` | src/domain.rs:715-727 | all denials are applied in turn, failing exactly when one of them expands too far |
| `CidrPolicy.EffectiveSourceNetworks` | src/domain.rs:701-728 | success means exactness, and failure happens exactly when the policy expands too far |
| `CidrPolicy.IpBlocks` | src/domain.rs:547-562 | the blocks admit exactly the roots outside the denials, with every exception strictly inside its block |
| `CidrPolicy.PublicSourceIpBlocks` | src/domain.rs:730-742 | the Pod firewall admits the allow list, or the public roots, outside the denials and the protected networks |
| `CidrPolicy.FirewallMatchesLoadBalancer` | src/domain.rs:701-742 | the firewall admits exactly the load balancer's sources outside protected space, within the public roots when nothing is allowed explicitly |
| `CidrPolicy.DestinationIpBlocks` | src/domain.rs:498-520 | refuses exactly a misplaced or protected allow list, and otherwise admits exactly what the mode promises |
| `CidrPolicy.AcceptedAllowListIsUnprotected` | src/domain.rs:498-520 | an accepted allow list loses nothing to the protected networks |
| `Metering.WeekStartIsLastMonday` | src/reconcile.rs:432-437 | the week start is the one Monday midnight within the seven days before the time |
| `Metering.Meter.MeterWeeklyUsage` | src/reconcile.rs:497-545 | the record becomes the larger of projection and record of the week, and a foreign record stops the step unchanged |
| `Metering.RecordedNeverDecreases` | src/reconcile.rs:443-545 | within a week recorded counters never decrease, whatever happens to the status writes |
| `Metering.ProjectionPlausible` | src/reconcile.rs:443-495 | a projection never exceeds peak rate times the time since the week's first step |
| `Metering.RecordedWithinPeak` | src/reconcile.rs:443-545 | from any plausible state, recorded counters never exceed the peak rate the week's steps charge times the time since its first step |
| `Metering.RecordedWithinPeakAllocation` | src/reconcile.rs:443-545 | for a new service, recorded counters never exceed the largest allocation the week's steps observed times the time since the first of them |
| `Metering.NewWeekStartsAtZero` | src/reconcile.rs:443-545 | the first step of a new week records zero, whatever the status held before |
| `Metering.RecordedIsExact` | src/reconcile.rs:443-545 | if every status write keeps the weekly usage, or for GPU seconds at least the legacy meter, counters equal the saturated sum of allocation times interval |
| `WeeklyTotals.AddCharge` | src/reconcile.rs:338-382 | one charge raises exactly the totals whose scope it is in, saturating |
| `WeeklyTotals.ChargeRecords` | src/reconcile.rs:324-381 | the record loop adds up this week's records in scope and collects their services |
| `WeeklyTotals.ComputeTotals` | src/reconcile.rs:299-429 | each of the nine totals is the saturated sum of the charges in its scope; member totals are within account totals, and those within the cloud organization's when the account is listed |
| `WeeklyTotals.EachServiceIsChargedOnce` | src/reconcile.rs:299-429 | a service is charged by its record of this week, else by its projection, and never twice |
| `WeeklyTotals.ListingOrderIsIrrelevant` | src/reconcile.rs:299-429 | every total is the same for every order of records and peers |
| `WeeklyTotals.TotalsAreNested` | src/reconcile.rs:299-429 | the unsaturated sums are nested in the same way |
| `WeeklyTotals.RemainingIsDistanceToCeiling` | src/reconcile.rs:546-598 | no GPU seconds remain exactly when a ceiling is reached, and using at least what remains reaches one |
| `Storage.StorageAllocationRetaining` | src/reconcile.rs:2267-2305 | the step-by-step allocation is the specified one |
| `Storage.AllocationExistsIff` | src/reconcile.rs:2204-2305 | with a home an allocation exists exactly when explicit sizes are positive, everything fits, and the disk does not shrink |
| `Storage.AllocationKeepsPromises` | src/reconcile.rs:2204-2305 | an allocation fits the budget, keeps both minimums and explicit sizes, and never shrinks the disk |
| `Storage.AllocationIsStable` | src/reconcile.rs:2267-2305 | feeding an allocation's home back in gives the same allocation |
| `Storage.AutomaticSplitUsesBudget` | src/reconcile.rs:2204-2265 | an automatic split of a fresh disk wastes less than a MiB, and the root filesystem gets a tenth within its limits |
| `Storage.FreshAllocationSurvivesRounding` | src/reconcile.rs:2280-2290 | a home made for a fresh disk is unchanged by rounding up to MiB, and so is its allocation |
| `Storage.RunNeverShrinksDisk` | src/reconcile.rs:1084-1113 | over any run of completed, refused, invalid and interrupted updates the claim's request never decreases and keeps its minimum |
| `Storage.BudgetLeftIff` | src/reconcile.rs:1253-1263 | from within the budget exactly an update that stops after growing the claim past what the budget leaves beside the deployed root filesystem leaves it, and exactly a completed update returns |
| `Storage.RunWithinBudgetIff` | src/reconcile.rs:1084-1113 | after any run the disk is within the budget of the last completed update exactly when every such update was followed by a completed one |
| `Storage.InterruptedGrowthExceedsBudget` | src/reconcile.rs:1253-1263 | an update that stops after the claim write can leave the disk over the last completed budget |
| `Quantity.CeilDiv` | src/reconcile.rs:2352-2430 | the division rounds up to the least integer that is not smaller |
| `Quantity.TextOfSplit` | src/reconcile.rs:2352-2430 | splitting a text into sign, digits, point and suffix loses nothing |
| `Quantity.ParsesTheOnlyReading` | src/reconcile.rs:2352-2430 | a text has at most one well-formed reading, and it is the one parsed |
| `Quantity.ScaleAndRound` | src/reconcile.rs:2395-2430 | the checked arithmetic succeeds exactly when nothing overflows, and rounds up |
| `Quantity.StorageQuantityBytes` | src/reconcile.rs:2352-2430 | succeeds exactly on well-formed texts that fit, with the ceiling of the value they denote, at most i64::MAX |
| `Quantity.ClaimTextRoundTrips` | src/reconcile.rs:2432-2455 | every size up to i64::MAX written into a claim parses back to itself |

## Left out

- Several backup controllers at once: acquire and create are not fenced as a unit, so the model has the single loop the code runs.
- A claim that is missing when its snapshot is created and appears later: such a snapshot reads no disk in the model.
- The failure of a backup whose disk has another CSI driver, which is recorded as an error like a missing claim.
- Claims that are not bound to a volume yet: a claim has its volume from the moment it is provisioned.
- A restore that still reads from a tenant's target when a backup of the restored disk changes that target.
- Volumes that are deleted, and anybody else who writes the lock or the target of a volume.
- A malformed lock annotation and the reading of destination credentials.
- Retry after a failed status or finalizer write in the GPU scheduler beyond the next reconciliation, and Kubernetes watch delivery.
- GPU jobs for more than one device: the job schema fixes the count at one.
- Saturation of 64-bit times: times and lease ends are unbounded integers.
- Catalog signatures, JSON and XML encoding, S3 paging and request signing.
- The renewal thread of a restore: its lease requests may fall anywhere, but the restore is not stopped when one fails.
- Offsite.RestoreReproducesSource: takes the digest function to be injective, which the other offsite results do not need.
- CIDR text: networks are given parsed, without the limits on the number of entries and duplicates.
- matches_node, image name normalization and the choice of image size: the set of matching nodes and the sizes are given.
- Fractions of a byte and of other smallest units: capacity amounts are whole numbers of each resource's own unit.
- Snapshot refresh, thread locks and timeouts of the capacity guard: the snapshot is fixed during a run.
- A dry run that ignores the Pods it replaces: a dry run writes nothing.
- The Deployment, Service and policy manifests, custom domains, VPC checks, the API handlers, the activator, the shell and the command line tool.
- The CPU and memory exhaustion flags: they are comparisons of the totals with their limits.
- The overflow error of the disk budget: sizes of 32-bit GiB counts cannot reach it.
- GpuChoice.ListingOrderIsIrrelevant: takes job names to be unique, as they are within the scheduler's namespace.
- WeeklyTotals.EachServiceIsChargedOnce: takes service identifiers to be unique among the records and among the peers.
- CapacityLedger.RunSafe: takes node names to be unique and starts from a ledger that is within its limits.
- GpuProtocol.RunNeverClobbers: covers the runs whose accepted renewals find the device their own or unleased, because the code does not check this.
- GpuAttempts.RunLeakFree: covers the runs whose accepted renewals are of the own lease, for the same reason, and counts an abandoned attempt as holding its device; AbandonedReservationLapses bounds how long.
- GpuAttempts.ReservationStands: covers the runs whose accepted renewals find the device their own or unleased, and excludes accepted calls of the holding job, whose effect SecondGrantFollowsLoss and GiveBackUnpublishesIff describe.
- GpuAttempts.StepKeepsReservation: covers the same renewals and excludes calls of the holding job, for the same reasons.
- GpuAttempts.HolderStands: covers the runs whose accepted renewals find the device their own or unleased; GrantedTwiceAfterForeignRelease shows that others fail it.
- GpuAttempts.SecondGrantFollowsOwnLoss: covers the same runs; SecondGrantFollowsLoss holds in every run.
- GpuAttempts.SettledJobHoldsOnlyItsPublishedDevice: covers the runs of RunLeakFree, and jobs without an abandoned attempt.
