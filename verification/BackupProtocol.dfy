/**
 * The backup controller one API call at a time. A single loop reconciles backups one after the other; before every
 * call snapshots may become ready or go, claims may be deleted and replaced, time passes, users create and delete
 * backups, the destinations feature is switched, and the controller may stop and start again.
 */
module BackupProtocol {
  import opened Wrappers
  import opened BackupLock

  /** What follows a release: nothing, or the removal of the finalizer. */
  datatype After = ThenDone | ThenFinalize

  /**
   * The call a reconciliation of backup `id` makes next. `b` is the backup as it was listed, and `seen` the readiness
   * of its own snapshot as it was read, if there was one.
   */
  datatype Stage =
    | Idle
    | Begun(id: nat, b: Backup)                                                   // reads its own snapshot
    | Acquiring(id: nat, b: Backup, seen: Option<bool>)                           // reads flag and claim
    | Claimed(id: nat, b: Backup, seen: Option<bool>, flag: bool)                 // reads the volume
    | Contending(id: nat, b: Backup, seen: Option<bool>, holder: nat)             // reads the holder's backup
    | HolderRead(id: nat, b: Backup, seen: Option<bool>, holder: nat, busy: bool) // reads the holder's snapshot
    | Listing(id: nat, b: Backup, seen: Option<bool>)                             // lists all snapshots
    | Targeting(id: nat, b: Backup, seen: Option<bool>)                           // reads the destination
    | Locking(id: nat, b: Backup, seen: Option<bool>)                             // patches lock and target
    | Waiting(id: nat, b: Backup)                                                 // writes "creating" or "error"
    | Lost(id: nat, b: Backup)                                                    // writes "error"
    | Verifying(id: nat, b: Backup)                                               // reads the claim again
    | Taking(id: nat, b: Backup)                                                  // creates the snapshot
    | Reporting(id: nat, b: Backup, ready: bool)                                  // writes the phase
    | Unlocking(id: nat, b: Backup, after: After)                                 // reads flag and claim
    | Unclaiming(id: nat, b: Backup, after: After)                                // reads the volume
    | Clearing(id: nat, b: Backup, after: After)                                  // patches lock and target back
    | Finalizing(id: nat, b: Backup)                                              // removes the finalizer
    | Failing(id: nat, b: Backup)                                                 // writes "error"

  datatype State = State(c: Cluster, stage: Stage)

  // ----- Calls that read -----

  /** With the lock settled: report on the snapshot, never retake a completed one, or verify the claim once more. */
  function Settled(id: nat, b: Backup, seen: Option<bool>): Stage {
    match seen
    case Some(ready) => Reporting(id, b, ready)
    case None => if Finished(b.phase) then Lost(id, b) else Verifying(id, b)
  }

  /** A lasting failure is recorded; any other one is left to the next pass. */
  function Failed(id: nat, b: Backup, failure: Failure): Stage {
    if failure in {NotFound, Conflict, Forbidden} then Failing(id, b) else Idle
  }

  function Finish(id: nat, b: Backup, after: After): Stage {
    if after.ThenFinalize? then Finalizing(id, b) else Idle
  }

  function ReadOwnSnapshot(c: Cluster, id: nat, b: Backup, a: Answers): Stage {
    if b.deleting then
      if a.offsiteLocked || a.restorePending || id in c.snapshots then Idle else Unlocking(id, b, ThenFinalize)
    else
      var seen := if id in c.snapshots then Some(c.snapshots[id].ready) else None;
      if (seen.None? && Finished(b.phase)) || (seen == Some(true) && b.phase == Ready)
      then Settled(id, b, seen) else Acquiring(id, b, seen)
  }

  function ReadClaim(c: Cluster, id: nat, b: Backup, seen: Option<bool>): Stage {
    if !c.enabled && b.spec.destination.Some? then Failed(id, b, Unavailable)
    else if b.spec.pvc !in c.pvcs then Failed(id, b, NotFound)
    else if c.pvcs[b.spec.pvc] != b.spec.uid then Failed(id, b, Conflict)
    else Claimed(id, b, seen, c.enabled)
  }

  function ReadVolume(c: Cluster, id: nat, b: Backup, seen: Option<bool>, flag: bool, a: Answers): Stage {
    if !a.volumeReadable then Failed(id, b, Storage)
    else if b.spec.uid !in c.volumes then Failed(id, b, NotFound)
    else
      var volume := c.volumes[b.spec.uid];
      if !flag then
        if volume.lock.Some? || volume.target.Tenant? then Failed(id, b, Unavailable) else Settled(id, b, seen)
      else if volume.lock == Some(id) then
        if volume.target != Desired(b.spec) then Failed(id, b, Conflict) else Settled(id, b, seen)
      else if volume.lock.Some? then Contending(id, b, seen, volume.lock.value)
      else Listing(id, b, seen)
  }

  function ReadDestination(id: nat, b: Backup, seen: Option<bool>, a: Answers): Stage {
    match a.destination
    case DestinationForeign => Failed(id, b, Forbidden)
    case DestinationUnreachable => Failed(id, b, Unavailable)
    case DestinationNotReady => Waiting(id, b)
    case DestinationReady => Locking(id, b, seen)
  }

  function VerifyClaim(c: Cluster, id: nat, b: Backup): Stage {
    if b.spec.pvc !in c.pvcs then Failed(id, b, NotFound)
    else if c.pvcs[b.spec.pvc] != b.spec.uid then Failed(id, b, Conflict)
    else Taking(id, b)
  }

  function ReadLockedVolume(c: Cluster, id: nat, b: Backup, after: After, a: Answers): Stage {
    if !a.volumeReadable then Idle
    else if b.spec.uid !in c.volumes || c.volumes[b.spec.uid].lock != Some(id) then Finish(id, b, after)
    else Clearing(id, b, after)
  }

  /** The stage after the next call when that call only reads. */
  function Read(c: Cluster, stage: Stage, a: Answers): Stage {
    match stage
    case Begun(id, b) => ReadOwnSnapshot(c, id, b, a)
    case Acquiring(id, b, seen) => ReadClaim(c, id, b, seen)
    case Claimed(id, b, seen, flag) => ReadVolume(c, id, b, seen, flag, a)
    case Contending(id, b, seen, holder) =>
      HolderRead(id, b, seen, holder, holder in c.backups && !Finished(c.backups[holder].phase))
    case HolderRead(id, b, seen, holder, busy) =>
      if busy || (holder in c.snapshots && !c.snapshots[holder].ready) then Waiting(id, b) else Listing(id, b, seen)
    case Listing(id, b, seen) =>
      if OtherTransfer(c, id, b.spec.pvc) then Waiting(id, b)
      else if b.spec.destination.Some? then Targeting(id, b, seen) else Locking(id, b, seen)
    case Targeting(id, b, seen) => ReadDestination(id, b, seen, a)
    case Verifying(id, b) => VerifyClaim(c, id, b)
    case Unlocking(id, b, after) =>
      if !c.enabled || b.spec.pvc !in c.pvcs || c.pvcs[b.spec.pvc] != b.spec.uid then Finish(id, b, after)
      else Unclaiming(id, b, after)
    case Unclaiming(id, b, after) => ReadLockedVolume(c, id, b, after, a)
    case _ => stage
  }

  predicate Writes(stage: Stage) {
    || stage.Locking? || stage.Waiting? || stage.Lost? || stage.Taking? || stage.Reporting? || stage.Clearing?
    || stage.Finalizing? || stage.Failing?
  }

  // ----- Calls that write -----

  function PutStatus(c: Cluster, id: nat, phase: Phase, a: Answers): (Cluster, Result<(), Failure>) {
    if id in c.backups then WriteStatus(c, id, phase, a) else (c, Err(Storage))
  }

  function PhaseOf(c: Cluster, b: Backup, ready: bool): Phase {
    if ready then Ready else if Expired(c, b) then Error else Creating
  }

  function PutLock(c: Cluster, id: nat, b: Backup, seen: Option<bool>, a: Answers): State {
    if a.volumeConflicts || b.spec.uid !in c.volumes then State(c, Waiting(id, b)) else
    var volume := c.volumes[b.spec.uid].(lock := Some(id), target := Desired(b.spec));
    State(c.(volumes := c.volumes[b.spec.uid := volume]), Settled(id, b, seen))
  }

  /** The snapshot names the claim, so it reads whatever disk has that name when it is created. */
  function PutSnapshot(c: Cluster, id: nat, b: Backup): State {
    if id in c.snapshots then State(c, Reporting(id, b, c.snapshots[id].ready)) else
    var disk := if b.spec.pvc in c.pvcs then Some(c.pvcs[b.spec.pvc]) else None;
    State(c.(snapshots := c.snapshots[id := Snapshot(b.spec.pvc, disk, Desired(b.spec), false)]),
          Reporting(id, b, false))
  }

  function PutPhase(c: Cluster, id: nat, b: Backup, ready: bool, a: Answers): State {
    var (reported, outcome) := PutStatus(c, id, PhaseOf(c, b, ready), a);
    State(reported, if outcome.Ok? && ready then Unlocking(id, b, ThenDone) else Idle)
  }

  function PutUnlocked(c: Cluster, id: nat, b: Backup, after: After, a: Answers): State {
    if a.volumeConflicts || b.spec.uid !in c.volumes then State(c, Idle) else
    var volume := c.volumes[b.spec.uid].(lock := None, target := Default);
    State(c.(volumes := c.volumes[b.spec.uid := volume]), Finish(id, b, after))
  }

  function Write(s: State, a: Answers): State {
    match s.stage
    case Locking(id, b, seen) => PutLock(s.c, id, b, seen, a)
    case Waiting(id, b) => State(PutStatus(s.c, id, PhaseOf(s.c, b, false), a).0, Idle)
    case Lost(id, b) => State(PutStatus(s.c, id, Error, a).0, Idle)
    case Taking(id, b) => PutSnapshot(s.c, id, b)
    case Reporting(id, b, ready) => PutPhase(s.c, id, b, ready, a)
    case Clearing(id, b, after) => PutUnlocked(s.c, id, b, after, a)
    case Finalizing(id, b) =>
      State(if a.finalizerConflicts then s.c else s.c.(backups := s.c.backups - {id}), Idle)
    case Failing(id, b) => State(PutStatus(s.c, id, Error, a).0, Idle)
    case _ => s
  }

  function Advance(s: State, a: Answers): State {
    if Writes(s.stage) then Write(s, a) else s.(stage := Read(s.c, s.stage, a))
  }

  // ----- Runs -----

  datatype Event =
    | Begin(id: nat, listedDeleting: bool)
    | NextCall(answers: Answers)
    | Crash
    | FlagSet(enabled: bool)
    | TimePassed(seconds: nat)
    | PvcProvisioned(pvc: string, uid: string, target: Target)
    | PvcDeleted(pvc: string)
    | SnapshotReady(id: nat)
    | SnapshotGone(id: nat)
    | BackupCreated(id: nat, spec: Spec)
    | BackupDeleted(id: nat)

  function Listed(b: Backup, listedDeleting: bool): Backup {
    b.(deleting := b.deleting && listedDeleting)
  }

  predicate NobodysLock(c: Cluster, id: nat) {
    forall uid <- c.volumes :: c.volumes[uid].lock != Some(id)
  }

  function Environment(c: Cluster, e: Event): Cluster {
    match e
    case FlagSet(enabled) => c.(enabled := enabled)
    case TimePassed(seconds) => c.(clock := c.clock + seconds)
    case PvcProvisioned(pvc, uid, target) =>
      // a claim restored from a tenant's backup has a storage class that provisions it with the tenant's target
      if uid !in c.volumes then
        c.(pvcs := c.pvcs[pvc := uid], volumes := c.volumes[uid := Volume(pvc, None, target)])
      else c
    case PvcDeleted(pvc) => c.(pvcs := c.pvcs - {pvc})
    case SnapshotReady(id) =>
      if id in c.snapshots then c.(snapshots := c.snapshots[id := c.snapshots[id].(ready := true)]) else c
    case SnapshotGone(id) => c.(snapshots := c.snapshots - {id})
    case BackupCreated(id, spec) =>
      // the API refuses a backup whose source claim is not the one bound under that name, and makes a new identifier
      if id !in c.backups && NobodysLock(c, id) && spec.pvc in c.pvcs && c.pvcs[spec.pvc] == spec.uid then
        c.(backups := c.backups[id := Backup(spec, Pending, false, c.clock)])
      else c
    case BackupDeleted(id) =>
      if id in c.backups then c.(backups := c.backups[id := c.backups[id].(deleting := true)]) else c
    case _ => c
  }

  function Step(s: State, e: Event): State {
    match e
    case Begin(id, listedDeleting) =>
      if s.stage.Idle? && id in s.c.backups then s.(stage := Begun(id, Listed(s.c.backups[id], listedDeleting))) else s
    case NextCall(answers) => Advance(s, answers)
    case Crash => s.(stage := Idle)
    case _ => s.(c := Environment(s.c, e))
  }

  function Run(s: State, events: seq<Event>): State
    decreases |events|
  {
    if events == [] then s else Step(Run(s, events[..|events| - 1]), events[|events| - 1])
  }

  // ----- Invariant -----

  /** A transfer that is not finished, from a disk it found. */
  ghost predicate InFlight(c: Cluster, id: nat) {
    id in c.snapshots && !c.snapshots[id].ready && c.snapshots[id].disk.Some?
  }

  /** Every transfer in flight that reads the disk of its own backup goes where the backup asked. */
  ghost predicate OnCourse(c: Cluster) {
    forall id <- c.snapshots | InFlight(c, id) ::
      && id in c.backups && c.snapshots[id].disk.value in c.volumes
      && (c.snapshots[id].disk.value == c.backups[id].spec.uid ==>
            Effective(c.volumes[c.snapshots[id].disk.value].target) == Desired(c.backups[id].spec))
  }

  /** A locked volume has no transfer but its holder's; an unlocked one may point anywhere. */
  ghost predicate VolumeOk(c: Cluster, uid: string)
    requires uid in c.volumes
  {
    c.volumes[uid].lock.Some? ==>
      forall id <- c.snapshots | InFlight(c, id) && c.snapshots[id].disk == Some(uid) ::
        id == c.volumes[uid].lock.value
  }

  /** Claims, volumes, backups and snapshots refer to each other as they should. */
  ghost predicate Linked(c: Cluster) {
    && (forall pvc <- c.pvcs :: c.pvcs[pvc] in c.volumes && c.volumes[c.pvcs[pvc]].claim == pvc)
    && (forall id <- c.backups :: var spec := c.backups[id].spec;
          spec.uid in c.volumes && c.volumes[spec.uid].claim == spec.pvc)
    && (forall id <- c.snapshots :: SnapshotLinked(c, id))
  }

  ghost predicate SnapshotLinked(c: Cluster, id: nat)
    requires id in c.snapshots
  {
    var snapshot := c.snapshots[id];
    && id in c.backups && snapshot.pvc == c.backups[id].spec.pvc && snapshot.asked == Desired(c.backups[id].spec)
    && (snapshot.disk.Some? ==>
          snapshot.disk.value in c.volumes && c.volumes[snapshot.disk.value].claim == snapshot.pvc)
    && (c.backups[id].phase == Ready ==> snapshot.ready)
  }

  ghost predicate Sound(c: Cluster) {
    Linked(c) && OnCourse(c) && forall uid <- c.volumes :: VolumeOk(c, uid)
  }

  /** The backup's own transfer is finished or gone. */
  ghost predicate Over(c: Cluster, id: nat) {
    id in c.snapshots ==> c.snapshots[id].ready
  }

  ghost predicate Known(c: Cluster, id: nat, b: Backup) {
    id in c.backups && c.backups[id].spec == b.spec
  }

  /** Still in the phase it was listed in, and not a completed backup. */
  ghost predicate Open(c: Cluster, id: nat, b: Backup, seen: Option<bool>) {
    && Known(c, id, b) && c.backups[id].phase == b.phase && b.phase != Ready
    && match seen
       case None => id !in c.snapshots && !Finished(b.phase)
       case Some(ready) => ready ==> Over(c, id)
  }

  /** The volume points where the backup wants it; it is locked by the backup, or free for one to the default target. */
  ghost predicate Permitted(c: Cluster, id: nat, b: Backup) {
    && b.spec.uid in c.volumes && Effective(c.volumes[b.spec.uid].target) == Desired(b.spec)
    && (c.volumes[b.spec.uid].lock == Some(id) || (c.volumes[b.spec.uid].lock.None? && b.spec.destination.None?))
  }

  /** The claim is the verified one, or was replaced since, and then nobody has locked the new volume yet. */
  ghost predicate Untouched(c: Cluster, b: Backup) {
    b.spec.pvc in c.pvcs && c.pvcs[b.spec.pvc] != b.spec.uid ==>
      c.pvcs[b.spec.pvc] in c.volumes && c.volumes[c.pvcs[b.spec.pvc]].lock.None?
  }

  ghost predicate StageOk(c: Cluster, stage: Stage) {
    match stage
    case Idle => true
    case Begun(id, b) => Known(c, id, b) && c.backups[id].phase == b.phase
    case Acquiring(id, b, seen) => Open(c, id, b, seen)
    case Claimed(id, b, seen, flag) => Open(c, id, b, seen) && (!flag ==> b.spec.destination.None?)
    case Contending(id, b, seen, _) => Open(c, id, b, seen)
    case HolderRead(id, b, seen, _, _) => Open(c, id, b, seen)
    case Listing(id, b, seen) => Open(c, id, b, seen)
    case Targeting(id, b, seen) => Open(c, id, b, seen) && !OtherTransfer(c, id, b.spec.pvc)
    case Locking(id, b, seen) => Open(c, id, b, seen) && !OtherTransfer(c, id, b.spec.pvc)
    case Waiting(id, b) => Known(c, id, b) && c.backups[id].phase == b.phase && b.phase != Ready
    case Lost(id, b) => Known(c, id, b) && id !in c.snapshots
    case Verifying(id, b) => Open(c, id, b, None) && Permitted(c, id, b)
    case Taking(id, b) => Open(c, id, b, None) && Permitted(c, id, b) && Untouched(c, b)
    case Reporting(id, b, ready) =>
      && Known(c, id, b) && c.backups[id].phase == b.phase
      && (if ready then Over(c, id) else b.phase != Ready)
    case Unlocking(id, b, after) => Unlockable(c, id, b, after)
    case Unclaiming(id, b, after) => Unlockable(c, id, b, after)
    case Clearing(id, b, after) =>
      Unlockable(c, id, b, after) && b.spec.uid in c.volumes && c.volumes[b.spec.uid].lock == Some(id)
    case Finalizing(id, b) => Known(c, id, b) && id !in c.snapshots
    case Failing(id, b) => Known(c, id, b) && c.backups[id].phase == b.phase && b.phase != Ready
  }

  ghost predicate Unlockable(c: Cluster, id: nat, b: Backup, after: After) {
    Known(c, id, b) && Over(c, id) && (after.ThenFinalize? ==> id !in c.snapshots)
  }

  ghost predicate Invariant(s: State) {
    Sound(s.c) && StageOk(s.c, s.stage)
  }

  // ----- Reads keep the invariant -----

  lemma OwnSnapshotStage(c: Cluster, id: nat, b: Backup, a: Answers)
    requires Linked(c) && StageOk(c, Begun(id, b))
    ensures StageOk(c, ReadOwnSnapshot(c, id, b, a))
  {
    if id in c.snapshots { assert SnapshotLinked(c, id); }
  }

  lemma SettledStage(c: Cluster, id: nat, b: Backup, seen: Option<bool>)
    requires Open(c, id, b, seen) && Permitted(c, id, b)
    ensures StageOk(c, Settled(id, b, seen))
  {
  }

  lemma ClaimStage(c: Cluster, id: nat, b: Backup, seen: Option<bool>)
    requires Open(c, id, b, seen)
    ensures StageOk(c, ReadClaim(c, id, b, seen))
  {
  }

  lemma VolumeStage(c: Cluster, id: nat, b: Backup, seen: Option<bool>, flag: bool, a: Answers)
    requires StageOk(c, Claimed(id, b, seen, flag))
    ensures StageOk(c, ReadVolume(c, id, b, seen, flag, a))
  {
    if Permitted(c, id, b) { SettledStage(c, id, b, seen); }
  }

  lemma ContestStage(c: Cluster, stage: Stage, a: Answers)
    requires StageOk(c, stage)
    requires stage.Contending? || stage.HolderRead? || stage.Listing? || stage.Targeting?
    ensures StageOk(c, Read(c, stage, a))
  {
  }

  lemma UnlockStage(c: Cluster, stage: Stage, a: Answers)
    requires StageOk(c, stage) && (stage.Verifying? || stage.Unlocking? || stage.Unclaiming?)
    ensures StageOk(c, Read(c, stage, a))
  {
  }

  lemma ReadStage(c: Cluster, stage: Stage, a: Answers)
    requires Linked(c) && StageOk(c, stage) && !Writes(stage)
    ensures StageOk(c, Read(c, stage, a))
  {
    match stage
    case Idle =>
    case Begun(id, b) => OwnSnapshotStage(c, id, b, a);
    case Acquiring(id, b, seen) => ClaimStage(c, id, b, seen);
    case Claimed(id, b, seen, flag) => VolumeStage(c, id, b, seen, flag, a);
    case Verifying(_, _) => UnlockStage(c, stage, a);
    case Unlocking(_, _, _) => UnlockStage(c, stage, a);
    case Unclaiming(_, _, _) => UnlockStage(c, stage, a);
    case _ => ContestStage(c, stage, a);
  }

  // ----- Changes from outside keep the invariant -----

  /** Nobody but the controller writes volumes, phases and new snapshots; transfers only finish or go. */
  ghost predicate Evolves(c: Cluster, c': Cluster) {
    && c.clock <= c'.clock
    && (forall uid <- c.volumes :: uid in c'.volumes && c'.volumes[uid] == c.volumes[uid])
    && (forall uid <- c'.volumes :: uid in c.volumes || c'.volumes[uid].lock.None?)
    && (forall id <- c.backups :: id in c'.backups
          && c'.backups[id].spec == c.backups[id].spec && c'.backups[id].phase == c.backups[id].phase
          && c'.backups[id].createdAt == c.backups[id].createdAt)
    && (forall id <- c'.backups :: id in c.backups || NewBackup(c', id))
    && (forall id <- c'.snapshots :: id in c.snapshots
          && (c'.snapshots[id] == c.snapshots[id] || c'.snapshots[id] == c.snapshots[id].(ready := true)))
    && (forall pvc <- c'.pvcs :: (pvc in c.pvcs && c'.pvcs[pvc] == c.pvcs[pvc]) || NewClaim(c, c', pvc))
  }

  ghost predicate NewBackup(c: Cluster, id: nat)
    requires id in c.backups
  {
    var spec := c.backups[id].spec;
    spec.uid in c.volumes && c.volumes[spec.uid].claim == spec.pvc && NobodysLock(c, id)
  }

  ghost predicate NewClaim(c: Cluster, c': Cluster, pvc: string)
    requires pvc in c'.pvcs
  {
    c'.pvcs[pvc] !in c.volumes && c'.pvcs[pvc] in c'.volumes && c'.volumes[c'.pvcs[pvc]].claim == pvc
  }

  lemma ClaimsEvolve(c: Cluster, e: Event)
    requires e.FlagSet? || e.TimePassed? || e.PvcDeleted?
    ensures Evolves(c, Environment(c, e))
  {
  }

  lemma ProvisionEvolves(c: Cluster, pvc: string, uid: string, target: Target)
    ensures Evolves(c, Environment(c, PvcProvisioned(pvc, uid, target)))
  {
  }

  lemma SnapshotEventsEvolve(c: Cluster, e: Event)
    requires e.SnapshotReady? || e.SnapshotGone?
    ensures Evolves(c, Environment(c, e))
  {
  }

  lemma BackupsEvolve(c: Cluster, e: Event)
    requires e.BackupCreated? || e.BackupDeleted?
    requires forall pvc <- c.pvcs :: c.pvcs[pvc] in c.volumes && c.volumes[c.pvcs[pvc]].claim == pvc
    ensures Evolves(c, Environment(c, e))
  {
  }

  lemma EnvironmentEvolves(c: Cluster, e: Event)
    requires Linked(c) && !e.Begin? && !e.NextCall? && !e.Crash?
    ensures Evolves(c, Environment(c, e))
  {
    if e.SnapshotReady? || e.SnapshotGone? {
      SnapshotEventsEvolve(c, e);
    } else if e.BackupCreated? || e.BackupDeleted? {
      BackupsEvolve(c, e);
    } else if e.PvcProvisioned? {
      ProvisionEvolves(c, e.pvc, e.uid, e.target);
    } else {
      ClaimsEvolve(c, e);
    }
  }

  lemma OpenEvolves(c: Cluster, c': Cluster, id: nat, b: Backup, seen: Option<bool>)
    requires Evolves(c, c')
    ensures Open(c, id, b, seen) ==> Open(c', id, b, seen)
    ensures Permitted(c, id, b) ==> Permitted(c', id, b)
    ensures !OtherTransfer(c, id, b.spec.pvc) ==> !OtherTransfer(c', id, b.spec.pvc)
  {
  }

  lemma UntouchedEvolves(c: Cluster, c': Cluster, b: Backup)
    requires Evolves(c, c') && Untouched(c, b)
    ensures Untouched(c', b)
  {
  }

  lemma StageEvolves(c: Cluster, c': Cluster, stage: Stage)
    requires Evolves(c, c') && StageOk(c, stage)
    ensures StageOk(c', stage)
  {
    match stage
    case Acquiring(id, b, seen) => OpenEvolves(c, c', id, b, seen);
    case Claimed(id, b, seen, _) => OpenEvolves(c, c', id, b, seen);
    case Contending(id, b, seen, _) => OpenEvolves(c, c', id, b, seen);
    case HolderRead(id, b, seen, _, _) => OpenEvolves(c, c', id, b, seen);
    case Listing(id, b, seen) => OpenEvolves(c, c', id, b, seen);
    case Targeting(id, b, seen) => OpenEvolves(c, c', id, b, seen);
    case Locking(id, b, seen) => OpenEvolves(c, c', id, b, seen);
    case Verifying(id, b) => OpenEvolves(c, c', id, b, None);
    case Taking(id, b) => OpenEvolves(c, c', id, b, None); UntouchedEvolves(c, c', b);
    case _ =>
  }

  lemma SnapshotsEvolve(c: Cluster, c': Cluster, id: nat)
    requires Linked(c) && OnCourse(c) && Evolves(c, c') && id in c'.snapshots
    ensures SnapshotLinked(c', id)
    ensures InFlight(c', id) ==>
      && c'.snapshots[id].disk.value in c'.volumes
      && (c'.snapshots[id].disk.value == c'.backups[id].spec.uid ==>
            Effective(c'.volumes[c'.snapshots[id].disk.value].target) == Desired(c'.backups[id].spec))
  {
    assert SnapshotLinked(c, id);
    assert InFlight(c', id) ==> InFlight(c, id);
  }

  lemma VolumeEvolves(c: Cluster, c': Cluster, uid: string)
    requires Sound(c) && Evolves(c, c') && uid in c'.volumes
    ensures VolumeOk(c', uid)
  {
    if uid in c.volumes {
      assert VolumeOk(c, uid);
      assert forall id <- c'.snapshots :: InFlight(c', id) ==> InFlight(c, id);
    }
  }

  lemma SoundEvolves(c: Cluster, c': Cluster)
    requires Sound(c) && Evolves(c, c')
    ensures Sound(c')
  {
    forall id <- c'.snapshots ensures SnapshotLinked(c', id) { SnapshotsEvolve(c, c', id); }
    forall id <- c'.snapshots | InFlight(c', id)
      ensures id in c'.backups && c'.snapshots[id].disk.value in c'.volumes
      ensures c'.snapshots[id].disk.value == c'.backups[id].spec.uid ==>
                Effective(c'.volumes[c'.snapshots[id].disk.value].target) == Desired(c'.backups[id].spec)
    {
      SnapshotsEvolve(c, c', id);
    }
    forall uid <- c'.volumes ensures VolumeOk(c', uid) { VolumeEvolves(c, c', uid); }
  }

  // ----- Writes keep the invariant -----

  lemma SameVolumes(c: Cluster, c': Cluster, uid: string)
    requires uid in c.volumes && c'.volumes == c.volumes && c'.snapshots == c.snapshots
    ensures VolumeOk(c, uid) <==> VolumeOk(c', uid)
  {
    assert forall id <- c.snapshots :: InFlight(c, id) == InFlight(c', id);
  }

  /** Only phases changed, and only to "ready" where the transfer is over. */
  ghost predicate PhasesChange(c: Cluster, c': Cluster) {
    && c'.volumes == c.volumes && c'.snapshots == c.snapshots && c'.pvcs == c.pvcs
    && (forall id <- c'.backups :: id in c.backups)
    && forall id <- c.backups :: id in c'.backups && c'.backups[id].spec == c.backups[id].spec
         && (c'.backups[id].phase == c.backups[id].phase || c'.backups[id].phase != Ready || Over(c, id))
  }

  lemma PhasesKeepSound(c: Cluster, c': Cluster)
    requires Sound(c) && PhasesChange(c, c')
    ensures Sound(c')
  {
    forall uid <- c'.volumes ensures VolumeOk(c', uid) { SameVolumes(c, c', uid); }
    forall id <- c'.snapshots ensures SnapshotLinked(c', id) { assert SnapshotLinked(c, id); }
    assert forall id <- c.snapshots :: InFlight(c, id) == InFlight(c', id);
  }

  lemma StatusChangesPhase(c: Cluster, id: nat, phase: Phase, a: Answers)
    requires phase == Ready ==> Over(c, id)
    ensures PhasesChange(c, PutStatus(c, id, phase, a).0)
  {
    var c' := PutStatus(c, id, phase, a).0;
    assert c' == c || (id in c.backups && c'.backups == c.backups[id := c.backups[id].(phase := phase)]);
  }

  lemma StatusKeepsSound(c: Cluster, id: nat, phase: Phase, a: Answers)
    requires Sound(c) && (phase == Ready ==> Over(c, id))
    ensures Sound(PutStatus(c, id, phase, a).0)
  {
    StatusChangesPhase(c, id, phase, a);
    PhasesKeepSound(c, PutStatus(c, id, phase, a).0);
  }

  lemma LockKeepsSound(c: Cluster, id: nat, b: Backup)
    requires Sound(c) && Known(c, id, b) && !OtherTransfer(c, id, b.spec.pvc)
    ensures var volume := c.volumes[b.spec.uid].(lock := Some(id), target := Desired(b.spec));
      Sound(c.(volumes := c.volumes[b.spec.uid := volume]))
  {
    var uid := b.spec.uid;
    var c' := c.(volumes := c.volumes[uid := c.volumes[uid].(lock := Some(id), target := Desired(b.spec))]);
    forall other <- c'.snapshots ensures SnapshotLinked(c', other) { assert SnapshotLinked(c, other); }
    forall other <- c.snapshots | InFlight(c, other) && c.snapshots[other].disk == Some(uid) ensures other == id {
      assert SnapshotLinked(c, other);
    }
    forall u <- c'.volumes ensures VolumeOk(c', u) { assert VolumeOk(c, u); }
  }

  lemma UnlockKeepsSound(c: Cluster, id: nat, b: Backup)
    requires Sound(c) && Known(c, id, b) && Over(c, id) && c.volumes[b.spec.uid].lock == Some(id)
    ensures var volume := c.volumes[b.spec.uid].(lock := None, target := Default);
      Sound(c.(volumes := c.volumes[b.spec.uid := volume]))
  {
    var uid := b.spec.uid;
    var c' := c.(volumes := c.volumes[uid := c.volumes[uid].(lock := None, target := Default)]);
    assert VolumeOk(c, uid);
    forall other <- c'.snapshots ensures SnapshotLinked(c', other) { assert SnapshotLinked(c, other); }
    forall u <- c'.volumes ensures VolumeOk(c', u) { assert VolumeOk(c, u); }
  }

  /** The new transfer goes where its backup asked if it finds the backup's disk, and disturbs no other one. */
  lemma TakeKeepsSound(c: Cluster, id: nat, b: Backup)
    requires Sound(c) && StageOk(c, Taking(id, b))
    ensures Sound(PutSnapshot(c, id, b).c)
  {
    var c' := PutSnapshot(c, id, b).c;
    forall other <- c'.snapshots ensures SnapshotLinked(c', other) {
      if other != id { assert SnapshotLinked(c, other); }
    }
    forall u <- c'.volumes ensures VolumeOk(c', u) { assert VolumeOk(c, u); }
  }

  lemma DropKeepsSound(c: Cluster, id: nat)
    requires Sound(c) && id !in c.snapshots
    ensures Sound(c.(backups := c.backups - {id}))
  {
    var c' := c.(backups := c.backups - {id});
    forall other <- c'.snapshots ensures SnapshotLinked(c', other) { assert SnapshotLinked(c, other); }
    forall u <- c'.volumes ensures VolumeOk(c', u) { assert VolumeOk(c, u); }
  }

  lemma LockKeepsInvariant(c: Cluster, id: nat, b: Backup, seen: Option<bool>, a: Answers)
    requires Invariant(State(c, Locking(id, b, seen)))
    ensures Invariant(PutLock(c, id, b, seen, a))
  {
    LockKeepsSound(c, id, b);
    var s' := PutLock(c, id, b, seen, a);
    if !a.volumeConflicts { SettledStage(s'.c, id, b, seen); }
  }

  lemma UnlockKeepsInvariant(c: Cluster, id: nat, b: Backup, after: After, a: Answers)
    requires Invariant(State(c, Clearing(id, b, after)))
    ensures Invariant(PutUnlocked(c, id, b, after, a))
  {
    UnlockKeepsSound(c, id, b);
  }

  lemma PhaseKeepsInvariant(c: Cluster, id: nat, b: Backup, ready: bool, a: Answers)
    requires Invariant(State(c, Reporting(id, b, ready)))
    ensures Invariant(PutPhase(c, id, b, ready, a))
  {
    StatusKeepsSound(c, id, PhaseOf(c, b, ready), a);
  }

  lemma TakeKeepsInvariant(c: Cluster, id: nat, b: Backup)
    requires Invariant(State(c, Taking(id, b)))
    ensures Invariant(PutSnapshot(c, id, b))
  {
    TakeKeepsSound(c, id, b);
  }

  lemma WriteKeepsInvariant(s: State, a: Answers)
    requires Invariant(s) && Writes(s.stage)
    ensures Invariant(Write(s, a))
  {
    match s.stage
    case Locking(id, b, seen) => LockKeepsInvariant(s.c, id, b, seen, a);
    case Waiting(id, b) => StatusKeepsSound(s.c, id, PhaseOf(s.c, b, false), a);
    case Lost(id, b) => StatusKeepsSound(s.c, id, Error, a);
    case Taking(id, b) => TakeKeepsInvariant(s.c, id, b);
    case Reporting(id, b, ready) => PhaseKeepsInvariant(s.c, id, b, ready, a);
    case Clearing(id, b, after) => UnlockKeepsInvariant(s.c, id, b, after, a);
    case Finalizing(id, b) => DropKeepsSound(s.c, id);
    case Failing(id, b) => StatusKeepsSound(s.c, id, Error, a);
  }

  lemma AdvanceKeepsInvariant(s: State, a: Answers)
    requires Invariant(s)
    ensures Invariant(Advance(s, a))
  {
    if Writes(s.stage) { WriteKeepsInvariant(s, a); } else { ReadStage(s.c, s.stage, a); }
  }

  lemma StepKeepsInvariant(s: State, e: Event)
    requires Invariant(s)
    ensures Invariant(Step(s, e))
  {
    match e
    case Begin(_, _) =>
    case NextCall(answers) => AdvanceKeepsInvariant(s, answers);
    case Crash =>
    case _ =>
      EnvironmentEvolves(s.c, e);
      SoundEvolves(s.c, Environment(s.c, e));
      StageEvolves(s.c, Environment(s.c, e), s.stage);
  }

  const EMPTY := Cluster(false, 0, map[], map[], map[], map[])

  /** In every run, whatever happens between any two calls, every transfer from its backup's disk goes as asked. */
  lemma {:induction false} RunStaysOnCourse(s: State, events: seq<Event>)
    requires Invariant(s)
    ensures Invariant(Run(s, events)) && OnCourse(Run(s, events).c)
    decreases |events|
  {
    if events != [] {
      RunStaysOnCourse(s, events[..|events| - 1]);
      StepKeepsInvariant(Run(s, events[..|events| - 1]), events[|events| - 1]);
    }
  }
}
