/** The per-volume backup destination lock, and what one undisturbed reconciliation of a backup does to it. */
module BackupLock {
  import opened Wrappers

  const EXPIRY_SECONDS := 1800

  /** backupTargetName of a Longhorn volume; Unset stands for an absent or empty name. */
  datatype Target = Unset | Default | Tenant(destination: nat)
  datatype Phase = Pending | Creating | Ready | Error
  datatype Failure = Unavailable | NotFound | Forbidden | Conflict | Storage

  datatype Spec = Spec(pvc: string, uid: string, destination: Option<nat>)
  datatype Backup = Backup(spec: Spec, phase: Phase, deleting: bool, createdAt: int)

  /**
   * A CSI snapshot by claim name. `disk` is the uid of the claim it found under that name, if it found one, and
   * `asked` the target its backup wanted when it was created.
   */
  datatype Snapshot = Snapshot(pvc: string, disk: Option<string>, asked: Target, ready: bool)

  /** A Longhorn volume with the name of the claim its persistent volume is bound to. */
  datatype Volume = Volume(claim: string, lock: Option<nat>, target: Target)

  datatype Cluster = Cluster(
    enabled: bool,
    clock: int,
    pvcs: map<string, string>,      // claim name to the uid of the claim that now has it
    volumes: map<string, Volume>,   // by the uid of the claim they were provisioned for
    backups: map<nat, Backup>,
    snapshots: map<nat, Snapshot>)

  /** What the rest of the system answers during one reconciliation. */
  datatype DestinationAnswer = DestinationReady | DestinationNotReady | DestinationForeign | DestinationUnreachable
  datatype Answers = Answers(
    listedDeleting: bool, offsiteLocked: bool, restorePending: bool, volumeReadable: bool, volumeConflicts: bool,
    statusConflicts: bool, finalizerConflicts: bool, destination: DestinationAnswer)

  function Desired(spec: Spec): Target {
    match spec.destination
    case None => Default
    case Some(id) => Tenant(id)
  }

  function Effective(target: Target): Target {
    if target == Unset then Default else target
  }

  predicate Finished(phase: Phase) {
    phase == Ready || phase == Error
  }

  function BackupVolume(c: Cluster, spec: Spec, a: Answers): Result<Option<string>, Failure> {
    if spec.pvc !in c.pvcs then Ok(None)
    else if c.pvcs[spec.pvc] != spec.uid then Err(Conflict)
    else if !a.volumeReadable then Err(Storage)
    else if spec.uid !in c.volumes then Ok(None)
    else Ok(Some(spec.uid))
  }

  // ----- Releasing and acquiring -----

  function Release(c: Cluster, id: nat, spec: Spec, a: Answers): (Cluster, Result<(), Failure>) {
    if !c.enabled then (c, Ok(())) else
    match BackupVolume(c, spec, a)
    case Ok(None) => (c, Ok(()))
    case Err(Conflict) => (c, Ok(()))
    case Err(e) => (c, Err(e))
    case Ok(Some(uid)) =>
      if uid !in c.volumes || c.volumes[uid].lock != Some(id) then (c, Ok(()))
      else if a.volumeConflicts then (c, Err(Storage))
      else (c.(volumes := c.volumes[uid := c.volumes[uid].(lock := None, target := Default)]), Ok(()))
  }

  /** The holder of the lock still has a transfer to finish. */
  predicate HolderBusy(c: Cluster, holder: nat) {
    || (holder in c.snapshots && !c.snapshots[holder].ready)
    || (holder in c.backups && !Finished(c.backups[holder].phase))
  }

  /** Some other backup of a claim of this name has a transfer in flight. */
  predicate OtherTransfer(c: Cluster, id: nat, pvc: string) {
    exists other <- c.snapshots :: other != id && c.snapshots[other].pvc == pvc && !c.snapshots[other].ready
  }

  function AcquireDisabled(c: Cluster, id: nat, spec: Spec, a: Answers): Result<bool, Failure> {
    if spec.destination.Some? then Err(Unavailable) else
    match BackupVolume(c, spec, a)
    case Err(e) => Err(e)
    case Ok(None) => Err(NotFound)
    case Ok(Some(uid)) =>
      if uid in c.volumes && (c.volumes[uid].lock.Some? || c.volumes[uid].target.Tenant?)
      then Err(Unavailable) else Ok(true)
  }

  function AcquireEnabled(c: Cluster, id: nat, spec: Spec, a: Answers): (Cluster, Result<bool, Failure>) {
    match BackupVolume(c, spec, a)
    case Err(e) => (c, Err(e))
    case Ok(None) => (c, Err(NotFound))
    case Ok(Some(uid)) =>
      if uid !in c.volumes then (c, Err(NotFound)) else
      var volume := c.volumes[uid];
      if volume.lock == Some(id) then
        (c, if volume.target != Desired(spec) then Err(Conflict) else Ok(true))
      else if volume.lock.Some? && HolderBusy(c, volume.lock.value) then (c, Ok(false))
      else if OtherTransfer(c, id, spec.pvc) then (c, Ok(false))
      else if spec.destination.Some? && a.destination == DestinationForeign then (c, Err(Forbidden))
      else if spec.destination.Some? && a.destination == DestinationUnreachable then (c, Err(Unavailable))
      else if spec.destination.Some? && a.destination == DestinationNotReady then (c, Ok(false))
      else if a.volumeConflicts then (c, Ok(false))
      else (c.(volumes := c.volumes[uid := volume.(lock := Some(id), target := Desired(spec))]), Ok(true))
  }

  function Acquire(c: Cluster, id: nat, spec: Spec, a: Answers): (Cluster, Result<bool, Failure>) {
    if c.enabled then AcquireEnabled(c, id, spec, a) else (c, AcquireDisabled(c, id, spec, a))
  }

  // ----- One reconciliation -----

  function WriteStatus(c: Cluster, id: nat, phase: Phase, a: Answers): (Cluster, Result<(), Failure>)
    requires id in c.backups
  {
    if c.backups[id].phase == phase then (c, Ok(()))
    else if a.statusConflicts then (c, Err(Storage))
    else (c.(backups := c.backups[id := c.backups[id].(phase := phase)]), Ok(()))
  }

  predicate Expired(c: Cluster, b: Backup) {
    c.clock - b.createdAt >= EXPIRY_SECONDS
  }

  function ReconcileDeleted(c: Cluster, id: nat, a: Answers): (Cluster, Result<(), Failure>)
    requires id in c.backups
  {
    if a.offsiteLocked || a.restorePending then (c, Ok(()))
    else if id in c.snapshots then (c, Ok(()))    // deletion is requested; the snapshot goes away later
    else
      var (released, outcome) := Release(c, id, c.backups[id].spec, a);
      if outcome.Err? then (released, outcome)
      else if a.finalizerConflicts then (released, Err(Storage))
      else (released.(backups := released.backups - {id}), Ok(()))
  }

  /** From an existing or new snapshot onwards: record the phase, and release the lock once ready. */
  function Report(c: Cluster, id: nat, a: Answers): (Cluster, Result<(), Failure>)
    requires id in c.backups && id in c.snapshots
  {
    var b := c.backups[id];
    var phase := if c.snapshots[id].ready then Ready else if Expired(c, b) then Error else Creating;
    var (reported, outcome) := WriteStatus(c, id, phase, a);
    if outcome.Err? || phase != Ready then (reported, outcome)
    else Release(reported, id, b.spec, a)
  }

  function CreateSnapshot(c: Cluster, id: nat, a: Answers): (Cluster, Result<(), Failure>)
    requires id in c.backups
  {
    var spec := c.backups[id].spec;
    if spec.pvc !in c.pvcs then (c, Err(NotFound))
    else if c.pvcs[spec.pvc] != spec.uid then (c, Err(Conflict))
    else
      var created := c.(snapshots := c.snapshots[id := Snapshot(spec.pvc, Some(spec.uid), Desired(spec), false)]);
      Report(created, id, a)
  }

  /** With the lock settled: report on the snapshot, never retake a completed one, or take it now. */
  function Proceed(c: Cluster, id: nat, a: Answers): (Cluster, Result<(), Failure>)
    requires id in c.backups
  {
    if id in c.snapshots then Report(c, id, a)
    else if Finished(c.backups[id].phase) then WriteStatus(c, id, Error, a)
    else CreateSnapshot(c, id, a)
  }

  function ReconcileLive(c: Cluster, id: nat, a: Answers): (Cluster, Result<(), Failure>)
    requires id in c.backups
  {
    var b := c.backups[id];
    var missing := id !in c.snapshots && Finished(b.phase);
    var already := id in c.snapshots && c.snapshots[id].ready && b.phase == Ready;
    var (locked, permission) := if missing || already then (c, Ok(true)) else Acquire(c, id, b.spec, a);
    if permission.Err? then (locked, Err(permission.error))
    else if !permission.value then WriteStatus(locked, id, if Expired(c, b) then Error else Creating, a)
    else Proceed(locked, id, a)
  }

  /** The loop's error handling: a lasting failure is recorded as phase error. */
  function Handled(next: Cluster, outcome: Result<(), Failure>, id: nat, a: Answers): Cluster {
    if outcome.Err? && outcome.error in {NotFound, Conflict, Forbidden} && id in next.backups
    then WriteStatus(next, id, Error, a).0
    else next
  }

  function Reconcile(c: Cluster, id: nat, a: Answers): Cluster {
    if id !in c.backups then c else
    var (next, outcome) :=
      if a.listedDeleting && c.backups[id].deleting then ReconcileDeleted(c, id, a) else ReconcileLive(c, id, a);
    Handled(next, outcome, id, a)
  }

  /** One pass of the controller loop over the listed backups, with nothing in between. */
  function Pass(c: Cluster, listing: seq<(nat, Answers)>): Cluster
    decreases |listing|
  {
    if listing == [] then c else
    var (id, a) := listing[|listing| - 1];
    Reconcile(Pass(c, listing[..|listing| - 1]), id, a)
  }
}
