/** Calls that nothing interrupts add up to one reconciliation as a whole. */
module BackupRefinement {
  import opened Wrappers
  import opened BackupLock
  import opened BackupProtocol

  function Iterate(s: State, a: Answers, n: nat): State
    decreases n
  {
    if n == 0 then s else Iterate(Advance(s, a), a, n - 1)
  }

  /** Some number of calls, with nothing in between, ends the reconciliation in cluster `c`. */
  ghost predicate Finishes(s: State, a: Answers, c: Cluster) {
    exists n: nat :: Iterate(s, a, n) == State(c, Idle)
  }

  lemma Now(c: Cluster, a: Answers)
    ensures Finishes(State(c, Idle), a, c)
  {
    assert Iterate(State(c, Idle), a, 0) == State(c, Idle);
  }

  lemma Later(s: State, a: Answers, c: Cluster)
    requires Finishes(Advance(s, a), a, c)
    ensures Finishes(s, a, c)
  {
    var n: nat :| Iterate(Advance(s, a), a, n) == State(c, Idle);
    assert Iterate(s, a, n + 1) == State(c, Idle);
  }

  // ----- From the last calls to the first -----

  /** The cluster once a release has come to its end. */
  function Released(c: Cluster, outcome: Result<(), Failure>, id: nat, a: Answers, after: After): Cluster {
    if outcome.Err? || after.ThenDone? || a.finalizerConflicts then c else c.(backups := c.backups - {id})
  }

  lemma FinishFinishes(c: Cluster, id: nat, b: Backup, a: Answers, after: After)
    ensures Finishes(State(c, Finish(id, b, after)), a, Released(c, Ok(()), id, a, after))
  {
    Now(Released(c, Ok(()), id, a, after), a);
    if after.ThenFinalize? { Later(State(c, Finalizing(id, b)), a, Released(c, Ok(()), id, a, after)); }
  }

  lemma ClearingFinishes(c: Cluster, id: nat, b: Backup, a: Answers, after: After)
    requires b.spec.uid in c.volumes
    ensures var volume := c.volumes[b.spec.uid].(lock := None, target := Default);
      var cleared := c.(volumes := c.volumes[b.spec.uid := volume]);
      Finishes(State(c, Clearing(id, b, after)), a,
        if a.volumeConflicts then c else Released(cleared, Ok(()), id, a, after))
  {
    var s' := Advance(State(c, Clearing(id, b, after)), a);
    if a.volumeConflicts {
      Now(c, a);
      Later(State(c, Clearing(id, b, after)), a, c);
    } else {
      FinishFinishes(s'.c, id, b, a, after);
      Later(State(c, Clearing(id, b, after)), a, Released(s'.c, Ok(()), id, a, after));
    }
  }

  lemma UnclaimingFinishes(c: Cluster, id: nat, b: Backup, a: Answers, after: After)
    requires c.enabled && b.spec.pvc in c.pvcs && c.pvcs[b.spec.pvc] == b.spec.uid
    ensures var (released, outcome) := Release(c, id, b.spec, a);
      Finishes(State(c, Unclaiming(id, b, after)), a, Released(released, outcome, id, a, after))
  {
    var (released, outcome) := Release(c, id, b.spec, a);
    var s' := Advance(State(c, Unclaiming(id, b, after)), a);
    if s'.stage == Clearing(id, b, after) {
      ClearingFinishes(c, id, b, a, after);
    } else if !a.volumeReadable {
      Now(c, a);
    } else {
      FinishFinishes(c, id, b, a, after);
    }
    Later(State(c, Unclaiming(id, b, after)), a, Released(released, outcome, id, a, after));
  }

  lemma UnlockingFinishes(c: Cluster, id: nat, b: Backup, a: Answers, after: After)
    ensures var (released, outcome) := Release(c, id, b.spec, a);
      Finishes(State(c, Unlocking(id, b, after)), a, Released(released, outcome, id, a, after))
  {
    var (released, outcome) := Release(c, id, b.spec, a);
    if !c.enabled || b.spec.pvc !in c.pvcs || c.pvcs[b.spec.pvc] != b.spec.uid {
      FinishFinishes(c, id, b, a, after);
    } else {
      UnclaimingFinishes(c, id, b, a, after);
    }
    Later(State(c, Unlocking(id, b, after)), a, Released(released, outcome, id, a, after));
  }

  /** The listed copy is the backup as it still is. */
  ghost predicate Current(c: Cluster, id: nat, b: Backup) {
    && id in c.backups && c.backups[id].spec == b.spec && c.backups[id].phase == b.phase
    && c.backups[id].createdAt == b.createdAt
  }

  lemma ReportingFinishes(c: Cluster, id: nat, b: Backup, a: Answers)
    requires Current(c, id, b) && id in c.snapshots
    ensures Finishes(State(c, Reporting(id, b, c.snapshots[id].ready)), a, Report(c, id, a).0)
    ensures Report(c, id, a).1.Err? ==> Report(c, id, a).1.error == Storage
  {
    var s := State(c, Reporting(id, b, c.snapshots[id].ready));
    var s' := Advance(s, a);
    if s'.stage.Unlocking? {
      UnlockingFinishes(s'.c, id, b, a, ThenDone);
    } else {
      Now(s'.c, a);
    }
    Later(s, a, Report(c, id, a).0);
  }

  lemma StatusFinishes(c: Cluster, id: nat, b: Backup, a: Answers)
    requires id in c.backups
    ensures Finishes(State(c, Waiting(id, b)), a, WriteStatus(c, id, PhaseOf(c, b, false), a).0)
    ensures Finishes(State(c, Lost(id, b)), a, WriteStatus(c, id, Error, a).0)
    ensures Finishes(State(c, Failing(id, b)), a, WriteStatus(c, id, Error, a).0)
  {
    Now(WriteStatus(c, id, PhaseOf(c, b, false), a).0, a);
    Now(WriteStatus(c, id, Error, a).0, a);
    Later(State(c, Waiting(id, b)), a, WriteStatus(c, id, PhaseOf(c, b, false), a).0);
    Later(State(c, Lost(id, b)), a, WriteStatus(c, id, Error, a).0);
    Later(State(c, Failing(id, b)), a, WriteStatus(c, id, Error, a).0);
  }

  lemma FailedFinishes(c: Cluster, id: nat, b: Backup, a: Answers, failure: Failure)
    requires id in c.backups
    ensures Finishes(State(c, Failed(id, b, failure)), a, Handled(c, Err(failure), id, a))
  {
    Now(c, a);
    StatusFinishes(c, id, b, a);
  }

  lemma TakingFinishes(c: Cluster, id: nat, b: Backup, a: Answers)
    requires Current(c, id, b) && id !in c.snapshots && b.spec.pvc in c.pvcs && c.pvcs[b.spec.pvc] == b.spec.uid
    ensures var (next, outcome) := CreateSnapshot(c, id, a);
      Finishes(State(c, Taking(id, b)), a, Handled(next, outcome, id, a))
  {
    var s' := Advance(State(c, Taking(id, b)), a);
    ReportingFinishes(s'.c, id, b, a);
    Later(State(c, Taking(id, b)), a, Report(s'.c, id, a).0);
  }

  lemma VerifyingFinishes(c: Cluster, id: nat, b: Backup, a: Answers)
    requires Current(c, id, b) && id !in c.snapshots
    ensures var (next, outcome) := CreateSnapshot(c, id, a);
      Finishes(State(c, Verifying(id, b)), a, Handled(next, outcome, id, a))
  {
    var (next, outcome) := CreateSnapshot(c, id, a);
    if b.spec.pvc !in c.pvcs {
      FailedFinishes(c, id, b, a, NotFound);
    } else if c.pvcs[b.spec.pvc] != b.spec.uid {
      FailedFinishes(c, id, b, a, Conflict);
    } else {
      TakingFinishes(c, id, b, a);
    }
    Later(State(c, Verifying(id, b)), a, Handled(next, outcome, id, a));
  }

  /** What the controller has seen of the backup's own snapshot is what is there. */
  function SeenIn(c: Cluster, id: nat): Option<bool> {
    if id in c.snapshots then Some(c.snapshots[id].ready) else None
  }

  lemma SettledFinishes(c: Cluster, id: nat, b: Backup, a: Answers)
    requires Current(c, id, b)
    ensures var (next, outcome) := Proceed(c, id, a);
      Finishes(State(c, Settled(id, b, SeenIn(c, id))), a, Handled(next, outcome, id, a))
  {
    if id in c.snapshots {
      ReportingFinishes(c, id, b, a);
    } else if Finished(b.phase) {
      StatusFinishes(c, id, b, a);
    } else {
      VerifyingFinishes(c, id, b, a);
    }
  }

  // ----- The calls of an acquisition -----

  /** The rest of a reconciliation after the acquisition has answered. */
  function Answered(locked: Cluster, permission: Result<bool, Failure>, id: nat, b: Backup, a: Answers): Cluster {
    if id !in locked.backups then locked
    else if permission.Err? then Handled(locked, Err(permission.error), id, a)
    else if !permission.value then WriteStatus(locked, id, PhaseOf(locked, b, false), a).0
    else var (next, outcome) := Proceed(locked, id, a); Handled(next, outcome, id, a)
  }

  lemma WaitingFinishes(c: Cluster, id: nat, b: Backup, a: Answers)
    requires Current(c, id, b)
    ensures Finishes(State(c, Waiting(id, b)), a, Answered(c, Ok(false), id, b, a))
  {
    StatusFinishes(c, id, b, a);
  }

  lemma LockingFinishes(c: Cluster, id: nat, b: Backup, a: Answers)
    requires Current(c, id, b) && b.spec.uid in c.volumes
    ensures var locked := c.(volumes := c.volumes[b.spec.uid :=
                               c.volumes[b.spec.uid].(lock := Some(id), target := Desired(b.spec))]);
      Finishes(State(c, Locking(id, b, SeenIn(c, id))), a,
        if a.volumeConflicts then Answered(c, Ok(false), id, b, a) else Answered(locked, Ok(true), id, b, a))
  {
    var s := State(c, Locking(id, b, SeenIn(c, id)));
    var s' := Advance(s, a);
    if a.volumeConflicts {
      WaitingFinishes(c, id, b, a);
      Later(s, a, Answered(c, Ok(false), id, b, a));
    } else {
      SettledFinishes(s'.c, id, b, a);
      Later(s, a, Answered(s'.c, Ok(true), id, b, a));
    }
  }

  /** What an acquisition answers once no other transfer is in the way. */
  function Locked(c: Cluster, id: nat, spec: Spec, a: Answers): (Cluster, Result<bool, Failure>)
    requires spec.uid in c.volumes
  {
    if spec.destination.Some? && a.destination == DestinationForeign then (c, Err(Forbidden))
    else if spec.destination.Some? && a.destination == DestinationUnreachable then (c, Err(Unavailable))
    else if spec.destination.Some? && a.destination == DestinationNotReady then (c, Ok(false))
    else if a.volumeConflicts then (c, Ok(false))
    else
      var volume := c.volumes[spec.uid].(lock := Some(id), target := Desired(spec));
      (c.(volumes := c.volumes[spec.uid := volume]), Ok(true))
  }

  lemma TargetingFinishes(c: Cluster, id: nat, b: Backup, a: Answers)
    requires Current(c, id, b) && b.spec.uid in c.volumes && b.spec.destination.Some?
    ensures var (locked, permission) := Locked(c, id, b.spec, a);
      Finishes(State(c, Targeting(id, b, SeenIn(c, id))), a, Answered(locked, permission, id, b, a))
  {
    var (locked, permission) := Locked(c, id, b.spec, a);
    match a.destination {
      case DestinationForeign => FailedFinishes(c, id, b, a, Forbidden);
      case DestinationUnreachable => FailedFinishes(c, id, b, a, Unavailable);
      case DestinationNotReady => WaitingFinishes(c, id, b, a);
      case DestinationReady => LockingFinishes(c, id, b, a);
    }
    Later(State(c, Targeting(id, b, SeenIn(c, id))), a, Answered(locked, permission, id, b, a));
  }

  lemma ListingFinishes(c: Cluster, id: nat, b: Backup, a: Answers)
    requires Current(c, id, b) && b.spec.uid in c.volumes
    ensures var (locked, permission) :=
        if OtherTransfer(c, id, b.spec.pvc) then (c, Ok(false)) else Locked(c, id, b.spec, a);
      Finishes(State(c, Listing(id, b, SeenIn(c, id))), a, Answered(locked, permission, id, b, a))
  {
    var (locked, permission) :=
      if OtherTransfer(c, id, b.spec.pvc) then (c, Ok(false)) else Locked(c, id, b.spec, a);
    if OtherTransfer(c, id, b.spec.pvc) {
      WaitingFinishes(c, id, b, a);
    } else if b.spec.destination.Some? {
      TargetingFinishes(c, id, b, a);
    } else {
      LockingFinishes(c, id, b, a);
    }
    Later(State(c, Listing(id, b, SeenIn(c, id))), a, Answered(locked, permission, id, b, a));
  }

  lemma ContendingFinishes(c: Cluster, id: nat, b: Backup, a: Answers, holder: nat)
    requires Current(c, id, b) && b.spec.uid in c.volumes
    ensures var (locked, permission) :=
        if HolderBusy(c, holder) || OtherTransfer(c, id, b.spec.pvc) then (c, Ok(false)) else Locked(c, id, b.spec, a);
      Finishes(State(c, Contending(id, b, SeenIn(c, id), holder)), a, Answered(locked, permission, id, b, a))
  {
    var (locked, permission) :=
      if HolderBusy(c, holder) || OtherTransfer(c, id, b.spec.pvc) then (c, Ok(false)) else Locked(c, id, b.spec, a);
    var s := State(c, Contending(id, b, SeenIn(c, id), holder));
    var s' := Advance(s, a);
    if HolderBusy(c, holder) { WaitingFinishes(c, id, b, a); } else { ListingFinishes(c, id, b, a); }
    Later(s', a, Answered(locked, permission, id, b, a));
    Later(s, a, Answered(locked, permission, id, b, a));
  }

  lemma ClaimedFinishes(c: Cluster, id: nat, b: Backup, a: Answers)
    requires Current(c, id, b) && (!c.enabled ==> b.spec.destination.None?)
    requires b.spec.pvc in c.pvcs && c.pvcs[b.spec.pvc] == b.spec.uid
    ensures var (locked, permission) := Acquire(c, id, b.spec, a);
      Finishes(State(c, Claimed(id, b, SeenIn(c, id), c.enabled)), a, Answered(locked, permission, id, b, a))
  {
    var (locked, permission) := Acquire(c, id, b.spec, a);
    var s := State(c, Claimed(id, b, SeenIn(c, id), c.enabled));
    var s' := Advance(s, a);
    if s'.stage.Contending? {
      ContendingFinishes(c, id, b, a, s'.stage.holder);
    } else if s'.stage.Listing? {
      ListingFinishes(c, id, b, a);
    } else if permission.Err? {
      FailedFinishes(c, id, b, a, permission.error);
    } else {
      SettledFinishes(c, id, b, a);
    }
    Later(s, a, Answered(locked, permission, id, b, a));
  }

  lemma AcquiringFinishes(c: Cluster, id: nat, b: Backup, a: Answers)
    requires Current(c, id, b)
    ensures var (locked, permission) := Acquire(c, id, b.spec, a);
      Finishes(State(c, Acquiring(id, b, SeenIn(c, id))), a, Answered(locked, permission, id, b, a))
  {
    var (locked, permission) := Acquire(c, id, b.spec, a);
    var s := State(c, Acquiring(id, b, SeenIn(c, id)));
    var s' := Advance(s, a);
    if s'.stage.Claimed? {
      ClaimedFinishes(c, id, b, a);
    } else {
      FailedFinishes(c, id, b, a, permission.error);
    }
    Later(s, a, Answered(locked, permission, id, b, a));
  }

  // ----- One whole reconciliation -----

  lemma DeletedFinishes(c: Cluster, id: nat, b: Backup, a: Answers)
    requires Current(c, id, b) && b.deleting
    ensures var (next, outcome) := ReconcileDeleted(c, id, a);
      Finishes(State(c, Begun(id, b)), a, Handled(next, outcome, id, a))
  {
    var (next, outcome) := ReconcileDeleted(c, id, a);
    if a.offsiteLocked || a.restorePending || id in c.snapshots {
      Now(c, a);
    } else {
      UnlockingFinishes(c, id, b, a, ThenFinalize);
    }
    Later(State(c, Begun(id, b)), a, Handled(next, outcome, id, a));
  }

  lemma LiveFinishes(c: Cluster, id: nat, b: Backup, a: Answers)
    requires Current(c, id, b) && !b.deleting
    ensures var (next, outcome) := ReconcileLive(c, id, a);
      Finishes(State(c, Begun(id, b)), a, Handled(next, outcome, id, a))
  {
    var (next, outcome) := ReconcileLive(c, id, a);
    var s' := Advance(State(c, Begun(id, b)), a);
    if s'.stage.Acquiring? {
      AcquiringFinishes(c, id, b, a);
    } else {
      SettledFinishes(c, id, b, a);
    }
    Later(State(c, Begun(id, b)), a, Handled(next, outcome, id, a));
  }

  /** Uninterrupted, the calls of a reconciliation do exactly what the reconciliation as a whole does. */
  lemma ReconcileFinishes(c: Cluster, id: nat, a: Answers)
    requires id in c.backups
    ensures Finishes(State(c, Begun(id, Listed(c.backups[id], a.listedDeleting))), a, Reconcile(c, id, a))
  {
    var b := Listed(c.backups[id], a.listedDeleting);
    if b.deleting { DeletedFinishes(c, id, b, a); } else { LiveFinishes(c, id, b, a); }
  }

  lemma {:induction false} IterateKeepsInvariant(s: State, a: Answers, n: nat)
    requires Invariant(s)
    ensures Invariant(Iterate(s, a, n))
    decreases n
  {
    if n > 0 {
      AdvanceKeepsInvariant(s, a);
      IterateKeepsInvariant(Advance(s, a), a, n - 1);
    }
  }

  lemma ReconcileKeepsInvariant(c: Cluster, id: nat, a: Answers)
    requires Invariant(State(c, Idle))
    ensures Invariant(State(Reconcile(c, id, a), Idle))
  {
    if id in c.backups {
      var s := Step(State(c, Idle), Begin(id, a.listedDeleting));
      StepKeepsInvariant(State(c, Idle), Begin(id, a.listedDeleting));
      ReconcileFinishes(c, id, a);
      var n: nat :| Iterate(s, a, n) == State(Reconcile(c, id, a), Idle);
      IterateKeepsInvariant(s, a, n);
    }
  }

  lemma {:induction false} PassKeepsInvariant(c: Cluster, listing: seq<(nat, Answers)>)
    requires Invariant(State(c, Idle))
    ensures Invariant(State(Pass(c, listing), Idle))
    decreases |listing|
  {
    if listing != [] {
      var before := listing[..|listing| - 1];
      PassKeepsInvariant(c, before);
      ReconcileKeepsInvariant(Pass(c, before), listing[|listing| - 1].0, listing[|listing| - 1].1);
    }
  }
}
