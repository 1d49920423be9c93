/** The backup controller as the imperative loop that updates the API server's objects in place. */
module BackupController {
  import opened Wrappers
  import opened BackupLock
  import opened BackupProtocol
  import opened BackupRefinement

  class Controller {
    var enabled: bool
    var clock: int
    var pvcs: map<string, string>
    var volumes: map<string, Volume>
    var backups: map<nat, Backup>
    var snapshots: map<nat, Snapshot>

    function View(): Cluster
      reads this
    {
      Cluster(enabled, clock, pvcs, volumes, backups, snapshots)
    }

    constructor (enabled: bool)
      ensures View() == Cluster(enabled, 0, map[], map[], map[], map[]) && Invariant(State(View(), Idle))
    {
      this.enabled := enabled;
      clock, pvcs, volumes, backups, snapshots := 0, map[], map[], map[], map[];
    }

    method ReleaseTargetLock(id: nat, spec: Spec, a: Answers) returns (outcome: Result<(), Failure>)
      modifies this`volumes
      ensures (View(), outcome) == Release(old(View()), id, spec, a)
    {
      if !enabled { return Ok(()); }
      var found := BackupVolume(View(), spec, a);
      if found == Ok(None) || found == Err(Conflict) { return Ok(()); }
      if found.Err? { return Err(found.error); }
      var uid := found.value.value;
      if uid !in volumes || volumes[uid].lock != Some(id) { return Ok(()); }
      if a.volumeConflicts { return Err(Storage); }
      volumes := volumes[uid := volumes[uid].(lock := None, target := Default)];
      return Ok(());
    }

    method AcquireTargetLock(id: nat, spec: Spec, a: Answers) returns (granted: Result<bool, Failure>)
      modifies this`volumes
      ensures (View(), granted) == Acquire(old(View()), id, spec, a)
    {
      if !enabled && spec.destination.Some? { return Err(Unavailable); }
      var found := BackupVolume(View(), spec, a);
      if found.Err? { return Err(found.error); }
      if found.value.None? { return Err(NotFound); }
      var uid := found.value.value;
      var volume := volumes[uid];
      if !enabled {
        return if volume.lock.Some? || volume.target.Tenant? then Err(Unavailable) else Ok(true);
      }
      if volume.lock == Some(id) {
        return if volume.target != Desired(spec) then Err(Conflict) else Ok(true);
      }
      if volume.lock.Some? {
        var holder := volume.lock.value;
        if holder in snapshots && !snapshots[holder].ready { return Ok(false); }
        if holder in backups && !Finished(backups[holder].phase) { return Ok(false); }
      }
      if OtherTransfer(View(), id, spec.pvc) { return Ok(false); }
      if spec.destination.Some? {
        match a.destination {
          case DestinationForeign => return Err(Forbidden);
          case DestinationUnreachable => return Err(Unavailable);
          case DestinationNotReady => return Ok(false);
          case DestinationReady =>
        }
      }
      if a.volumeConflicts { return Ok(false); }
      volumes := volumes[uid := volume.(lock := Some(id), target := Desired(spec))];
      return Ok(true);
    }

    method SetStatus(id: nat, phase: Phase, a: Answers) returns (outcome: Result<(), Failure>)
      requires id in backups
      modifies this`backups
      ensures (View(), outcome) == WriteStatus(old(View()), id, phase, a)
    {
      if backups[id].phase == phase { return Ok(()); }
      if a.statusConflicts { return Err(Storage); }
      backups := backups[id := backups[id].(phase := phase)];
      return Ok(());
    }

    method ReconcileDeletion(id: nat, a: Answers) returns (outcome: Result<(), Failure>)
      requires id in backups
      modifies this`volumes, this`backups
      ensures (View(), outcome) == ReconcileDeleted(old(View()), id, a)
    {
      if a.offsiteLocked || a.restorePending || id in snapshots { return Ok(()); }
      outcome := ReleaseTargetLock(id, backups[id].spec, a);
      if outcome.Err? { return; }
      if a.finalizerConflicts { return Err(Storage); }
      backups := backups - {id};
    }

    method TakeAndReport(id: nat, a: Answers) returns (outcome: Result<(), Failure>)
      requires id in backups
      modifies this`volumes, this`backups, this`snapshots
      ensures (View(), outcome) == Proceed(old(View()), id, a)
    {
      var b := backups[id];
      if id !in snapshots {
        if Finished(b.phase) {
          outcome := SetStatus(id, Error, a);
          return;
        }
        if b.spec.pvc !in pvcs { return Err(NotFound); }
        if pvcs[b.spec.pvc] != b.spec.uid { return Err(Conflict); }
        snapshots := snapshots[id := Snapshot(b.spec.pvc, Some(b.spec.uid), Desired(b.spec), false)];
      }
      var phase := if snapshots[id].ready then Ready else if Expired(View(), b) then Error else Creating;
      outcome := SetStatus(id, phase, a);
      if outcome.Ok? && phase == Ready {
        outcome := ReleaseTargetLock(id, b.spec, a);
      }
    }

    method ReconcileOne(id: nat, a: Answers) returns (outcome: Result<(), Failure>)
      requires id in backups
      modifies this`volumes, this`backups, this`snapshots
      ensures (View(), outcome) ==
        if a.listedDeleting && old(backups)[id].deleting then ReconcileDeleted(old(View()), id, a)
        else ReconcileLive(old(View()), id, a)
    {
      if a.listedDeleting && backups[id].deleting {
        outcome := ReconcileDeletion(id, a);
        return;
      }
      var b := backups[id];
      var missing := id !in snapshots && Finished(b.phase);
      var already := id in snapshots && snapshots[id].ready && b.phase == Ready;
      if !missing && !already {
        var granted := AcquireTargetLock(id, b.spec, a);
        if granted.Err? { return Err(granted.error); }
        if !granted.value {
          outcome := SetStatus(id, if Expired(View(), b) then Error else Creating, a);
          return;
        }
      }
      outcome := TakeAndReport(id, a);
    }

    /** One backup of a pass: reconcile it, and record a lasting failure as phase error. */
    method ReconcileListed(id: nat, a: Answers)
      modifies this`volumes, this`backups, this`snapshots
      ensures View() == Reconcile(old(View()), id, a)
    {
      if id in backups {
        var outcome := ReconcileOne(id, a);
        if outcome.Err? && outcome.error in {NotFound, Conflict, Forbidden} && id in backups {
          var _ := SetStatus(id, Error, a);
        }
      }
    }

    /** One pass of the controller loop over the listed backups. */
    method RunPass(listing: seq<(nat, Answers)>)
      requires Invariant(State(View(), Idle))
      modifies this`volumes, this`backups, this`snapshots
      ensures View() == Pass(old(View()), listing)
      ensures Invariant(State(View(), Idle)) && OnCourse(View())
    {
      for i := 0 to |listing|
        invariant View() == Pass(old(View()), listing[..i])
      {
        assert listing[..i + 1][..i] == listing[..i];
        ReconcileListed(listing[i].0, listing[i].1);
      }
      assert listing[..|listing|] == listing;
      PassKeepsInvariant(old(View()), listing);
    }
  }
}
