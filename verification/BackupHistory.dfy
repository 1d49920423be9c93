/** A finished backup is never taken again, whatever happens between the calls of the controller. */
module BackupHistory {
  import opened Wrappers
  import opened BackupLock
  import opened BackupProtocol

  // ----- A second invariant -----

  /** The claim the backup was made of no longer has its name; claims are never rebound to an earlier disk. */
  predicate ClaimGone(c: Cluster, spec: Spec) {
    spec.pvc !in c.pvcs || c.pvcs[spec.pvc] != spec.uid
  }

  /** From here on every reconciliation of the backup ends in "error" again. */
  predicate Final(c: Cluster, b: Backup) {
    Expired(c, b) || ClaimGone(c, b.spec)
  }

  ghost predicate ErrorOk(c: Cluster, id: nat)
    requires id in c.backups
  {
    c.backups[id].phase == Error && id in c.snapshots ==> Final(c, c.backups[id])
  }

  /** A backup for a tenant target keeps the lock from its snapshot until it is finished. */
  ghost predicate HoldsOn(c: Cluster, id: nat)
    requires id in c.snapshots
  {
    id in c.backups && c.backups[id].spec.destination.Some? && !Finished(c.backups[id].phase)
    && !ClaimGone(c, c.backups[id].spec) ==>
      c.backups[id].spec.uid in c.volumes && c.volumes[c.backups[id].spec.uid].lock == Some(id)
  }

  ghost predicate LockOk(c: Cluster, uid: string)
    requires uid in c.volumes
  {
    c.volumes[uid].lock.Some? && c.volumes[uid].lock.value in c.backups ==>
      var spec := c.backups[c.volumes[uid].lock.value].spec;
      spec.uid == uid && c.volumes[uid].target == Desired(spec)
  }

  ghost predicate Orderly(c: Cluster) {
    && (forall id <- c.backups :: ErrorOk(c, id))
    && (forall id <- c.snapshots :: HoldsOn(c, id))
    && (forall uid <- c.volumes :: LockOk(c, uid))
  }

  ghost predicate Dated(c: Cluster, id: nat, b: Backup) {
    id in c.backups && c.backups[id].createdAt == b.createdAt && c.backups[id].spec == b.spec
  }

  ghost predicate OnlyExpired(c: Cluster, id: nat, b: Backup) {
    Dated(c, id, b) && (Finished(b.phase) ==> Expired(c, b))
  }

  ghost predicate Resolved(c: Cluster, id: nat, b: Backup) {
    OnlyExpired(c, id, b) && (b.spec.destination.Some? && id in c.snapshots ==> Final(c, b))
  }

  ghost predicate HolderDone(c: Cluster, holder: nat) {
    holder in c.snapshots && holder in c.backups ==> Finished(c.backups[holder].phase)
  }

  /** Whoever holds the lock of the volume has finished. */
  ghost predicate LockFree(c: Cluster, uid: string) {
    uid in c.volumes && c.volumes[uid].lock.Some? ==> HolderDone(c, c.volumes[uid].lock.value)
  }

  ghost predicate HeldBy(c: Cluster, uid: string, holder: nat) {
    uid in c.volumes && c.volumes[uid].lock == Some(holder)
  }

  ghost predicate StageOrderly(c: Cluster, stage: Stage) {
    match stage
    case Begun(id, b) => Dated(c, id, b)
    case Acquiring(id, b, _) => Dated(c, id, b) && (Finished(b.phase) ==> Final(c, b))
    case Claimed(id, b, _, _) => OnlyExpired(c, id, b)
    case Contending(id, b, _, holder) => Resolved(c, id, b) && HeldBy(c, b.spec.uid, holder)
    case HolderRead(id, b, _, holder, busy) =>
      Resolved(c, id, b) && HeldBy(c, b.spec.uid, holder) && (!busy ==> HolderDone(c, holder))
    case Listing(id, b, _) => Resolved(c, id, b) && LockFree(c, b.spec.uid)
    case Targeting(id, b, _) => Resolved(c, id, b) && LockFree(c, b.spec.uid) && b.spec.destination.Some?
    case Locking(id, b, _) => Resolved(c, id, b) && LockFree(c, b.spec.uid)
    case Waiting(id, b) => OnlyExpired(c, id, b)
    case Verifying(id, b) => Dated(c, id, b)
    case Taking(id, b) => Dated(c, id, b)
    case Reporting(id, b, ready) => Dated(c, id, b) && (!ready && Finished(b.phase) ==> Expired(c, b))
    case Unlocking(id, b, after) => Concluded(c, id, b, after)
    case Unclaiming(id, b, after) => Concluded(c, id, b, after)
    case Clearing(id, b, after) => Concluded(c, id, b, after)
    case Failing(id, b) => Dated(c, id, b) && (id in c.snapshots ==> Final(c, b))
    case _ => true
  }

  ghost predicate Concluded(c: Cluster, id: nat, b: Backup, after: After) {
    Dated(c, id, b) && (after.ThenDone? ==> Finished(c.backups[id].phase))
  }

  ghost predicate Ordered(s: State) {
    Invariant(s) && Orderly(s.c) && StageOrderly(s.c, s.stage)
  }

  // ----- Changes from outside -----

  lemma FinalEvolves(c: Cluster, c': Cluster, b: Backup)
    requires Evolves(c, c') && Final(c, b) && b.spec.uid in c.volumes
    ensures Final(c', b)
  {
  }

  lemma BackupEvolves(c: Cluster, c': Cluster, id: nat)
    requires Linked(c) && Orderly(c) && Evolves(c, c') && id in c'.backups
    ensures ErrorOk(c', id)
    ensures id in c'.snapshots ==> HoldsOn(c', id)
  {
    assert id in c.snapshots ==> SnapshotLinked(c, id);
    if id in c.backups {
      assert ErrorOk(c, id);
      if Final(c, c.backups[id]) { FinalEvolves(c, c', c.backups[id]); }
      if id in c'.snapshots { assert HoldsOn(c, id); }
    }
  }

  lemma OrderlyEvolves(c: Cluster, c': Cluster)
    requires Linked(c) && Orderly(c) && Evolves(c, c')
    ensures Orderly(c')
  {
    forall id <- c'.backups ensures ErrorOk(c', id) { BackupEvolves(c, c', id); }
    forall id <- c'.snapshots ensures HoldsOn(c', id) {
      if id in c'.backups { BackupEvolves(c, c', id); }
    }
    forall uid <- c'.volumes ensures LockOk(c', uid) {
      if uid in c.volumes { assert LockOk(c, uid); }
    }
  }

  lemma FactsEvolve(c: Cluster, c': Cluster, id: nat, b: Backup)
    requires Linked(c) && Evolves(c, c') && Dated(c, id, b)
    ensures Dated(c', id, b)
    ensures Final(c, b) ==> Final(c', b)
    ensures OnlyExpired(c, id, b) ==> OnlyExpired(c', id, b)
    ensures Resolved(c, id, b) ==> Resolved(c', id, b)
    ensures id in c'.snapshots ==> id in c.snapshots
    ensures b.spec.uid in c.volumes && c'.volumes[b.spec.uid] == c.volumes[b.spec.uid]
  {
    if Final(c, b) { FinalEvolves(c, c', b); }
  }

  lemma HolderEvolves(c: Cluster, c': Cluster, holder: nat)
    requires Linked(c) && Evolves(c, c') && HolderDone(c, holder)
    ensures HolderDone(c', holder)
  {
    assert holder in c.snapshots ==> SnapshotLinked(c, holder);
  }

  lemma LockFreeEvolves(c: Cluster, c': Cluster, id: nat, b: Backup)
    requires Linked(c) && Evolves(c, c') && Dated(c, id, b) && LockFree(c, b.spec.uid)
    ensures LockFree(c', b.spec.uid)
  {
    FactsEvolve(c, c', id, b);
    if c.volumes[b.spec.uid].lock.Some? { HolderEvolves(c, c', c.volumes[b.spec.uid].lock.value); }
  }

  predicate Contests(stage: Stage) {
    stage.Contending? || stage.HolderRead? || stage.Listing? || stage.Targeting? || stage.Locking?
  }

  lemma ContestEvolves(c: Cluster, c': Cluster, stage: Stage)
    requires Linked(c) && StageOrderly(c, stage) && Evolves(c, c') && Contests(stage)
    ensures StageOrderly(c', stage)
  {
    FactsEvolve(c, c', stage.id, stage.b);
    if stage.HolderRead? {
      if !stage.busy { HolderEvolves(c, c', stage.holder); }
    } else if !stage.Contending? {
      LockFreeEvolves(c, c', stage.id, stage.b);
    }
  }

  lemma UncontestedEvolves(c: Cluster, c': Cluster, stage: Stage)
    requires Linked(c) && StageOrderly(c, stage) && Evolves(c, c') && !Contests(stage)
    requires !stage.Idle? && !stage.Lost? && !stage.Finalizing?
    ensures StageOrderly(c', stage)
  {
    FactsEvolve(c, c', stage.id, stage.b);
  }

  lemma StageOrderlyEvolves(c: Cluster, c': Cluster, stage: Stage)
    requires Linked(c) && StageOrderly(c, stage) && Evolves(c, c')
    ensures StageOrderly(c', stage)
  {
    if Contests(stage) {
      ContestEvolves(c, c', stage);
    } else if !stage.Idle? && !stage.Lost? && !stage.Finalizing? {
      UncontestedEvolves(c, c', stage);
    }
  }

  // ----- Reads -----

  lemma OwnSnapshotOrderly(c: Cluster, id: nat, b: Backup, a: Answers)
    requires Linked(c) && Orderly(c) && StageOk(c, Begun(id, b)) && Dated(c, id, b)
    ensures StageOrderly(c, ReadOwnSnapshot(c, id, b, a))
  {
    assert ErrorOk(c, id);
    if id in c.snapshots { assert SnapshotLinked(c, id); }
  }

  lemma ClaimOrderly(c: Cluster, id: nat, b: Backup, seen: Option<bool>)
    requires StageOrderly(c, Acquiring(id, b, seen))
    ensures StageOrderly(c, ReadClaim(c, id, b, seen))
  {
  }

  lemma VolumeOrderly(c: Cluster, id: nat, b: Backup, seen: Option<bool>, flag: bool, a: Answers)
    requires Linked(c) && Orderly(c) && StageOk(c, Claimed(id, b, seen, flag))
    requires StageOrderly(c, Claimed(id, b, seen, flag))
    ensures StageOrderly(c, ReadVolume(c, id, b, seen, flag, a))
  {
    assert LockOk(c, b.spec.uid);
    if id in c.snapshots { assert HoldsOn(c, id); }
  }

  lemma ContestOrderly(c: Cluster, stage: Stage, a: Answers)
    requires Linked(c) && StageOrderly(c, stage)
    requires stage.Contending? || stage.HolderRead? || stage.Listing? || stage.Targeting?
    ensures StageOrderly(c, Read(c, stage, a))
  {
    if stage.Contending? { assert stage.holder in c.snapshots ==> SnapshotLinked(c, stage.holder); }
  }

  lemma UnlockReadOrderly(c: Cluster, stage: Stage, a: Answers)
    requires StageOrderly(c, stage) && StageOk(c, stage)
    requires stage.Verifying? || stage.Unlocking? || stage.Unclaiming?
    ensures StageOrderly(c, Read(c, stage, a))
  {
  }

  lemma ReadOrderly(c: Cluster, stage: Stage, a: Answers)
    requires Linked(c) && Orderly(c) && StageOk(c, stage) && StageOrderly(c, stage) && !Writes(stage)
    ensures StageOrderly(c, Read(c, stage, a))
  {
    match stage
    case Idle =>
    case Begun(id, b) => OwnSnapshotOrderly(c, id, b, a);
    case Acquiring(id, b, seen) => ClaimOrderly(c, id, b, seen);
    case Claimed(id, b, seen, flag) => VolumeOrderly(c, id, b, seen, flag, a);
    case Verifying(id, b) => UnlockReadOrderly(c, stage, a);
    case Unlocking(id, b, after) => UnlockReadOrderly(c, stage, a);
    case Unclaiming(id, b, after) => UnlockReadOrderly(c, stage, a);
    case _ => ContestOrderly(c, stage, a);
  }

  // ----- Writes -----

  /** A phase write that keeps finished backups finished, and concludes in "error" only where that is final. */
  lemma StatusOrderly(c: Cluster, id: nat, phase: Phase, a: Answers)
    requires Orderly(c) && id in c.backups
    requires phase == Error && id in c.snapshots ==> Final(c, c.backups[id])
    requires Finished(c.backups[id].phase) ==> Finished(phase)
    ensures Orderly(PutStatus(c, id, phase, a).0)
  {
    var c' := PutStatus(c, id, phase, a).0;
    forall other <- c'.backups ensures ErrorOk(c', other) { assert ErrorOk(c, other); }
    forall other <- c'.snapshots ensures HoldsOn(c', other) { assert HoldsOn(c, other); }
    forall uid <- c'.volumes ensures LockOk(c', uid) { assert LockOk(c, uid); }
  }

  lemma LockOrderly(c: Cluster, id: nat, b: Backup)
    requires Linked(c) && Orderly(c) && Known(c, id, b) && LockFree(c, b.spec.uid)
    ensures var volume := c.volumes[b.spec.uid].(lock := Some(id), target := Desired(b.spec));
      Orderly(c.(volumes := c.volumes[b.spec.uid := volume]))
  {
    var uid := b.spec.uid;
    var c' := c.(volumes := c.volumes[uid := c.volumes[uid].(lock := Some(id), target := Desired(b.spec))]);
    forall other <- c'.backups ensures ErrorOk(c', other) { assert ErrorOk(c, other); }
    forall other <- c'.snapshots ensures HoldsOn(c', other) { assert HoldsOn(c, other); }
    forall u <- c'.volumes ensures LockOk(c', u) { assert LockOk(c, u); }
  }

  lemma UnlockOrderly(c: Cluster, id: nat, b: Backup)
    requires Linked(c) && Orderly(c) && Known(c, id, b) && c.volumes[b.spec.uid].lock == Some(id)
    requires id !in c.snapshots || Finished(c.backups[id].phase)
    ensures var volume := c.volumes[b.spec.uid].(lock := None, target := Default);
      Orderly(c.(volumes := c.volumes[b.spec.uid := volume]))
  {
    var uid := b.spec.uid;
    var c' := c.(volumes := c.volumes[uid := c.volumes[uid].(lock := None, target := Default)]);
    forall other <- c'.backups ensures ErrorOk(c', other) { assert ErrorOk(c, other); }
    forall other <- c'.snapshots ensures HoldsOn(c', other) { assert HoldsOn(c, other); }
    forall u <- c'.volumes ensures LockOk(c', u) { assert LockOk(c, u); }
  }

  lemma TakeOrderly(c: Cluster, id: nat, b: Backup)
    requires Sound(c) && Orderly(c) && StageOk(c, Taking(id, b))
    ensures Orderly(PutSnapshot(c, id, b).c)
  {
    var c' := PutSnapshot(c, id, b).c;
    assert VolumeOk(c, b.spec.uid);
    forall other <- c'.backups ensures ErrorOk(c', other) { assert ErrorOk(c, other); }
    forall other <- c'.snapshots ensures HoldsOn(c', other) {
      if other != id { assert HoldsOn(c, other); }
    }
    forall u <- c'.volumes ensures LockOk(c', u) { assert LockOk(c, u); }
  }

  lemma DropOrderly(c: Cluster, id: nat)
    requires Orderly(c) && id !in c.snapshots
    ensures Orderly(c.(backups := c.backups - {id}))
  {
    var c' := c.(backups := c.backups - {id});
    forall other <- c'.backups ensures ErrorOk(c', other) { assert ErrorOk(c, other); }
    forall other <- c'.snapshots ensures HoldsOn(c', other) { assert HoldsOn(c, other); }
    forall u <- c'.volumes ensures LockOk(c', u) { assert LockOk(c, u); }
  }

  lemma WriteOrderly(s: State, a: Answers)
    requires Ordered(s) && Writes(s.stage)
    ensures Orderly(Write(s, a).c)
  {
    match s.stage
    case Locking(id, b, seen) => LockOrderly(s.c, id, b);
    case Waiting(id, b) => StatusOrderly(s.c, id, PhaseOf(s.c, b, false), a);
    case Lost(id, b) => StatusOrderly(s.c, id, Error, a);
    case Taking(id, b) => TakeOrderly(s.c, id, b);
    case Reporting(id, b, ready) => StatusOrderly(s.c, id, PhaseOf(s.c, b, ready), a);
    case Clearing(id, b, after) => UnlockOrderly(s.c, id, b);
    case Finalizing(id, b) => DropOrderly(s.c, id);
    case Failing(id, b) => StatusOrderly(s.c, id, Error, a);
  }

  lemma WriteStageOrderly(s: State, a: Answers)
    requires Ordered(s) && Writes(s.stage)
    ensures StageOrderly(Write(s, a).c, Write(s, a).stage)
  {
  }

  lemma AdvanceOrderly(s: State, a: Answers)
    requires Ordered(s)
    ensures Orderly(Advance(s, a).c) && StageOrderly(Advance(s, a).c, Advance(s, a).stage)
  {
    if Writes(s.stage) {
      WriteOrderly(s, a);
      WriteStageOrderly(s, a);
    } else {
      ReadOrderly(s.c, s.stage, a);
    }
  }

  lemma StepKeepsOrdered(s: State, e: Event)
    requires Ordered(s)
    ensures Ordered(Step(s, e))
  {
    StepKeepsInvariant(s, e);
    match e
    case Begin(_, _) =>
    case Crash =>
    case NextCall(a) => AdvanceOrderly(s, a);
    case _ =>
      EnvironmentEvolves(s.c, e);
      OrderlyEvolves(s.c, Environment(s.c, e));
      StageOrderlyEvolves(s.c, Environment(s.c, e), s.stage);
  }

  lemma {:induction false} RunOrdered(s: State, events: seq<Event>)
    requires Ordered(s)
    ensures Ordered(Run(s, events))
    decreases |events|
  {
    if events != [] {
      RunOrdered(s, events[..|events| - 1]);
      StepKeepsOrdered(Run(s, events[..|events| - 1]), events[|events| - 1]);
    }
  }

  // ----- No finished backup is taken again -----

  ghost predicate CompletedAndLost(c: Cluster, id: nat) {
    id in c.backups && Finished(c.backups[id].phase) && id !in c.snapshots
  }

  lemma StatusNeverRetakes(c: Cluster, other: nat, phase: Phase, a: Answers, id: nat)
    requires CompletedAndLost(c, id) && (other == id ==> Finished(phase))
    ensures CompletedAndLost(PutStatus(c, other, phase, a).0, id)
  {
  }

  lemma WriteNeverRetakes(s: State, a: Answers, id: nat)
    requires Ordered(s) && CompletedAndLost(s.c, id) && Writes(s.stage) && id in Write(s, a).c.backups
    ensures CompletedAndLost(Write(s, a).c, id)
  {
    match s.stage
    case Waiting(i, b) => StatusNeverRetakes(s.c, i, PhaseOf(s.c, b, false), a, id);
    case Reporting(i, b, ready) => StatusNeverRetakes(s.c, i, PhaseOf(s.c, b, ready), a, id);
    case Lost(i, b) => StatusNeverRetakes(s.c, i, Error, a, id);
    case Failing(i, b) => StatusNeverRetakes(s.c, i, Error, a, id);
    case _ =>
  }

  lemma EvolvesNeverRetakes(c: Cluster, c': Cluster, id: nat)
    requires CompletedAndLost(c, id) && Evolves(c, c')
    ensures CompletedAndLost(c', id)
  {
  }

  /** No step takes a finished backup again, or makes it count as unfinished, once its snapshot is lost. */
  lemma StepNeverRetakes(s: State, e: Event, id: nat)
    requires Ordered(s) && CompletedAndLost(s.c, id) && id in Step(s, e).c.backups
    ensures CompletedAndLost(Step(s, e).c, id)
  {
    match e
    case Begin(_, _) =>
    case Crash =>
    case NextCall(a) => if Writes(s.stage) { WriteNeverRetakes(s, a, id); }
    case _ =>
      EnvironmentEvolves(s.c, e);
      EvolvesNeverRetakes(s.c, Environment(s.c, e), id);
  }

  /** In every run a finished backup whose snapshot is lost is never taken again, for as long as it exists. */
  lemma {:induction false} RunNeverRetakes(s: State, events: seq<Event>, id: nat)
    requires Ordered(s) && CompletedAndLost(s.c, id)
    requires forall k {:trigger events[..k]} | 0 <= k <= |events| :: id in Run(s, events[..k]).c.backups
    ensures CompletedAndLost(Run(s, events).c, id)
    decreases |events|
  {
    if events != [] {
      var before := events[..|events| - 1];
      assert forall k {:trigger before[..k]} | 0 <= k <= |before| :: before[..k] == events[..k];
      assert events[..|events|] == events;
      RunNeverRetakes(s, before, id);
      RunOrdered(s, before);
      StepNeverRetakes(Run(s, before), events[|events| - 1], id);
    }
  }

  /** The controller starts on an empty cluster with both invariants. */
  lemma EmptyIsOrdered()
    ensures Ordered(State(EMPTY, Idle))
  {
  }
}
