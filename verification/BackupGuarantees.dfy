/** Where transfers go over every run of the controller's calls, and the gap that the calls leave between them. */
module BackupGuarantees {
  import opened Wrappers
  import opened BackupLock
  import opened BackupProtocol

  // ----- No transfer is redirected -----

  /** The target that the disk of a transfer in flight points at. */
  function Heading(c: Cluster, id: nat): Target
    requires id in c.snapshots && c.snapshots[id].disk.Some? && c.snapshots[id].disk.value in c.volumes
  {
    Effective(c.volumes[c.snapshots[id].disk.value].target)
  }

  /** A transfer from a disk that exists. */
  ghost predicate Moving(c: Cluster, id: nat) {
    InFlight(c, id) && c.snapshots[id].disk.value in c.volumes
  }

  /** The transfer stays in flight from the same disk to the same target. */
  ghost predicate SameTransfer(c: Cluster, c': Cluster, id: nat) {
    && Moving(c, id) && Moving(c', id) && c'.snapshots[id].disk == c.snapshots[id].disk
    && c'.snapshots[id].asked == c.snapshots[id].asked && Heading(c', id) == Heading(c, id)
  }

  lemma LinkedMoves(c: Cluster, id: nat)
    requires Linked(c) && InFlight(c, id)
    ensures Moving(c, id)
  {
    assert SnapshotLinked(c, id);
  }

  lemma EvolvesKeepsTransfer(c: Cluster, c': Cluster, id: nat)
    requires Linked(c) && Evolves(c, c') && InFlight(c, id) && InFlight(c', id)
    ensures SameTransfer(c, c', id)
  {
    LinkedMoves(c, id);
  }

  lemma StatusKeepsTransfer(c: Cluster, other: nat, phase: Phase, a: Answers, id: nat)
    requires Moving(c, id)
    ensures SameTransfer(c, PutStatus(c, other, phase, a).0, id)
  {
  }

  /** Only an unlisted transfer could be redirected by taking the lock, and the backup's own already goes there. */
  lemma LockKeepsTransfer(s: State, a: Answers, id: nat)
    requires Invariant(s) && s.stage.Locking? && Moving(s.c, id)
    ensures SameTransfer(s.c, Write(s, a).c, id)
  {
    assert SnapshotLinked(s.c, id);
  }

  lemma UnlockKeepsTransfer(s: State, a: Answers, id: nat)
    requires Invariant(s) && s.stage.Clearing? && Moving(s.c, id)
    ensures SameTransfer(s.c, Write(s, a).c, id)
  {
    assert VolumeOk(s.c, s.stage.b.spec.uid);
  }

  lemma WriteKeepsTransfer(s: State, a: Answers, id: nat)
    requires Invariant(s) && Writes(s.stage) && Moving(s.c, id)
    ensures SameTransfer(s.c, Write(s, a).c, id)
  {
    match s.stage
    case Locking(_, _, _) => LockKeepsTransfer(s, a, id);
    case Clearing(_, _, _) => UnlockKeepsTransfer(s, a, id);
    case Waiting(i, b) => StatusKeepsTransfer(s.c, i, PhaseOf(s.c, b, false), a, id);
    case Reporting(i, b, ready) => StatusKeepsTransfer(s.c, i, PhaseOf(s.c, b, ready), a, id);
    case Lost(i, b) => StatusKeepsTransfer(s.c, i, Error, a, id);
    case Failing(i, b) => StatusKeepsTransfer(s.c, i, Error, a, id);
    case _ =>
  }

  /** No step whatever changes the disk or the target of a transfer that stays in flight. */
  lemma StepNeverRedirects(s: State, e: Event, id: nat)
    requires Invariant(s) && InFlight(s.c, id) && InFlight(Step(s, e).c, id)
    ensures SameTransfer(s.c, Step(s, e).c, id)
  {
    LinkedMoves(s.c, id);
    match e
    case Begin(_, _) =>
    case Crash =>
    case NextCall(a) => if Writes(s.stage) { WriteKeepsTransfer(s, a, id); }
    case _ =>
      EnvironmentEvolves(s.c, e);
      EvolvesKeepsTransfer(s.c, Environment(s.c, e), id);
  }

  // ----- Where a new transfer goes -----

  ghost predicate GoesAsAsked(c: Cluster, id: nat)
    requires Moving(c, id)
  {
    Heading(c, id) == c.snapshots[id].asked
  }

  /** The claim was replaced since it was verified, and the disk that now has its name points elsewhere. */
  predicate Misses(s: State) {
    && s.stage.Taking?
    && var spec := s.stage.b.spec;
    && spec.pvc in s.c.pvcs && s.c.pvcs[spec.pvc] != spec.uid && s.c.pvcs[spec.pvc] in s.c.volumes
    && Effective(s.c.volumes[s.c.pvcs[spec.pvc]].target) != Desired(spec)
  }

  /**
   * The gap between verifying the claim and creating the snapshot by its name: the new transfer misses its target
   * exactly when the claim was replaced in between by one whose disk points elsewhere.
   */
  lemma TakingMissesIff(s: State, a: Answers)
    requires Invariant(s) && s.stage.Taking?
    ensures var id, c' := s.stage.id, Advance(s, a).c;
      && (InFlight(c', id) <==> s.stage.b.spec.pvc in s.c.pvcs)
      && (InFlight(c', id) ==> Moving(c', id) && (GoesAsAsked(c', id) <==> !Misses(s)))
  {
  }

  lemma EnvironmentStartsNone(c: Cluster, e: Event, id: nat)
    requires Linked(c) && !e.Begin? && !e.NextCall? && !e.Crash? && InFlight(Environment(c, e), id)
    ensures InFlight(c, id)
  {
    EnvironmentEvolves(c, e);
  }

  /** Only the creation of its snapshot starts a transfer. */
  lemma StartsByTaking(s: State, e: Event, id: nat)
    requires Invariant(s) && !InFlight(s.c, id) && InFlight(Step(s, e).c, id)
    ensures e.NextCall? && s.stage.Taking? && s.stage.id == id
  {
    match e
    case Begin(_, _) =>
    case Crash =>
    case NextCall(a) => if Writes(s.stage) { WriteStartsOne(s, a, id); }
    case _ => EnvironmentStartsNone(s.c, e, id);
  }

  lemma WriteStartsOne(s: State, a: Answers, id: nat)
    requires Writes(s.stage) && InFlight(Write(s, a).c, id)
    ensures InFlight(s.c, id) || (s.stage.Taking? && s.stage.id == id)
  {
  }

  // ----- Whole runs -----

  /** Step `k` creates the snapshot, and from then on the transfer is in flight. */
  ghost predicate TakenAt(s: State, events: seq<Event>, k: nat, id: nat) {
    && k < |events| && events[k].NextCall?
    && Run(s, events[..k]).stage.Taking? && Run(s, events[..k]).stage.id == id
    && forall i {:trigger events[..i]} | k < i <= |events| :: InFlight(Run(s, events[..i]).c, id)
  }

  lemma TakenExtends(s: State, events: seq<Event>, k: nat, id: nat)
    requires events != [] && TakenAt(s, events[..|events| - 1], k, id) && InFlight(Run(s, events).c, id)
    ensures TakenAt(s, events, k, id)
  {
    var before := events[..|events| - 1];
    assert before[..k] == events[..k];
    forall i {:trigger events[..i]} | k < i <= |events| ensures InFlight(Run(s, events[..i]).c, id) {
      if i < |events| { assert before[..i] == events[..i]; } else { assert events[..i] == events; }
    }
  }

  lemma TakenLast(s: State, events: seq<Event>, id: nat)
    requires events != [] && events[|events| - 1].NextCall? && InFlight(Run(s, events).c, id)
    requires var before := Run(s, events[..|events| - 1]); before.stage.Taking? && before.stage.id == id
    ensures TakenAt(s, events, |events| - 1, id)
  {
    assert events[..|events|] == events;
  }

  lemma TakenBefore(s: State, events: seq<Event>, k: nat, id: nat)
    requires TakenAt(s, events, k, id) && k < |events| - 1
    ensures TakenAt(s, events[..|events| - 1], k, id)
  {
    var before := events[..|events| - 1];
    assert before[..k] == events[..k];
    forall i {:trigger before[..i]} | k < i <= |before| ensures InFlight(Run(s, before[..i]).c, id) {
      assert before[..i] == events[..i];
    }
  }

  /** Every transfer in flight was started by a creation of its snapshot since which it has been in flight. */
  lemma {:induction false} TransferWasTaken(s: State, events: seq<Event>, id: nat) returns (k: nat)
    requires Invariant(s) && !InFlight(s.c, id) && InFlight(Run(s, events).c, id)
    ensures TakenAt(s, events, k, id)
    decreases |events|
  {
    var before := events[..|events| - 1];
    RunStaysOnCourse(s, before);
    if InFlight(Run(s, before).c, id) {
      k := TransferWasTaken(s, before, id);
      TakenExtends(s, events, k, id);
    } else {
      k := |events| - 1;
      StartsByTaking(Run(s, before), events[k], id);
      TakenLast(s, events, id);
    }
  }

  /**
   * In every run a transfer in flight goes where its backup asked exactly when the creation of its snapshot did not
   * fall into the gap with a disk that pointed elsewhere.
   */
  lemma {:induction false} RunSendsTransfersAsAskedIff(s: State, events: seq<Event>, k: nat, id: nat)
    requires Invariant(s) && TakenAt(s, events, k, id)
    ensures Moving(Run(s, events).c, id)
    ensures GoesAsAsked(Run(s, events).c, id) <==> !Misses(Run(s, events[..k]))
    decreases |events|
  {
    var n := |events| - 1;
    var before := events[..n];
    assert events[..|events|] == events;
    RunStaysOnCourse(s, before);
    if k == n {
      TakingMissesIff(Run(s, before), events[n].answers);
    } else {
      TakenBefore(s, events, k, id);
      assert before[..k] == events[..k] && before[..|before|] == before;
      RunSendsTransfersAsAskedIff(s, before, k, id);
      StepNeverRedirects(Run(s, before), events[n], id);
    }
  }

  // ----- Runs through the gap -----

  ghost predicate Leads(s: State, t: State) {
    exists events :: Run(s, events) == t
  }

  lemma Stay(s: State)
    ensures Leads(s, s)
  {
    assert Run(s, []) == s;
  }

  lemma Extend(s: State, t: State, e: Event)
    requires Leads(s, t)
    ensures Leads(s, Step(t, e))
  {
    var events :| Run(s, events) == t;
    assert (events + [e])[..|events|] == events;
    assert Run(s, events + [e]) == Step(t, e);
  }

  lemma ListingReached(s: State, c: Cluster, id: nat, b: Backup, a: Answers)
    requires Leads(s, State(c, Begun(id, b))) && c.enabled && c.snapshots == map[]
    requires !b.deleting && !Finished(b.phase)
    requires b.spec.pvc in c.pvcs && c.pvcs[b.spec.pvc] == b.spec.uid
    requires b.spec.uid in c.volumes && c.volumes[b.spec.uid].lock.None? && a.volumeReadable
    ensures Leads(s, State(c, Listing(id, b, None)))
  {
    Extend(s, State(c, Begun(id, b)), NextCall(a));
    Extend(s, State(c, Acquiring(id, b, None)), NextCall(a));
    Extend(s, State(c, Claimed(id, b, None, true)), NextCall(a));
  }

  /** With a free volume, no snapshots and a ready destination, the calls lead to the creation of the snapshot. */
  lemma TakingReached(s: State, c: Cluster, id: nat, b: Backup, a: Answers)
    requires Leads(s, State(c, Begun(id, b))) && c.enabled && c.snapshots == map[]
    requires !b.deleting && !Finished(b.phase)
    requires b.spec.pvc in c.pvcs && c.pvcs[b.spec.pvc] == b.spec.uid
    requires b.spec.uid in c.volumes && c.volumes[b.spec.uid].lock.None?
    requires a.volumeReadable && !a.volumeConflicts && a.destination == DestinationReady
    ensures var volume := c.volumes[b.spec.uid].(lock := Some(id), target := Desired(b.spec));
      Leads(s, State(c.(volumes := c.volumes[b.spec.uid := volume]), Taking(id, b)))
  {
    var volume := c.volumes[b.spec.uid].(lock := Some(id), target := Desired(b.spec));
    var locked := c.(volumes := c.volumes[b.spec.uid := volume]);
    ListingReached(s, c, id, b, a);
    Extend(s, State(c, Listing(id, b, None)), NextCall(a));
    if b.spec.destination.Some? { Extend(s, State(c, Targeting(id, b, None)), NextCall(a)); }
    Extend(s, State(c, Locking(id, b, None)), NextCall(a));
    Extend(s, State(locked, Verifying(id, b)), NextCall(a));
  }

  function DemoBackup(destination: Option<nat>): Backup {
    Backup(Spec("home", "old", destination), Pending, false, 0)
  }

  /** A claim and a backup of it, with the feature on. */
  function DemoCluster(destination: Option<nat>): Cluster {
    Cluster(true, 0, map["home" := "old"], map["old" := Volume("home", None, Default)],
            map[0 := DemoBackup(destination)], map[])
  }

  lemma DemoBegun(destination: Option<nat>)
    ensures Leads(State(EMPTY, Idle), State(DemoCluster(destination), Begun(0, DemoBackup(destination))))
  {
    var start, c, b := State(EMPTY, Idle), EMPTY.(enabled := true), DemoBackup(destination);
    Stay(start);
    Extend(start, start, FlagSet(true));
    Extend(start, State(c, Idle), PvcProvisioned("home", "old", Default));
    var d := DemoCluster(destination).(backups := map[]);
    assert Environment(c, PvcProvisioned("home", "old", Default)) == d;
    Extend(start, State(d, Idle), BackupCreated(0, b.spec));
    assert Environment(d, BackupCreated(0, b.spec)) == DemoCluster(destination);
    Extend(start, State(DemoCluster(destination), Idle), Begin(0, false));
  }

  /** Replacing the claim just before the snapshot is created sends the transfer where the new disk points. */
  lemma ReplacedClaimDecides(s: State, uid: string, target: Target, a: Answers)
    requires Invariant(s) && s.stage.Taking? && uid !in s.c.volumes
    ensures var c' := Advance(Step(s, PvcProvisioned(s.stage.b.spec.pvc, uid, target)), a).c;
      Moving(c', s.stage.id) && Heading(c', s.stage.id) == Effective(target)
    ensures var c' := Advance(Step(s, PvcProvisioned(s.stage.b.spec.pvc, uid, target)), a).c;
      GoesAsAsked(c', s.stage.id) <==> Effective(target) == Desired(s.stage.b.spec)
  {
    var e := PvcProvisioned(s.stage.b.spec.pvc, uid, target);
    StepKeepsInvariant(s, e);
    TakingMissesIff(Step(s, e), a);
  }

  lemma TwoMore(start: State, s: State, e: Event, a: Answers) returns (events: seq<Event>)
    requires Leads(start, s)
    ensures Run(start, events) == Advance(Step(s, e), a)
  {
    Extend(start, s, e);
    Extend(start, Step(s, e), NextCall(a));
    events :| Run(start, events) == Advance(Step(s, e), a);
  }

  lemma DemoTaking(destination: Option<nat>) returns (c: Cluster)
    ensures Leads(State(EMPTY, Idle), State(c, Taking(0, DemoBackup(destination)))) && c.volumes.Keys == {"old"}
  {
    var a := Answers(false, false, false, true, false, false, false, DestinationReady);
    var b, d := DemoBackup(destination), DemoCluster(destination);
    DemoBegun(destination);
    TakingReached(State(EMPTY, Idle), d, 0, b, a);
    c := d.(volumes := d.volumes["old" := Volume("home", Some(0), Desired(b.spec))]);
  }

  /** A run in which the claim is replaced after it was verified by one whose disk points at `target`. */
  lemma DemoReplaced(destination: Option<nat>, target: Target) returns (events: seq<Event>)
    ensures var c := Run(State(EMPTY, Idle), events).c;
      && Moving(c, 0) && Heading(c, 0) == Effective(target)
      && c.snapshots[0].asked == Desired(DemoBackup(destination).spec)
  {
    var start := State(EMPTY, Idle);
    var a := Answers(false, false, false, true, false, false, false, DestinationReady);
    var c := DemoTaking(destination);
    var s, e := State(c, Taking(0, DemoBackup(destination))), PvcProvisioned("home", "new", target);
    var walked :| Run(start, walked) == s;
    RunStaysOnCourse(start, walked);
    assert "old" != "new" by { assert "old"[0] != "new"[0]; }
    ReplacedClaimDecides(s, "new", target, a);
    events := TwoMore(start, s, e, a);
  }

  /** A backup to a tenant goes to the default target, because its claim was replaced by an ordinary one. */
  lemma ReplacedClaimMissesTenant() returns (events: seq<Event>)
    ensures var c := Run(State(EMPTY, Idle), events).c;
      Moving(c, 0) && c.snapshots[0].asked == Tenant(7) && Heading(c, 0) == Default
  {
    events := DemoReplaced(Some(7), Default);
  }

  /** A backup to the default target goes to a tenant, because its claim was replaced by one restored from there. */
  lemma RestoredClaimDivertsToTenant() returns (events: seq<Event>)
    ensures var c := Run(State(EMPTY, Idle), events).c;
      Moving(c, 0) && c.snapshots[0].asked == Default && Heading(c, 0) == Tenant(9)
  {
    events := DemoReplaced(None, Tenant(9));
  }

  // ----- The lock stays with a running transfer -----

  ghost predicate HoldsLockInFlight(c: Cluster, id: nat) {
    && InFlight(c, id) && c.snapshots[id].disk.value in c.volumes
    && c.volumes[c.snapshots[id].disk.value].lock == Some(id)
  }

  lemma EvolvesKeepsLock(c: Cluster, c': Cluster, id: nat)
    requires HoldsLockInFlight(c, id) && Evolves(c, c') && InFlight(c', id)
    ensures HoldsLockInFlight(c', id)
  {
  }

  lemma EnvironmentKeepsLock(c: Cluster, e: Event, id: nat)
    requires Linked(c) && HoldsLockInFlight(c, id) && !e.Begin? && !e.NextCall? && !e.Crash?
    ensures HoldsLockInFlight(Environment(c, e), id) || e == SnapshotReady(id) || e == SnapshotGone(id)
  {
    EnvironmentEvolves(c, e);
    if InFlight(Environment(c, e), id) { EvolvesKeepsLock(c, Environment(c, e), id); }
  }

  lemma StatusKeepsLock(c: Cluster, other: nat, phase: Phase, a: Answers, id: nat)
    requires HoldsLockInFlight(c, id)
    ensures HoldsLockInFlight(PutStatus(c, other, phase, a).0, id)
  {
  }

  lemma WriteKeepsLock(s: State, a: Answers, id: nat)
    requires Invariant(s) && HoldsLockInFlight(s.c, id) && Writes(s.stage)
    ensures HoldsLockInFlight(Write(s, a).c, id)
  {
    match s.stage
    case Locking(_, _, _) => assert SnapshotLinked(s.c, id);
    case Waiting(i, b) => StatusKeepsLock(s.c, i, PhaseOf(s.c, b, false), a, id);
    case Reporting(i, b, ready) => StatusKeepsLock(s.c, i, PhaseOf(s.c, b, ready), a, id);
    case Lost(i, b) => StatusKeepsLock(s.c, i, Error, a, id);
    case Failing(i, b) => StatusKeepsLock(s.c, i, Error, a, id);
    case _ =>
  }

  /** A running transfer keeps the lock until its snapshot is ready or gone, whatever is called in the meantime. */
  lemma RunningTransferKeepsLock(s: State, e: Event, id: nat)
    requires Invariant(s) && HoldsLockInFlight(s.c, id)
    ensures HoldsLockInFlight(Step(s, e).c, id) || e == SnapshotReady(id) || e == SnapshotGone(id)
  {
    match e
    case Begin(_, _) =>
    case Crash =>
    case NextCall(a) => if Writes(s.stage) { WriteKeepsLock(s, a, id); }
    case _ => EnvironmentKeepsLock(s.c, e, id);
  }
}
