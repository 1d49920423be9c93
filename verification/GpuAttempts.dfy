/**
 * What becomes of the devices a job reserves: none is forgotten, at most one attempt per job version
 * publishes, and a reservation stands until its lease runs out or its own job gives it up.
 */
module GpuAttempts {
  import opened Wrappers
  import opened GpuTypes
  import opened GpuProtocol

  ghost predicate ReservedNow(s: State, id: JobId, name: string) {
    name in s.devices && ReservedFor(s.devices[name].value, id)
  }

  ghost predicate Published(s: State, id: JobId, name: string) {
    && id in s.jobs
    && AssignmentOf(s.jobs[id].value).Some?
    && AssignmentOf(s.jobs[id].value).value.inventoryName == name
  }

  ghost predicate HeldSomewhere(s: State, id: JobId, name: string) {
    exists r <- s.replicas :: HeldBy(s.replicas[r]) == Some((id, name))
  }

  /** A replica about to clear a published assignment knows that no unheld reservation stays behind. */
  ghost predicate ClearOk(s: State, a: Activity) {
    a.Patching? && !a.newly && a.status.assignment.None? && AssignmentOf(a.job.value).Some?
    && a.job.value.id in s.jobs && s.jobs[a.job.value.id].version == a.job.version
    ==>
      var name := AssignmentOf(a.job.value).value.inventoryName;
      ReservedNow(s, a.job.value.id, name) ==> HeldSomewhere(s, a.job.value.id, name)
  }

  /** Every reserved device is published by its job, or an attempt that has not finished accounts for it. */
  ghost predicate LeakFree(s: State) {
    && (forall id, name :: ReservedNow(s, id, name) ==> Published(s, id, name) || HeldSomewhere(s, id, name))
    && (forall r <- s.replicas :: ClearOk(s, s.replicas[r]))
  }

  lemma HoldKept(s: State, s': State, r: nat, id: JobId, name: string)
    requires HeldSomewhere(s, id, name)
    requires forall q <- s.replicas :: q in s'.replicas && (q != r ==> s'.replicas[q] == s.replicas[q])
    requires r in s.replicas && HeldBy(s.replicas[r]) == Some((id, name)) ==> HeldBy(s'.replicas[r]) == Some((id, name))
    ensures HeldSomewhere(s', id, name)
  {
    var q :| q in s.replicas && HeldBy(s.replicas[q]) == Some((id, name));
    assert HeldBy(s'.replicas[q]) == Some((id, name));
  }

  /** Leak freedom survives a step of replica r that reserves nothing new and forgets nothing still reserved. */
  lemma LeakFreeByStep(s: State, s': State, r: nat)
    requires LeakFree(s)
    requires forall q <- s.replicas :: q in s'.replicas && (q != r ==> s'.replicas[q] == s.replicas[q])
    requires forall q <- s'.replicas :: q in s.replicas || q == r
    requires forall id, name :: ReservedNow(s', id, name) ==>
      || (r in s'.replicas && HeldBy(s'.replicas[r]) == Some((id, name)))
      || (Published(s', id, name) && !(id in s.jobs && s'.jobs[id] == s.jobs[id]))
      || (&& ReservedNow(s, id, name)
          && !(r in s.replicas && HeldBy(s.replicas[r]) == Some((id, name)))
          && (Published(s, id, name) ==> Published(s', id, name) || HeldSomewhere(s, id, name)))
    requires forall id | id in s'.jobs ::
      (id in s.jobs && s'.jobs[id] == s.jobs[id]) || s.revision < s'.jobs[id].version
    requires Fenced(s)
    requires r in s'.replicas ==> (r in s.replicas && s'.replicas[r] == s.replicas[r]) || ClearOk(s', s'.replicas[r])
    ensures LeakFree(s')
  {
    forall id, name | ReservedNow(s', id, name)
      ensures Published(s', id, name) || HeldSomewhere(s', id, name)
      ensures (id in s.jobs && id in s'.jobs && s'.jobs[id] == s.jobs[id]
               && HeldSomewhere(s, id, name) && ReservedNow(s, id, name))
              ==> HeldSomewhere(s', id, name)
    {
      if r in s'.replicas && HeldBy(s'.replicas[r]) == Some((id, name)) {
      } else if Published(s', id, name) && !(id in s.jobs && s'.jobs[id] == s.jobs[id]) {
      } else if HeldSomewhere(s, id, name) {
        HoldKept(s, s', r, id, name);
      }
    }
    forall q <- s'.replicas
      ensures ClearOk(s', s'.replicas[q])
    {
      if q in s.replicas && s'.replicas[q] == s.replicas[q] {
        assert ClearOk(s, s.replicas[q]) && ActivityOk(s, s.replicas[q]);
      }
    }
  }

  lemma MoveKeepsLeakFree(s: State, s': State, r: nat)
    requires Fenced(s) && LeakFree(s) && r in s'.replicas && s' == Become(s, r, s'.replicas[r])
    requires HeldBy(ActivityOf(s, r)).Some? ==>
      var (id, name) := HeldBy(ActivityOf(s, r)).value;
      HeldBy(s'.replicas[r]) == Some((id, name)) || !ReservedNow(s, id, name)
    requires ClearOk(s, s'.replicas[r])
    ensures LeakFree(s')
  {
    LeakFreeByStep(s, s', r);
  }

  /** A read forgets a held device only once it is no longer reserved for the job. */
  lemma ReadKeepsHold(s: State, e: Event)
    requires Fenced(s) && IsRead(e)
    ensures HeldBy(ActivityOf(s, e.r)).Some? ==>
      var (id, name) := HeldBy(ActivityOf(s, e.r)).value;
      HeldBy(ActivityOf(Perform(s, e), e.r)) == Some((id, name)) || !ReservedNow(s, id, name)
  {
    var a := ActivityOf(s, e.r);
    if HeldBy(a).Some? && !e.Crash? && !e.ReadToGiveBack? {
      assert Perform(s, e) == s;
    }
  }

  lemma ReleaseReadClears(s: State, r: nat)
    requires LeakFree(s)
    ensures ClearOk(s, ActivityOf(PerformReadToRelease(s, r), r))
  {
  }

  lemma RenewReadClears(s: State, r: nat, running: bool)
    requires LeakFree(s)
    ensures ClearOk(s, ActivityOf(PerformReadToRenew(s, r, running), r))
  {
  }

  lemma QueueClears(s: State, r: nat)
    requires LeakFree(s)
    ensures ClearOk(s, ActivityOf(PerformQueue(s, r), r))
  {
  }

  lemma OtherReadClears(s: State, e: Event)
    requires LeakFree(s) && IsRead(e) && !e.ReadToRelease? && !e.ReadToRenew? && !e.Queue?
    ensures ClearOk(s, ActivityOf(Perform(s, e), e.r))
  {
    assert Perform(s, e) == s || !ActivityOf(Perform(s, e), e.r).Patching?;
  }

  lemma ReadClears(s: State, e: Event)
    requires LeakFree(s) && IsRead(e)
    ensures ClearOk(s, ActivityOf(Perform(s, e), e.r))
  {
    match e
    case ReadToRelease(r) => ReleaseReadClears(s, r);
    case ReadToRenew(r, running) => RenewReadClears(s, r, running);
    case Queue(r) => QueueClears(s, r);
    case _ => OtherReadClears(s, e);
  }

  lemma ReadKeepsLeakFree(s: State, e: Event)
    requires Fenced(s) && LeakFree(s) && IsRead(e)
    ensures LeakFree(Perform(s, e))
  {
    ReadMoves(s, e);
    ReadKeepsHold(s, e);
    ReadClears(s, e);
    var s' := Perform(s, e);
    if s' != s { MoveKeepsLeakFree(s, s', e.r); }
  }

  lemma WriteKeepsLeakFree(s: State, r: nat)
    requires Fenced(s) && LeakFree(s) && RenewsOwn(s, WriteDevice(r))
    ensures LeakFree(PerformWriteDevice(s, r))
  {
    var a := ActivityOf(s, r);
    if a.Writing? {
      assert ActivityOk(s, a);
      LeakFreeByStep(s, PerformWriteDevice(s, r), r);
    }
  }

  lemma PatchKeepsLeakFree(s: State, r: nat, reply: Reply)
    requires Fenced(s) && LeakFree(s)
    ensures LeakFree(PerformPatchJob(s, r, reply))
  {
    var a := ActivityOf(s, r);
    if a.Patching? {
      assert ActivityOk(s, a) && ClearOk(s, a);
      LeakFreeByStep(s, PerformPatchJob(s, r, reply), r);
    }
  }

  lemma DeviceEventKeepsLeakFree(s: State, e: Event)
    requires Fenced(s) && LeakFree(s) && (e.Tick? || e.AddDevice? || e.EditDevice? || e.RemoveDevice?)
    ensures LeakFree(PerformEnvironment(s, e))
  {
    DeviceEventAdvances(s, e);
    LeakFreeByStep(s, PerformEnvironment(s, e), 0);
  }

  lemma JobEventKeepsLeakFree(s: State, e: Event)
    requires Fenced(s) && LeakFree(s) && (e.AddJob? || e.EditJob? || e.RemoveJob?)
    ensures LeakFree(PerformEnvironment(s, e))
  {
    JobEventAdvances(s, e);
    LeakFreeByStep(s, PerformEnvironment(s, e), 0);
  }

  lemma StepKeepsLeakFree(s: State, e: Event)
    requires Fenced(s) && LeakFree(s) && RenewsOwn(s, e)
    ensures LeakFree(Perform(s, e))
  {
    match e
    case WriteDevice(r) => WriteKeepsLeakFree(s, r);
    case PatchJob(r, reply) => PatchKeepsLeakFree(s, r, reply);
    case Tick(_) => DeviceEventKeepsLeakFree(s, e);
    case AddDevice(_) => DeviceEventKeepsLeakFree(s, e);
    case EditDevice(_, _) => DeviceEventKeepsLeakFree(s, e);
    case RemoveDevice(_) => DeviceEventKeepsLeakFree(s, e);
    case AddJob(_) => JobEventKeepsLeakFree(s, e);
    case EditJob(_, _, _) => JobEventKeepsLeakFree(s, e);
    case RemoveJob(_) => JobEventKeepsLeakFree(s, e);
    case _ => ReadKeepsLeakFree(s, e);
  }

  lemma {:induction false} RunLeakFree(events: seq<Event>)
    requires RunRenewsOwn(EMPTY, events)
    ensures LeakFree(Run(EMPTY, events))
    decreases |events|
  {
    if events != [] {
      var before := events[..|events| - 1];
      assert forall k | 0 <= k < |before| :: before[..k] == events[..k];
      RunFenced(EMPTY, before);
      RunLeakFree(before);
      StepKeepsLeakFree(Run(EMPTY, before), events[|events| - 1]);
    }
  }

  /** Once every attempt for a job has published or given back, its only reserved device is the published one. */
  lemma SettledJobHoldsOnlyItsPublishedDevice(events: seq<Event>, id: JobId, name: string)
    requires RunRenewsOwn(EMPTY, events)
    requires var s := Run(EMPTY, events);
      forall r <- s.replicas :: HeldBy(s.replicas[r]).Some? ==> HeldBy(s.replicas[r]).value.0 != id
    requires ReservedNow(Run(EMPTY, events), id, name)
    ensures Published(Run(EMPTY, events), id, name)
  {
    RunLeakFree(events);
  }

  // ----- At most one publication per job version -----

  ghost predicate PatchedOnce(s: State) {
    && (forall i, k | 0 <= i < k < |s.patches| ::
          (s.patches[i].id, s.patches[i].from) != (s.patches[k].id, s.patches[k].from))
    && (forall p <- s.patches :: p.from < s.revision && (p.id in s.jobs ==> p.from < s.jobs[p.id].version))
  }

  lemma OnlyPatchesPatch(s: State, e: Event)
    requires Fenced(s) && !e.PatchJob?
    ensures Perform(s, e).patches == s.patches
  {
    if IsRead(e) { ReadMoves(s, e); }
  }

  lemma AdvanceKeepsPatchedOnce(s: State, s': State)
    requires PatchedOnce(s) && Advances(s, s') && s'.patches == s.patches
    ensures PatchedOnce(s')
  {
  }

  lemma PatchKeepsPatchedOnce(s: State, r: nat, reply: Reply)
    requires Fenced(s) && PatchedOnce(s)
    ensures PatchedOnce(PerformPatchJob(s, r, reply))
  {
    var a := ActivityOf(s, r);
    if a.Patching? { assert JobSnapshot(s, a.job); }
  }

  lemma StepKeepsPatchedOnce(s: State, e: Event)
    requires Fenced(s) && PatchedOnce(s)
    ensures PatchedOnce(Perform(s, e))
  {
    if e.PatchJob? {
      PatchKeepsPatchedOnce(s, e.r, e.reply);
    } else {
      StepPreservesFenced(s, e);
      OnlyPatchesPatch(s, e);
      AdvanceKeepsPatchedOnce(s, Perform(s, e));
    }
  }

  /** Of all replicas that worked from the same version of a job, at most one changed its status. */
  lemma {:induction false} RunPatchesEachVersionOnce(events: seq<Event>)
    ensures PatchedOnce(Run(EMPTY, events))
    decreases |events|
  {
    if events != [] {
      RunPatchesEachVersionOnce(events[..|events| - 1]);
      RunFenced(EMPTY, events[..|events| - 1]);
      StepKeepsPatchedOnce(Run(EMPTY, events[..|events| - 1]), events[|events| - 1]);
    }
  }

  // ----- A reservation stands -----

  /** `e` deletes the device, or is an accepted renewal, release or give-back of `name` for the job that holds it. */
  ghost predicate Surrenders(s: State, e: Event, id: JobId, name: string) {
    || e == RemoveDevice(name)
    || (Accepted(s, e, name) && ActingJob(s, e) == Some(id) && !ActivityOf(s, e.r).intent.Reserve?)
  }

  /** `e` is a reservation of `name` that the API server accepts. */
  ghost predicate Reserves(s: State, e: Event, name: string) {
    Accepted(s, e, name) && ActivityOf(s, e.r).intent.Reserve?
  }

  lemma LeasedIsNotGranted(s: State, e: Event, name: string)
    requires Fenced(s)
    ensures name in s.devices && LeasedAt(s.devices[name].value, s.clock) ==> !Reserves(s, e, name)
  {
    if e.WriteDevice? && ActivityOf(s, e.r).Writing? { assert ActivityOk(s, ActivityOf(s, e.r)); }
  }

  lemma StepKeepsReservation(s: State, e: Event, name: string)
    requires Fenced(s) && Rechecked(s, e)
    requires name in s.devices && LeasedAt(s.devices[name].value, s.clock)
    requires !Surrenders(s, e, ReservationOf(s.devices[name].value).value.job, name)
    ensures !Reserves(s, e, name)
    ensures name in Perform(s, e).devices
    ensures ReservationOf(Perform(s, e).devices[name].value) == ReservationOf(s.devices[name].value)
  {
    StepNeverClobbers(s, e, name);
    LeasedIsNotGranted(s, e, name);
    if IsRead(e) { ReadMoves(s, e); }
  }

  ghost predicate NeverSurrenders(s: State, events: seq<Event>, id: JobId, name: string) {
    forall k | 0 <= k < |events| :: !Surrenders(Run(s, events[..k]), events[k], id, name)
  }

  ghost predicate NeverReserves(s: State, events: seq<Event>, name: string) {
    forall k | 0 <= k < |events| :: !Reserves(Run(s, events[..k]), events[k], name)
  }

  lemma LastStep(s: State, events: seq<Event>, id: JobId, name: string)
    requires events != [] && RunRechecked(s, events) && NeverSurrenders(s, events, id, name)
    ensures var n := |events| - 1;
      && RunRechecked(s, events[..n]) && NeverSurrenders(s, events[..n], id, name)
      && Rechecked(Run(s, events[..n]), events[n]) && !Surrenders(Run(s, events[..n]), events[n], id, name)
  {
    var before := events[..|events| - 1];
    forall k | 0 <= k < |before|
      ensures Rechecked(Run(s, before[..k]), before[k]) && !Surrenders(Run(s, before[..k]), before[k], id, name)
    {
      assert before[..k] == events[..k];
    }
  }

  lemma NeverReservesExtends(s: State, events: seq<Event>, name: string)
    requires events != []
    requires var n := |events| - 1;
      NeverReserves(s, events[..n], name) && !Reserves(Run(s, events[..n]), events[n], name)
    ensures NeverReserves(s, events, name)
  {
    var n := |events| - 1;
    forall k | 0 <= k < |events| ensures !Reserves(Run(s, events[..k]), events[k], name) {
      if k < n { assert events[..n][..k] == events[..k] && events[..n][k] == events[k]; }
    }
  }

  /**
   * Until its lease runs out, a reservation that its own job does not touch is exactly what it was,
   * whatever every other replica does; in particular no attempt, not even one of the same job and
   * version, is granted the device meanwhile.
   */
  lemma {:induction false} ReservationStands(s: State, events: seq<Event>, name: string)
    requires Fenced(s) && RunRechecked(s, events)
    requires name in s.devices && ReservationOf(s.devices[name].value).Some?
    requires var reservation := ReservationOf(s.devices[name].value).value;
      && Run(s, events).clock < reservation.leaseExpiresAt
      && NeverSurrenders(s, events, reservation.job, name)
    ensures name in Run(s, events).devices
    ensures ReservationOf(Run(s, events).devices[name].value) == ReservationOf(s.devices[name].value)
    ensures NeverReserves(s, events, name)
    decreases |events|
  {
    if events != [] {
      var before, last := events[..|events| - 1], events[|events| - 1];
      LastStep(s, events, ReservationOf(s.devices[name].value).value.job, name);
      RunFenced(s, before);
      StepPreservesFenced(Run(s, before), last);
      ReservationStands(s, before, name);
      StepKeepsReservation(Run(s, before), last, name);
      NeverReservesExtends(s, events, name);
    }
  }

  // ----- When a device is granted twice -----

  /** A reservation of the device is on record and its lease has run out. */
  ghost predicate Lapsed(s: State, name: string) {
    name in s.devices && ReservationOf(s.devices[name].value).Some? && !LeasedAt(s.devices[name].value, s.clock)
  }

  ghost predicate Reserved(s: State, name: string) {
    name in s.devices && ReservationOf(s.devices[name].value).Some?
  }

  /** The device is deleted by an administrator, or some job's release or give-back of it is accepted. */
  ghost predicate LetsGo(s: State, e: Event, name: string) {
    || e == RemoveDevice(name)
    || (Accepted(s, e, name) && (ActivityOf(s, e.r).intent.Release? || ActivityOf(s, e.r).intent.GiveBack?))
  }

  /** From after step `i` to step `j` no reservation of the device lapsed, and nobody let it go. */
  ghost predicate UninterruptedBetween(events: seq<Event>, i: nat, j: nat, name: string)
    requires j <= |events|
  {
    && (forall k {:trigger events[..k]} | i < k <= j :: !Lapsed(Run(EMPTY, events[..k]), name))
    && (forall k | i < k < j :: !LetsGo(Run(EMPTY, events[..k]), events[k], name))
  }

  lemma StepKeepsReserved(s: State, e: Event, name: string)
    requires Fenced(s) && !LetsGo(s, e, name) && Reserved(s, name) && !Lapsed(s, name)
    ensures Reserved(Perform(s, e), name)
  {
    if e.WriteDevice? && ActivityOf(s, e.r).Writing? {
      assert ActivityOk(s, ActivityOf(s, e.r));
    } else if IsRead(e) {
      ReadMoves(s, e);
    }
  }

  lemma GrantReserves(s: State, e: Event, name: string)
    requires Reserves(s, e, name)
    ensures Reserved(Perform(s, e), name)
    ensures ActingJob(s, e).Some? && ReservedNow(Perform(s, e), ActingJob(s, e).value, name)
  {
  }

  lemma RunStep(events: seq<Event>, k: nat)
    requires k < |events|
    ensures Run(EMPTY, events[..k + 1]) == Perform(Run(EMPTY, events[..k]), events[k])
  {
    assert events[..k + 1][..k] == events[..k];
  }

  lemma {:induction false} ReservedThroughout(events: seq<Event>, i: nat, j: nat, name: string)
    requires i < j <= |events| && UninterruptedBetween(events, i, j, name)
    requires Reserves(Run(EMPTY, events[..i]), events[i], name)
    ensures Reserved(Run(EMPTY, events[..j]), name)
    decreases j
  {
    var n := j - 1;
    var s := Run(EMPTY, events[..n]);
    if n == i {
      GrantReserves(s, events[n], name);
    } else {
      ReservedThroughout(events, i, n, name);
      RunFenced(EMPTY, events[..n]);
      StepKeepsReserved(s, events[n], name);
    }
    assert Reserved(Run(EMPTY, events[..j]), name) by { RunStep(events, n); }
  }

  /**
   * In every run a device is granted a second time only if in between a lease on it ran out, some job's release or
   * give-back of it was accepted, or an administrator deleted it.
   */
  lemma SecondGrantFollowsLoss(events: seq<Event>, i: nat, j: nat, name: string)
    requires i < j < |events|
    requires Reserves(Run(EMPTY, events[..i]), events[i], name) && Reserves(Run(EMPTY, events[..j]), events[j], name)
    ensures !UninterruptedBetween(events, i, j, name)
  {
    RunFenced(EMPTY, events[..j]);
    LeasedIsNotGranted(Run(EMPTY, events[..j]), events[j], name);
    if UninterruptedBetween(events, i, j, name) { ReservedThroughout(events, i, j, name); }
  }

  // ----- The same where renewals re-check the holder -----

  /** The device is deleted by an administrator, or its own job's release or give-back is accepted. */
  ghost predicate GivesUp(s: State, e: Event, id: JobId, name: string) {
    LetsGo(s, e, name) && (e == RemoveDevice(name) || ActingJob(s, e) == Some(id))
  }

  /** From after step `i` to step `j` the device neither lapsed nor was given up by job `id` or deleted. */
  ghost predicate KeptBetween(events: seq<Event>, i: nat, j: nat, id: JobId, name: string)
    requires j <= |events|
  {
    && (forall k {:trigger events[..k]} | i < k <= j :: !Lapsed(Run(EMPTY, events[..k]), name))
    && (forall k | i < k < j :: !GivesUp(Run(EMPTY, events[..k]), events[k], id, name))
  }

  lemma StepKeepsHolder(s: State, e: Event, id: JobId, name: string)
    requires Fenced(s) && Rechecked(s, e) && !GivesUp(s, e, id, name)
    requires HoldsLease(s, id, name)
    ensures ReservedNow(Perform(s, e), id, name)
  {
    if !Surrenders(s, e, id, name) {
      StepKeepsReservation(s, e, name);
    } else {
      assert Accepted(s, e, name) && ActivityOf(s, e.r).intent.Renew?;
    }
  }

  /** The job holds the device and its lease is running. */
  ghost predicate HoldsLease(s: State, id: JobId, name: string) {
    ReservedNow(s, id, name) && LeasedAt(s.devices[name].value, s.clock)
  }

  lemma UnlapsedHolds(s: State, id: JobId, name: string)
    requires ReservedNow(s, id, name) && !Lapsed(s, name)
    ensures HoldsLease(s, id, name)
  {
  }

  lemma {:induction false} HolderStands(events: seq<Event>, i: nat, j: nat, id: JobId, name: string)
    requires i < j <= |events| && RunRechecked(EMPTY, events) && KeptBetween(events, i, j, id, name)
    requires Reserves(Run(EMPTY, events[..i]), events[i], name)
    requires ActingJob(Run(EMPTY, events[..i]), events[i]) == Some(id)
    ensures HoldsLease(Run(EMPTY, events[..j]), id, name)
    decreases j
  {
    var n := j - 1;
    var s, s' := Run(EMPTY, events[..n]), Run(EMPTY, events[..j]);
    if n == i {
      GrantReserves(s, events[n], name);
    } else {
      HolderStands(events, i, n, id, name);
      RunFenced(EMPTY, events[..n]);
      StepKeepsHolder(s, events[n], id, name);
    }
    assert ReservedNow(s', id, name) by { RunStep(events, n); }
    UnlapsedHolds(s', id, name);
  }

  /** Where renewals re-check the holder, only the job that was granted the device can let it go in between. */
  lemma SecondGrantFollowsOwnLoss(events: seq<Event>, i: nat, j: nat, id: JobId, name: string)
    requires i < j < |events| && RunRechecked(EMPTY, events)
    requires Reserves(Run(EMPTY, events[..i]), events[i], name)
    requires ActingJob(Run(EMPTY, events[..i]), events[i]) == Some(id)
    requires Reserves(Run(EMPTY, events[..j]), events[j], name)
    ensures !KeptBetween(events, i, j, id, name)
  {
    RunFenced(EMPTY, events[..j]);
    LeasedIsNotGranted(Run(EMPTY, events[..j]), events[j], name);
    if KeptBetween(events, i, j, id, name) { HolderStands(events, i, j, id, name); }
  }

  /** Exactly when a give-back leaves a published device unreserved: its job's assignment names that device by now. */
  lemma GiveBackUnpublishesIff(s: State, r: nat, id: JobId, name: string)
    requires Fenced(s) && Accepted(s, WriteDevice(r), name)
    requires ActivityOf(s, r).intent.GiveBack? && ActivityOf(s, r).intent.job.value.id == id
    ensures var s' := Perform(s, WriteDevice(r));
      Published(s', id, name) && !ReservedNow(s', id, name) <==> Published(s, id, name)
  {
  }

  // ----- Every lease ends soon -----

  ghost predicate LeasesShort(s: State) {
    forall n <- s.devices :: ReservationOf(s.devices[n].value).Some? ==>
      ReservationOf(s.devices[n].value).value.leaseExpiresAt <= s.clock + GPU_LEASE_SECONDS
  }

  lemma StepKeepsLeasesShort(s: State, e: Event)
    requires Fenced(s) && LeasesShort(s)
    ensures LeasesShort(Perform(s, e))
  {
    if e.WriteDevice? && ActivityOf(s, e.r).Writing? {
      assert ActivityOk(s, ActivityOf(s, e.r));
    } else if IsRead(e) {
      ReadMoves(s, e);
    }
  }

  /** At every moment of every run each lease ends within ninety seconds. */
  lemma {:induction false} RunLeasesShort(events: seq<Event>)
    ensures LeasesShort(Run(EMPTY, events))
    decreases |events|
  {
    if events != [] {
      RunLeasesShort(events[..|events| - 1]);
      RunFenced(EMPTY, events[..|events| - 1]);
      StepKeepsLeasesShort(Run(EMPTY, events[..|events| - 1]), events[|events| - 1]);
    }
  }

  /** A reservation left behind by a crashed attempt, which nobody renews, no longer excludes anybody after that. */
  lemma AbandonedReservationLapses(events: seq<Event>, k: nat, name: string)
    requires k <= |events|
    requires var s, s' := Run(EMPTY, events[..k]), Run(EMPTY, events);
      && name in s.devices && name in s'.devices && ReservationOf(s.devices[name].value).Some?
      && ReservationOf(s'.devices[name].value) == ReservationOf(s.devices[name].value)
      && s.clock + GPU_LEASE_SECONDS <= s'.clock
    ensures Lapsed(Run(EMPTY, events), name)
  {
    RunLeasesShort(events[..k]);
  }
}
