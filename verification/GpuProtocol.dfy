/**
 * The lease protocol of the GPU scheduler: any number of replicas read jobs and devices, and write
 * them back with replacements fenced by resourceVersion. Each event is one API call of one replica,
 * a clock tick, or a change made by an administrator or by the service controller.
 *
 * A version is never reused: every write takes the next value of one revision counter.
 */
module GpuProtocol {
  import opened Wrappers
  import opened GpuTypes

  /** What a replica is about to do to the device it has just read. */
  datatype Intent =
    | Reserve(job: Versioned<Job>, now: int)
    | Renew(job: Versioned<Job>, now: int, validated: nat)
    | Release(job: Versioned<Job>, now: int)
    | GiveBack(job: Versioned<Job>, now: int)
    | Reclaim(now: int)
    | Refresh(health: Health)

  /** Where a replica stands inside reconcile_job or the maintenance loop. */
  datatype Activity =
    | Idle
    | Observed(job: Versioned<Job>)
    | Reconciling(job: Versioned<Job>, now: int)
    | Validated(job: Versioned<Job>, now: int, version: nat)
      // the assignment was found invalid, and is released next
    | Refuted(job: Versioned<Job>, now: int)
    | Writing(intent: Intent, device: Versioned<Device>)
      // `newly`: the status publishes a device this attempt has just reserved
    | Patching(job: Versioned<Job>, now: int, status: JobStatus, newly: bool)
    | Losing(job: Versioned<Job>, now: int, name: string)
      // the replica stopped, or failed to give the device back: only the lease bounds the reservation
    | Abandoned(id: JobId, name: string)

  datatype Patch = Patch(id: JobId, from: nat, assignment: Option<Assignment>)

  datatype State = State(
    clock: int,
    revision: nat,
    devices: map<string, Versioned<Device>>,
    jobs: map<JobId, Versioned<Job>>,
    replicas: map<nat, Activity>,
    patches: seq<Patch>)

  /** What becomes of a request: answered, applied with the answer lost, or lost itself. */
  datatype Reply = Answered | AnswerLost | RequestLost

  datatype Event =
    | Tick(seconds: nat)
    | AddDevice(device: Device)
    | EditDevice(name: string, spec: DeviceSpec)
    | RemoveDevice(name: string)
    | AddJob(job: Job)
    | EditJob(id: JobId, jobSpec: JobSpec, deleting: bool)
    | RemoveJob(id: JobId)
    | Observe(r: nat, id: JobId)
    | Start(r: nat)
    | ReadToReserve(r: nat, name: string)
    | ReadToRelease(r: nat)
    | Validate(r: nat)
    | ReadToRenew(r: nat, running: bool)
    | ReadToGiveBack(r: nat)
    | ReadToReclaim(r: nat, name: string, now: int)
    | ReadToRefresh(r: nat, name: string, health: Health)
    | WriteDevice(r: nat)
    | Queue(r: nat)
    | PatchJob(r: nat, reply: Reply)
    | Crash(r: nat)

  function ActivityOf(s: State, r: nat): Activity {
    if r in s.replicas then s.replicas[r] else Idle
  }

  function Become(s: State, r: nat, activity: Activity): State {
    s.(replicas := s.replicas[r := activity])
  }

  // ----- Device writes -----

  function NewStatus(intent: Intent, device: Device): DeviceStatus {
    var status := StatusOf(device);
    match intent
    case Reserve(job, now) => ReservedStatus(status.health, job.value, now)
    case Renew(job, now, _) => ReservedStatus(status.health, job.value, now)
    case Release(_, now) => status.(reservation := None, lastAllocatedAt := Some(now))
    case GiveBack(_, now) => status.(reservation := None, lastAllocatedAt := Some(now))
    case Reclaim(_) => status.(reservation := None)
    case Refresh(health) => status.(health := health)
  }

  function ReservedStatus(health: Health, job: Job, now: int): DeviceStatus {
    DeviceStatus(
      health,
      Some(Reservation(job.id, job.spec.subjectId, job.spec.serviceInstanceId, now, now + GPU_LEASE_SECONDS)),
      Some(now), Some(job.spec.organizationId), Some(job.spec.subjectId))
  }

  function AssignmentFor(device: Device, now: int): Assignment {
    Assignment(device.name, device.spec.nodeName, device.spec.gpuType, device.spec.model, now + GPU_LEASE_SECONDS)
  }

  /** The status written once an assignment has been released: cancelled, over quota, or back in the queue. */
  function ReleasedStatus(job: Job): JobStatus {
    if job.deleting then JobStatus(Cancelled, AttemptsOf(job), None)
    else if job.spec.quotaRemainingSeconds == 0 then JobStatus(Rejected, 0, None)
    else JobStatus(Retry, AttemptsOf(job) + 1, None)
  }

  function AfterWrite(intent: Intent, device: Device): Activity {
    match intent
    case Reserve(job, now) =>
      Patching(job, now, JobStatus(Reserved, AttemptsOf(job.value) + 1, Some(AssignmentFor(device, now))), true)
    case Renew(job, now, _) =>
      Patching(job, now, JobStatus(Running, AttemptsOf(job.value), Some(AssignmentFor(device, now))), false)
    case Release(job, now) => Patching(job, now, ReleasedStatus(job.value), false)
    case GiveBack(_, _) => Idle
    case Reclaim(_) => Idle
    case Refresh(_) => Idle
  }

  /** A replaced device answers 409, a deleted one 404; a release tolerates only the latter. */
  function AfterConflict(intent: Intent, name: string, found: bool): Activity {
    match intent
    case Release(job, now) => if found then Idle else Patching(job, now, ReleasedStatus(job.value), false)
    case GiveBack(job, _) => if found then Abandoned(job.value.id, name) else Idle
    case _ => Idle
  }

  function PerformWriteDevice(s: State, r: nat): State {
    var a := ActivityOf(s, r);
    if !a.Writing? then s else
    var name := a.device.value.name;
    if name in s.devices && s.devices[name].version == a.device.version then
      var written := a.device.value.(status := Some(NewStatus(a.intent, a.device.value)));
      s.(revision := s.revision + 1,
         devices := s.devices[name := Versioned(s.revision + 1, written)],
         replicas := s.replicas[r := AfterWrite(a.intent, written)])
    else
      Become(s, r, AfterConflict(a.intent, name, name in s.devices))
  }

  // ----- Reads -----

  function PerformReadToReserve(s: State, r: nat, name: string): State {
    var a := ActivityOf(s, r);
    if a.Reconciling? && PendingJob(a.job.value) && AssignmentOf(a.job.value).None? && name in s.devices
       && Candidate(s.devices[name].value, a.job.value, a.now)
    then Become(s, r, Writing(Reserve(a.job, a.now), s.devices[name]))
    else s
  }

  /** A deleted job, one without quota, and one whose assignment was found invalid give their device up. */
  predicate Releases(a: Activity) {
    || a.Refuted?
    || (a.Reconciling? && (a.job.value.deleting || a.job.value.spec.quotaRemainingSeconds == 0))
  }

  /** release_assignment: a missing or foreign device needs no write, and the status patch follows at once. */
  function PerformReadToRelease(s: State, r: nat): State {
    var a := ActivityOf(s, r);
    if !Releases(a) then s else
    var done := Patching(a.job, a.now, ReleasedStatus(a.job.value), false);
    match AssignmentOf(a.job.value)
    case None => Become(s, r, done)
    case Some(assignment) =>
      var name := assignment.inventoryName;
      if name in s.devices && ReservedFor(s.devices[name].value, a.job.value.id)
      then Become(s, r, Writing(Release(a.job, a.now), s.devices[name]))
      else Become(s, r, done)
  }

  function PerformValidate(s: State, r: nat): State {
    var a := ActivityOf(s, r);
    if a.Reconciling? && !a.job.value.deleting && a.job.value.spec.quotaRemainingSeconds > 0
       && AssignmentOf(a.job.value).Some?
    then
      var assignment := AssignmentOf(a.job.value).value;
      var name := assignment.inventoryName;
      if name in s.devices && AssignmentValid(s.devices[name].value, a.job.value, assignment, a.now)
      then Become(s, r, Validated(a.job, a.now, s.devices[name].version))
      else Become(s, r, Refuted(a.job, a.now))
    else s
  }

  /** renew_assignment reads the device again, and does not look at who holds it now. */
  function PerformReadToRenew(s: State, r: nat, running: bool): State {
    var a := ActivityOf(s, r);
    if !a.Validated? || AssignmentOf(a.job.value).None? then s else
    var assignment := AssignmentOf(a.job.value).value;
    if assignment.leaseExpiresAt - a.now > GPU_LEASE_RENEW_SECONDS then
      var phase := if running then Running else Reserved;
      Become(s, r, Patching(a.job, a.now, JobStatus(phase, AttemptsOf(a.job.value), Some(assignment)), false))
    else if assignment.inventoryName in s.devices then
      Become(s, r, Writing(Renew(a.job, a.now, a.version), s.devices[assignment.inventoryName]))
    else
      Become(s, r, Idle)
  }

  function PerformReadToGiveBack(s: State, r: nat): State {
    var a := ActivityOf(s, r);
    if !a.Losing? then s
    else if a.name in s.devices && ReservedFor(s.devices[a.name].value, a.job.value.id) then
      Become(s, r, Writing(GiveBack(a.job, a.now), s.devices[a.name]))
    else Become(s, r, Idle)
  }

  function PerformReadToReclaim(s: State, r: nat, name: string, now: int): State {
    if ActivityOf(s, r).Idle? && name in s.devices && now <= s.clock
       && ReservationOf(s.devices[name].value).Some? && !LeasedAt(s.devices[name].value, now)
    then Become(s, r, Writing(Reclaim(now), s.devices[name]))
    else s
  }

  function PerformReadToRefresh(s: State, r: nat, name: string, health: Health): State {
    if ActivityOf(s, r).Idle? && name in s.devices && StatusOf(s.devices[name].value).health != health
    then Become(s, r, Writing(Refresh(health), s.devices[name]))
    else s
  }

  // ----- Job status patches, fenced by the job's own version -----

  /** Any error, also a lost answer to an applied patch, makes an attempt give its new device back. */
  function AfterPatch(a: Activity, succeeded: bool): Activity
    requires a.Patching?
  {
    if !succeeded && a.newly && a.status.assignment.Some?
    then Losing(a.job, a.now, a.status.assignment.value.inventoryName)
    else Idle
  }

  function PerformPatchJob(s: State, r: nat, reply: Reply): State {
    var a := ActivityOf(s, r);
    if !a.Patching? then s else
    var id := a.job.value.id;
    if !reply.RequestLost? && id in s.jobs && s.jobs[id].version == a.job.version then
      s.(revision := s.revision + 1,
         jobs := s.jobs[id := Versioned(s.revision + 1, a.job.value.(status := Some(a.status)))],
         replicas := s.replicas[r := AfterPatch(a, reply.Answered?)],
         patches := s.patches + [Patch(id, a.job.version, a.status.assignment)])
    else Become(s, r, AfterPatch(a, false))
  }

  /** A job that is not next, or finds no device, has its wait recorded. */
  function PerformQueue(s: State, r: nat): State {
    var a := ActivityOf(s, r);
    if a.Reconciling? && !a.job.value.deleting && a.job.value.spec.quotaRemainingSeconds > 0
       && AssignmentOf(a.job.value).None?
    then Become(s, r, Patching(a.job, a.now, JobStatus(Queued, AttemptsOf(a.job.value), None), false))
    else s
  }

  /** The device a replica has reserved and neither published nor given back. */
  function HeldBy(a: Activity): Option<(JobId, string)> {
    match a
    case Patching(job, _, status, true) =>
      if status.assignment.Some? then Some((job.value.id, status.assignment.value.inventoryName)) else None
    case Losing(job, _, name) => Some((job.value.id, name))
    case Writing(GiveBack(job, _), device) => Some((job.value.id, device.value.name))
    case Abandoned(id, name) => Some((id, name))
    case _ => None
  }

  function PerformCrash(s: State, r: nat): State {
    match HeldBy(ActivityOf(s, r))
    case Some((id, name)) => Become(s, r, Abandoned(id, name))
    case None => Become(s, r, Idle)
  }

  // ----- Changes made by others -----

  function PerformEnvironment(s: State, e: Event): State {
    match e
    case Tick(seconds) => s.(clock := s.clock + seconds)
    case AddDevice(device) =>
      if device.name !in s.devices && ReservationOf(device).None? then
        s.(revision := s.revision + 1, devices := s.devices[device.name := Versioned(s.revision + 1, device)])
      else s
    case EditDevice(name, spec) =>
      if name in s.devices then
        s.(revision := s.revision + 1,
           devices := s.devices[name := Versioned(s.revision + 1, s.devices[name].value.(spec := spec))])
      else s
    case RemoveDevice(name) => s.(devices := s.devices - {name})
    case AddJob(job) =>
      if job.id !in s.jobs && job.status.None? then
        s.(revision := s.revision + 1, jobs := s.jobs[job.id := Versioned(s.revision + 1, job)])
      else s
    case EditJob(id, spec, deleting) =>
      if id in s.jobs then
        s.(revision := s.revision + 1,
           jobs := s.jobs[id := Versioned(s.revision + 1,
             s.jobs[id].value.(spec := spec, deleting := s.jobs[id].value.deleting || deleting))])
      else s
    case RemoveJob(id) =>
      if id in s.jobs && s.jobs[id].value.deleting && AssignmentOf(s.jobs[id].value).None?
      then s.(jobs := s.jobs - {id})
      else s
    case _ => s
  }

  function Perform(s: State, e: Event): State {
    match e
    case Observe(r, id) =>
      if ActivityOf(s, r).Idle? && id in s.jobs then Become(s, r, Observed(s.jobs[id])) else s
    case Start(r) =>
      if ActivityOf(s, r).Observed? then Become(s, r, Reconciling(ActivityOf(s, r).job, s.clock)) else s
    case ReadToReserve(r, name) => PerformReadToReserve(s, r, name)
    case ReadToRelease(r) => PerformReadToRelease(s, r)
    case Validate(r) => PerformValidate(s, r)
    case ReadToRenew(r, running) => PerformReadToRenew(s, r, running)
    case ReadToGiveBack(r) => PerformReadToGiveBack(s, r)
    case ReadToReclaim(r, name, now) => PerformReadToReclaim(s, r, name, now)
    case ReadToRefresh(r, name, health) => PerformReadToRefresh(s, r, name, health)
    case WriteDevice(r) => PerformWriteDevice(s, r)
    case Queue(r) => PerformQueue(s, r)
    case PatchJob(r, reply) => PerformPatchJob(s, r, reply)
    case Crash(r) => PerformCrash(s, r)
    case _ => PerformEnvironment(s, e)
  }

  function Run(s: State, events: seq<Event>): State
    decreases |events|
  {
    if events == [] then s else Perform(Run(s, events[..|events| - 1]), events[|events| - 1])
  }

  const EMPTY := State(0, 0, map[], map[], map[], [])

  // ----- Invariant -----

  ghost predicate DeviceSnapshot(s: State, d: Versioned<Device>) {
    && d.version <= s.revision
    && (d.value.name in s.devices && s.devices[d.value.name].version == d.version ==> s.devices[d.value.name] == d)
  }

  ghost predicate JobSnapshot(s: State, j: Versioned<Job>) {
    && j.version <= s.revision
    && (j.value.id in s.jobs && s.jobs[j.value.id].version == j.version ==> s.jobs[j.value.id] == j)
  }

  /** What the read that precedes each write has established about the device. */
  ghost predicate IntentOk(s: State, intent: Intent, device: Device) {
    match intent
    case Reserve(job, now) =>
      JobSnapshot(s, job) && now <= s.clock && AssignmentOf(job.value).None? && DeviceAvailable(device, now)
    case Renew(job, now, validated) =>
      && JobSnapshot(s, job) && now <= s.clock
      && AssignmentOf(job.value).Some? && AssignmentOf(job.value).value.inventoryName == device.name
    case Release(job, now) =>
      && JobSnapshot(s, job) && now <= s.clock && ReservedFor(device, job.value.id)
      && AssignmentOf(job.value).Some? && AssignmentOf(job.value).value.inventoryName == device.name
    case GiveBack(job, now) => JobSnapshot(s, job) && now <= s.clock && ReservedFor(device, job.value.id)
    case Reclaim(now) => now <= s.clock && !LeasedAt(device, now)
    case Refresh(_) => true
  }

  /** A validated version, as long as it is current, still belongs to the job that validated it. */
  ghost predicate ValidatedOk(s: State, job: Versioned<Job>, version: nat) {
    && version <= s.revision
    && AssignmentOf(job.value).Some?
    && var name := AssignmentOf(job.value).value.inventoryName;
    (name in s.devices && s.devices[name].version == version ==> ReservedFor(s.devices[name].value, job.value.id))
  }

  ghost predicate PatchOk(job: Job, status: JobStatus, newly: bool) {
    if newly then AssignmentOf(job).None? && status.assignment.Some?
    else status.assignment.Some? ==>
        && AssignmentOf(job).Some?
        && AssignmentOf(job).value.inventoryName == status.assignment.value.inventoryName
  }

  ghost predicate ActivityOk(s: State, a: Activity) {
    match a
    case Idle => true
    case Observed(job) => JobSnapshot(s, job)
    case Reconciling(job, now) => JobSnapshot(s, job) && now <= s.clock
    case Refuted(job, now) => JobSnapshot(s, job) && now <= s.clock
    case Validated(job, now, version) => JobSnapshot(s, job) && now <= s.clock && ValidatedOk(s, job, version)
    case Writing(intent, device) =>
      && DeviceSnapshot(s, device)
      && IntentOk(s, intent, device.value)
      && (intent.Renew? ==> ValidatedOk(s, intent.job, intent.validated))
    case Patching(job, now, status, newly) => JobSnapshot(s, job) && now <= s.clock && PatchOk(job.value, status, newly)
    case Losing(job, now, _) => JobSnapshot(s, job) && now <= s.clock
    case Abandoned(_, _) => true
  }

  /** Versions stay within the revision counter and every object keeps its own key. */
  ghost predicate Keyed(s: State) {
    && (forall n <- s.devices :: s.devices[n].version <= s.revision && s.devices[n].value.name == n)
    && (forall id <- s.jobs :: s.jobs[id].version <= s.revision && s.jobs[id].value.id == id)
  }

  ghost predicate Fenced(s: State) {
    Keyed(s) && forall r <- s.replicas :: ActivityOk(s, s.replicas[r])
  }

  // ----- Safety: no write disturbs another job's live lease -----

  /** The job a device write is made for, if any. */
  function ActingJob(s: State, e: Event): Option<JobId> {
    if !e.WriteDevice? || !ActivityOf(s, e.r).Writing? then None else
    match ActivityOf(s, e.r).intent
    case Reserve(job, _) => Some(job.value.id)
    case Renew(job, _, _) => Some(job.value.id)
    case Release(job, _) => Some(job.value.id)
    case GiveBack(job, _) => Some(job.value.id)
    case _ => None
  }

  /** `e` replaces or clears, on a device that stays, a reservation whose lease is running and is not its own. */
  ghost predicate Clobbers(s: State, e: Event, name: string) {
    && name in s.devices
    && LeasedAt(s.devices[name].value, s.clock)
    && name in Perform(s, e).devices
    && ReservationOf(Perform(s, e).devices[name].value) != ReservationOf(s.devices[name].value)
    && ActingJob(s, e) != Some(ReservationOf(s.devices[name].value).value.job)
  }

  /** `e` is a device write that the API server accepts. */
  predicate Accepted(s: State, e: Event, name: string) {
    && e.WriteDevice? && ActivityOf(s, e.r).Writing? && ActivityOf(s, e.r).device.value.name == name
    && name in s.devices && s.devices[name].version == ActivityOf(s, e.r).device.version
  }

  predicate WritesRenewal(s: State, e: Event) {
    && e.WriteDevice? && ActivityOf(s, e.r).Writing? && ActivityOf(s, e.r).intent.Renew?
    && Accepted(s, e, ActivityOf(s, e.r).device.value.name)
  }

  /** An accepted renewal re-read a device that is reserved for its own job, or on which no lease runs. */
  ghost predicate Rechecked(s: State, e: Event) {
    WritesRenewal(s, e) ==>
      var a := ActivityOf(s, e.r);
      ReservedFor(a.device.value, a.intent.job.value.id) || !LeasedAt(a.device.value, s.clock)
  }

  /** An accepted renewal re-read a device that is reserved for its own job. */
  ghost predicate RenewsOwn(s: State, e: Event) {
    WritesRenewal(s, e) ==> var a := ActivityOf(s, e.r); ReservedFor(a.device.value, a.intent.job.value.id)
  }

  ghost predicate RunRenewsOwn(s: State, events: seq<Event>) {
    forall k | 0 <= k < |events| :: RenewsOwn(Run(s, events[..k]), events[k])
  }

  ghost predicate RunRechecked(s: State, events: seq<Event>) {
    forall k | 0 <= k < |events| :: Rechecked(Run(s, events[..k]), events[k])
  }

  // ----- Preservation of the fencing invariant -----

  /** Time and versions only grow, and every object that changed carries a version nobody has seen. */
  ghost predicate Advances(s: State, s': State) {
    && s.clock <= s'.clock
    && s.revision <= s'.revision
    && (forall n <- s'.devices ::
          (n in s.devices && s'.devices[n] == s.devices[n]) || s.revision < s'.devices[n].version)
    && (forall id <- s'.jobs :: (id in s.jobs && s'.jobs[id] == s.jobs[id]) || s.revision < s'.jobs[id].version)
  }

  lemma ActivityKept(s: State, s': State, a: Activity)
    requires ActivityOk(s, a) && Advances(s, s')
    ensures ActivityOk(s', a)
  {
  }

  lemma FencedByAdvance(s: State, s': State, r: nat, a: Activity)
    requires Fenced(s) && Advances(s, s')
    requires Keyed(s') && s'.replicas == s.replicas[r := a] && ActivityOk(s', a)
    ensures Fenced(s')
  {
    forall q <- s'.replicas
      ensures ActivityOk(s', s'.replicas[q])
    {
      if q != r { ActivityKept(s, s', s.replicas[q]); }
    }
  }

  lemma DeviceEventAdvances(s: State, e: Event)
    requires Keyed(s) && (e.Tick? || e.AddDevice? || e.EditDevice? || e.RemoveDevice?)
    ensures var s' := PerformEnvironment(s, e); Advances(s, s') && s'.replicas == s.replicas && Keyed(s')
  {
  }

  lemma JobEventAdvances(s: State, e: Event)
    requires Keyed(s) && (e.AddJob? || e.EditJob? || e.RemoveJob?)
    ensures var s' := PerformEnvironment(s, e); Advances(s, s') && s'.replicas == s.replicas && Keyed(s')
  {
  }

  lemma EnvironmentAdvances(s: State, e: Event)
    requires Keyed(s)
    ensures var s' := PerformEnvironment(s, e); Advances(s, s') && s'.replicas == s.replicas && Keyed(s')
  {
    if e.Tick? || e.AddDevice? || e.EditDevice? || e.RemoveDevice? {
      DeviceEventAdvances(s, e);
    } else if e.AddJob? || e.EditJob? || e.RemoveJob? {
      JobEventAdvances(s, e);
    }
  }

  lemma EnvironmentPreservesFenced(s: State, e: Event)
    requires Fenced(s)
    ensures Fenced(PerformEnvironment(s, e)) && Advances(s, PerformEnvironment(s, e))
  {
    var s' := PerformEnvironment(s, e);
    EnvironmentAdvances(s, e);
    forall q <- s'.replicas
      ensures ActivityOk(s', s'.replicas[q])
    {
      ActivityKept(s, s', s.replicas[q]);
    }
  }

  lemma WritePreservesFenced(s: State, r: nat)
    requires Fenced(s)
    ensures Fenced(PerformWriteDevice(s, r)) && Advances(s, PerformWriteDevice(s, r))
  {
    var a := ActivityOf(s, r);
    if a.Writing? {
      var s' := PerformWriteDevice(s, r);
      ActivityKept(s, s', a);
      FencedByAdvance(s, s', r, s'.replicas[r]);
    }
  }

  lemma PatchPreservesFenced(s: State, r: nat, reply: Reply)
    requires Fenced(s)
    ensures Fenced(PerformPatchJob(s, r, reply)) && Advances(s, PerformPatchJob(s, r, reply))
  {
    var a := ActivityOf(s, r);
    if a.Patching? {
      var s' := PerformPatchJob(s, r, reply);
      ActivityKept(s, s', a);
      FencedByAdvance(s, s', r, s'.replicas[r]);
    }
  }

  predicate IsRead(e: Event) {
    || e.Observe? || e.Start? || e.ReadToReserve? || e.ReadToRelease? || e.Validate? || e.ReadToRenew?
    || e.ReadToGiveBack? || e.ReadToReclaim? || e.ReadToRefresh? || e.Queue? || e.Crash?
  }

  /** A read moves only its own replica, to an activity that what it saw justifies. */
  ghost predicate Moves(s: State, s': State, r: nat) {
    s' == s || (r in s'.replicas && s' == Become(s, r, s'.replicas[r]) && ActivityOk(s, s'.replicas[r]))
  }

  lemma ReserveReadMoves(s: State, r: nat, name: string)
    requires Fenced(s)
    ensures Moves(s, PerformReadToReserve(s, r, name), r)
  {
  }

  lemma ReleaseReadMoves(s: State, r: nat)
    requires Fenced(s)
    ensures Moves(s, PerformReadToRelease(s, r), r)
  {
  }

  lemma RenewReadMoves(s: State, r: nat, running: bool)
    requires Fenced(s)
    ensures Moves(s, PerformReadToRenew(s, r, running), r)
    ensures Moves(s, PerformValidate(s, r), r)
  {
  }

  lemma GiveBackReadMoves(s: State, r: nat)
    requires Fenced(s)
    ensures Moves(s, PerformReadToGiveBack(s, r), r)
  {
  }

  lemma MaintenanceReadMoves(s: State, r: nat, name: string, now: int, health: Health)
    requires Fenced(s)
    ensures Moves(s, PerformReadToReclaim(s, r, name, now), r)
    ensures Moves(s, PerformReadToRefresh(s, r, name, health), r)
  {
  }

  lemma QueueMoves(s: State, r: nat)
    requires Fenced(s)
    ensures Moves(s, PerformQueue(s, r), r)
  {
  }

  lemma CrashMoves(s: State, r: nat)
    requires Fenced(s)
    ensures Moves(s, PerformCrash(s, r), r)
  {
  }

  lemma ReadMoves(s: State, e: Event)
    requires Fenced(s) && IsRead(e)
    ensures Moves(s, Perform(s, e), e.r)
  {
    match e
    case Observe(r, id) =>
    case Start(r) =>
    case ReadToReserve(r, name) => ReserveReadMoves(s, r, name);
    case ReadToRelease(r) => ReleaseReadMoves(s, r);
    case ReadToRenew(r, running) => RenewReadMoves(s, r, running);
    case Validate(r) => RenewReadMoves(s, r, false);
    case ReadToGiveBack(r) => GiveBackReadMoves(s, r);
    case ReadToReclaim(r, name, now) => MaintenanceReadMoves(s, r, name, now, Unknown);
    case ReadToRefresh(r, name, health) => MaintenanceReadMoves(s, r, name, 0, health);
    case Queue(r) => QueueMoves(s, r);
    case Crash(r) => CrashMoves(s, r);
  }

  lemma ReadPreservesFenced(s: State, e: Event)
    requires Fenced(s) && IsRead(e)
    ensures Fenced(Perform(s, e)) && Advances(s, Perform(s, e))
  {
    var s' := Perform(s, e);
    ReadMoves(s, e);
    if s' != s {
      ActivityKept(s, s', s'.replicas[e.r]);
      FencedByAdvance(s, s', e.r, s'.replicas[e.r]);
    }
  }

  lemma StepPreservesFenced(s: State, e: Event)
    requires Fenced(s)
    ensures Fenced(Perform(s, e)) && Advances(s, Perform(s, e))
  {
    match e
    case WriteDevice(r) => WritePreservesFenced(s, r);
    case PatchJob(r, reply) => PatchPreservesFenced(s, r, reply);
    case Tick(_) => EnvironmentPreservesFenced(s, e);
    case AddDevice(_) => EnvironmentPreservesFenced(s, e);
    case EditDevice(_, _) => EnvironmentPreservesFenced(s, e);
    case RemoveDevice(_) => EnvironmentPreservesFenced(s, e);
    case AddJob(_) => EnvironmentPreservesFenced(s, e);
    case EditJob(_, _, _) => EnvironmentPreservesFenced(s, e);
    case RemoveJob(_) => EnvironmentPreservesFenced(s, e);
    case _ => ReadPreservesFenced(s, e);
  }

  lemma {:induction false} RunFenced(s: State, events: seq<Event>)
    requires Fenced(s)
    ensures Fenced(Run(s, events))
    decreases |events|
  {
    if events != [] {
      RunFenced(s, events[..|events| - 1]);
      StepPreservesFenced(Run(s, events[..|events| - 1]), events[|events| - 1]);
    }
  }

  // ----- Main results on safety -----

  /** Exactly when a renewal disturbs somebody: the device it re-read is leased, and to another job. */
  lemma RenewalClobbersIff(s: State, r: nat, name: string)
    requires Fenced(s)
    requires ActivityOf(s, r).Writing? && ActivityOf(s, r).intent.Renew?
    requires var d := ActivityOf(s, r).device; d.value.name in s.devices && s.devices[d.value.name].version == d.version
    ensures var a := ActivityOf(s, r);
      Clobbers(s, WriteDevice(r), name) <==>
      && name == a.device.value.name
      && LeasedAt(a.device.value, s.clock)
      && !ReservedFor(a.device.value, a.intent.job.value.id)
  {
    assert DeviceSnapshot(s, ActivityOf(s, r).device);
  }

  /** Validating and renewing one and the same version renews the own lease. */
  lemma AtomicRenewalIsOwn(s: State, e: Event)
    requires Fenced(s)
    requires WritesRenewal(s, e) ==> ActivityOf(s, e.r).device.version == ActivityOf(s, e.r).intent.validated
    ensures RenewsOwn(s, e)
  {
    if WritesRenewal(s, e) { assert ActivityOk(s, ActivityOf(s, e.r)); }
  }

  lemma StepNeverClobbers(s: State, e: Event, name: string)
    requires Fenced(s) && Rechecked(s, e)
    ensures !Clobbers(s, e, name)
  {
    if e.WriteDevice? && ActivityOf(s, e.r).Writing? {
      var a := ActivityOf(s, e.r);
      assert ActivityOk(s, a);
      if a.intent.Renew? && Accepted(s, e, a.device.value.name) {
        RenewalClobbersIff(s, e.r, name);
      }
    } else if IsRead(e) {
      ReadMoves(s, e);
    }
  }

  /** In every run whose renewals re-check the holder, no step disturbs another job's live lease. */
  lemma RunNeverClobbers(events: seq<Event>, k: nat, name: string)
    requires k < |events| && RunRechecked(EMPTY, events)
    ensures !Clobbers(Run(EMPTY, events[..k]), events[k], name)
  {
    RunFenced(EMPTY, events[..k]);
    StepNeverClobbers(Run(EMPTY, events[..k]), events[k], name);
  }
}
