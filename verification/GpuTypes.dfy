/** Inventory and queue records of the GPU scheduler, with the predicates that read them. */
module GpuTypes {
  import opened Wrappers

  const GPU_LEASE_SECONDS := 90
  const GPU_LEASE_RENEW_SECONDS := 30

  datatype Visibility = Open | Private
  datatype Health = Unknown | Healthy | Unhealthy
  datatype Phase = Queued | Reserved | Running | Retry | Cancelled | Released | Rejected

  datatype JobId = JobId(namespace: string, name: string)

  datatype Reservation = Reservation(
    job: JobId, subjectId: string, serviceInstanceId: string, reservedAt: int, leaseExpiresAt: int)

  datatype DeviceSpec = DeviceSpec(
    nodeName: string, gpuType: string, model: string, visibility: Visibility, privateAssignments: seq<string>)

  datatype DeviceStatus = DeviceStatus(
    health: Health, reservation: Option<Reservation>, lastAllocatedAt: Option<int>,
    lastOrganizationId: Option<string>, lastSubjectId: Option<string>)

  datatype Device = Device(name: string, spec: DeviceSpec, status: Option<DeviceStatus>)

  datatype Assignment = Assignment(
    inventoryName: string, nodeName: string, gpuType: string, model: string, leaseExpiresAt: int)

  datatype JobSpec = JobSpec(
    serviceInstanceId: string, subjectId: string, organizationId: string, gpuType: Option<string>,
    count: nat, quotaRemainingSeconds: nat, queuedAt: int)

  datatype JobStatus = JobStatus(phase: Phase, attempts: nat, assignment: Option<Assignment>)

  datatype Job = Job(id: JobId, spec: JobSpec, status: Option<JobStatus>, deleting: bool)

  const NO_STATUS := DeviceStatus(Unknown, None, None, None, None)

  function StatusOf(device: Device): DeviceStatus {
    if device.status.Some? then device.status.value else NO_STATUS
  }

  function ReservationOf(device: Device): Option<Reservation> {
    StatusOf(device).reservation
  }

  function AssignmentOf(job: Job): Option<Assignment> {
    if job.status.Some? then job.status.value.assignment else None
  }

  function AttemptsOf(job: Job): nat {
    if job.status.Some? then job.status.value.attempts else 0
  }

  predicate DeviceVisibleTo(device: Device, subjectId: string) {
    device.spec.visibility == Open || subjectId in device.spec.privateAssignments
  }

  predicate DeviceAvailable(device: Device, now: int) {
    && device.status.Some?
    && device.status.value.health == Healthy
    && (device.status.value.reservation.Some? ==> device.status.value.reservation.value.leaseExpiresAt <= now)
  }

  /** The three filters of candidate_devices. */
  predicate Candidate(device: Device, job: Job, now: int) {
    && DeviceVisibleTo(device, job.spec.subjectId)
    && (job.spec.gpuType.Some? ==> job.spec.gpuType.value == device.spec.gpuType)
    && DeviceAvailable(device, now)
  }

  predicate PendingJob(job: Job) {
    && !job.deleting
    && job.spec.count == 1
    && job.spec.quotaRemainingSeconds > 0
    && (job.status.Some? ==>
          || job.status.value.phase in {Queued, Retry}
          || job.status.value.assignment.None?)
  }

  predicate ReservedFor(device: Device, job: JobId) {
    ReservationOf(device).Some? && ReservationOf(device).value.job == job
  }

  /** A reservation that still excludes every other job at time `now`. */
  predicate LeasedAt(device: Device, now: int) {
    ReservationOf(device).Some? && ReservationOf(device).value.leaseExpiresAt > now
  }

  predicate AssignmentValid(device: Device, job: Job, assignment: Assignment, now: int) {
    && DeviceVisibleTo(device, job.spec.subjectId)
    && device.spec.nodeName == assignment.nodeName
    && (job.spec.gpuType.Some? ==> job.spec.gpuType.value == device.spec.gpuType)
    && StatusOf(device).health == Healthy
    && ReservedFor(device, job.id)
    && LeasedAt(device, now)
  }
}
