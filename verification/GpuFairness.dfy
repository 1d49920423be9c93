/** How a reservation feeds back into the fair order of the queue. */
module GpuFairness {
  import opened Wrappers
  import opened GpuTypes
  import opened GpuProtocol
  import opened GpuChoice

  /** The inventory after a device has been reserved for a job. */
  function Granted(devices: seq<Device>, i: nat, job: Job, now: int): seq<Device>
    requires i < |devices|
  {
    devices[i := devices[i].(status := Some(ReservedStatus(StatusOf(devices[i]).health, job, now)))]
  }

  /** A reservation counts as service of the job's organization and of its subject. */
  lemma GrantCountsAsService(devices: seq<Device>, i: nat, job: Job, now: int, bySubject: bool)
    requires i < |devices|
    ensures var served := LastServed(Granted(devices, i, job, now), job, bySubject);
      served.Some? && served.value >= now
  {
    var after := Granted(devices, i, job, now);
    assert after[i] in after && Serves(after[i], job, bySubject);
  }

  /** It never makes another organization look more recently served. */
  lemma GrantLeavesOthers(devices: seq<Device>, i: nat, job: Job, now: int, other: Job)
    requires i < |devices| && other.spec.organizationId != job.spec.organizationId
    ensures var before := LastServed(devices, other, false);
      var after := LastServed(Granted(devices, i, job, now), other, false);
      after.Some? ==> before.Some? && after.value <= before.value
  {
    var granted := Granted(devices, i, job, now);
    var after := LastServed(granted, other, false);
    if after.Some? {
      var d :| d in granted && Serves(d, other, false) && StatusOf(d).lastAllocatedAt == after;
      var k :| 0 <= k < |granted| && granted[k] == d;
      assert devices[k] == d && d in devices;
    }
  }

  /**
   * Once an organization has been given a device, it is not chosen again while another organization that was not
   * served since has a job that some device can serve.
   */
  lemma ServedOrganizationYields(
    jobs: seq<Job>, devices: seq<Device>, i: nat, job: Job, now: int, chosen: Job, other: Job, later: int)
    requires i < |devices| && other.spec.organizationId != job.spec.organizationId
    requires var before := LastServed(devices, other, false); before.Some? ==> before.value < now
    requires FairestChoice(Some(chosen), jobs, Granted(devices, i, job, now), later)
    requires other in jobs && Schedulable(other, Granted(devices, i, job, now), later)
    ensures chosen.spec.organizationId != job.spec.organizationId
  {
    var after := Granted(devices, i, job, now);
    GrantLeavesOthers(devices, i, job, now, other);
    LaterServedOrganizationWaits(jobs, after, later, chosen, other);
    GrantCountsAsService(devices, i, job, now, false);
    if chosen.spec.organizationId == job.spec.organizationId { OrganizationDecidesService(after, chosen, job); }
  }

  lemma {:induction false} OrganizationDecidesService(devices: seq<Device>, left: Job, right: Job)
    requires left.spec.organizationId == right.spec.organizationId
    ensures LastServed(devices, left, false) == LastServed(devices, right, false)
  {
    if devices != [] { OrganizationDecidesService(devices[1..], left, right); }
  }
}
