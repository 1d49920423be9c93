/** Which queued job the GPU scheduler serves next, and on which device. */
module GpuChoice {
  import opened Wrappers
  import opened GpuTypes
  import opened Orderings

  /** Absent timestamps come before every present one. */
  function TimeKey(time: Option<int>): seq<int> {
    match time
    case None => [0, 0]
    case Some(t) => [1, t]
  }

  function JobKey(job: Job): seq<int> {
    [job.spec.queuedAt] + NameKey(job.id.name)
  }

  function DeviceKey(device: Device): seq<int> {
    TimeKey(StatusOf(device).lastAllocatedAt) + NameKey(device.name)
  }

  lemma SameJobKeyMeansSameName(left: Job, right: Job)
    requires JobKey(left) == JobKey(right)
    ensures left.id.name == right.id.name
  {
    var l, r := left.id.name, right.id.name;
    assert |JobKey(left)| == |l| + 1 && |JobKey(right)| == |r| + 1;
    forall i | 0 <= i < |l| ensures l[i] == r[i] {
      assert JobKey(left)[i + 1] == l[i] as int && JobKey(right)[i + 1] == r[i] as int;
    }
  }

  // ----- Candidates -----

  /** Healthy, visible, free devices of the requested type: least recently allocated first, then by name. */
  function CandidateDevices(devices: seq<Device>, job: Job, now: int): seq<Device> {
    Sort(KeepCandidates(devices, job, now), DeviceKey)
  }

  lemma CandidatesExact(devices: seq<Device>, job: Job, now: int)
    ensures forall d :: d in CandidateDevices(devices, job, now) <==> d in devices && Candidate(d, job, now)
    ensures SortedBy(CandidateDevices(devices, job, now), DeviceKey)
    ensures CandidateDevices(devices, job, now) != [] <==> exists d <- devices :: Candidate(d, job, now)
  {
    SortSorts(KeepCandidates(devices, job, now), DeviceKey);
    SortKeepsElements(KeepCandidates(devices, job, now), DeviceKey);
    var r := CandidateDevices(devices, job, now);
    if r != [] { assert r[0] in devices; }
  }

  function KeepCandidates(devices: seq<Device>, job: Job, now: int): (r: seq<Device>)
    ensures forall d :: d in r <==> d in devices && Candidate(d, job, now)
  {
    if devices == [] then []
    else (if Candidate(devices[0], job, now) then [devices[0]] else []) + KeepCandidates(devices[1..], job, now)
  }

  ghost predicate Schedulable(job: Job, devices: seq<Device>, now: int) {
    PendingJob(job) && exists d <- devices :: Candidate(d, job, now)
  }

  // ----- When a principal was last served -----

  predicate ServedOrganization(device: Device, job: Job) {
    StatusOf(device).lastOrganizationId == Some(job.spec.organizationId)
  }

  predicate ServedSubject(device: Device, job: Job) {
    ServedOrganization(device, job) && StatusOf(device).lastSubjectId == Some(job.spec.subjectId)
  }

  /** The latest allocation time among the devices last used by the job's organization, or by its subject. */
  function LastServed(devices: seq<Device>, job: Job, bySubject: bool): (r: Option<int>)
    ensures r.Some? ==> exists d <- devices :: Serves(d, job, bySubject) && StatusOf(d).lastAllocatedAt == r
    ensures forall d <- devices | Serves(d, job, bySubject) && StatusOf(d).lastAllocatedAt.Some? ::
      r.Some? && StatusOf(d).lastAllocatedAt.value <= r.value
  {
    if devices == [] then None else
    var rest := LastServed(devices[1..], job, bySubject);
    var time := StatusOf(devices[0]).lastAllocatedAt;
    if Serves(devices[0], job, bySubject) && time.Some? && (rest.None? || rest.value < time.value) then time else rest
  }

  predicate Serves(device: Device, job: Job, bySubject: bool) {
    if bySubject then ServedSubject(device, job) else ServedOrganization(device, job)
  }

  function FairKey(devices: seq<Device>, job: Job): seq<int> {
    TimeKey(LastServed(devices, job, false)) + TimeKey(LastServed(devices, job, true)) + JobKey(job)
  }

  predicate SamePrincipal(left: Job, right: Job) {
    left.spec.organizationId == right.spec.organizationId && left.spec.subjectId == right.spec.subjectId
  }

  lemma {:induction false} PrincipalDecidesLastServed(devices: seq<Device>, left: Job, right: Job, bySubject: bool)
    requires SamePrincipal(left, right)
    ensures LastServed(devices, left, bySubject) == LastServed(devices, right, bySubject)
  {
    if devices != [] {
      PrincipalDecidesLastServed(devices[1..], left, right, bySubject);
    }
  }

  /** Between two jobs of one principal, the fair order is the queue order. */
  lemma FairOrderWithinPrincipal(devices: seq<Device>, left: Job, right: Job)
    requires SamePrincipal(left, right) && LexLeq(JobKey(left), JobKey(right))
    ensures LexLeq(FairKey(devices, left), FairKey(devices, right))
  {
    PrincipalDecidesLastServed(devices, left, right, false);
    PrincipalDecidesLastServed(devices, left, right, true);
    var served := TimeKey(LastServed(devices, left, false)) + TimeKey(LastServed(devices, left, true));
    LexPrefix(served, JobKey(left), JobKey(right));
  }

  // ----- The choice -----

  /** `best` is first among all pending jobs some device can serve, by last service, queue time and name. */
  ghost predicate FairestChoice(best: Option<Job>, jobs: seq<Job>, devices: seq<Device>, now: int) {
    match best
    case None => forall j <- jobs :: !Schedulable(j, devices, now)
    case Some(b) =>
      && b in jobs && Schedulable(b, devices, now)
      && forall j <- jobs | Schedulable(j, devices, now) :: LexLeq(FairKey(devices, b), FairKey(devices, j))
  }

  method CanSchedule(job: Job, devices: seq<Device>, now: int) returns (schedulable: bool)
    ensures schedulable <==> Schedulable(job, devices, now)
  {
    CandidatesExact(devices, job, now);
    schedulable := PendingJob(job) && CandidateDevices(devices, job, now) != [];
  }

  method PendingSchedulable(jobs: seq<Job>, devices: seq<Device>, now: int) returns (pending: seq<Job>)
    ensures forall j :: j in pending <==> j in jobs && Schedulable(j, devices, now)
  {
    pending := [];
    for i := 0 to |jobs|
      invariant forall j :: j in pending <==> j in jobs[..i] && Schedulable(j, devices, now)
    {
      var schedulable := CanSchedule(jobs[i], devices, now);
      if schedulable {
        pending := pending + [jobs[i]];
      }
      assert jobs[..i + 1] == jobs[..i] + [jobs[i]];
    }
    assert jobs[..|jobs|] == jobs;
  }

  /** Some kept job of the same principal is no later in the queue. */
  ghost predicate Represented(job: Job, kept: seq<Job>) {
    exists k <- kept :: SamePrincipal(k, job) && LexLeq(JobKey(k), JobKey(job))
  }

  lemma StillRepresented(job: Job, kept: seq<Job>, x: Job)
    requires Represented(job, kept)
    ensures Represented(job, kept + [x])
  {
    var k :| k in kept && SamePrincipal(k, job) && LexLeq(JobKey(k), JobKey(job));
    assert k in kept + [x];
  }

  lemma NewlyRepresented(job: Job, kept: seq<Job>)
    ensures Represented(job, kept + [job])
  {
    LexTotal(JobKey(job), JobKey(job));
    assert job in kept + [job];
  }

  function PrincipalOf(job: Job): (string, string) {
    (job.spec.organizationId, job.spec.subjectId)
  }

  /** Keeps the first job of every principal; the input is in queue order, so nothing it drops came earlier. */
  method FirstPerPrincipal(sorted: seq<Job>) returns (kept: seq<Job>)
    requires SortedBy(sorted, JobKey)
    ensures forall j <- kept :: j in sorted
    ensures AllRepresented(sorted, kept)
    ensures forall i, k | 0 <= i < k < |kept| :: PrincipalOf(kept[i]) != PrincipalOf(kept[k])
  {
    kept := [];
    var principals: set<(string, string)> := {};
    ghost var first: map<(string, string), nat> := map[];
    for i := 0 to |sorted|
      invariant forall j <- kept :: j in sorted && PrincipalOf(j) in principals
      invariant first.Keys == principals
      invariant forall p <- first :: first[p] < i && PrincipalOf(sorted[first[p]]) == p
      invariant AllRepresented(sorted[..i], kept)
      invariant forall i, k | 0 <= i < k < |kept| :: PrincipalOf(kept[i]) != PrincipalOf(kept[k])
    {
      var job := sorted[i];
      if PrincipalOf(job) !in principals {
        AllStillRepresented(sorted[..i], kept, job);
        NewlyRepresented(job, kept);
        principals := principals + {PrincipalOf(job)};
        first := first[PrincipalOf(job) := i];
        kept := kept + [job];
      } else {
        LaterOneRepresented(sorted[first[PrincipalOf(job)]], job, kept);
      }
      assert sorted[..i + 1] == sorted[..i] + [job];
    }
    assert sorted[..|sorted|] == sorted;
  }

  ghost predicate AllRepresented(jobs: seq<Job>, kept: seq<Job>) {
    forall j <- jobs :: Represented(j, kept)
  }

  lemma AllStillRepresented(jobs: seq<Job>, kept: seq<Job>, x: Job)
    requires AllRepresented(jobs, kept)
    ensures AllRepresented(jobs, kept + [x])
  {
    forall j <- jobs ensures Represented(j, kept + [x]) {
      StillRepresented(j, kept, x);
    }
  }

  lemma LaterOneRepresented(earlier: Job, later: Job, kept: seq<Job>)
    requires Represented(earlier, kept) && SamePrincipal(earlier, later) && LexLeq(JobKey(earlier), JobKey(later))
    ensures Represented(later, kept)
  {
    var k :| k in kept && SamePrincipal(k, earlier) && LexLeq(JobKey(k), JobKey(earlier));
    LexTransitive(JobKey(k), JobKey(earlier), JobKey(later));
    assert SamePrincipal(k, later);
  }

  /** Sorting by queue order, keeping one job per principal and sorting again picks the fairest of all jobs. */
  method NextSchedulableJob(jobs: seq<Job>, devices: seq<Device>, now: int) returns (next: Option<Job>)
    ensures FairestChoice(next, jobs, devices, now)
  {
    var pending := PendingSchedulable(jobs, devices, now);
    var queued := Sort(pending, JobKey);
    SortSorts(pending, JobKey);
    SortKeepsElements(pending, JobKey);
    var firsts := FirstPerPrincipal(queued);
    var key := (j: Job) => FairKey(devices, j);
    var fair := Sort(firsts, key);
    SortSorts(firsts, key);
    SortKeepsElements(firsts, key);
    if fair != [] { assert fair[0] in fair; }
    forall j <- jobs | Schedulable(j, devices, now)
      ensures fair != [] && LexLeq(FairKey(devices, fair[0]), FairKey(devices, j))
    {
      RepresentativeIsFairer(devices, j, firsts, fair);
    }
    next := if fair == [] then None else Some(fair[0]);
  }

  lemma RepresentativeIsFairer(devices: seq<Device>, job: Job, firsts: seq<Job>, fair: seq<Job>)
    requires Represented(job, firsts) && (forall x :: x in fair <==> x in firsts)
    requires SortedBy(fair, (j: Job) => FairKey(devices, j))
    ensures fair != [] && LexLeq(FairKey(devices, fair[0]), FairKey(devices, job))
  {
    var k :| k in firsts && SamePrincipal(k, job) && LexLeq(JobKey(k), JobKey(job));
    assert k in fair;
    FairOrderWithinPrincipal(devices, k, job);
    FirstIsLeast(fair, (j: Job) => FairKey(devices, j), k);
    LexTransitive(FairKey(devices, fair[0]), FairKey(devices, k), FairKey(devices, job));
  }

  /** Neither the order in which jobs are listed nor that of devices changes the choice. */
  lemma ListingOrderIsIrrelevant(
    jobs: seq<Job>, jobs': seq<Job>, devices: seq<Device>, devices': seq<Device>, now: int,
    next: Option<Job>, next': Option<Job>)
    requires multiset(jobs) == multiset(jobs') && multiset(devices) == multiset(devices')
    requires forall i, k | 0 <= i < k < |jobs| :: jobs[i].id.name != jobs[k].id.name
    requires FairestChoice(next, jobs, devices, now) && FairestChoice(next', jobs', devices', now)
    ensures next == next'
  {
    SameElements(jobs, jobs');
    SameElements(devices, devices');
    forall j: Job ensures FairKey(devices, j) == FairKey(devices', j) {
      LastServedIgnoresOrder(devices, devices', j, false);
      LastServedIgnoresOrder(devices, devices', j, true);
    }
    if next.Some? && next'.Some? {
      var a, b := next.value, next'.value;
      LexTotal(FairKey(devices, a), FairKey(devices, b));
      var p := TimeKey(LastServed(devices, a, false)) + TimeKey(LastServed(devices, a, true));
      var q := TimeKey(LastServed(devices, b, false)) + TimeKey(LastServed(devices, b, true));
      assert p + JobKey(a) == q + JobKey(b) && |p| == |q| == 4;
      assert JobKey(a) == (p + JobKey(a))[4..] == (q + JobKey(b))[4..] == JobKey(b);
      SameJobKeyMeansSameName(a, b);
    }
  }

  lemma LastServedIgnoresOrder(devices: seq<Device>, devices': seq<Device>, job: Job, bySubject: bool)
    requires forall d :: d in devices <==> d in devices'
    ensures LastServed(devices, job, bySubject) == LastServed(devices', job, bySubject)
  {
    LastServedAtMost(devices, devices', job, bySubject);
    LastServedAtMost(devices', devices, job, bySubject);
  }

  lemma LastServedAtMost(devices: seq<Device>, devices': seq<Device>, job: Job, bySubject: bool)
    requires forall d <- devices :: d in devices'
    ensures var r, r' := LastServed(devices, job, bySubject), LastServed(devices', job, bySubject);
      r.Some? ==> r'.Some? && r.value <= r'.value
  {
    var r := LastServed(devices, job, bySubject);
    if r.Some? {
      var d :| d in devices && Serves(d, job, bySubject) && StatusOf(d).lastAllocatedAt == r;
      assert d in devices';
    }
  }

  /** An organization served later than another one is not chosen while the other has a schedulable job. */
  lemma LaterServedOrganizationWaits(jobs: seq<Job>, devices: seq<Device>, now: int, chosen: Job, other: Job)
    requires FairestChoice(Some(chosen), jobs, devices, now)
    requires other in jobs && Schedulable(other, devices, now)
    ensures var c, o := LastServed(devices, chosen, false), LastServed(devices, other, false);
      c.None? || (o.Some? && c.value <= o.value)
  {
    var c, o := LastServed(devices, chosen, false), LastServed(devices, other, false);
    var x := SplitFairKey(devices, chosen);
    var y := SplitFairKey(devices, other);
    HeadDecides(c, x, o, y);
  }

  lemma SplitFairKey(devices: seq<Device>, job: Job) returns (rest: seq<int>)
    ensures FairKey(devices, job) == TimeKey(LastServed(devices, job, false)) + rest
  {
    rest := TimeKey(LastServed(devices, job, true)) + JobKey(job);
  }

  lemma HeadDecides(c: Option<int>, x: seq<int>, o: Option<int>, y: seq<int>)
    requires LexLeq(TimeKey(c) + x, TimeKey(o) + y)
    ensures c.None? || (o.Some? && c.value <= o.value)
  {
    assert (TimeKey(c) + x)[1..] == TimeKey(c)[1..] + x && (TimeKey(o) + y)[1..] == TimeKey(o)[1..] + y;
    assert TimeKey(c)[1..] == [TimeKey(c)[1]] && TimeKey(o)[1..] == [TimeKey(o)[1]];
    if c.Some? && TimeKey(o)[0] == 1 {
      assert LexLeq(TimeKey(c)[1..] + x, TimeKey(o)[1..] + y);
      assert (TimeKey(c)[1..] + x)[0] == c.value && (TimeKey(o)[1..] + y)[0] == o.value;
    }
  }
}
