/**
 * Runs in which the lease protocol does less than it promises: a renewal that overwrites another job's
 * lease, attempts that clear what was published, and the four ways in which a device is granted twice.
 */
module GpuCounterexamples {
  import opened Wrappers
  import opened GpuTypes
  import opened GpuProtocol
  import opened GpuAttempts

  // ----- Building runs -----

  /** `events` takes `start` through `path`, one state per step, and every renewal it writes renews its own lease. */
  ghost predicate Trail(start: State, path: seq<State>, events: seq<Event>) {
    && |path| == |events| + 1
    && path[0] == start
    && forall i {:trigger events[i]} | 0 <= i < |events| ::
         RenewsOwn(path[i], events[i]) && path[i + 1] == Perform(path[i], events[i])
  }

  /** Such a run leads from `start` to `s`. */
  ghost predicate Leads(start: State, s: State) {
    exists path, events :: Trail(start, path, events) && path[|events|] == s
  }

  lemma {:induction false} TrailIsRun(start: State, path: seq<State>, events: seq<Event>, k: nat)
    requires Trail(start, path, events) && k <= |events|
    ensures Run(start, events[..k]) == path[k]
    decreases k
  {
    if k > 0 {
      TrailIsRun(start, path, events, k - 1);
      assert events[..k][..k - 1] == events[..k - 1];
    }
  }

  lemma TrailRenewsOwn(path: seq<State>, events: seq<Event>)
    requires Trail(EMPTY, path, events)
    ensures RunRenewsOwn(EMPTY, events) && Run(EMPTY, events) == path[|events|]
  {
    TrailIsRun(EMPTY, path, events, |events|);
    assert events[..|events|] == events;
    forall k | 0 <= k < |events| ensures RenewsOwn(Run(EMPTY, events[..k]), events[k]) {
      TrailIsRun(EMPTY, path, events, k);
    }
  }

  lemma LeadsByRun(s: State) returns (events: seq<Event>)
    requires Leads(EMPTY, s)
    ensures Run(EMPTY, events) == s && RunRenewsOwn(EMPTY, events)
  {
    var path, es :| Trail(EMPTY, path, es) && path[|es|] == s;
    TrailRenewsOwn(path, es);
    events := es;
  }

  lemma Stay(s: State)
    ensures Leads(s, s)
  {
    assert Trail(s, [s], []);
  }

  lemma Extend(start: State, s: State, e: Event) returns (s': State)
    requires Leads(start, s) && RenewsOwn(s, e)
    ensures s' == Perform(s, e) && Leads(start, s')
  {
    var path, events :| Trail(start, path, events) && path[|events|] == s;
    s' := Perform(s, e);
    assert Trail(start, path + [s'], events + [e]);
  }

  // ----- Stretches of runs -----

  lemma Observes(start: State, s: State, r: nat, id: JobId)
    requires Leads(start, s) && ActivityOf(s, r).Idle? && id in s.jobs
    ensures Leads(start, Become(s, r, Observed(s.jobs[id])))
  {
    var s' := Extend(start, s, Observe(r, id));
  }

  lemma Starts(start: State, s: State, r: nat)
    requires Leads(start, s) && ActivityOf(s, r).Observed?
    ensures Leads(start, Become(s, r, Reconciling(ActivityOf(s, r).job, s.clock)))
  {
    var s' := Extend(start, s, Start(r));
  }

  lemma BecomeTwice(s: State, r: nat, a: Activity, b: Activity)
    ensures Become(Become(s, r, a), r, b) == Become(s, r, b) && ActivityOf(Become(s, r, a), r) == a
  {
    assert Become(Become(s, r, a), r, b).replicas == Become(s, r, b).replicas;
  }

  /** A replica that has observed the job, at whatever version, is about to reserve a device that is free now. */
  lemma Reserving(start: State, s: State, r: nat, job: Versioned<Job>, name: string)
    requires Leads(start, s) && ActivityOf(s, r) == Observed(job)
    requires PendingJob(job.value) && AssignmentOf(job.value).None?
    requires name in s.devices && Candidate(s.devices[name].value, job.value, s.clock)
    ensures Leads(start, Become(s, r, Writing(Reserve(job, s.clock), s.devices[name])))
  {
    Starts(start, s, r);
    var s2 := Become(s, r, Reconciling(job, s.clock));
    BecomeTwice(s, r, Reconciling(job, s.clock), Writing(Reserve(job, s.clock), s.devices[name]));
    var s3 := Extend(start, s2, ReadToReserve(r, name));
  }

  /** The same from scratch. */
  lemma ObservesAndReserves(start: State, s: State, r: nat, id: JobId, name: string)
    requires Leads(start, s) && ActivityOf(s, r).Idle?
    requires id in s.jobs && PendingJob(s.jobs[id].value) && AssignmentOf(s.jobs[id].value).None?
    requires name in s.devices && Candidate(s.devices[name].value, s.jobs[id].value, s.clock)
    ensures Leads(start, Become(s, r, Writing(Reserve(s.jobs[id], s.clock), s.devices[name])))
  {
    Observes(start, s, r, id);
    BecomeTwice(s, r, Observed(s.jobs[id]), Writing(Reserve(s.jobs[id], s.clock), s.devices[name]));
    Reserving(start, Become(s, r, Observed(s.jobs[id])), r, s.jobs[id], name);
  }

  /** The state after replica r has reserved the device for the job as it read it. */
  function Attempted(s: State, r: nat, job: Versioned<Job>, name: string): State
    requires name in s.devices
  {
    var device := s.devices[name].value;
    var reserved := device.(status := Some(ReservedStatus(StatusOf(device).health, job.value, s.clock)));
    s.(revision := s.revision + 1,
       devices := s.devices[name := Versioned(s.revision + 1, reserved)],
       replicas := s.replicas[r := AfterWrite(Reserve(job, s.clock), reserved)])
  }

  /** A replica about to reserve the current version of a device is granted it. */
  lemma Grant(s: State, r: nat, job: Versioned<Job>, name: string)
    requires name in s.devices && s.devices[name].value.name == name
    ensures var ready := Become(s, r, Writing(Reserve(job, s.clock), s.devices[name]));
      && Reserves(ready, WriteDevice(r), name) && ActingJob(ready, WriteDevice(r)) == Some(job.value.id)
      && Perform(ready, WriteDevice(r)) == Attempted(s, r, job, name)
  {
    var ready := Become(s, r, Writing(Reserve(job, s.clock), s.devices[name]));
    assert Perform(ready, WriteDevice(r)).replicas == Attempted(s, r, job, name).replicas;
  }

  lemma AttemptReached(start: State, s: State, r: nat, id: JobId, name: string)
    requires Leads(start, s) && ActivityOf(s, r).Idle?
    requires id in s.jobs && PendingJob(s.jobs[id].value) && AssignmentOf(s.jobs[id].value).None?
    requires name in s.devices && s.devices[name].value.name == name
    requires Candidate(s.devices[name].value, s.jobs[id].value, s.clock)
    ensures Leads(start, Attempted(s, r, s.jobs[id], name))
  {
    ObservesAndReserves(start, s, r, id, name);
    Grant(s, r, s.jobs[id], name);
    var s' := Extend(start, Become(s, r, Writing(Reserve(s.jobs[id], s.clock), s.devices[name])), WriteDevice(r));
  }

  /** A replica publishes what it has reserved, from a job version that is still current. */
  lemma Publishes(start: State, s: State, r: nat, id: JobId) returns (s': State)
    requires Leads(start, s) && id in s.jobs && ActivityOf(s, r).Patching?
    requires ActivityOf(s, r).job == s.jobs[id] && s.jobs[id].value.id == id
    ensures Leads(start, s') && s'.devices == s.devices && s'.clock == s.clock
    ensures s'.replicas == s.replicas[r := Idle]
    ensures var published := s.jobs[id].value.(status := Some(ActivityOf(s, r).status));
      s'.jobs == s.jobs[id := Versioned(s.revision + 1, published)]
  {
    s' := Extend(start, s, PatchJob(r, Answered));
  }

  /** An idle replica writes a health that differs from the recorded one. */
  lemma Refreshes(start: State, s: State, r: nat, name: string, health: Health) returns (s': State)
    requires Leads(start, s) && ActivityOf(s, r).Idle?
    requires name in s.devices && s.devices[name].value.name == name && StatusOf(s.devices[name].value).health != health
    ensures Leads(start, s') && s'.clock == s.clock && s'.jobs == s.jobs && s'.replicas == s.replicas[r := Idle]
    ensures var status := StatusOf(s.devices[name].value).(health := health);
      s'.devices == s.devices[name := Versioned(s.revision + 1, s.devices[name].value.(status := Some(status)))]
  {
    var s1 := Extend(start, s, ReadToRefresh(r, name, health));
    assert s1 == Become(s, r, Writing(Refresh(health), s.devices[name]));
    s' := Extend(start, s1, WriteDevice(r));
    assert s'.replicas == s.replicas[r := Idle];
  }

  /** A replica that reconciles an assigned job finds its device unhealthy. */
  lemma Refutes(start: State, s: State, r: nat, job: Versioned<Job>, name: string)
    requires Leads(start, s) && ActivityOf(s, r) == Reconciling(job, s.clock)
    requires !job.value.deleting && job.value.spec.quotaRemainingSeconds > 0
    requires AssignmentOf(job.value).Some? && AssignmentOf(job.value).value.inventoryName == name
    requires name in s.devices && StatusOf(s.devices[name].value).health == Unhealthy
    ensures Leads(start, Become(s, r, Refuted(job, s.clock)))
  {
    var s' := Extend(start, s, Validate(r));
  }

  /** A replica that found the assignment invalid releases the device. */
  lemma ReleasesDevice(start: State, s: State, r: nat, job: Versioned<Job>, name: string) returns (s': State)
    requires Leads(start, s) && ActivityOf(s, r) == Refuted(job, s.clock)
    requires AssignmentOf(job.value).Some? && AssignmentOf(job.value).value.inventoryName == name
    requires ReservedNow(s, job.value.id, name) && s.devices[name].value.name == name
    ensures Leads(start, s') && s'.clock == s.clock && s'.jobs == s.jobs
    ensures r in s'.replicas && s'.replicas == s.replicas[r := s'.replicas[r]]
    ensures var status := StatusOf(s.devices[name].value).(reservation := None, lastAllocatedAt := Some(s.clock));
      s'.devices == s.devices[name := Versioned(s.revision + 1, s.devices[name].value.(status := Some(status)))]
  {
    var s1 := Extend(start, s, ReadToRelease(r));
    assert s1 == Become(s, r, Writing(Release(job, s.clock), s.devices[name]));
    s' := Extend(start, s1, WriteDevice(r));
  }

  // ----- One device, one job -----

  function DemoDevice(): Device {
    Device("gpu", DeviceSpec("node", "type", "model", Open, []), Some(DeviceStatus(Healthy, None, None, None, None)))
  }

  function DemoJob(name: string): Job {
    Job(JobId("flash", name), JobSpec(name, name, name, None, 1, 60, 0), None, false)
  }

  function DemoInventory(): State {
    EMPTY.(revision := 2, devices := map["gpu" := Versioned(1, DemoDevice())],
           jobs := map[DemoJob("a").id := Versioned(2, DemoJob("a"))])
  }

  lemma DemoInventoryReached()
    ensures Leads(EMPTY, DemoInventory())
  {
    Stay(EMPTY);
    var s := Extend(EMPTY, EMPTY, AddDevice(DemoDevice()));
    s := Extend(EMPTY, s, AddJob(DemoJob("a")));
    assert s == DemoInventory();
  }

  /** Job "a" has its first attempt: replica 0 reserved the device at time 0 and has not published it. */
  function DemoAttempt(): State {
    Attempted(DemoInventory(), 0, Versioned(2, DemoJob("a")), "gpu")
  }

  lemma DemoAttemptReached()
    ensures Leads(EMPTY, DemoAttempt())
  {
    DemoInventoryReached();
    AttemptReached(EMPTY, DemoInventory(), 0, DemoJob("a").id, "gpu");
  }

  /** Job "a" has published the device; replica 1 has validated the assignment at time 60. */
  function DemoValidated(): State {
    var a := DemoJob("a");
    var assignment := AssignmentFor(DemoDevice(), 0);
    var published := Versioned(4, a.(status := Some(JobStatus(Reserved, 1, Some(assignment)))));
    DemoAttempt().(clock := 60, revision := 4, jobs := map[a.id := published],
      replicas := map[0 := Idle, 1 := Validated(published, 60, 3)], patches := [Patch(a.id, 2, Some(assignment))])
  }

  lemma DemoPublishedReached()
    ensures Leads(EMPTY, DemoValidated().(replicas := map[0 := Idle]))
  {
    DemoAttemptReached();
    var s := Extend(EMPTY, DemoAttempt(), PatchJob(0, Answered));
    assert s == DemoValidated().(clock := 0, replicas := map[0 := Idle]);
    s := Extend(EMPTY, s, Tick(60));
  }

  lemma ValidatedReached(s: State, r: nat, id: JobId)
    requires id in s.jobs && Leads(EMPTY, Become(s, r, Reconciling(s.jobs[id], s.clock)))
    requires var job := s.jobs[id].value;
      && !job.deleting && job.spec.quotaRemainingSeconds > 0 && AssignmentOf(job).Some?
      && var assignment := AssignmentOf(job).value;
      && assignment.inventoryName in s.devices
      && AssignmentValid(s.devices[assignment.inventoryName].value, job, assignment, s.clock)
    ensures var name := AssignmentOf(s.jobs[id].value).value.inventoryName;
      Leads(EMPTY, Become(s, r, Validated(s.jobs[id], s.clock, s.devices[name].version)))
  {
    var name := AssignmentOf(s.jobs[id].value).value.inventoryName;
    var s' := Extend(EMPTY, Become(s, r, Reconciling(s.jobs[id], s.clock)), Validate(r));
    assert s'.replicas == s.replicas[r := Validated(s.jobs[id], s.clock, s.devices[name].version)];
  }

  lemma DemoValidatedReached()
    ensures Leads(EMPTY, DemoValidated())
  {
    DemoPublishedReached();
    var idle := DemoValidated().(replicas := map[0 := Idle]);
    var job := idle.jobs[DemoJob("a").id];
    Observes(EMPTY, idle, 1, DemoJob("a").id);
    BecomeTwice(idle, 1, Observed(job), Reconciling(job, 60));
    Starts(EMPTY, Become(idle, 1, Observed(job)), 1);
    ValidatedReached(idle, 1, DemoJob("a").id);
    assert DemoValidated().replicas == idle.replicas[1 := DemoValidated().replicas[1]];
  }

  /** The lease of job "a" has lapsed and job "b" is queued. */
  function DemoLapsed(): State {
    var s := DemoValidated();
    s.(clock := 100, revision := 5, jobs := s.jobs[DemoJob("b").id := Versioned(5, DemoJob("b"))])
  }

  lemma DemoLapsedReached()
    ensures Leads(EMPTY, DemoLapsed())
  {
    assert DemoJob("a").id != DemoJob("b").id by { assert "a"[0] != "b"[0]; }
    DemoValidatedReached();
    var s := Extend(EMPTY, DemoValidated(), AddJob(DemoJob("b")));
    s := Extend(EMPTY, s, Tick(40));
  }

  /** Replica 2 has reserved the lapsed device for job "b"; replica 1 still believes in its validation. */
  function DemoRetaken(): State {
    Attempted(DemoLapsed(), 2, Versioned(5, DemoJob("b")), "gpu")
  }

  lemma DemoRetakenReached()
    ensures Leads(EMPTY, DemoRetaken())
    ensures var d := DemoRetaken().devices["gpu"].value;
      d.name == "gpu" && ReservedFor(d, DemoJob("b").id) && LeasedAt(d, DemoRetaken().clock)
    ensures DemoRetaken().replicas[1] == DemoValidated().replicas[1] && DemoRetaken().devices["gpu"].version == 6
  {
    DemoLapsedReached();
    AttemptReached(EMPTY, DemoLapsed(), 2, DemoJob("b").id, "gpu");
  }

  lemma DemoStaleReached() returns (s: State)
    ensures Leads(EMPTY, s) && s.clock == 100 && s.devices == DemoRetaken().devices
    ensures ActivityOf(s, 1) == Writing(Renew(DemoValidated().replicas[1].job, 60, 3), DemoRetaken().devices["gpu"])
  {
    DemoRetakenReached();
    s := Extend(EMPTY, DemoRetaken(), ReadToRenew(1, true));
  }

  /** A renewal of a device that is leased to somebody else. */
  lemma ForeignRenewal(s: State, r: nat, name: string)
    requires name in s.devices && s.devices[name].value.name == name && ActivityOf(s, r).Writing?
    requires ActivityOf(s, r).intent.Renew? && ActivityOf(s, r).device == s.devices[name]
    requires LeasedAt(s.devices[name].value, s.clock)
    requires !ReservedFor(s.devices[name].value, ActivityOf(s, r).intent.job.value.id)
    ensures Clobbers(s, WriteDevice(r), name) && !Rechecked(s, WriteDevice(r))
  {
  }

  /**
   * A renewal that does not re-check the holder can overwrite another job's live lease: replica 1 validates
   * job "a" at second 60 and stalls, the lease lapses, replica 2 reserves the device for job "b", and
   * replica 1 then re-reads the device and writes its renewal.
   */
  lemma StaleRenewalClobbers() returns (events: seq<Event>)
    ensures RunRenewsOwn(EMPTY, events)
    ensures Clobbers(Run(EMPTY, events), WriteDevice(1), "gpu") && !Rechecked(Run(EMPTY, events), WriteDevice(1))
  {
    assert DemoJob("a").id != DemoJob("b").id by { assert "a"[0] != "b"[0]; }
    DemoRetakenReached();
    var s := DemoStaleReached();
    ForeignRenewal(s, 1, "gpu");
    events := LeadsByRun(s);
  }

  /** The state in which replicas 0 and 1 have both reserved the same device from the same job version. */
  function DemoTwice(): State {
    Attempted(DemoAttempt().(clock := 100), 1, Versioned(2, DemoJob("a")), "gpu")
  }

  lemma DemoTwiceReached()
    ensures Leads(EMPTY, DemoTwice())
    ensures HeldBy(DemoTwice().replicas[0]) == HeldBy(DemoTwice().replicas[1]) == Some((DemoJob("a").id, "gpu"))
  {
    DemoAttemptReached();
    var s := Extend(EMPTY, DemoAttempt(), Tick(100));
    AttemptReached(EMPTY, s, 1, DemoJob("a").id, "gpu");
  }

  lemma WinnerAndLoser(s: State, id: JobId, name: string) returns (s': State)
    requires Leads(EMPTY, s) && 0 in s.replicas && 1 in s.replicas
    requires forall r <- {0, 1} ::
      s.replicas[r].Patching? && s.replicas[r].newly && HeldBy(s.replicas[r]) == Some((id, name))
    requires id in s.jobs && s.replicas[0].job == s.replicas[1].job == s.jobs[id] && s.jobs[id].value.id == id
    requires s.jobs[id].version <= s.revision
    ensures Leads(EMPTY, s') && Published(s', id, name) && s'.devices == s.devices
    ensures 1 in s'.replicas && s'.replicas[1] == Losing(s.jobs[id], s.replicas[1].now, name)
  {
    s' := Extend(EMPTY, s, PatchJob(0, Answered));
    assert s'.jobs[id].version != s.jobs[id].version;
    s' := Extend(EMPTY, s', PatchJob(1, Answered));
  }

  lemma LoserGivesBack(s: State, r: nat, id: JobId, name: string) returns (s': State)
    requires Leads(EMPTY, s) && r in s.replicas && s.replicas[r].Losing? && s.replicas[r].name == name
    requires s.replicas[r].job.value.id == id && ReservedNow(s, id, name) && s.devices[name].value.name == name
    ensures Leads(EMPTY, s') && s'.jobs == s.jobs && s'.clock == s.clock && !ReservedNow(s', id, name)
  {
    s' := Extend(EMPTY, s, ReadToGiveBack(r));
    s' := Extend(EMPTY, s', WriteDevice(r));
  }

  /**
   * An attempt that outlives its lease breaks the promise that losers release only their own device: replica 1
   * reserves the same device from the same job version after the lapse, replica 0 publishes it, and replica 1,
   * which loses the publication, clears the reservation behind the published assignment.
   */
  lemma LapsedAttemptClearsPublishedDevice() returns (events: seq<Event>)
    ensures RunRenewsOwn(EMPTY, events)
    ensures Published(Run(EMPTY, events), DemoJob("a").id, "gpu")
    ensures !ReservedNow(Run(EMPTY, events), DemoJob("a").id, "gpu")
  {
    DemoTwiceReached();
    var s := WinnerAndLoser(DemoTwice(), DemoJob("a").id, "gpu");
    s := LoserGivesBack(s, 1, DemoJob("a").id, "gpu");
    events := LeadsByRun(s);
  }

  /**
   * The same without any lapse: the patch that publishes the device is applied, its answer is lost, and the attempt
   * gives back the device that it has just published. The clock stands at zero.
   */
  lemma LostAnswerClearsPublishedDevice() returns (events: seq<Event>)
    ensures RunRenewsOwn(EMPTY, events) && Run(EMPTY, events).clock == 0
    ensures Published(Run(EMPTY, events), DemoJob("a").id, "gpu")
    ensures !ReservedNow(Run(EMPTY, events), DemoJob("a").id, "gpu")
  {
    DemoAttemptReached();
    var s := Extend(EMPTY, DemoAttempt(), PatchJob(0, AnswerLost));
    s := LoserGivesBack(s, 0, DemoJob("a").id, "gpu");
    events := LeadsByRun(s);
  }

  // ----- Four ways to grant a device twice from one job version -----

  /** Step `i` of the run and a write of replica `r` after it both grant the device for the same job version. */
  ghost predicate GrantsTwice(events: seq<Event>, i: nat, r: nat, job: Versioned<Job>, name: string) {
    && i < |events|
    && Grants(Run(EMPTY, events[..i]), events[i], job, name) && Grants(Run(EMPTY, events), WriteDevice(r), job, name)
  }

  ghost predicate Grants(s: State, e: Event, job: Versioned<Job>, name: string) {
    Reserves(s, e, name) && ActivityOf(s, e.r).intent.job == job
  }

  lemma JoinTrails(s: State, e: Event, path: seq<State>, es: seq<Event>, path': seq<State>, es': seq<Event>)
    requires Trail(EMPTY, path, es) && path[|es|] == s && RenewsOwn(s, e) && Trail(Perform(s, e), path', es')
    ensures Trail(EMPTY, path + path', es + [e] + es')
  {
    var whole, events := path + path', es + [e] + es';
    forall k {:trigger events[k]} | 0 <= k < |events|
      ensures RenewsOwn(whole[k], events[k]) && whole[k + 1] == Perform(whole[k], events[k])
    {
      if k < |es| {
        assert whole[k] == path[k] && whole[k + 1] == path[k + 1] && events[k] == es[k];
      } else if k > |es| {
        var n := k - |es| - 1;
        assert whole[k] == path'[n] && whole[k + 1] == path'[n + 1] && events[k] == es'[n];
      }
    }
  }

  /** A run through `s`, then the step `e`, then on to `s'`. */
  lemma Through(s: State, e: Event, s': State) returns (events: seq<Event>, i: nat)
    requires Leads(EMPTY, s) && RenewsOwn(s, e) && Leads(Perform(s, e), s')
    ensures RunRenewsOwn(EMPTY, events) && Run(EMPTY, events) == s'
    ensures i < |events| && events[i] == e && Run(EMPTY, events[..i]) == s
  {
    var path, es :| Trail(EMPTY, path, es) && path[|es|] == s;
    var path', es' :| Trail(Perform(s, e), path', es') && path'[|es'|] == s';
    events, i := es + [e] + es', |es|;
    JoinTrails(s, e, path, es, path', es');
    TrailRenewsOwn(path + path', events);
    assert (path + path')[i] == s && (path + path')[|events|] == s';
    TrailIsRun(EMPTY, path + path', events, i);
  }

  /** Replica 0 about to be granted the device, in a state where replica 1 may have read the same job version. */
  function DemoReady(s: State): State
    requires "gpu" in s.devices
  {
    Become(s, 0, Writing(Reserve(Versioned(2, DemoJob("a")), s.clock), s.devices["gpu"]))
  }

  /** Both grants put together: the first from the fresh inventory, the second when the device is free again. */
  lemma GrantedAgain(s: State, s': State, r: nat) returns (events: seq<Event>, i: nat)
    requires s.devices == DemoInventory().devices && Leads(EMPTY, DemoReady(s))
    requires Leads(Attempted(s, 0, Versioned(2, DemoJob("a")), "gpu"), s')
    requires ActivityOf(s', r) == Observed(Versioned(2, DemoJob("a")))
    requires "gpu" in s'.devices && s'.devices["gpu"].value.name == "gpu"
    requires Candidate(s'.devices["gpu"].value, DemoJob("a"), s'.clock)
    ensures RunRenewsOwn(EMPTY, events) && GrantsTwice(events, i, r, Versioned(2, DemoJob("a")), "gpu")
    ensures Run(EMPTY, events).clock == s'.clock && Run(EMPTY, events).devices == s'.devices
  {
    var job := Versioned(2, DemoJob("a"));
    Grant(s, 0, job, "gpu");
    Reserving(Attempted(s, 0, job, "gpu"), s', r, job, "gpu");
    var s2 := Become(s', r, Writing(Reserve(job, s'.clock), s'.devices["gpu"]));
    Grant(s', r, job, "gpu");
    events, i := Through(DemoReady(s), WriteDevice(0), s2);
  }

  /** Replica 1 has read job "a", and replica 0 is about to reserve the device for it. */
  function DemoWatched(): State {
    Become(DemoInventory(), 1, Observed(Versioned(2, DemoJob("a"))))
  }

  lemma DemoWatchedReady()
    ensures Leads(EMPTY, DemoReady(DemoWatched()))
  {
    DemoInventoryReached();
    Observes(EMPTY, DemoInventory(), 1, DemoJob("a").id);
    ObservesAndReserves(EMPTY, DemoWatched(), 0, DemoJob("a").id, "gpu");
  }

  /** The first lease runs out. */
  lemma GrantedTwiceAfterLapse() returns (events: seq<Event>, i: nat)
    ensures RunRenewsOwn(EMPTY, events)
    ensures GrantsTwice(events, i, 1, Versioned(2, DemoJob("a")), "gpu") && Lapsed(Run(EMPTY, events), "gpu")
  {
    DemoWatchedReady();
    var granted := Attempted(DemoWatched(), 0, Versioned(2, DemoJob("a")), "gpu");
    Stay(granted);
    var s := Extend(granted, granted, Tick(100));
    events, i := GrantedAgain(DemoWatched(), s, 1);
  }

  /** An administrator deletes the device and adds it again; no lease runs out, for the clock stands at zero. */
  lemma GrantedTwiceAfterDeletion() returns (events: seq<Event>, i: nat)
    ensures RunRenewsOwn(EMPTY, events)
    ensures GrantsTwice(events, i, 1, Versioned(2, DemoJob("a")), "gpu") && Run(EMPTY, events).clock == 0
  {
    DemoWatchedReady();
    var granted := Attempted(DemoWatched(), 0, Versioned(2, DemoJob("a")), "gpu");
    Stay(granted);
    var s := Extend(granted, granted, RemoveDevice("gpu"));
    s := Extend(granted, s, AddDevice(DemoDevice()));
    events, i := GrantedAgain(DemoWatched(), s, 1);
  }

  /** Job "a" is published by replica 0, and replica 2 is reconciling it. */
  lemma DemoPublishedAndRead() returns (s: State, job: Versioned<Job>)
    ensures var granted := Attempted(DemoWatched(), 0, Versioned(2, DemoJob("a")), "gpu");
      Leads(granted, s) && s.clock == 0 && s.devices == granted.devices
    ensures ActivityOf(s, 1) == Observed(Versioned(2, DemoJob("a"))) && ActivityOf(s, 3) == Idle
    ensures ActivityOf(s, 2) == Reconciling(job, 0)
    ensures job.value.id == DemoJob("a").id && job.value.spec == DemoJob("a").spec && !job.value.deleting
    ensures AssignmentOf(job.value).Some? && AssignmentOf(job.value).value.inventoryName == "gpu"
  {
    var granted := Attempted(DemoWatched(), 0, Versioned(2, DemoJob("a")), "gpu");
    Stay(granted);
    var published := Publishes(granted, granted, 0, DemoJob("a").id);
    job := published.jobs[DemoJob("a").id];
    Observes(granted, published, 2, DemoJob("a").id);
    BecomeTwice(published, 2, Observed(job), Reconciling(job, 0));
    Starts(granted, Become(published, 2, Observed(job)), 2);
    s := Become(published, 2, Reconciling(job, 0));
  }

  /**
   * The device is unhealthy for a moment, so the job's own release clears the published reservation; a replica that
   * still has the version from before the publication then reserves it again. The clock stands at zero.
   */
  lemma GrantedTwiceAfterRelease() returns (events: seq<Event>, i: nat)
    ensures RunRenewsOwn(EMPTY, events)
    ensures GrantsTwice(events, i, 1, Versioned(2, DemoJob("a")), "gpu") && Run(EMPTY, events).clock == 0
  {
    DemoWatchedReady();
    var granted := Attempted(DemoWatched(), 0, Versioned(2, DemoJob("a")), "gpu");
    var s, job := DemoPublishedAndRead();
    s := Refreshes(granted, s, 3, "gpu", Unhealthy);
    Refutes(granted, s, 2, job, "gpu");
    s := Become(s, 2, Refuted(job, 0));
    s := Refreshes(granted, s, 3, "gpu", Healthy);
    s := ReleasesDevice(granted, s, 2, job, "gpu");
    events, i := GrantedAgain(DemoWatched(), s, 1);
  }

  // ----- The fourth way: a foreign renewal, and its own job's release -----

  /** The step neither lets job `id` give the device up nor leaves a lapsed reservation behind. */
  ghost predicate Calm(s: State, e: Event, id: JobId, name: string) {
    !GivesUp(s, e, id, name) && !Lapsed(Perform(s, e), name)
  }

  ghost predicate AllCalm(start: State, events: seq<Event>, id: JobId, name: string) {
    forall k | 0 <= k < |events| :: Calm(Run(start, events[..k]), events[k], id, name)
  }

  /** Calm steps lead from `start` to `s`. */
  ghost predicate Walk(start: State, s: State, id: JobId, name: string) {
    exists events :: Run(start, events) == s && AllCalm(start, events, id, name)
  }

  lemma WalkNowhere(s: State, id: JobId, name: string)
    ensures Walk(s, s, id, name)
  {
    assert Run(s, []) == s && AllCalm(s, [], id, name);
  }

  lemma WalkOn(start: State, s: State, e: Event, id: JobId, name: string) returns (s': State)
    requires Walk(start, s, id, name) && Calm(s, e, id, name)
    ensures s' == Perform(s, e) && Walk(start, s', id, name)
  {
    var events :| Run(start, events) == s && AllCalm(start, events, id, name);
    s' := Perform(s, e);
    var longer := events + [e];
    assert longer[..|events|] == events;
    forall k | 0 <= k < |longer| ensures Calm(Run(start, longer[..k]), longer[k], id, name) {
      if k < |events| { assert longer[..k] == events[..k] && longer[k] == events[k]; }
    }
    assert Run(start, longer) == s';
  }

  /** A step that only moves one replica is calm whenever nothing has lapsed. */
  lemma WalkMoves(start: State, s: State, e: Event, r: nat, a: Activity, id: JobId, name: string)
    requires Walk(start, s, id, name) && !Lapsed(s, name)
    requires Perform(s, e) == Become(s, r, a) && !e.WriteDevice? && !e.RemoveDevice?
    ensures Walk(start, Become(s, r, a), id, name)
  {
    var s' := WalkOn(start, s, e, id, name);
  }

  lemma WalkReconciling(start: State, s: State, r: nat, job: JobId, id: JobId, name: string)
    requires Walk(start, s, id, name) && !Lapsed(s, name) && ActivityOf(s, r).Idle? && job in s.jobs
    ensures Walk(start, Become(s, r, Reconciling(s.jobs[job], s.clock)), id, name)
  {
    var observed, reconciling := Observed(s.jobs[job]), Reconciling(s.jobs[job], s.clock);
    WalkMoves(start, s, Observe(r, job), r, observed, id, name);
    BecomeTwice(s, r, observed, reconciling);
    WalkMoves(start, Become(s, r, observed), Start(r), r, reconciling, id, name);
  }

  /** An accepted renewal of some job's device is calm for every other job. */
  lemma RenewedByOther(start: State, s: State, r: nat, id: JobId, name: string) returns (s': State)
    requires Walk(start, s, id, name) && name in s.devices && s.devices[name].value.name == name
    requires ActivityOf(s, r).Writing? && ActivityOf(s, r).intent.Renew? && ActivityOf(s, r).device == s.devices[name]
    requires s.clock < ActivityOf(s, r).intent.now + GPU_LEASE_SECONDS
    ensures Walk(start, s', id, name) && s'.clock == s.clock && s'.jobs == s.jobs
    ensures ReservedNow(s', ActivityOf(s, r).intent.job.value.id, name)
    ensures s'.devices[name].value.name == name && LeasedAt(s'.devices[name].value, s.clock)
    ensures s'.devices[name].value.spec == s.devices[name].value.spec
    ensures StatusOf(s'.devices[name].value).health == StatusOf(s.devices[name].value).health
    ensures forall q | q != r :: ActivityOf(s', q) == ActivityOf(s, q)
  {
    s' := WalkOn(start, s, WriteDevice(r), id, name);
  }

  lemma DemoRereads()
    ensures var s := DemoRetaken();
      Perform(s, ReadToRenew(1, true)) ==
      Become(s, 1, Writing(Renew(DemoValidated().replicas[1].job, 60, 3), s.devices["gpu"]))
  {
  }

  /** The stale renewal of job "a" overwrites the lease of job "b". */
  lemma DemoOverwritten() returns (s: State)
    ensures Walk(DemoRetaken(), s, DemoJob("b").id, "gpu") && s.clock == 100 && s.jobs == DemoLapsed().jobs
    ensures ActivityOf(s, 0) == Idle && ActivityOf(s, 3) == Idle
    ensures ReservedNow(s, DemoJob("a").id, "gpu") && LeasedAt(s.devices["gpu"].value, 100)
    ensures s.devices["gpu"].value.name == "gpu" && s.devices["gpu"].value.spec == DemoDevice().spec
    ensures StatusOf(s.devices["gpu"].value).health == Healthy
  {
    var start := DemoRetaken();
    var renewal := Writing(Renew(DemoValidated().replicas[1].job, 60, 3), start.devices["gpu"]);
    WalkNowhere(start, DemoJob("b").id, "gpu");
    DemoRereads();
    WalkMoves(start, start, ReadToRenew(1, true), 1, renewal, DemoJob("b").id, "gpu");
    s := RenewedByOther(start, Become(start, 1, renewal), 1, DemoJob("b").id, "gpu");
  }

  /** An idle replica observes a deleted job and gets as far as reading its device. */
  lemma DeletedIsObserved(start: State, s: State, r: nat, other: JobId, id: JobId, name: string)
    requires Walk(start, s, id, name) && !Lapsed(s, name) && ActivityOf(s, r).Idle?
    requires other in s.jobs && s.jobs[other].value.id == other && s.jobs[other].value.deleting
    requires AssignmentOf(s.jobs[other].value).Some?
    requires AssignmentOf(s.jobs[other].value).value.inventoryName == name && ReservedNow(s, other, name)
    ensures Walk(start, Become(s, r, Writing(Release(s.jobs[other], s.clock), s.devices[name])), id, name)
  {
    var reconciling := Reconciling(s.jobs[other], s.clock);
    var releasing := Writing(Release(s.jobs[other], s.clock), s.devices[name]);
    WalkReconciling(start, s, r, other, id, name);
    BecomeTwice(s, r, reconciling, releasing);
    WalkMoves(start, Become(s, r, reconciling), ReadToRelease(r), r, releasing, id, name);
  }

  lemma DeletedByUser(start: State, s: State, other: JobId, id: JobId, name: string) returns (s': State)
    requires Walk(start, s, id, name) && !Lapsed(s, name) && other in s.jobs
    ensures Walk(start, s', id, name) && s'.clock == s.clock && s'.devices == s.devices && s'.replicas == s.replicas
    ensures s'.jobs.Keys == s.jobs.Keys && forall x <- s.jobs | x != other :: s'.jobs[x] == s.jobs[x]
    ensures s'.jobs[other].value == s.jobs[other].value.(deleting := true)
  {
    s' := WalkOn(start, s, EditJob(other, s.jobs[other].value.spec, true), id, name);
  }

  /** The release is accepted and leaves the device free. */
  lemma ReleasedByOther(start: State, s: State, r: nat, id: JobId, name: string) returns (s': State)
    requires Walk(start, s, id, name) && name in s.devices && s.devices[name].value.name == name
    requires ActivityOf(s, r).Writing? && ActivityOf(s, r).intent.Release? && ActivityOf(s, r).device == s.devices[name]
    requires ActivityOf(s, r).intent.job.value.id != id
    ensures Walk(start, s', id, name) && s'.clock == s.clock && s'.jobs == s.jobs
    ensures name in s'.devices && s'.devices[name].value.name == name
    ensures s'.devices[name].value.spec == s.devices[name].value.spec && s'.devices[name].value.status.Some?
    ensures ReservationOf(s'.devices[name].value).None?
    ensures StatusOf(s'.devices[name].value).health == StatusOf(s.devices[name].value).health
    ensures forall q | q != r :: ActivityOf(s', q) == ActivityOf(s, q)
  {
    s' := WalkOn(start, s, WriteDevice(r), id, name);
  }

  lemma ReadsToReserve(s: State, r: nat, job: Versioned<Job>, name: string)
    requires PendingJob(job.value) && AssignmentOf(job.value).None?
    requires name in s.devices && Candidate(s.devices[name].value, job.value, s.clock)
    ensures Perform(Become(s, r, Reconciling(job, s.clock)), ReadToReserve(r, name)) ==
      Become(s, r, Writing(Reserve(job, s.clock), s.devices[name]))
  {
    BecomeTwice(s, r, Reconciling(job, s.clock), Writing(Reserve(job, s.clock), s.devices[name]));
  }

  /** An idle replica is about to reserve a free device for the job as it stands. */
  lemma ReservesFree(start: State, s: State, r: nat, id: JobId, name: string) returns (s': State)
    requires Walk(start, s, id, name) && ActivityOf(s, r).Idle?
    requires id in s.jobs && PendingJob(s.jobs[id].value) && AssignmentOf(s.jobs[id].value).None?
    requires name in s.devices && s.devices[name].value.name == name && ReservationOf(s.devices[name].value).None?
    requires Candidate(s.devices[name].value, s.jobs[id].value, s.clock)
    ensures Walk(start, s', id, name) && Grants(s', WriteDevice(r), s.jobs[id], name)
  {
    var job := s.jobs[id];
    var reconciling, reserving := Reconciling(job, s.clock), Writing(Reserve(job, s.clock), s.devices[name]);
    WalkReconciling(start, s, r, id, id, name);
    ReadsToReserve(s, r, job, name);
    s' := Become(s, r, reserving);
    BecomeTwice(s, r, reconciling, reserving);
    WalkMoves(start, Become(s, r, reconciling), ReadToReserve(r, name), r, reserving, id, name);
    Grant(s, r, job, name);
  }

  /** From the grant to job "b" calm steps lead to a second one, for the same version of "b". */
  lemma DemoGrantedAgain() returns (s: State)
    ensures Walk(DemoRetaken(), s, DemoJob("b").id, "gpu")
    ensures Grants(s, WriteDevice(3), Versioned(5, DemoJob("b")), "gpu")
  {
    assert DemoJob("a").id != DemoJob("b").id by { assert "a"[0] != "b"[0]; }
    var s1 := DemoOverwritten();
    var s2 := DeletedByUser(DemoRetaken(), s1, DemoJob("a").id, DemoJob("b").id, "gpu");
    DeletedIsObserved(DemoRetaken(), s2, 0, DemoJob("a").id, DemoJob("b").id, "gpu");
    var s3 := Become(s2, 0, Writing(Release(s2.jobs[DemoJob("a").id], s2.clock), s2.devices["gpu"]));
    var s4 := ReleasedByOther(DemoRetaken(), s3, 0, DemoJob("b").id, "gpu");
    s := ReservesFree(DemoRetaken(), s4, 3, DemoJob("b").id, "gpu");
  }

  lemma {:induction false} RunConcat(s: State, first: seq<Event>, second: seq<Event>)
    ensures Run(s, first + second) == Run(Run(s, first), second)
    decreases |second|
  {
    if second == [] {
      assert first + second == first;
    } else {
      var n := |second| - 1;
      RunConcat(s, first, second[..n]);
      assert (first + second)[..|first| + n] == first + second[..n];
    }
  }

  lemma PrefixOfConcat(s: State, first: seq<Event>, second: seq<Event>, k: nat)
    requires |first| <= k <= |first + second|
    ensures Run(s, (first + second)[..k]) == Run(Run(s, first), second[..k - |first|])
  {
    RunConcat(s, first, second[..k - |first|]);
    assert (first + second)[..k] == first + second[..k - |first|];
  }

  /** A calm stretch after a grant keeps the device, as far as its own job is concerned. */
  lemma CalmIsKept(first: seq<Event>, second: seq<Event>, i: nat, id: JobId, name: string)
    requires |first| == i + 1 && AllCalm(Run(EMPTY, first), second, id, name) && !Lapsed(Run(EMPTY, first), name)
    ensures KeptBetween(first + second, i, |first + second|, id, name)
  {
    var events, s := first + second, Run(EMPTY, first);
    forall k {:trigger events[..k]} | i < k <= |events| ensures !Lapsed(Run(EMPTY, events[..k]), name) {
      PrefixOfConcat(EMPTY, first, second, k);
      var n := k - |first|;
      if n == 0 {
        assert second[..n] == [];
      } else {
        assert Calm(Run(s, second[..n - 1]), second[n - 1], id, name);
        assert second[..n][..n - 1] == second[..n - 1];
      }
    }
    forall k | i < k < |events| ensures !GivesUp(Run(EMPTY, events[..k]), events[k], id, name) {
      PrefixOfConcat(EMPTY, first, second, k);
      assert Calm(Run(s, second[..k - |first|]), second[k - |first|], id, name);
    }
  }

  /**
   * The stale renewal of job "a" overwrites the lease of job "b", "a" is deleted and releases the device, and "b" is
   * granted it again from the same version, although its lease did not run out, "b" gave nothing up, and the device
   * was not deleted.
   */
  lemma GrantedTwiceAfterForeignRelease() returns (events: seq<Event>, i: nat)
    ensures GrantsTwice(events, i, 3, Versioned(5, DemoJob("b")), "gpu")
    ensures KeptBetween(events, i, |events|, DemoJob("b").id, "gpu")
  {
    var job, lapsed := Versioned(5, DemoJob("b")), DemoLapsed();
    DemoLapsedReached();
    ObservesAndReserves(EMPTY, lapsed, 2, DemoJob("b").id, "gpu");
    var ready := Become(lapsed, 2, Writing(Reserve(job, lapsed.clock), lapsed.devices["gpu"]));
    Grant(lapsed, 2, job, "gpu");
    var before := LeadsByRun(ready);
    var s := DemoGrantedAgain();
    var after :| Run(DemoRetaken(), after) == s && AllCalm(DemoRetaken(), after, DemoJob("b").id, "gpu");
    events, i := TwoGrants(before, 2, after, 3, job, DemoRetaken());
  }

  lemma TwoGrants(before: seq<Event>, r: nat, after: seq<Event>, q: nat, job: Versioned<Job>, granted: State)
    returns (events: seq<Event>, i: nat)
    requires Grants(Run(EMPTY, before), WriteDevice(r), job, "gpu")
    requires granted == Perform(Run(EMPTY, before), WriteDevice(r)) && !Lapsed(granted, "gpu")
    requires AllCalm(granted, after, job.value.id, "gpu") && Grants(Run(granted, after), WriteDevice(q), job, "gpu")
    ensures GrantsTwice(events, i, q, job, "gpu") && KeptBetween(events, i, |events|, job.value.id, "gpu")
  {
    var first := before + [WriteDevice(r)];
    assert first[..|before|] == before;
    assert Run(EMPTY, first) == granted;
    events, i := first + after, |before|;
    assert events[..i] == before && events[i] == WriteDevice(r);
    RunConcat(EMPTY, first, after);
    CalmIsKept(first, after, i, job.value.id, "gpu");
  }
}
