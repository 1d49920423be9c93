/** Weekly allocation meters: projection from the status, durable record, and runs of meter steps. */
module Metering {
  import opened Wrappers

  const U64_MAX: nat := 0xFFFF_FFFF_FFFF_FFFF
  const WEEK := 7 * 24 * 60 * 60
  const FIRST_MONDAY := 4 * 24 * 60 * 60

  function Cap(x: nat): nat {
    Min(x, U64_MAX)
  }

  function SaturatingAdd(x: nat, y: nat): nat {
    Cap(x + y)
  }

  /** Repeated saturating addition. */
  function SaturatingMul(x: nat, y: nat): nat {
    if x == 0 then 0 else SaturatingAdd(SaturatingMul(x - 1, y), y)
  }

  lemma {:induction false} SaturatingMulIsCapped(x: nat, y: nat)
    ensures SaturatingMul(x, y) == Cap(x * y)
  {
    if x > 0 {
      SaturatingMulIsCapped(x - 1, y);
      assert x * y == (x - 1) * y + y;
    }
  }

  datatype Resource = Cpu | Memory | Gpu

  /** One number per metered resource: millicore, MiB or device seconds, or an allocation of them. */
  datatype Counters = Counters(cpu: nat, memory: nat, gpu: nat)

  function At(c: Counters, r: Resource): nat {
    match r case Cpu => c.cpu case Memory => c.memory case Gpu => c.gpu
  }

  datatype Usage = Usage(week: int, counters: Counters, last: int)
  datatype GpuUsage = GpuUsage(week: int, used: nat, last: int)
  datatype Allocated = Allocated(cpu: Option<nat>, memory: Option<nat>, gpu: Option<nat>)
  datatype Status = Status(weekly: Option<Usage>, gpuWeekly: Option<GpuUsage>, ready: int, held: Allocated)
  datatype Service =
    Service(id: string, organization: string, quotaUser: Option<string>, size: Counters, status: Option<Status>)
  datatype Record = Record(id: string, organization: string, quotaUser: Option<string>, usage: Usage)

  // ----- Weeks -----

  function UtcWeekStart(t: int): int {
    (t - FIRST_MONDAY) / WEEK * WEEK + FIRST_MONDAY
  }

  /** The start is the one Monday midnight with `t` in the seven days from it. */
  lemma WeekStartIsLastMonday(t: int, weeks: int)
    ensures var monday := FIRST_MONDAY + weeks * WEEK;
      UtcWeekStart(t) == monday <==> monday <= t < monday + WEEK
  {
    var d := (t - FIRST_MONDAY) / WEEK;
    assert t - FIRST_MONDAY == d * WEEK + (t - FIRST_MONDAY) % WEEK;
  }

  lemma WeekStartMonotone(t: int, u: int)
    requires t <= u
    ensures UtcWeekStart(t) <= UtcWeekStart(u) <= u
  {
  }

  // ----- Projection -----

  function OfWeek(usage: Option<Usage>, week: int): Option<Usage> {
    if usage.Some? && usage.value.week == week then usage else None
  }

  function GpuOfWeek(usage: Option<GpuUsage>, week: int): Option<GpuUsage> {
    if usage.Some? && usage.value.week == week then usage else None
  }

  function Previous(s: Service, week: int): Option<Usage> {
    if s.status.Some? then OfWeek(s.status.value.weekly, week) else None
  }

  function LegacyGpu(s: Service, week: int): Option<GpuUsage> {
    if s.status.Some? then GpuOfWeek(s.status.value.gpuWeekly, week) else None
  }

  function LastMetered(s: Service, now: int): int {
    var week := UtcWeekStart(now);
    var last := if Previous(s, week).Some? then Previous(s, week).value.last
                else if LegacyGpu(s, week).Some? then LegacyGpu(s, week).value.last else now;
    Min(Max(last, week), now)
  }

  function AllocatedAt(a: Allocated, r: Resource): Option<nat> {
    match r case Cpu => a.cpu case Memory => a.memory case Gpu => a.gpu
  }

  /** What the service is charged per second: the observed allocation, else ready replicas times the size. */
  function Rate(s: Service, r: Resource): nat {
    if s.status.None? then SaturatingMul(0, At(s.size, r)) else
    var observed := AllocatedAt(s.status.value.held, r);
    if observed.Some? then observed.value else SaturatingMul(Max(s.status.value.ready, 0), At(s.size, r))
  }

  /** The counter the projection starts from; only GPU seconds fall back to the legacy meter. */
  function Base(s: Service, week: int, r: Resource): nat {
    if Previous(s, week).Some? then At(Previous(s, week).value.counters, r)
    else if r.Gpu? && LegacyGpu(s, week).Some? then LegacyGpu(s, week).value.used
    else 0
  }

  function ProjectedCounter(s: Service, now: int, r: Resource): nat {
    var elapsed: nat := Max(now - LastMetered(s, now), 0);
    SaturatingAdd(Base(s, UtcWeekStart(now), r), SaturatingMul(elapsed, Rate(s, r)))
  }

  function ProjectedWeeklyUsage(s: Service, now: int): Usage {
    Usage(UtcWeekStart(now),
          Counters(ProjectedCounter(s, now, Cpu), ProjectedCounter(s, now, Memory), ProjectedCounter(s, now, Gpu)), now)
  }

  // ----- The durable record -----

  function Largest(a: Counters, b: Counters): Counters {
    Counters(Max(a.cpu, b.cpu), Max(a.memory, b.memory), Max(a.gpu, b.gpu))
  }

  function Metered(s: Service, record: Option<Record>, now: int): Result<Usage, string> {
    var usage := ProjectedWeeklyUsage(s, now);
    if record.None? then Ok(usage)
    else if record.value.id != s.id || record.value.organization != s.organization
    then Err("usage record identity does not match FlashService")
    else if record.value.usage.week != usage.week then Ok(usage)
    else Ok(usage.(counters := Largest(usage.counters, record.value.usage.counters)))
  }

  /** The usage record of one service, overwritten by each meter step. */
  class Meter {
    var record: Option<Record>

    constructor ()
      ensures record == None
    {
      record := None;
    }

    method MeterWeeklyUsage(s: Service, now: int) returns (outcome: Result<Usage, string>)
      modifies this
      ensures outcome == Metered(s, old(record), now)
      ensures record == if outcome.Ok? then Some(Record(s.id, s.organization, s.quotaUser, outcome.value))
                        else old(record)
    {
      var usage := ProjectedWeeklyUsage(s, now);
      if record.Some? {
        if record.value.id != s.id || record.value.organization != s.organization {
          return Err("usage record identity does not match FlashService");
        }
        if record.value.usage.week == usage.week {
          usage := usage.(counters := Largest(usage.counters, record.value.usage.counters));
        }
      }
      record := Some(Record(s.id, s.organization, s.quotaUser, usage));
      return Ok(usage);
    }
  }

  // ----- Runs -----

  /** What became of the status write at the end of a step. */
  datatype StatusWrite = Lost | Written(keepsWeekly: bool, keepsGpu: bool)

  /** A meter step at time `now` of the service resized to `size`, which observed `allocation`. */
  datatype Event = Event(now: int, size: Counters, ready: int, allocation: Counters, write: StatusWrite)

  datatype State = State(service: Service, record: Option<Record>)

  function WrittenStatus(e: Event, usage: Usage): Status
    requires e.write.Written?
  {
    var gpu := GpuUsage(usage.week, usage.counters.gpu, e.now);
    Status(if e.write.keepsWeekly then Some(usage) else None,
           if e.write.keepsGpu && e.size.gpu > 0 then Some(gpu) else None,
           e.ready,
           Allocated(Some(e.allocation.cpu), Some(e.allocation.memory), Some(e.allocation.gpu)))
  }

  function Step(s: State, e: Event): State {
    var service := s.service.(size := e.size);
    match Metered(service, s.record, e.now)
    case Err(_) => s.(service := service)
    case Ok(usage) =>
      State(if e.write.Written? then service.(status := Some(WrittenStatus(e, usage))) else service,
            Some(Record(service.id, service.organization, service.quotaUser, usage)))
  }

  function Run(s: State, events: seq<Event>): State
    decreases |events|
  {
    if events == [] then s else Step(Run(s, events[..|events| - 1]), events[|events| - 1])
  }

  function Start(id: string, organization: string, quotaUser: Option<string>): State {
    State(Service(id, organization, quotaUser, Counters(0, 0, 0), None), None)
  }

  ghost predicate ClockAdvances(events: seq<Event>) {
    forall i, j :: 0 <= i <= j < |events| ==> events[i].now <= events[j].now
  }

  function Recorded(s: State, r: Resource): nat {
    if s.record.Some? then At(s.record.value.usage.counters, r) else 0
  }

  /** The record, if any, is the service's own. */
  predicate OwnRecord(s: State) {
    s.record.Some? ==> s.record.value.id == s.service.id && s.record.value.organization == s.service.organization
  }

  lemma {:induction false} RunKeepsOwnRecord(s: State, events: seq<Event>)
    requires OwnRecord(s)
    ensures OwnRecord(Run(s, events))
    ensures events != [] ==>
      && Run(s, events).record.Some?
      && Run(s, events).record.value.usage.last == events[|events| - 1].now
      && Run(s, events).record.value.usage.week == UtcWeekStart(events[|events| - 1].now)
    decreases |events|
  {
    if events != [] { RunKeepsOwnRecord(s, events[..|events| - 1]); }
  }

  lemma RecordGrows(s: State, e: Event, r: Resource)
    requires OwnRecord(s)
    requires s.record.Some? && s.record.value.usage.week == UtcWeekStart(e.now)
    ensures Recorded(s, r) <= Recorded(Step(s, e), r)
  {
  }

  /** Within one week the recorded counters never decrease, whatever happens to the status writes. */
  lemma {:induction false} RecordedNeverDecreases(s: State, events: seq<Event>, k: nat, r: Resource)
    requires OwnRecord(s) && ClockAdvances(events) && 0 < k <= |events|
    requires UtcWeekStart(events[k - 1].now) == UtcWeekStart(events[|events| - 1].now)
    ensures Recorded(Run(s, events[..k]), r) <= Recorded(Run(s, events), r)
    decreases |events|
  {
    if k == |events| {
      assert events[..k] == events;
    } else {
      var before := events[..|events| - 1];
      assert before[..k] == events[..k];
      var e := before[|before| - 1];
      WeekStartMonotone(events[k - 1].now, e.now);
      WeekStartMonotone(e.now, events[|events| - 1].now);
      RecordedNeverDecreases(s, before, k, r);
      RunKeepsOwnRecord(s, before);
      RecordGrows(Run(s, before), events[|events| - 1], r);
    }
  }

  function LastTime(start: int, events: seq<Event>): int {
    if events == [] then start else events[|events| - 1].now
  }

  lemma StepRecords(s: State, e: Event, r: Resource)
    requires OwnRecord(s)
    ensures Recorded(Step(s, e), r) ==
      var projected := ProjectedCounter(s.service.(size := e.size), e.now, r);
      if s.record.Some? && s.record.value.usage.week == UtcWeekStart(e.now)
      then Max(projected, Recorded(s, r)) else projected
  {
  }

  // ----- A new week starts at zero -----

  /** No meter has an entry for a week after `week`. */
  ghost predicate WeeksUpTo(s: State, week: int) {
    && (s.record.Some? ==> s.record.value.usage.week <= week)
    && (s.service.status.Some? ==>
          var status := s.service.status.value;
          && (status.weekly.Some? ==> status.weekly.value.week <= week)
          && (status.gpuWeekly.Some? ==> status.gpuWeekly.value.week <= week))
  }

  lemma StepWeeks(s: State, e: Event, week: int)
    requires WeeksUpTo(s, week) && week <= UtcWeekStart(e.now)
    ensures WeeksUpTo(Step(s, e), UtcWeekStart(e.now))
  {
  }

  lemma {:induction false} RunWeeks(s: State, events: seq<Event>, start: int)
    requires WeeksUpTo(s, UtcWeekStart(start)) && ClockAdvances(events) && (events != [] ==> start <= events[0].now)
    ensures WeeksUpTo(Run(s, events), UtcWeekStart(LastTime(start, events)))
    decreases |events|
  {
    if events != [] {
      var before := events[..|events| - 1];
      RunWeeks(s, before, start);
      WeekStartMonotone(LastTime(start, before), events[|events| - 1].now);
      StepWeeks(Run(s, before), events[|events| - 1], UtcWeekStart(LastTime(start, before)));
    }
  }

  lemma LaterWeekIsZero(s: State, e: Event, week: int, r: Resource)
    requires OwnRecord(s) && WeeksUpTo(s, week) && week < UtcWeekStart(e.now)
    ensures Recorded(Step(s, e), r) == 0
  {
    StepRecords(s, e, r);
  }

  /** The first step of a new week records zero, whatever the status writes before it left behind. */
  lemma NewWeekStartsAtZero(s: State, events: seq<Event>, start: int, r: Resource)
    requires OwnRecord(s) && WeeksUpTo(s, UtcWeekStart(start))
    requires ClockAdvances(events) && events != [] && start <= events[0].now
    requires UtcWeekStart(LastTime(start, events[..|events| - 1])) < UtcWeekStart(events[|events| - 1].now)
    ensures Recorded(Run(s, events), r) == 0
  {
    var before := events[..|events| - 1];
    RunWeeks(s, before, start);
    RunKeepsOwnRecord(s, before);
    LaterWeekIsZero(Run(s, before), events[|events| - 1], UtcWeekStart(LastTime(start, before)), r);
  }

  lemma {:induction false} MulMonotone(x: nat, a: nat, b: nat)
    requires a <= b
    ensures x * a <= x * b
  {
    assert x * (b - a) >= 0;
    assert x * b == x * a + x * (b - a);
  }

  // ----- No counter exceeds peak allocation times elapsed time -----

  /** What `peak` per second comes to: their product, as PeakUseIsProduct shows. */
  function PeakUse(peak: nat, seconds: int): nat
    decreases seconds
  {
    if seconds <= 0 then 0 else PeakUse(peak, seconds - 1) + peak
  }

  lemma {:induction false} PeakUseIsProduct(peak: nat, seconds: nat)
    ensures PeakUse(peak, seconds) == peak * seconds
    decreases seconds
  {
    if seconds > 0 {
      PeakUseIsProduct(peak, seconds - 1);
      assert peak * seconds == peak * (seconds - 1) + peak;
    }
  }

  lemma {:induction false} PeakUseMonotone(peak: nat, a: int, b: int)
    requires a <= b
    ensures PeakUse(peak, a) <= PeakUse(peak, b)
    decreases b
  {
    if a < b && b > 0 { PeakUseMonotone(peak, a, b - 1); }
  }

  /** A meter of `week` holds at most `peak` per second since `since`. */
  ghost predicate Plausible(usage: Usage, r: Resource, peak: nat, week: int, since: int, now: int) {
    usage.week == week ==> since <= usage.last <= now && At(usage.counters, r) <= PeakUse(peak, usage.last - since)
  }

  ghost predicate PlausibleGpu(usage: GpuUsage, r: Resource, peak: nat, week: int, since: int, now: int) {
    usage.week == week ==> since <= usage.last <= now && (r.Gpu? ==> usage.used <= PeakUse(peak, usage.last - since))
  }

  ghost predicate Bounded(s: State, r: Resource, peak: nat, week: int, since: int, now: int) {
    && (s.record.Some? ==> Plausible(s.record.value.usage, r, peak, week, since, now))
    && (s.service.status.Some? ==>
          var status := s.service.status.value;
          && (status.weekly.Some? ==> Plausible(status.weekly.value, r, peak, week, since, now))
          && (status.gpuWeekly.Some? ==> PlausibleGpu(status.gpuWeekly.value, r, peak, week, since, now)))
  }

  /** What the step charges for, if it charges anything, is at most `peak` per second. */
  predicate ChargesWithin(s: State, e: Event, r: Resource, peak: nat) {
    var service := s.service.(size := e.size);
    LastMetered(service, e.now) < e.now ==> Rate(service, r) <= peak
  }

  lemma Rates(peak: nat, rate: nat, from: nat, to: nat, base: nat)
    requires (to > 0 ==> rate <= peak) && base <= PeakUse(peak, from)
    ensures base + to * rate <= PeakUse(peak, from + to)
  {
    PeakUseIsProduct(peak, from);
    PeakUseIsProduct(peak, from + to);
    if to > 0 {
      assert to * rate <= to * peak by { MulMonotone(to, rate, peak); }
      assert peak * (from + to) == peak * from + peak * to;
    }
  }

  lemma BasePlausible(s: State, r: Resource, peak: nat, since: int, start: int, now: int)
    requires Bounded(s, r, peak, UtcWeekStart(now), since, start) && UtcWeekStart(now) <= since <= start <= now
    ensures since <= LastMetered(s.service, now) <= now
    ensures Base(s.service, UtcWeekStart(now), r) <= PeakUse(peak, LastMetered(s.service, now) - since)
  {
  }

  lemma ProjectionPlausible(s: State, r: Resource, peak: nat, since: int, start: int, now: int)
    requires Bounded(s, r, peak, UtcWeekStart(now), since, start) && UtcWeekStart(now) <= since <= start <= now
    requires LastMetered(s.service, now) < now ==> Rate(s.service, r) <= peak
    ensures ProjectedCounter(s.service, now, r) <= PeakUse(peak, now - since)
  {
    BasePlausible(s, r, peak, since, start, now);
    var last := LastMetered(s.service, now);
    Rates(peak, Rate(s.service, r), last - since, now - last, Base(s.service, UtcWeekStart(now), r));
    SaturatingMulIsCapped(now - last, Rate(s.service, r));
  }

  lemma {:induction false} MeteredPlausible(
    s: Service, record: Option<Record>, r: Resource, peak: nat, since: int, start: int, now: int)
    requires record.Some? ==> record.value.id == s.id && record.value.organization == s.organization
    requires Bounded(State(s, record), r, peak, UtcWeekStart(now), since, start)
    requires UtcWeekStart(now) <= since <= start <= now && (LastMetered(s, now) < now ==> Rate(s, r) <= peak)
    ensures Metered(s, record, now).Ok?
    ensures Plausible(Metered(s, record, now).value, r, peak, UtcWeekStart(now), since, now)
  {
    ProjectionPlausible(State(s, record), r, peak, since, start, now);
    if record.Some? && record.value.usage.week == UtcWeekStart(now) {
      PeakUseMonotone(peak, record.value.usage.last - since, now - since);
    }
  }

  lemma WrittenBounded(s: State, e: Event, usage: Usage, r: Resource, peak: nat, week: int, since: int, start: int)
    requires Bounded(s, r, peak, week, since, start) && start <= e.now
    requires Plausible(usage, r, peak, week, since, e.now) && usage.last == e.now
    ensures var service := s.service.(size := e.size);
      Bounded(State(if e.write.Written? then service.(status := Some(WrittenStatus(e, usage))) else service,
                    Some(Record(service.id, service.organization, service.quotaUser, usage))),
              r, peak, week, since, e.now)
  {
  }

  lemma StepBounded(s: State, e: Event, r: Resource, peak: nat, since: int, start: int)
    requires OwnRecord(s) && Bounded(s, r, peak, UtcWeekStart(e.now), since, start)
    requires UtcWeekStart(e.now) <= since <= start <= e.now && ChargesWithin(s, e, r, peak)
    ensures Bounded(Step(s, e), r, peak, UtcWeekStart(e.now), since, e.now)
  {
    var service := s.service.(size := e.size);
    MeteredPlausible(service, s.record, r, peak, since, start, e.now);
    WrittenBounded(s, e, Metered(service, s.record, e.now).value, r, peak, UtcWeekStart(e.now), since, start);
  }

  /** In a new week the count starts afresh at the step's own time. */
  lemma FirstStepBounded(s: State, e: Event, r: Resource, peak: nat, week: int)
    requires OwnRecord(s) && WeeksUpTo(s, week) && week < UtcWeekStart(e.now)
    ensures Bounded(Step(s, e), r, peak, UtcWeekStart(e.now), e.now, e.now)
  {
    LaterWeekIsZero(s, e, week, r);
  }

  /** The time of the first step of the last step's week; `since` for a week that began before the run. */
  function Since(start: int, since: int, events: seq<Event>): int
    decreases |events|
  {
    if events == [] then since else
    var before, e := events[..|events| - 1], events[|events| - 1];
    if UtcWeekStart(LastTime(start, before)) == UtcWeekStart(e.now) then Since(start, since, before) else e.now
  }

  /** Every step in the last step's week charges at most `peak` per second. */
  ghost predicate WeekWithin(s: State, events: seq<Event>, r: Resource, peak: nat) {
    forall i {:trigger StepChargesWithin(s, events, i, r, peak)}
      | 0 <= i < |events| && UtcWeekStart(events[i].now) == UtcWeekStart(events[|events| - 1].now) ::
      StepChargesWithin(s, events, i, r, peak)
  }

  predicate StepChargesWithin(s: State, events: seq<Event>, i: nat, r: Resource, peak: nat)
    requires i < |events|
  {
    ChargesWithin(Run(s, events[..i]), events[i], r, peak)
  }

  lemma WeekWithinPrefix(s: State, events: seq<Event>, r: Resource, peak: nat)
    requires events != [] && WeekWithin(s, events, r, peak)
    ensures var before, e := events[..|events| - 1], events[|events| - 1];
      && ChargesWithin(Run(s, before), e, r, peak)
      && (before != [] && UtcWeekStart(before[|before| - 1].now) == UtcWeekStart(e.now) ==>
            WeekWithin(s, before, r, peak))
  {
    var before, e := events[..|events| - 1], events[|events| - 1];
    assert StepChargesWithin(s, events, |events| - 1, r, peak);
    if before != [] && UtcWeekStart(before[|before| - 1].now) == UtcWeekStart(e.now) {
      forall i | 0 <= i < |before| && UtcWeekStart(before[i].now) == UtcWeekStart(before[|before| - 1].now)
        ensures StepChargesWithin(s, before, i, r, peak)
      {
        assert before[..i] == events[..i];
        assert StepChargesWithin(s, events, i, r, peak);
      }
    }
  }

  lemma {:induction false} RunBounded(s: State, events: seq<Event>, r: Resource, peak: nat, start: int, since: int)
    requires OwnRecord(s) && WeeksUpTo(s, UtcWeekStart(start)) && UtcWeekStart(start) <= since <= start
    requires Bounded(s, r, peak, UtcWeekStart(start), since, start)
    requires ClockAdvances(events) && (events != [] ==> start <= events[0].now) && WeekWithin(s, events, r, peak)
    ensures var now := LastTime(start, events);
      && UtcWeekStart(now) <= Since(start, since, events) <= now
      && Bounded(Run(s, events), r, peak, UtcWeekStart(now), Since(start, since, events), now)
    decreases |events|
  {
    if events != [] {
      var before, e := events[..|events| - 1], events[|events| - 1];
      WeekWithinPrefix(s, events, r, peak);
      RunKeepsOwnRecord(s, before);
      WeekStartMonotone(LastTime(start, before), e.now);
      if UtcWeekStart(LastTime(start, before)) == UtcWeekStart(e.now) {
        RunBounded(s, before, r, peak, start, since);
        StepBounded(Run(s, before), e, r, peak, Since(start, since, before), LastTime(start, before));
      } else {
        RunWeeks(s, before, start);
        FirstStepBounded(Run(s, before), e, r, peak, UtcWeekStart(LastTime(start, before)));
      }
    }
  }

  lemma BoundedRecord(s: State, events: seq<Event>, r: Resource, peak: nat, since: int)
    requires OwnRecord(s) && events != []
    requires var now := events[|events| - 1].now; Bounded(Run(s, events), r, peak, UtcWeekStart(now), since, now)
    ensures Recorded(Run(s, events), r) <= PeakUse(peak, events[|events| - 1].now - since)
  {
    RunKeepsOwnRecord(s, events);
  }

  /** Recorded counters never exceed the peak charged in the week times the time since its first step. */
  lemma {:induction false} RecordedWithinPeak(
    s: State, events: seq<Event>, r: Resource, peak: nat, start: int, since: int)
    requires OwnRecord(s) && WeeksUpTo(s, UtcWeekStart(start)) && UtcWeekStart(start) <= since <= start
    requires Bounded(s, r, peak, UtcWeekStart(start), since, start)
    requires ClockAdvances(events) && events != [] && start <= events[0].now && WeekWithin(s, events, r, peak)
    ensures Recorded(Run(s, events), r) <= peak * (events[|events| - 1].now - Since(start, since, events))
  {
    RunBounded(s, events, r, peak, start, since);
    BoundedRecord(s, events, r, peak, Since(start, since, events));
    PeakUseIsProduct(peak, events[|events| - 1].now - Since(start, since, events));
  }

  // ----- The same for a new service, from what its steps observed -----

  /** A meter of this week in the status came with an allocation that one of the week's steps observed. */
  ghost predicate ObservedWithin(s: State, r: Resource, peak: nat, week: int) {
    s.service.status.Some? ==>
      var status := s.service.status.value;
      || (OfWeek(status.weekly, week).None? && GpuOfWeek(status.gpuWeekly, week).None?)
      || (AllocatedAt(status.held, r).Some? && AllocatedAt(status.held, r).value <= peak)
  }

  ghost predicate WeekAllocationsWithin(events: seq<Event>, r: Resource, peak: nat, week: int) {
    forall i | 0 <= i < |events| && UtcWeekStart(events[i].now) == week :: At(events[i].allocation, r) <= peak
  }

  lemma StepObserved(s: State, e: Event, r: Resource, peak: nat, week: int)
    requires ObservedWithin(s, r, peak, week) && (UtcWeekStart(e.now) == week ==> At(e.allocation, r) <= peak)
    ensures ObservedWithin(Step(s, e), r, peak, week)
  {
  }

  lemma {:induction false} RunObserved(s: State, events: seq<Event>, r: Resource, peak: nat, week: int)
    requires s.service.status.None? && WeekAllocationsWithin(events, r, peak, week)
    ensures ObservedWithin(Run(s, events), r, peak, week)
    decreases |events|
  {
    if events != [] {
      RunObserved(s, events[..|events| - 1], r, peak, week);
      StepObserved(Run(s, events[..|events| - 1]), events[|events| - 1], r, peak, week);
    }
  }

  lemma ObservedCharges(s: State, e: Event, r: Resource, peak: nat)
    requires ObservedWithin(s, r, peak, UtcWeekStart(e.now))
    ensures ChargesWithin(s, e, r, peak)
  {
    WeekStartMonotone(e.now, e.now);
  }

  lemma {:induction false} SinceFirstStep(start: int, since: int, events: seq<Event>, k: nat)
    requires k < |events| && UtcWeekStart(events[k].now) == UtcWeekStart(events[|events| - 1].now)
    requires ClockAdvances(events) && start <= events[0].now
    requires if k == 0 then since == events[0].now && UtcWeekStart(start) == UtcWeekStart(since)
             else UtcWeekStart(events[k - 1].now) != UtcWeekStart(events[k].now)
    ensures Since(start, since, events) == events[k].now
    decreases |events|
  {
    var before := events[..|events| - 1];
    if k < |before| {
      WeekStartMonotone(events[k].now, before[|before| - 1].now);
      WeekStartMonotone(before[|before| - 1].now, events[|events| - 1].now);
      SinceFirstStep(start, since, before, k);
    } else if k == 0 {
      assert before == [];
    }
  }

  /**
   * For a new service: no counter exceeds the largest allocation observed by the steps of the last step's week, times
   * the time since step `k`, the first step of that week.
   */
  lemma {:induction false} RecordedWithinPeakAllocation(
    id: string, org: string, user: Option<string>, events: seq<Event>, k: nat, r: Resource, peak: nat)
    requires ClockAdvances(events) && k < |events|
    requires var week := UtcWeekStart(events[|events| - 1].now);
      && UtcWeekStart(events[k].now) == week && (k > 0 ==> UtcWeekStart(events[k - 1].now) != week)
      && WeekAllocationsWithin(events, r, peak, week)
    ensures Recorded(Run(Start(id, org, user), events), r) <= peak * (events[|events| - 1].now - events[k].now)
  {
    var s, start := Start(id, org, user), events[0].now;
    WeekObserved(s, events, r, peak);
    NewIsBounded(id, org, user, r, peak, start);
    RecordedWithinPeak(s, events, r, peak, start, start);
    SinceFirstStep(start, start, events, k);
  }

  lemma NewIsBounded(id: string, org: string, user: Option<string>, r: Resource, peak: nat, start: int)
    ensures var s := Start(id, org, user);
      && OwnRecord(s) && WeeksUpTo(s, UtcWeekStart(start)) && UtcWeekStart(start) <= start
      && Bounded(s, r, peak, UtcWeekStart(start), start, start)
  {
  }

  lemma WeekObserved(s: State, events: seq<Event>, r: Resource, peak: nat)
    requires events != [] && s.service.status.None?
    requires WeekAllocationsWithin(events, r, peak, UtcWeekStart(events[|events| - 1].now))
    ensures WeekWithin(s, events, r, peak)
  {
    var week := UtcWeekStart(events[|events| - 1].now);
    forall i | 0 <= i < |events| && UtcWeekStart(events[i].now) == week
      ensures StepChargesWithin(s, events, i, r, peak)
    {
      RunObserved(s, events[..i], r, peak, week);
      ObservedCharges(Run(s, events[..i]), events[i], r, peak);
    }
  }

  // ----- With every status write kept the counters are exact -----

  /** The status write keeps a meter of `r`: the weekly usage, or for GPU seconds the legacy meter. */
  predicate Keeps(e: Event, r: Resource) {
    e.write.Written? && (e.write.keepsWeekly || (r.Gpu? && e.write.keepsGpu && e.size.gpu > 0))
  }

  ghost predicate AllKept(events: seq<Event>, r: Resource) {
    forall i :: 0 <= i < |events| ==> Keeps(events[i], r)
  }

  /** Allocation times interval, summed since the first step of the current week, without saturation. */
  function Charged(events: seq<Event>, r: Resource): nat
    decreases |events|
  {
    if |events| < 2 then 0 else
    var d, e := events[|events| - 2], events[|events| - 1];
    if UtcWeekStart(d.now) != UtcWeekStart(e.now) then 0
    else Charged(events[..|events| - 1], r) + Max(e.now - d.now, 0) * At(d.allocation, r)
  }

  lemma CapTwice(x: nat, y: nat)
    ensures SaturatingAdd(Cap(x), Cap(y)) == Cap(x + y)
  {
  }

  /** A status from which the counter `base` of `week`, last metered at `last`, continues at `rate`. */
  ghost predicate Continues(s: Service, r: Resource, week: int, base: nat, last: int, rate: nat) {
    && s.status.Some? && AllocatedAt(s.status.value.held, r) == Some(rate)
    && match s.status.value.weekly
       case Some(usage) => usage.week == week && At(usage.counters, r) == base && usage.last == last
       case None => r.Gpu? && s.status.value.gpuWeekly == Some(GpuUsage(week, base, last))
  }

  /** After a kept write the status continues the recorded counter at the observed allocation. */
  lemma KeptStatus(s: State, e: Event, r: Resource)
    requires OwnRecord(s) && Keeps(e, r)
    ensures var t := Step(s, e);
      && t.record.Some? && t.record.value.usage.week == UtcWeekStart(e.now)
      && Continues(t.service, r, UtcWeekStart(e.now), Recorded(t, r), e.now, At(e.allocation, r))
  {
  }

  lemma ProjectionContinues(s: Service, r: Resource, base: nat, last: int, rate: nat, now: int)
    requires Continues(s, r, UtcWeekStart(now), base, last, rate) && UtcWeekStart(now) <= last <= now
    ensures ProjectedCounter(s, now, r) == SaturatingAdd(base, SaturatingMul(now - last, rate))
  {
    assert LastMetered(s, now) == last;
  }

  /** One step on from a kept write: the interval is charged at the allocation observed before it. */
  lemma ExactStep(s: State, d: Event, e: Event, r: Resource)
    requires OwnRecord(s) && Keeps(d, r) && d.now <= e.now
    requires Recorded(Step(s, d), r) <= U64_MAX && UtcWeekStart(d.now) == UtcWeekStart(e.now)
    ensures Recorded(Step(Step(s, d), e), r) ==
      SaturatingAdd(Recorded(Step(s, d), r), SaturatingMul(e.now - d.now, At(d.allocation, r)))
  {
    KeptStatus(s, d, r);
    var t := Step(s, d);
    WeekStartMonotone(d.now, d.now);
    StepRecords(t, e, r);
    ProjectionContinues(t.service.(size := e.size), r, Recorded(t, r), d.now, At(d.allocation, r), e.now);
  }

  lemma FirstStepIsZero(id: string, org: string, user: Option<string>, e: Event, r: Resource)
    ensures Recorded(Step(Start(id, org, user), e), r) == 0
  {
  }

  // ----- The exact sum -----

  /** If every status write keeps a meter of the resource, it counts the saturated sum of allocation times interval. */
  lemma {:induction false} RecordedIsExact(
    id: string, org: string, user: Option<string>, events: seq<Event>, r: Resource)
    requires ClockAdvances(events) && AllKept(events, r)
    ensures Recorded(Run(Start(id, org, user), events), r) == Cap(Charged(events, r))
    decreases |events|
  {
    var s := Start(id, org, user);
    if |events| == 1 {
      assert events[..0] == [];
      FirstStepIsZero(id, org, user, events[0], r);
    } else if |events| > 1 {
      var before := events[..|events| - 1];
      var d, e := events[|events| - 2], events[|events| - 1];
      RecordedIsExact(id, org, user, before, r);
      WeekStartMonotone(d.now, e.now);
      if UtcWeekStart(d.now) == UtcWeekStart(e.now) {
        ExactWithinWeek(s, events, r);
      } else {
        NewWeekStartsAtZero(s, events, events[0].now, r);
      }
    }
  }

  lemma ChargedGrows(events: seq<Event>, r: Resource)
    requires |events| > 1
    requires var d, e := events[|events| - 2], events[|events| - 1];
      d.now <= e.now && UtcWeekStart(d.now) == UtcWeekStart(e.now)
    ensures var d, e := events[|events| - 2], events[|events| - 1];
      Charged(events, r) == Charged(events[..|events| - 1], r) + (e.now - d.now) * At(d.allocation, r)
  {
  }

  lemma ExactExtension(s: State, events: seq<Event>, r: Resource)
    requires OwnRecord(s) && |events| > 1 && Recorded(Run(s, events[..|events| - 1]), r) <= U64_MAX
    requires var d, e := events[|events| - 2], events[|events| - 1];
      Keeps(d, r) && d.now <= e.now && UtcWeekStart(d.now) == UtcWeekStart(e.now)
    ensures var d, e := events[|events| - 2], events[|events| - 1];
      Recorded(Run(s, events), r) ==
      SaturatingAdd(Recorded(Run(s, events[..|events| - 1]), r), SaturatingMul(e.now - d.now, At(d.allocation, r)))
  {
    var before := events[..|events| - 1];
    var earlier := before[..|before| - 1];
    RunKeepsOwnRecord(s, earlier);
    ExactStep(Run(s, earlier), before[|before| - 1], events[|events| - 1], r);
  }

  lemma {:induction false} ExactWithinWeek(s: State, events: seq<Event>, r: Resource)
    requires OwnRecord(s) && |events| > 1
    requires Recorded(Run(s, events[..|events| - 1]), r) == Cap(Charged(events[..|events| - 1], r))
    requires var d, e := events[|events| - 2], events[|events| - 1];
      Keeps(d, r) && d.now <= e.now && UtcWeekStart(d.now) == UtcWeekStart(e.now)
    ensures Recorded(Run(s, events), r) == Cap(Charged(events, r))
  {
    var d, e := events[|events| - 2], events[|events| - 1];
    ExactExtension(s, events, r);
    ChargedGrows(events, r);
    SaturatingMulIsCapped(e.now - d.now, At(d.allocation, r));
    CapTwice(Charged(events[..|events| - 1], r), (e.now - d.now) * At(d.allocation, r));
  }
}
