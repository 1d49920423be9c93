/**
 * The lease that serializes offsite exports. Every exporter reads the lease, checks it against its own clock
 * reading, stamps it and writes it back fenced by resourceVersion; these steps interleave freely.
 */
module ExportLease {
  import opened Wrappers

  const LEASE_SECONDS := 180
  const EPOCH := 0

  type Identity = string

  datatype Lease = Lease(holder: Option<Identity>, renewTime: int)

  datatype Activity =
    | Idle
    | Read(seen: Option<Versioned<Lease>>)
    | Checked(seen: Option<Versioned<Lease>>, checkedAt: int)
    | Stamped(seen: Option<Versioned<Lease>>, checkedAt: int, renewTime: int)
    | Releasing(seen: Option<Versioned<Lease>>)

  /** `renewals` records, for every identity, the stamp of its last accepted and unreleased renewal. */
  datatype State = State(
    clock: int, revision: nat, lease: Option<Versioned<Lease>>, exporters: map<Identity, Activity>,
    renewals: map<Identity, int>)

  datatype Event =
    | Tick(seconds: nat)
    | ReadLease(e: Identity)
    | CheckLease(e: Identity)
    | StampLease(e: Identity)
    | WriteLease(e: Identity)
    | ReadForRelease(e: Identity)
    | WriteRelease(e: Identity)
    | Crash(e: Identity)

  function ActivityOf(s: State, e: Identity): Activity {
    if e in s.exporters then s.exporters[e] else Idle
  }

  function Become(s: State, e: Identity, a: Activity): State {
    s.(exporters := s.exporters[e := a])
  }

  /** A missing lease is created with an empty spec. */
  function SpecOf(seen: Option<Versioned<Lease>>): Lease {
    if seen.Some? then seen.value.value else Lease(None, EPOCH)
  }

  /** Another identity holds the lease and renewed it less than 180 seconds ago. */
  predicate Busy(seen: Option<Versioned<Lease>>, e: Identity, now: int) {
    SpecOf(seen).holder !in {None, Some(e)} && now - SpecOf(seen).renewTime < LEASE_SECONDS
  }

  /** The write is accepted: PUT needs the version that was read, POST needs the lease not to exist. */
  predicate Accepted(s: State, seen: Option<Versioned<Lease>>) {
    if seen.Some? then s.lease.Some? && s.lease.value.version == seen.value.version else s.lease.None?
  }

  function Perform(s: State, event: Event): State {
    match event
    case Tick(seconds) => s.(clock := s.clock + seconds)
    case ReadLease(e) => if ActivityOf(s, e).Idle? then Become(s, e, Read(s.lease)) else s
    case CheckLease(e) =>
      var a := ActivityOf(s, e);
      if !a.Read? then s
      else if Busy(a.seen, e, s.clock) then Become(s, e, Idle)
      else Become(s, e, Checked(a.seen, s.clock))
    case StampLease(e) =>
      var a := ActivityOf(s, e);
      if a.Checked? then Become(s, e, Stamped(a.seen, a.checkedAt, s.clock)) else s
    case WriteLease(e) =>
      var a := ActivityOf(s, e);
      if !a.Stamped? then s
      else if !Accepted(s, a.seen) then Become(s, e, Idle)
      else s.(revision := s.revision + 1,
              lease := Some(Versioned(s.revision + 1, Lease(Some(e), a.renewTime))),
              exporters := s.exporters[e := Idle],
              renewals := s.renewals[e := a.renewTime])
    case ReadForRelease(e) =>
      if ActivityOf(s, e).Idle? && s.lease.Some? && s.lease.value.value.holder == Some(e)
      then Become(s, e, Releasing(s.lease))
      else s
    case WriteRelease(e) =>
      var a := ActivityOf(s, e);
      if !a.Releasing? then s
      else if a.seen.None? || !Accepted(s, a.seen) then Become(s, e, Idle)
      else s.(revision := s.revision + 1,
              lease := Some(Versioned(s.revision + 1, a.seen.value.value.(renewTime := EPOCH))),
              exporters := s.exporters[e := Idle],
              renewals := s.renewals - {e})
    case Crash(e) => Become(s, e, Idle)
  }

  function Run(s: State, events: seq<Event>): State
    decreases |events|
  {
    if events == [] then s else Perform(Run(s, events[..|events| - 1]), events[|events| - 1])
  }

  function Initially(clock: int): State {
    State(clock, 0, None, map[], map[])
  }

  ghost predicate Snapshot(s: State, seen: Option<Versioned<Lease>>) {
    seen.Some? ==>
      && seen.value.version <= s.revision
      && (s.lease.Some? && s.lease.value.version == seen.value.version ==> s.lease == seen)
  }

  ghost predicate ActivityOk(s: State, e: Identity, a: Activity) {
    match a
    case Idle => true
    case Read(seen) => Snapshot(s, seen)
    case Checked(seen, checkedAt) => Snapshot(s, seen) && checkedAt <= s.clock && !Busy(seen, e, checkedAt)
    case Stamped(seen, checkedAt, renewTime) =>
      Snapshot(s, seen) && checkedAt <= s.clock && renewTime <= s.clock && !Busy(seen, e, checkedAt)
    case Releasing(seen) => Snapshot(s, seen) && (seen.Some? ==> seen.value.value.holder == Some(e))
  }

  /** An accepted, unreleased renewal less than 180 seconds old. */
  ghost predicate Live(s: State, e: Identity) {
    e in s.renewals && s.clock - s.renewals[e] < LEASE_SECONDS
  }

  ghost predicate Invariant(s: State) {
    && (s.lease.Some? ==> s.lease.value.version <= s.revision)
    && (forall e <- s.exporters :: ActivityOk(s, e, s.exporters[e]))
    && (forall e <- s.renewals :: s.renewals[e] <= s.clock)
    && (forall e <- s.renewals | Live(s, e) ::
          s.lease.Some? && s.lease.value.value == Lease(Some(e), s.renewals[e]))
  }

  lemma StepKeepsInvariant(s: State, event: Event)
    requires Invariant(s)
    ensures Invariant(Perform(s, event))
  {
    if event.WriteLease? || event.WriteRelease? {
      assert ActivityOk(s, event.e, ActivityOf(s, event.e));
    }
  }

  lemma {:induction false} RunKeepsInvariant(clock: int, events: seq<Event>)
    ensures Invariant(Run(Initially(clock), events))
    decreases |events|
  {
    if events != [] {
      RunKeepsInvariant(clock, events[..|events| - 1]);
      StepKeepsInvariant(Run(Initially(clock), events[..|events| - 1]), events[|events| - 1]);
    }
  }

  /** At every instant of every interleaving, at most one identity has a live renewal. */
  lemma AtMostOneExporter(clock: int, events: seq<Event>, e: Identity, f: Identity)
    requires Live(Run(Initially(clock), events), e) && Live(Run(Initially(clock), events), f)
    ensures e == f
  {
    RunKeepsInvariant(clock, events);
  }
}
