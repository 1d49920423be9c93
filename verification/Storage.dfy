/** The split of a writable disk budget between the root filesystem and the persistent home. */
module Storage {
  import opened Wrappers

  const U64_MAX := 0xFFFF_FFFF_FFFF_FFFF
  const U32_MAX := 0xFFFF_FFFF
  const MIB := 1024 * 1024
  const GIB := 1024 * 1024 * 1024
  const MIN_ROOTFS := 64 * MIB
  const MIN_PERSISTENT := 64 * MIB
  const MAX_ROOTFS := GIB

  datatype Allocation = Allocation(rootfs: nat, persistent: nat)
  datatype StorageError =
    | PersistentStorageUnavailable | InsufficientWritableStorage
    | PersistentStorageCannotShrink | PersistentStorageExceedsBudget

  /** Sizes requested by the user, in GiB. */
  datatype Wish = Wish(rootfsGib: Option<nat>, persistentGib: Option<nat>)

  predicate ValidWish(w: Wish) {
    && (w.rootfsGib.Some? ==> w.rootfsGib.value <= U32_MAX)
    && (w.persistentGib.Some? ==> w.persistentGib.value <= U32_MAX)
  }

  function Bytes(gib: Option<nat>): Option<nat> {
    if gib.Some? then Some(gib.value * GIB) else None
  }

  function Clamp(x: int, low: int, high: int): int {
    Max(low, Min(x, high))
  }

  function SaturatingSub(x: nat, y: nat): nat {
    if x < y then 0 else x - y
  }

  function StorageAllocation(writable: nat, persistent: bool, wish: Wish): Result<Allocation, StorageError> {
    var rootfsWish, persistentWish := Bytes(wish.rootfsGib), Bytes(wish.persistentGib);
    if !persistent then
      if persistentWish.Some? then Err(PersistentStorageUnavailable) else
      var rootfs := if rootfsWish.Some? then rootfsWish.value else writable;
      if rootfs > writable then Err(InsufficientWritableStorage) else Ok(Allocation(rootfs, 0))
    else if writable < MIN_ROOTFS + MIN_PERSISTENT then Err(InsufficientWritableStorage)
    else
      var rest := SaturatingSub(writable, if persistentWish.Some? then persistentWish.value else MIN_PERSISTENT);
      var rootfs := if rootfsWish.Some? then rootfsWish.value
                    else Min(Clamp(writable / 10, MIN_ROOTFS, MAX_ROOTFS), rest);
      var home := if persistentWish.Some? then persistentWish.value else SaturatingSub(writable, rootfs);
      if rootfs < MIN_ROOTFS || home < MIN_PERSISTENT || rootfs + home > U64_MAX || rootfs + home > writable
      then Err(InsufficientWritableStorage)
      else Ok(Allocation(rootfs, home))
  }

  function Retained(writable: nat, persistent: bool, wish: Wish, existing: nat): Result<Allocation, StorageError> {
    var base := StorageAllocation(writable, persistent, wish);
    if base.Err? || !persistent then base else
    var a := base.value;
    var rounded :=
      if wish.persistentGib.None? && a.persistent > existing
      then a.(persistent := Max(a.persistent / MIB * MIB, existing)) else a;
    if rounded.persistent >= existing then Ok(rounded)
    else if wish.persistentGib.Some? then Err(PersistentStorageCannotShrink)
    else if wish.rootfsGib.Some? || writable < existing || writable - existing < MIN_ROOTFS
    then Err(PersistentStorageExceedsBudget)
    else Ok(Allocation(writable - existing, existing))
  }

  /** The allocation of the current revision, given what the existing claim already requests. */
  method StorageAllocationRetaining(writable: nat, persistent: bool, wish: Wish, existing: nat)
    returns (outcome: Result<Allocation, StorageError>)
    ensures outcome == Retained(writable, persistent, wish, existing)
  {
    outcome := StorageAllocation(writable, persistent, wish);
    if outcome.Err? { return; }
    var allocation := outcome.value;
    if persistent && wish.persistentGib.None? && allocation.persistent > existing {
      allocation := allocation.(persistent := Max(allocation.persistent / MIB * MIB, existing));
    }
    if persistent && allocation.persistent < existing {
      if wish.persistentGib.Some? { return Err(PersistentStorageCannotShrink); }
      if wish.rootfsGib.Some? || writable < existing || writable - existing < MIN_ROOTFS {
        return Err(PersistentStorageExceedsBudget);
      }
      allocation := Allocation(writable - existing, existing);
    }
    return Ok(allocation);
  }

  // ----- What an allocation guarantees -----

  /** The least root filesystem and the least home the request leaves open. */
  function LeastRootfs(wish: Wish): nat {
    if wish.rootfsGib.Some? then wish.rootfsGib.value * GIB else MIN_ROOTFS
  }

  function LeastHome(wish: Wish, existing: nat): nat {
    if wish.persistentGib.Some? then wish.persistentGib.value * GIB else Max(existing, MIN_PERSISTENT)
  }

  /** With a home there is an allocation exactly when explicit sizes are positive, fit, and do not shrink the disk. */
  lemma AllocationExistsIff(writable: nat, wish: Wish, existing: nat)
    requires writable <= U64_MAX && ValidWish(wish)
    ensures Retained(writable, true, wish, existing).Ok? <==>
      && wish.rootfsGib != Some(0) && wish.persistentGib != Some(0)
      && LeastRootfs(wish) + LeastHome(wish, existing) <= writable
      && (wish.persistentGib.Some? ==> existing <= wish.persistentGib.value * GIB)
  {
  }

  lemma RoundingDown(x: nat)
    ensures x - MIB < x / MIB * MIB <= x && (x / MIB * MIB) % MIB == 0
    ensures x >= MIN_PERSISTENT ==> x / MIB * MIB >= MIN_PERSISTENT
  {
  }

  lemma AllocationKeepsPromises(writable: nat, wish: Wish, existing: nat)
    requires Retained(writable, true, wish, existing).Ok?
    ensures var a := Retained(writable, true, wish, existing).value;
      && a.rootfs + a.persistent <= writable
      && a.rootfs >= MIN_ROOTFS && a.persistent >= MIN_PERSISTENT && a.persistent >= existing
      && (wish.rootfsGib.Some? ==> a.rootfs == wish.rootfsGib.value * GIB)
      && (wish.persistentGib.Some? ==> a.persistent == wish.persistentGib.value * GIB)
  {
    var base := StorageAllocation(writable, true, wish).value;
    RoundingDown(base.persistent);
  }

  /** Feeding an allocation's home back in as the existing request changes nothing. */
  lemma AllocationIsStable(writable: nat, wish: Wish, existing: nat)
    requires Retained(writable, true, wish, existing).Ok?
    ensures Retained(writable, true, wish, Retained(writable, true, wish, existing).value.persistent) ==
            Retained(writable, true, wish, existing)
  {
    var base := StorageAllocation(writable, true, wish).value;
    RoundingDown(base.persistent);
  }

  /** With nothing asked for, a fresh disk wastes less than a MiB and the root filesystem gets a tenth within limits. */
  lemma AutomaticSplitUsesBudget(writable: nat)
    requires Retained(writable, true, Wish(None, None), 0).Ok?
    ensures var a := Retained(writable, true, Wish(None, None), 0).value;
      && writable - MIB < a.rootfs + a.persistent <= writable && a.rootfs <= MAX_ROOTFS
      && (10 * MIN_ROOTFS <= writable < 10 * MAX_ROOTFS ==> 10 * a.rootfs <= writable < 10 * a.rootfs + 10)
  {
    RoundingDown(StorageAllocation(writable, true, Wish(None, None)).value.persistent);
  }

  function RoundUpToMib(x: nat): nat {
    (x + MIB - 1) / MIB * MIB
  }

  /** A home allocated for a fresh disk is a whole number of MiB, so CSI rounding leaves the allocation alone. */
  lemma FreshAllocationSurvivesRounding(writable: nat, wish: Wish)
    requires Retained(writable, true, wish, 0).Ok?
    ensures var a := Retained(writable, true, wish, 0).value;
      RoundUpToMib(a.persistent) == a.persistent && Retained(writable, true, wish, RoundUpToMib(a.persistent)) == Ok(a)
  {
    var a := Retained(writable, true, wish, 0).value;
    AllocationIsStable(writable, wish, 0);
    assert a.persistent % MIB == 0 by {
      if wish.persistentGib.Some? { WholeGib(wish.persistentGib.value); }
      else { RoundingDown(StorageAllocation(writable, true, wish).value.persistent); }
    }
  }

  lemma WholeGib(g: nat)
    ensures (g * GIB) % MIB == 0
  {
    assert g * GIB == (g * 1024) * MIB;
  }

  // ----- Runs of updates -----

  datatype Claim = Claim(requested: nat, capacity: nat)

  predicate ClaimNeedsStorageUpdate(claim: Option<Claim>, desired: nat) {
    claim.Some? ==> desired > Max(claim.value.requested, claim.value.capacity)
  }

  /** `budget` is the writable budget of the last completed update, and `rootfs` the limit it deployed. */
  datatype Disk = Disk(claim: Option<Claim>, rootfs: nat, budget: nat)

  /** How far an update gets: refused for want of capacity, stopped after the claim write, or completed. */
  datatype Progress = Refused | ClaimOnly | Completed

  datatype Event =
    | Update(writable: nat, stateless: bool, wish: Wish, progress: Progress)
    | Provisioned(capacity: nat)

  function RequestOf(d: Disk): nat {
    if d.claim.Some? then d.claim.value.requested else 0
  }

  function CapacityOf(d: Disk): nat {
    if d.claim.Some? then d.claim.value.capacity else 0
  }

  /** An update keeps a home for a stateful service, and for any service that has one. */
  predicate HasHome(d: Disk, e: Event)
    requires e.Update?
  {
    !e.stateless || d.claim.Some?
  }

  function Outcome(d: Disk, e: Event): Result<Allocation, StorageError>
    requires e.Update?
  {
    Retained(e.writable, HasHome(d, e), e.wish, RequestOf(d))
  }

  predicate Grows(d: Disk, e: Event)
    requires e.Update? && Outcome(d, e).Ok?
  {
    HasHome(d, e) && ClaimNeedsStorageUpdate(d.claim, Outcome(d, e).value.persistent)
  }

  function Perform(d: Disk, e: Event): Disk {
    match e
    case Provisioned(capacity) =>
      // CSI reports a capacity no smaller than the request and never shrinks a volume
      if d.claim.Some? && capacity >= d.claim.value.requested && capacity >= d.claim.value.capacity
      then d.(claim := Some(d.claim.value.(capacity := capacity))) else d
    case Update(writable, _, _, progress) =>
      if Outcome(d, e).Err? then d else
      var a := Outcome(d, e).value;
      var claim := if Grows(d, e) then Some(Claim(a.persistent, CapacityOf(d))) else d.claim;
      match progress
      case Refused => d
      case ClaimOnly => d.(claim := claim)
      case Completed => Disk(claim, a.rootfs, writable)
  }

  function Run(d: Disk, events: seq<Event>): Disk
    decreases |events|
  {
    if events == [] then d else Perform(Run(d, events[..|events| - 1]), events[|events| - 1])
  }

  const NEW_DISK := Disk(None, 0, 0)

  /** The budget covers root filesystem and home, and once there is a home the root filesystem has its minimum. */
  ghost predicate WithinBudget(d: Disk) {
    d.rootfs + RequestOf(d) <= d.budget && (d.claim.Some? ==> d.rootfs >= MIN_ROOTFS)
  }

  /** Holds whatever is interrupted: the home has its minimum, and without one the budget is kept. */
  ghost predicate Sound(d: Disk) {
    && (d.claim.Some? ==> d.claim.value.requested >= MIN_PERSISTENT)
    && (d.claim.None? ==> d.rootfs <= d.budget)
  }

  /** An accepted update that runs to its end. */
  predicate Completes(d: Disk, e: Event) {
    e.Update? && Outcome(d, e).Ok? && e.progress.Completed?
  }

  /**
   * An update that stops after writing a claim that grows past what the last completed update's budget leaves beside
   * the deployed root filesystem, or that makes a first claim beside too small a root filesystem.
   */
  predicate Overshoots(d: Disk, e: Event) {
    && e.Update? && Outcome(d, e).Ok? && e.progress.ClaimOnly? && Grows(d, e)
    && (Outcome(d, e).value.persistent > d.budget - d.rootfs || d.rootfs < MIN_ROOTFS)
  }

  lemma OutcomeKeepsPromises(d: Disk, e: Event)
    requires e.Update? && Outcome(d, e).Ok?
    ensures var a := Outcome(d, e).value;
      && a.rootfs + a.persistent <= e.writable
      && (HasHome(d, e) ==> a.rootfs >= MIN_ROOTFS && a.persistent >= MIN_PERSISTENT && a.persistent >= RequestOf(d))
  {
    if HasHome(d, e) { AllocationKeepsPromises(e.writable, e.wish, RequestOf(d)); }
  }

  lemma StepSound(d: Disk, e: Event)
    requires Sound(d)
    ensures Sound(Perform(d, e)) && RequestOf(d) <= RequestOf(Perform(d, e))
  {
    if e.Update? && Outcome(d, e).Ok? { OutcomeKeepsPromises(d, e); }
  }

  /**
   * From within the budget exactly the overshooting updates leave it; from outside exactly the completed ones return.
   */
  lemma BudgetLeftIff(d: Disk, e: Event)
    requires Sound(d)
    ensures WithinBudget(d) ==> (WithinBudget(Perform(d, e)) <==> !Overshoots(d, e))
    ensures !WithinBudget(d) ==> (WithinBudget(Perform(d, e)) <==> Completes(d, e))
  {
    if e.Update? && Outcome(d, e).Ok? { OutcomeKeepsPromises(d, e); }
  }

  /** Over any run of completed, refused, invalid and interrupted updates the claim's request never decreases. */
  lemma {:induction false} RunNeverShrinksDisk(events: seq<Event>, k: nat)
    requires k <= |events|
    ensures Sound(Run(NEW_DISK, events))
    ensures RequestOf(Run(NEW_DISK, events[..k])) <= RequestOf(Run(NEW_DISK, events))
    decreases |events|
  {
    if events == [] {
    } else {
      var before := events[..|events| - 1];
      if k < |events| {
        assert before[..k] == events[..k];
        RunNeverShrinksDisk(before, k);
      } else {
        assert events[..k] == events;
        RunNeverShrinksDisk(before, 0);
      }
      StepSound(Run(NEW_DISK, before), events[|events| - 1]);
    }
  }

  predicate CompletesAt(events: seq<Event>, i: nat)
    requires i < |events|
  {
    Completes(Run(NEW_DISK, events[..i]), events[i])
  }

  lemma CompletesAtPrefix(events: seq<Event>, n: nat, i: nat)
    requires i < n <= |events|
    ensures CompletesAt(events[..n], i) <==> CompletesAt(events, i)
  {
    assert events[..n][..i] == events[..i];
  }

  ghost predicate NoneCompletesAfter(events: seq<Event>, k: nat) {
    forall i | k < i < |events| :: !CompletesAt(events, i)
  }

  /** Step `k` overshoots and no update completes after it. */
  ghost predicate Outstanding(events: seq<Event>, k: nat)
    requires k < |events|
  {
    Overshoots(Run(NEW_DISK, events[..k]), events[k]) && NoneCompletesAfter(events, k)
  }

  lemma NoneCompletesExtends(events: seq<Event>, k: nat)
    requires k + 1 < |events|
    ensures var n := |events| - 1;
      NoneCompletesAfter(events, k) <==> NoneCompletesAfter(events[..n], k) && !CompletesAt(events, n)
  {
    var n := |events| - 1;
    forall i | k < i < n ensures CompletesAt(events[..n], i) <==> CompletesAt(events, i) {
      CompletesAtPrefix(events, n, i);
    }
  }

  lemma OutstandingExtends(events: seq<Event>, k: nat)
    requires k + 1 < |events|
    ensures var n := |events| - 1;
      Outstanding(events, k) <==> Outstanding(events[..n], k) && !Completes(Run(NEW_DISK, events[..n]), events[n])
  {
    assert events[..|events| - 1][..k] == events[..k];
    NoneCompletesExtends(events, k);
  }

  ghost predicate SomeOutstanding(events: seq<Event>) {
    exists k | 0 <= k < |events| :: Outstanding(events, k)
  }

  lemma SomeOutstandingExtends(events: seq<Event>)
    requires events != []
    ensures var before, e := events[..|events| - 1], events[|events| - 1];
      SomeOutstanding(events) <==>
      || (SomeOutstanding(before) && !Completes(Run(NEW_DISK, before), e)) || Overshoots(Run(NEW_DISK, before), e)
  {
    var n := |events| - 1;
    forall k | 0 <= k < n
      ensures Outstanding(events, k) <==>
              Outstanding(events[..n], k) && !Completes(Run(NEW_DISK, events[..n]), events[n])
    {
      OutstandingExtends(events, k);
    }
    assert Outstanding(events, n) <==> Overshoots(Run(NEW_DISK, events[..n]), events[n]);
  }

  /**
   * After any run the disk is within the budget of the last completed update exactly when every overshooting update
   * was followed by one that completed.
   */
  lemma {:induction false} RunWithinBudgetIff(events: seq<Event>)
    ensures WithinBudget(Run(NEW_DISK, events)) <==> !SomeOutstanding(events)
    decreases |events|
  {
    if events != [] {
      var before := events[..|events| - 1];
      RunWithinBudgetIff(before);
      RunNeverShrinksDisk(before, 0);
      BudgetLeftIff(Run(NEW_DISK, before), events[|events| - 1]);
      SomeOutstandingExtends(events);
    }
  }

  /** An interrupted growth really can exceed the last completed budget. */
  lemma InterruptedGrowthExceedsBudget()
    ensures
      var first := Perform(NEW_DISK, Update(2 * GIB, false, Wish(Some(1), Some(1)), Completed));
      WithinBudget(first) && !WithinBudget(Perform(first, Update(3 * GIB, false, Wish(Some(1), Some(2)), ClaimOnly)))
  {
  }
}
