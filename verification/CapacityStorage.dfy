/** Which storage nodes a volume growth is charged to. */
module CapacityStorage {
  import opened Wrappers
  import opened Orderings
  import opened CapacityNode

  datatype StorageDisk = StorageDisk(schedulable: bool, tags: set<string>, capacity: nat, free: int)
  datatype StorageNode = StorageNode(name: string, schedulable: bool, tags: set<string>, disks: seq<StorageDisk>)

  /**
   * A claim asking for storage; `existing` is what it requests already. `replicas` is the storage class's or the
   * default replica count where one can be read, and `degradedAllowed` the storage system's recovery policy.
   */
  datatype VolumeRequest = VolumeRequest(requested: nat, existing: nat, supported: bool, replicas: Option<int>,
                                         nodeTags: set<string>, diskTags: set<string>, degradedAllowed: bool)

  /** The nodes charged, the growth charged to each, and the replica count asked for. */
  datatype Grant = Grant(storageNodes: seq<string>, delta: nat, desired: nat)

  datatype Slot = Slot(spare: int, name: string)

  function Delta(v: VolumeRequest): nat {
    Max(0, v.requested - v.existing)
  }

  /** A schedulable disk on which `held` and `more` bytes leave the floor free. */
  predicate DiskFits(v: VolumeRequest, disk: StorageDisk, held: nat, policy: Policy) {
    && disk.schedulable && v.diskTags <= disk.tags
    && disk.free - held - Delta(v) >= Floor(disk.capacity, policy)
  }

  function FirstFitting(v: VolumeRequest, disks: seq<StorageDisk>, held: nat, policy: Policy): Option<StorageDisk> {
    if disks == [] then None
    else if DiskFits(v, disks[0], held, policy) then Some(disks[0])
    else FirstFitting(v, disks[1..], held, policy)
  }

  /** A node's one entry: its first fitting disk less the growth already held there. */
  function SlotOn(v: VolumeRequest, node: StorageNode, records: seq<Record>, policy: Policy): Option<Slot> {
    if !node.schedulable || !(v.nodeTags <= node.tags) then None else
    var held := Charged(Growth(node.name), records);
    match FirstFitting(v, node.disks, held, policy)
    case Some(disk) => Some(Slot(disk.free - held, node.name))
    case None => None
  }

  function Slots(v: VolumeRequest, nodes: seq<StorageNode>, records: seq<Record>, policy: Policy): seq<Slot>
    decreases |nodes|
  {
    if nodes == [] then [] else
    var slot := SlotOn(v, nodes[|nodes| - 1], records, policy);
    Slots(v, nodes[..|nodes| - 1], records, policy) + (if slot.Some? then [slot.value] else [])
  }

  function SlotKey(s: Slot): seq<int> {
    var spare: seq<int> := [s.spare];
    spare + NameKey(s.name)
  }

  function Names(slots: seq<Slot>): seq<string> {
    seq(|slots|, i requires 0 <= i < |slots| => slots[i].name)
  }

  /** The first `n` in descending order of an ascending list. */
  function LastOf(sorted: seq<Slot>, n: nat): seq<Slot> {
    var size: nat := Min(|sorted|, n);
    seq(size, i requires 0 <= i < size => sorted[|sorted| - 1 - i])
  }

  function Top(slots: seq<Slot>, replicas: nat): seq<Slot> {
    LastOf(Sort(slots, SlotKey), replicas)
  }

  /** Enough copies: all that are desired, or all but one and at least two where degraded volumes are allowed. */
  predicate Enough(v: VolumeRequest, replicas: nat, found: nat) {
    found == replicas || (found >= Max(2, replicas - 1) && v.degradedAllowed)
  }

  function Granted(v: VolumeRequest, nodes: seq<StorageNode>, records: seq<Record>, policy: Policy):
    Result<Grant, Reason>
  {
    if Delta(v) == 0 then Ok(Grant([], 0, 0))
    else if !v.supported then Err(UnsupportedStorage)
    else if v.replicas.None? || v.replicas.value < 1 then Err(ReplicaPolicyUnavailable)
    else
      var selected := Top(Slots(v, nodes, records, policy), v.replicas.value);
      if Enough(v, v.replicas.value, |selected|) then Ok(Grant(Names(selected), Delta(v), v.replicas.value))
      else Err(InsufficientReplicatedStorage)
  }

  method FindSlot(v: VolumeRequest, node: StorageNode, records: seq<Record>, policy: Policy)
    returns (slot: Option<Slot>)
    ensures slot == SlotOn(v, node, records, policy)
  {
    slot := None;
    if node.schedulable && v.nodeTags <= node.tags {
      var held := Charged(Growth(node.name), records);
      for i := 0 to |node.disks|
        invariant slot == None
        invariant FirstFitting(v, node.disks, held, policy) == FirstFitting(v, node.disks[i..], held, policy)
      {
        if DiskFits(v, node.disks[i], held, policy) {
          return Some(Slot(node.disks[i].free - held, node.name));
        }
        assert node.disks[i..][1..] == node.disks[i + 1..];
      }
    }
  }

  method GrantStorage(v: VolumeRequest, nodes: seq<StorageNode>, records: seq<Record>, policy: Policy)
    returns (outcome: Result<Grant, Reason>)
    ensures outcome == Granted(v, nodes, records, policy)
  {
    if Delta(v) == 0 { return Ok(Grant([], 0, 0)); }
    if !v.supported { return Err(UnsupportedStorage); }
    if v.replicas.None? || v.replicas.value < 1 { return Err(ReplicaPolicyUnavailable); }
    var eligible: seq<Slot> := [];
    for i := 0 to |nodes|
      invariant eligible == Slots(v, nodes[..i], records, policy)
    {
      assert nodes[..i + 1][..i] == nodes[..i];
      var slot := FindSlot(v, nodes[i], records, policy);
      if slot.Some? {
        eligible := eligible + [slot.value];
      }
    }
    assert nodes[..|nodes|] == nodes;
    var selected := Top(eligible, v.replicas.value);
    if Enough(v, v.replicas.value, |selected|) { return Ok(Grant(Names(selected), Delta(v), v.replicas.value)); }
    return Err(InsufficientReplicatedStorage);
  }

  // ----- What a grant guarantees -----

  ghost predicate DistinctNodes(nodes: seq<StorageNode>) {
    forall i, j :: 0 <= i < j < |nodes| ==> nodes[i].name != nodes[j].name
  }

  ghost predicate DistinctNames(names: seq<string>) {
    forall i, j :: 0 <= i < j < |names| ==> names[i] != names[j]
  }

  ghost predicate DistinctSlots(slots: seq<Slot>) {
    forall i, j :: 0 <= i < j < |slots| ==> slots[i].name != slots[j].name
  }

  /** Some schedulable disk of the named node keeps its floor with all held growth, and `more`, taken away. */
  ghost predicate Roomy(nodes: seq<StorageNode>, records: seq<Record>, policy: Policy, name: string, more: nat) {
    exists node, disk ::
      && node in nodes && node.name == name && node.schedulable
      && disk in node.disks && disk.schedulable
      && disk.free - Charged(Growth(name), records) - more >= Floor(disk.capacity, policy)
  }

  lemma {:induction false} FirstFittingFits(v: VolumeRequest, disks: seq<StorageDisk>, held: nat, policy: Policy)
    ensures var disk := FirstFitting(v, disks, held, policy);
      && (disk.Some? ==> disk.value in disks && DiskFits(v, disk.value, held, policy))
      && (disk.None? ==> forall d :: d in disks ==> !DiskFits(v, d, held, policy))
  {
    if disks != [] && !DiskFits(v, disks[0], held, policy) {
      FirstFittingFits(v, disks[1..], held, policy);
    }
  }

  lemma SlotIsRoomy(
    v: VolumeRequest, nodes: seq<StorageNode>, node: StorageNode, records: seq<Record>, policy: Policy)
    requires node in nodes && SlotOn(v, node, records, policy).Some?
    ensures Roomy(nodes, records, policy, node.name, Delta(v))
  {
    FirstFittingFits(v, node.disks, Charged(Growth(node.name), records), policy);
  }

  lemma {:induction false} SlotsExact(
    v: VolumeRequest, nodes: seq<StorageNode>, records: seq<Record>, policy: Policy, slot: Slot)
    ensures slot in Slots(v, nodes, records, policy) <==>
      exists node :: node in nodes && SlotOn(v, node, records, policy) == Some(slot)
    decreases |nodes|
  {
    if nodes != [] {
      var before, last := nodes[..|nodes| - 1], nodes[|nodes| - 1];
      SlotsExact(v, before, records, policy, slot);
      assert forall node :: node in nodes <==> node in before || node == last;
    }
  }

  lemma {:induction false} SlotsDistinct(
    v: VolumeRequest, nodes: seq<StorageNode>, records: seq<Record>, policy: Policy)
    requires DistinctNodes(nodes)
    ensures DistinctSlots(Slots(v, nodes, records, policy))
    decreases |nodes|
  {
    if nodes != [] {
      var before, last := nodes[..|nodes| - 1], nodes[|nodes| - 1];
      SlotsDistinct(v, before, records, policy);
      forall slot | slot in Slots(v, before, records, policy) ensures slot.name != last.name {
        SlotsExact(v, before, records, policy, slot);
      }
    }
  }

  lemma SortedSlotsDistinct(slots: seq<Slot>, sorted: seq<Slot>)
    requires DistinctSlots(slots) && multiset(sorted) == multiset(slots)
    ensures DistinctSlots(sorted)
  {
    DistinctKept(slots, sorted);
    SameElements(sorted, slots);
    forall i, j | 0 <= i < j < |sorted| ensures sorted[i].name != sorted[j].name {
      assert sorted[i] in slots && sorted[j] in slots;
    }
  }

  lemma LastOfDistinct(sorted: seq<Slot>, n: nat)
    requires DistinctSlots(sorted)
    ensures var top := LastOf(sorted, n);
      DistinctSlots(top) && |top| == Min(|sorted|, n) && forall s :: s in top ==> s in sorted
  {
  }

  lemma TopIsDistinct(slots: seq<Slot>, replicas: nat)
    requires DistinctSlots(slots)
    ensures var top := Top(slots, replicas);
      DistinctSlots(top) && |top| == Min(|slots|, replicas) && forall s :: s in top ==> s in slots
  {
    var sorted := Sort(slots, SlotKey);
    SortKeepsElements(slots, SlotKey);
    SortedSlotsDistinct(slots, sorted);
    LastOfDistinct(sorted, replicas);
  }

  lemma LastOfHolds(sorted: seq<Slot>, n: nat, k: nat)
    requires k < |sorted|
    ensures |sorted| - 1 - k < n ==> sorted[k] in LastOf(sorted, n)
  {
    if |sorted| - 1 - k < n { assert LastOf(sorted, n)[|sorted| - 1 - k] == sorted[k]; }
  }

  lemma LastOfGreatest(sorted: seq<Slot>, n: nat, s: Slot, t: Slot)
    requires SortedBy(sorted, SlotKey) && s in sorted && s !in LastOf(sorted, n) && t in LastOf(sorted, n)
    ensures LexLeq(SlotKey(s), SlotKey(t))
  {
    var top := LastOf(sorted, n);
    var i :| 0 <= i < |top| && top[i] == t;
    var k :| 0 <= k < |sorted| && sorted[k] == s;
    LastOfHolds(sorted, n, k);
  }

  /** A slot that is passed over never has more spare space than one that is taken. */
  lemma TopIsGreatest(slots: seq<Slot>, replicas: nat, s: Slot, t: Slot)
    requires s in slots && s !in Top(slots, replicas) && t in Top(slots, replicas)
    ensures LexLeq(SlotKey(s), SlotKey(t))
  {
    SortKeepsElements(slots, SlotKey);
    SortSorts(slots, SlotKey);
    LastOfGreatest(Sort(slots, SlotKey), replicas, s, t);
  }

  /**
   * A grant for a real growth names distinct storage nodes, as many as desired or one fewer, never a single copy where
   * two are desired, and every one of them has a schedulable disk with room for the growth.
   */
  lemma GrantIsReplicated(v: VolumeRequest, nodes: seq<StorageNode>, records: seq<Record>, policy: Policy)
    requires DistinctNodes(nodes) && Granted(v, nodes, records, policy).Ok? && Delta(v) > 0
    ensures var g := Granted(v, nodes, records, policy).value;
      && g.delta == Delta(v) && DistinctNames(g.storageNodes)
      && v.replicas == Some(g.desired) && g.desired - 1 <= |g.storageNodes| <= g.desired
      && (g.desired >= 2 ==> |g.storageNodes| >= 2) && |g.storageNodes| >= 1
      && (forall name :: name in g.storageNodes ==> Roomy(nodes, records, policy, name, g.delta))
  {
    var slots := Slots(v, nodes, records, policy);
    var top := Top(slots, v.replicas.value);
    SlotsDistinct(v, nodes, records, policy);
    TopIsDistinct(slots, v.replicas.value);
    forall name | name in Names(top) ensures Roomy(nodes, records, policy, name, Delta(v)) {
      var i :| 0 <= i < |top| && top[i].name == name;
      assert top[i] in slots;
      SlotsExact(v, nodes, records, policy, top[i]);
      var node :| node in nodes && SlotOn(v, node, records, policy) == Some(top[i]);
      SlotIsRoomy(v, nodes, node, records, policy);
    }
  }
}
