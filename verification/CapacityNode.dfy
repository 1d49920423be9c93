/** Which node, if any, can take a Pod: compute, Pod count, image and disk budgets against a fixed snapshot. */
module CapacityNode {
  import opened Wrappers
  import opened Orderings
  import opened CapacityRequests

  const GIB := 1024 * 1024 * 1024

  datatype Policy = Policy(minFree: nat, freePercent: nat, expansion: nat)

  datatype Filesystem =
    Filesystem(sampled: Option<int>, capacity: nat, available: int, inodes: nat, inodesFree: nat)

  /** A live Pod on a node; `tracked` marks workloads whose writable layer is promised but not yet consumed. */
  datatype BoundPod = BoundPod(requests: Resources, reservation: Option<string>, tracked: bool, measured: nat)

  datatype Node = Node(name: string, allocatable: Resources, podLimit: int, images: set<string>,
                       fs: Option<Filesystem>, imageFs: Option<Filesystem>, bound: seq<BoundPod>)

  /** A reservation in the ledger. */
  datatype Record =
    | PodRecord(id: string, fingerprint: string, created: int,
                node: string, requests: Resources, diskBytes: nat, peakBytes: nat)
    | VolumeRecord(id: string, fingerprint: string, created: int, storageNodes: seq<string>, delta: nat,
                   desired: nat)

  /** A Pod asking for admission; `eligible` names the nodes its scheduling constraints match. */
  datatype PodRequest = PodRequest(need: Resources, eligible: set<string>, image: string, pinned: bool,
                                   helpers: seq<string>, imageBytes: Option<nat>)

  datatype Reason =
    | MetricsUnavailable | InsufficientDisk | InsufficientInodes | ImageUnknown | InsufficientPods
    | InsufficientCompute | NoEligibleNode
    | UnsupportedStorage | ReplicaPolicyUnavailable | InsufficientReplicatedStorage

  // ----- What the ledger charges -----

  /** What can be charged: one resource, the Pod count or the disk of a node, or the growth held on a storage node. */
  datatype Measure = Compute(on: Node, resource: string) | PodCount(on: Node) | Disk(on: Node) | Growth(host: string)

  predicate OnNode(node: Node, r: Record) {
    r.PodRecord? && r.node == node.name
  }

  predicate BoundHere(node: Node, id: string) {
    exists i :: 0 <= i < |node.bound| && node.bound[i].reservation == Some(id)
  }

  /** Reserved for this node by a Pod the snapshot does not show there yet. */
  predicate Pending(node: Node, r: Record) {
    OnNode(node, r) && !BoundHere(node, r.id)
  }

  function Weight(m: Measure, r: Record): nat {
    match m
    case Compute(node, k) => if Pending(node, r) then Get(r.requests, k) else 0
    case PodCount(node) => if Pending(node, r) then 1 else 0
    case Disk(node) => if Pending(node, r) then r.diskBytes else if OnNode(node, r) then r.peakBytes else 0
    case Growth(host) => if r.VolumeRecord? && host in r.storageNodes then r.delta else 0
  }

  function Charged(m: Measure, records: seq<Record>): nat
    decreases |records|
  {
    if records == [] then 0 else Charged(m, records[..|records| - 1]) + Weight(m, records[|records| - 1])
  }

  function BoundSum(bound: seq<BoundPod>, k: string): nat
    decreases |bound|
  {
    if bound == [] then 0 else BoundSum(bound[..|bound| - 1], k) + Get(bound[|bound| - 1].requests, k)
  }

  function RootfsRemaining(bound: seq<BoundPod>): nat
    decreases |bound|
  {
    if bound == [] then 0 else
    var pod := bound[|bound| - 1];
    RootfsRemaining(bound[..|bound| - 1]) +
    (if pod.tracked then Max(0, Get(pod.requests, "ephemeral-storage") - pod.measured) else 0)
  }

  function Used(node: Node, k: string, records: seq<Record>): nat {
    BoundSum(node.bound, k) + Charged(Compute(node, k), records)
  }

  /** Writable layers not yet consumed, admitted Pods not yet bound, and image pulls not yet measured. */
  function Promised(node: Node, records: seq<Record>): nat {
    RootfsRemaining(node.bound) + Charged(Disk(node), records)
  }

  // ----- Filesystem budget -----

  predicate Fresh(sampled: Option<int>, now: int) {
    sampled.Some? && -10 <= now - sampled.value <= 90
  }

  function Floor(capacity: nat, policy: Policy): nat {
    Max(policy.minFree, capacity * policy.freePercent / 100)
  }

  function FilesystemBudget(fs: Option<Filesystem>, need: int, now: int, policy: Policy): Option<Reason> {
    if fs.None? || !Fresh(fs.value.sampled, now) then Some(MetricsUnavailable)
    else if fs.value.capacity == 0 || fs.value.available - need < Floor(fs.value.capacity, policy)
    then Some(InsufficientDisk)
    else if fs.value.inodes == 0 || fs.value.inodesFree < Max(100_000, fs.value.inodes / 10)
    then Some(InsufficientInodes)
    else None
  }

  // ----- One node -----

  datatype Candidate = Candidate(cached: bool, spare: int, name: string, peak: nat)
  datatype Verdict = NotEligible | Refused(reason: Reason) | Fits(candidate: Candidate)

  predicate Cached(p: PodRequest, node: Node) {
    p.image in node.images
  }

  function UncachedHelpers(helpers: seq<string>, images: set<string>): nat
    decreases |helpers|
  {
    if helpers == [] then 0 else
    UncachedHelpers(helpers[..|helpers| - 1], images) + (if helpers[|helpers| - 1] in images then 0 else 1)
  }

  /** Bytes the image store can need at most while the images are pulled and unpacked. */
  function Peak(p: PodRequest, node: Node, policy: Policy): nat {
    var image := if Cached(p, node) || p.imageBytes.None? then 0
                 else Max(GIB, p.imageBytes.value * policy.expansion);
    image + UncachedHelpers(p.helpers, node.images) * (GIB * policy.expansion)
  }

  function DiskNeed(p: PodRequest, peak: nat, node: Node, records: seq<Record>): nat {
    Get(p.need, "ephemeral-storage") + peak + Promised(node, records)
  }

  predicate ComputeShort(p: PodRequest, node: Node, records: seq<Record>) {
    exists k :: k in p.need && Used(node, k, records) + p.need[k] > Get(node.allocatable, k)
  }

  function NodeVerdict(p: PodRequest, node: Node, records: seq<Record>, now: int, policy: Policy): Verdict {
    if node.name !in p.eligible then NotEligible
    else if ComputeShort(p, node, records) then Refused(InsufficientCompute)
    else if |node.bound| + Charged(PodCount(node), records) + 1 > node.podLimit then Refused(InsufficientPods)
    else if p.imageBytes.None? && (!p.pinned || !Cached(p, node)) then Refused(ImageUnknown)
    else
      var peak := Peak(p, node, policy);
      var disk := DiskNeed(p, peak, node, records);
      var fs := FilesystemBudget(node.fs, disk, now, policy);
      var imageFs := FilesystemBudget(node.imageFs, disk, now, policy);
      if fs.Some? then Refused(fs.value)
      else if imageFs.Some? then Refused(imageFs.value)
      else Fits(Candidate(Cached(p, node), node.fs.value.available - disk, node.name, peak))
  }

  // ----- Choosing among the nodes -----

  /** Cached images first, then the most spare disk, then the name, then the peak. */
  function Key(c: Candidate): seq<int> {
    var peak: int := c.peak;
    [if c.cached then 1 else 0, c.spare] + NameKey(c.name) + [-1, peak]
  }

  function Reasons(p: PodRequest, nodes: seq<Node>, records: seq<Record>, now: int, policy: Policy): set<Reason> {
    set node | node in nodes && NodeVerdict(p, node, records, now, policy).Refused?
      :: NodeVerdict(p, node, records, now, policy).reason
  }

  /** A node with compute headroom but too little disk explains more than one that lacks CPU or memory. */
  function FirstReason(reasons: set<Reason>): Reason {
    if MetricsUnavailable in reasons then MetricsUnavailable
    else if InsufficientDisk in reasons then InsufficientDisk
    else if InsufficientInodes in reasons then InsufficientInodes
    else if ImageUnknown in reasons then ImageUnknown
    else if InsufficientPods in reasons then InsufficientPods
    else if InsufficientCompute in reasons then InsufficientCompute
    else NoEligibleNode
  }

  function Better(best: Option<Candidate>, c: Candidate): Candidate {
    if best.Some? && LexLeq(Key(c), Key(best.value)) then best.value else c
  }

  function Best(p: PodRequest, nodes: seq<Node>, records: seq<Record>, now: int, policy: Policy): Option<Candidate>
    decreases |nodes|
  {
    if nodes == [] then None else
    var best := Best(p, nodes[..|nodes| - 1], records, now, policy);
    match NodeVerdict(p, nodes[|nodes| - 1], records, now, policy)
    case Fits(c) => Some(Better(best, c))
    case _ => best
  }

  function Selected(p: PodRequest, nodes: seq<Node>, records: seq<Record>, now: int, policy: Policy):
    Result<Candidate, Reason>
  {
    var best := Best(p, nodes, records, now, policy);
    if best.Some? then Ok(best.value) else Err(FirstReason(Reasons(p, nodes, records, now, policy)))
  }

  method SelectNode(p: PodRequest, nodes: seq<Node>, records: seq<Record>, now: int, policy: Policy)
    returns (outcome: Result<Candidate, Reason>)
    ensures outcome == Selected(p, nodes, records, now, policy)
  {
    var reasons: set<Reason> := {};
    var best := None;
    for i := 0 to |nodes|
      invariant best == Best(p, nodes[..i], records, now, policy)
      invariant reasons == Reasons(p, nodes[..i], records, now, policy)
    {
      assert nodes[..i + 1][..i] == nodes[..i];
      assert nodes[..i + 1] == nodes[..i] + [nodes[i]];
      ReasonsExtend(p, nodes[..i], nodes[i], records, now, policy);
      var verdict := NodeVerdict(p, nodes[i], records, now, policy);
      match verdict {
        case NotEligible =>
        case Refused(reason) => reasons := reasons + {reason};
        case Fits(c) => best := Some(Better(best, c));
      }
    }
    assert nodes[..|nodes|] == nodes;
    outcome := if best.Some? then Ok(best.value) else Err(FirstReason(reasons));
  }

  lemma ReasonsExtend(p: PodRequest, nodes: seq<Node>, node: Node, records: seq<Record>, now: int, policy: Policy)
    ensures Reasons(p, nodes + [node], records, now, policy) ==
      var verdict := NodeVerdict(p, node, records, now, policy);
      Reasons(p, nodes, records, now, policy) + (if verdict.Refused? then {verdict.reason} else {})
  {
    assert forall x :: x in nodes + [node] <==> x in nodes || x == node;
  }

  /** The choice is the greatest of the nodes that fit, and a refusal means that none does. */
  lemma {:induction false} BestIsGreatest(
    p: PodRequest, nodes: seq<Node>, records: seq<Record>, now: int, policy: Policy, node: Node)
    requires node in nodes
    ensures var best := Best(p, nodes, records, now, policy);
      match NodeVerdict(p, node, records, now, policy)
      case Fits(c) => best.Some? && LexLeq(Key(c), Key(best.value))
      case _ => true
    decreases |nodes|
  {
    var before, last := nodes[..|nodes| - 1], nodes[|nodes| - 1];
    var verdict := NodeVerdict(p, node, records, now, policy);
    if verdict.Fits? {
      var c := verdict.candidate;
      LexTotal(Key(c), Key(c));
      if node in before {
        BestIsGreatest(p, before, records, now, policy, node);
        BetterIsGreater(c, Best(p, before, records, now, policy).value, NodeVerdict(p, last, records, now, policy));
      } else {
        assert node == last;
      }
    }
  }

  lemma BetterIsGreater(c: Candidate, best: Candidate, verdict: Verdict)
    requires LexLeq(Key(c), Key(best))
    ensures verdict.Fits? ==> LexLeq(Key(c), Key(Better(Some(best), verdict.candidate)))
  {
    if verdict.Fits? {
      LexTotal(Key(verdict.candidate), Key(best));
      if LexLeq(Key(best), Key(verdict.candidate)) { LexTransitive(Key(c), Key(best), Key(verdict.candidate)); }
    }
  }

  /** The choice is the verdict of one of the nodes. */
  lemma {:induction false} BestFits(p: PodRequest, nodes: seq<Node>, records: seq<Record>, now: int, policy: Policy)
    ensures var best := Best(p, nodes, records, now, policy);
      best.Some? ==> exists node :: node in nodes && NodeVerdict(p, node, records, now, policy) == Fits(best.value)
    decreases |nodes|
  {
    if nodes != [] {
      var before, last := nodes[..|nodes| - 1], nodes[|nodes| - 1];
      BestFits(p, before, records, now, policy);
      assert last in nodes && forall node :: node in before ==> node in nodes;
    }
  }

  // ----- Admission keeps every budget -----

  /** The reservation written for an admitted Pod. */
  function Reservation(id: string, fingerprint: string, now: int, p: PodRequest, c: Candidate): Record {
    PodRecord(id, fingerprint, now, c.name, p.need, Get(p.need, "ephemeral-storage") + c.peak, c.peak)
  }

  lemma ChargedExtend(m: Measure, records: seq<Record>, r: Record)
    ensures Charged(m, records + [r]) == Charged(m, records) + Weight(m, r)
  {
    assert (records + [r])[..|records|] == records;
  }

  ghost predicate ComputeHolds(node: Node, records: seq<Record>) {
    forall k :: Used(node, k, records) <= Get(node.allocatable, k)
  }

  ghost predicate PodsHold(node: Node, records: seq<Record>) {
    |node.bound| + Charged(PodCount(node), records) <= node.podLimit
  }

  /** Both filesystems keep their free-space floor with everything promised on the node taken away. */
  ghost predicate DiskHolds(node: Node, records: seq<Record>, policy: Policy) {
    && node.fs.Some? && node.fs.value.available - Promised(node, records) >= Floor(node.fs.value.capacity, policy)
    && node.imageFs.Some?
    && node.imageFs.value.available - Promised(node, records) >= Floor(node.imageFs.value.capacity, policy)
  }

  lemma AdmissionKeepsCompute(p: PodRequest, node: Node, records: seq<Record>, r: Record)
    requires ComputeHolds(node, records) && !ComputeShort(p, node, records)
    requires r.PodRecord? && r.requests == p.need
    ensures ComputeHolds(node, records + [r])
  {
    forall k ensures Used(node, k, records + [r]) <= Get(node.allocatable, k) {
      ChargedExtend(Compute(node, k), records, r);
    }
  }

  lemma AdmissionKeepsDisk(
    p: PodRequest, node: Node, records: seq<Record>, now: int, policy: Policy, id: string, fingerprint: string)
    requires NodeVerdict(p, node, records, now, policy).Fits?
    ensures var r := Reservation(id, fingerprint, now, p, NodeVerdict(p, node, records, now, policy).candidate);
      DiskHolds(node, records + [r], policy)
  {
    var c := NodeVerdict(p, node, records, now, policy).candidate;
    var r := Reservation(id, fingerprint, now, p, c);
    ChargedExtend(Disk(node), records, r);
    assert Weight(Disk(node), r) <= Get(p.need, "ephemeral-storage") + c.peak;
    assert Promised(node, records + [r]) <= DiskNeed(p, c.peak, node, records);
  }

  lemma AdmissionKeepsPods(
    p: PodRequest, node: Node, records: seq<Record>, now: int, policy: Policy, r: Record)
    requires NodeVerdict(p, node, records, now, policy).Fits?
    ensures PodsHold(node, records + [r])
  {
    ChargedExtend(PodCount(node), records, r);
  }

  /** A reservation for one node charges no other. */
  lemma OtherNodeUncharged(m: Measure, records: seq<Record>, r: Record)
    requires !m.Growth? && (r.PodRecord? ==> r.node != m.on.name)
    ensures Charged(m, records + [r]) == Charged(m, records)
  {
    ChargedExtend(m, records, r);
  }

  // ----- Refusals are never gratuitous -----

  /** Sampled within the last ninety seconds, of known size, and with enough free inodes. */
  predicate Healthy(fs: Option<Filesystem>, now: int) {
    && fs.Some? && Fresh(fs.value.sampled, now) && fs.value.capacity > 0
    && fs.value.inodes > 0 && fs.value.inodesFree >= 100_000 && fs.value.inodesFree >= fs.value.inodes / 10
  }

  /** What the reservation for this node would be. */
  function Proposed(p: PodRequest, node: Node, now: int, policy: Policy, id: string, fingerprint: string): Record {
    Reservation(id, fingerprint, now, p, Candidate(Cached(p, node), 0, node.name, Peak(p, node, policy)))
  }

  lemma ProposedCharges(p: PodRequest, node: Node, records: seq<Record>, r: Record, k: string)
    requires Pending(node, r) && r.requests == p.need
    ensures Used(node, k, records + [r]) == Used(node, k, records) + Get(p.need, k)
    ensures Charged(PodCount(node), records + [r]) == Charged(PodCount(node), records) + 1
    ensures Promised(node, records + [r]) == Promised(node, records) + r.diskBytes
  {
    ChargedExtend(Compute(node, k), records, r);
    ChargedExtend(PodCount(node), records, r);
    ChargedExtend(Disk(node), records, r);
  }

  /**
   * A node takes a Pod exactly when it is eligible, its image is known, its filesystems are healthy, and the ledger
   * with the reservation added keeps the resources asked for, the Pod count and both free-space floors.
   */
  lemma FitsIff(
    p: PodRequest, node: Node, records: seq<Record>, now: int, policy: Policy, id: string, fingerprint: string)
    requires !BoundHere(node, id)
    ensures var after := records + [Proposed(p, node, now, policy, id, fingerprint)];
      NodeVerdict(p, node, records, now, policy).Fits? <==>
      && node.name in p.eligible && (p.imageBytes.Some? || (p.pinned && Cached(p, node)))
      && Healthy(node.fs, now) && Healthy(node.imageFs, now)
      && (forall k :: k in p.need ==> Used(node, k, after) <= Get(node.allocatable, k))
      && PodsHold(node, after) && DiskHolds(node, after, policy)
  {
    var r := Proposed(p, node, now, policy, id, fingerprint);
    var after := records + [r];
    ProposedCharges(p, node, records, r, "");
    forall k ensures Used(node, k, after) == Used(node, k, records) + Get(p.need, k) {
      ProposedCharges(p, node, records, r, k);
    }
    ComputeShortIff(p, node, records, after);
    BudgetIff(node.fs, DiskNeed(p, Peak(p, node, policy), node, records), now, policy);
    BudgetIff(node.imageFs, DiskNeed(p, Peak(p, node, policy), node, records), now, policy);
  }

  lemma ComputeShortIff(p: PodRequest, node: Node, records: seq<Record>, after: seq<Record>)
    requires forall k :: Used(node, k, after) == Used(node, k, records) + Get(p.need, k)
    ensures ComputeShort(p, node, records) <==>
      !(forall k :: k in p.need ==> Used(node, k, after) <= Get(node.allocatable, k))
  {
  }

  lemma BudgetIff(fs: Option<Filesystem>, need: int, now: int, policy: Policy)
    ensures FilesystemBudget(fs, need, now, policy).None? <==>
      Healthy(fs, now) && fs.value.available - need >= Floor(fs.value.capacity, policy)
  {
  }
}
