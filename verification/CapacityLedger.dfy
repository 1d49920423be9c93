/** The reservation ledger shared by webhook replicas: read, decide, and write back fenced by the version read. */
module CapacityLedger {
  import opened Wrappers
  import opened CapacityNode
  import opened CapacityStorage

  /** A live Pod that carries a reservation; `started` is its last container start where all have started. */
  datatype LivePod = LivePod(running: bool, started: Option<int>, fsSampled: Option<int>, imageFsSampled: Option<int>,
                             listed: bool)

  datatype Snapshot = Snapshot(nodes: seq<Node>, live: map<string, LivePod>, storage: seq<StorageNode>, policy: Policy)

  ghost predicate ValidSnapshot(s: Snapshot) {
    && (forall i, j :: 0 <= i < j < |s.nodes| ==> s.nodes[i].name != s.nodes[j].name)
    && DistinctNodes(s.storage)
  }

  // ----- Pruning -----

  /** Running for two minutes and visible in fresh kubelet accounting. */
  predicate Accounted(pod: LivePod, now: int) {
    && pod.started.Some? && 120 <= now - pod.started.value
    && Fresh(pod.fsSampled, now) && Fresh(pod.imageFsSampled, now) && pod.listed
  }

  predicate Expired(s: Snapshot, r: Record, now: int) {
    match r
    case PodRecord(id, _, created, _, _, _, _) =>
      if id in s.live && s.live[id].running then Accounted(s.live[id], now)
      else id !in s.live && now - created > 120
    case VolumeRecord(_, _, created, _, _, _) => now - created > 300
  }

  function Pruned(s: Snapshot, records: seq<Record>, now: int): seq<Record>
    decreases |records|
  {
    if records == [] then [] else
    var r := records[|records| - 1];
    Pruned(s, records[..|records| - 1], now) + (if Expired(s, r, now) then [] else [r])
  }

  method PruneLedger(s: Snapshot, records: seq<Record>, now: int) returns (kept: seq<Record>)
    ensures kept == Pruned(s, records, now)
  {
    kept := [];
    for i := 0 to |records|
      invariant kept == Pruned(s, records[..i], now)
    {
      assert records[..i + 1][..i] == records[..i];
      if !Expired(s, records[i], now) {
        kept := kept + [records[i]];
      }
    }
    assert records[..|records|] == records;
  }

  function Without(records: seq<Record>, id: string): seq<Record>
    decreases |records|
  {
    if records == [] then [] else
    var r := records[|records| - 1];
    Without(records[..|records| - 1], id) + (if r.id == id then [] else [r])
  }

  function Find(records: seq<Record>, id: string): Option<Record>
    decreases |records|
  {
    if records == [] then None
    else if records[|records| - 1].id == id then Some(records[|records| - 1])
    else Find(records[..|records| - 1], id)
  }

  // ----- One evaluation -----

  datatype Request = ForPod(pod: PodRequest) | ForVolume(volume: VolumeRequest)
  datatype Task = Task(identity: string, fingerprint: string, request: Request, dryRun: bool)

  datatype Decision = Answer | Write(record: Record, rest: seq<Record>)

  const MAX_IMAGE_BYTES := 1024 * 1024 * 1024 * 1024 * 1024

  function Proposal(s: Snapshot, task: Task, records: seq<Record>, now: int): Result<Record, Reason> {
    match task.request
    case ForPod(p) =>
      if p.imageBytes.Some? && !(0 < p.imageBytes.value < MAX_IMAGE_BYTES) then Err(ImageUnknown) else
      (match Selected(p, s.nodes, records, now, s.policy)
       case Err(reason) => Err(reason)
       case Ok(c) => Ok(Reservation(task.identity, task.fingerprint, now, p, c)))
    case ForVolume(v) =>
      match Granted(v, s.storage, records, s.policy)
      case Err(reason) => Err(reason)
      case Ok(g) => Ok(VolumeRecord(task.identity, task.fingerprint, now, g.storageNodes, g.delta, g.desired))
  }

  /** A repeat of an admitted request is answered from the ledger; a changed one replaces its reservation. */
  function Decide(s: Snapshot, task: Task, records: seq<Record>, now: int): Decision {
    var same := Find(records, task.identity);
    if same.Some? && same.value.fingerprint == task.fingerprint then Answer else
    var rest := Without(records, task.identity);
    match Proposal(s, task, rest, now)
    case Err(_) => Answer
    case Ok(r) => if task.dryRun then Answer else Write(r, rest)
  }

  // ----- Interleaved evaluations -----

  const MAX_ATTEMPTS := 8

  /** What a replica read of the ledger, and when. */
  datatype Reading = Reading(ledger: Versioned<seq<Record>>, at: int)
  datatype Attempt = Attempt(task: Task, tries: nat, seen: Option<Reading>)

  /** `admitted` collects the nodes that some Pod was admitted to. */
  datatype State = State(ledger: Versioned<seq<Record>>, attempts: map<nat, Attempt>, admitted: set<string>)

  datatype Event = Begin(replica: nat, task: Task) | Read(replica: nat, now: int) | Finish(replica: nat, now: int)
    | Abandon(replica: nat)

  function Verdict(s: Snapshot, attempt: Attempt, now: int): Decision
    requires attempt.seen.Some?
  {
    Decide(s, attempt.task, Pruned(s, attempt.seen.value.ledger.value, attempt.seen.value.at), now)
  }

  function AdmittedNode(r: Record): set<string> {
    if r.PodRecord? then {r.node} else {}
  }

  function PerformRead(st: State, replica: nat, now: int): State {
    if replica !in st.attempts || st.attempts[replica].seen.Some? then st else
    var attempt := st.attempts[replica];
    if attempt.tries == MAX_ATTEMPTS then st.(attempts := st.attempts - {replica})
    else
      var next := Attempt(attempt.task, attempt.tries + 1, Some(Reading(st.ledger, now)));
      st.(attempts := st.attempts[replica := next])
  }

  function PerformFinish(s: Snapshot, st: State, replica: nat, now: int): State {
    if replica !in st.attempts || st.attempts[replica].seen.None? then st else
    var attempt := st.attempts[replica];
    match Verdict(s, attempt, now)
    case Answer => st.(attempts := st.attempts - {replica})
    case Write(r, rest) =>
      if attempt.seen.value.ledger.version != st.ledger.version
      then st.(attempts := st.attempts[replica := attempt.(seen := None)])
      else State(Versioned(st.ledger.version + 1, rest + [r]), st.attempts - {replica}, st.admitted + AdmittedNode(r))
  }

  function Step(s: Snapshot, st: State, e: Event): State {
    match e
    case Begin(replica, task) =>
      if replica in st.attempts then st else st.(attempts := st.attempts[replica := Attempt(task, 0, None)])
    case Read(replica, now) => PerformRead(st, replica, now)
    case Finish(replica, now) => PerformFinish(s, st, replica, now)
    case Abandon(replica) => st.(attempts := st.attempts - {replica})
  }

  function Run(s: Snapshot, st: State, events: seq<Event>): State
    decreases |events|
  {
    if events == [] then st else Step(s, Run(s, st, events[..|events| - 1]), events[|events| - 1])
  }

  // ----- What holds of the ledger -----

  ghost predicate NodesHold(s: Snapshot, records: seq<Record>, admitted: set<string>) {
    forall node :: node in s.nodes ==>
      && ComputeHolds(node, records) && PodsHold(node, records)
      && (node.name in admitted ==> DiskHolds(node, records, s.policy))
  }

  /** Each charged storage node has a schedulable disk above its floor with all held growth taken away. */
  ghost predicate VolumesHold(s: Snapshot, records: seq<Record>) {
    forall r, name :: r in records && r.VolumeRecord? && name in r.storageNodes ==>
      Roomy(s.storage, records, s.policy, name, 0)
  }

  ghost predicate Replicated(records: seq<Record>) {
    forall r :: r in records && r.VolumeRecord? ==>
      DistinctNames(r.storageNodes) && (r.desired >= 2 ==> |r.storageNodes| >= 2)
  }

  ghost predicate Safe(s: Snapshot, records: seq<Record>, admitted: set<string>) {
    NodesHold(s, records, admitted) && VolumesHold(s, records) && Replicated(records)
  }

  /** Only records of the ledger, charging no more. */
  ghost predicate Lighter(kept: seq<Record>, records: seq<Record>) {
    (forall m :: Charged(m, kept) <= Charged(m, records)) && forall r :: r in kept ==> r in records
  }

  lemma {:induction false} PrunedIsLighter(s: Snapshot, records: seq<Record>, now: int)
    ensures Lighter(Pruned(s, records, now), records)
    decreases |records|
  {
    if records != [] {
      var before, r := records[..|records| - 1], records[|records| - 1];
      PrunedIsLighter(s, before, now);
      LighterExtends(Pruned(s, before, now), before, r, !Expired(s, r, now));
      assert records == before + [r];
    }
  }

  lemma {:induction false} WithoutIsLighter(records: seq<Record>, id: string)
    ensures Lighter(Without(records, id), records)
    decreases |records|
  {
    if records != [] {
      var before, r := records[..|records| - 1], records[|records| - 1];
      WithoutIsLighter(before, id);
      LighterExtends(Without(before, id), before, r, r.id != id);
      assert records == before + [r];
    }
  }

  lemma LighterExtends(kept: seq<Record>, records: seq<Record>, r: Record, keep: bool)
    requires Lighter(kept, records)
    ensures Lighter(kept + (if keep then [r] else []), records + [r])
  {
    var more := kept + (if keep then [r] else []);
    assert kept + [] == kept;
    forall m ensures Charged(m, more) <= Charged(m, records + [r]) {
      ChargedExtend(m, kept, r);
      ChargedExtend(m, records, r);
    }
  }

  lemma LighterStaysSafe(s: Snapshot, kept: seq<Record>, records: seq<Record>, admitted: set<string>)
    requires Safe(s, records, admitted) && Lighter(kept, records)
    ensures Safe(s, kept, admitted)
  {
    forall node | node in s.nodes
      ensures ComputeHolds(node, kept) && PodsHold(node, kept)
      ensures node.name in admitted ==> DiskHolds(node, kept, s.policy)
    {
      LighterNode(node, kept, records, s.policy);
    }
    forall r, name | r in kept && r.VolumeRecord? && name in r.storageNodes
      ensures Roomy(s.storage, kept, s.policy, name, 0)
    {
      assert r in records;
      LighterStorage(s.storage, kept, records, s.policy, name);
    }
  }

  lemma LighterNode(node: Node, kept: seq<Record>, records: seq<Record>, policy: Policy)
    requires Lighter(kept, records)
    ensures ComputeHolds(node, records) ==> ComputeHolds(node, kept)
    ensures PodsHold(node, records) ==> PodsHold(node, kept)
    ensures DiskHolds(node, records, policy) ==> DiskHolds(node, kept, policy)
  {
    forall k ensures Used(node, k, kept) <= Used(node, k, records) {
      assert Charged(Compute(node, k), kept) <= Charged(Compute(node, k), records);
    }
    assert Charged(PodCount(node), kept) <= Charged(PodCount(node), records);
    assert Charged(Disk(node), kept) <= Charged(Disk(node), records);
  }

  lemma LighterStorage(
    nodes: seq<StorageNode>, kept: seq<Record>, records: seq<Record>, policy: Policy, name: string)
    requires Lighter(kept, records) && Roomy(nodes, records, policy, name, 0)
    ensures Roomy(nodes, kept, policy, name, 0)
  {
    assert Charged(Growth(name), kept) <= Charged(Growth(name), records);
  }

  // ----- Admissions keep it -----

  lemma PodAdmissionOnNode(
    s: Snapshot, p: PodRequest, records: seq<Record>, now: int, c: Candidate, r: Record, node: Node,
    admitted: set<string>)
    requires ValidSnapshot(s) && node in s.nodes && NodesHold(s, records, admitted)
    requires Selected(p, s.nodes, records, now, s.policy) == Ok(c)
    requires r.PodRecord? && r == Reservation(r.id, r.fingerprint, now, p, c)
    ensures ComputeHolds(node, records + [r]) && PodsHold(node, records + [r])
    ensures node.name in admitted + {c.name} ==> DiskHolds(node, records + [r], s.policy)
  {
    BestFits(p, s.nodes, records, now, s.policy);
    var chosen :| chosen in s.nodes && NodeVerdict(p, chosen, records, now, s.policy) == Fits(c);
    if node.name == c.name {
      assert node == chosen;
      AdmissionKeepsCompute(p, node, records, r);
      AdmissionKeepsPods(p, node, records, now, s.policy, r);
      AdmissionKeepsDisk(p, node, records, now, s.policy, r.id, r.fingerprint);
    } else {
      Uncharged(node, records, r, s.policy);
    }
  }

  /** A reservation that is not for this node leaves its budgets as they are. */
  lemma Uncharged(node: Node, records: seq<Record>, r: Record, policy: Policy)
    requires r.PodRecord? ==> r.node != node.name
    ensures ComputeHolds(node, records) ==> ComputeHolds(node, records + [r])
    ensures PodsHold(node, records) ==> PodsHold(node, records + [r])
    ensures DiskHolds(node, records, policy) ==> DiskHolds(node, records + [r], policy)
  {
    forall k ensures Used(node, k, records + [r]) == Used(node, k, records) {
      OtherNodeUncharged(Compute(node, k), records, r);
    }
    OtherNodeUncharged(PodCount(node), records, r);
    OtherNodeUncharged(Disk(node), records, r);
  }

  lemma PodAdmissionSafe(
    s: Snapshot, p: PodRequest, records: seq<Record>, now: int, c: Candidate, r: Record, admitted: set<string>)
    requires ValidSnapshot(s) && Safe(s, records, admitted)
    requires Selected(p, s.nodes, records, now, s.policy) == Ok(c)
    requires r.PodRecord? && r == Reservation(r.id, r.fingerprint, now, p, c)
    ensures Safe(s, records + [r], admitted + {c.name})
  {
    forall node | node in s.nodes
      ensures ComputeHolds(node, records + [r]) && PodsHold(node, records + [r])
      ensures node.name in admitted + {c.name} ==> DiskHolds(node, records + [r], s.policy)
    {
      PodAdmissionOnNode(s, p, records, now, c, r, node, admitted);
    }
    forall q, name | q in records + [r] && q.VolumeRecord? && name in q.storageNodes
      ensures Roomy(s.storage, records + [r], s.policy, name, 0)
    {
      assert q in records;
      ChargedExtend(Growth(name), records, r);
      SameGrowth(s.storage, records, records + [r], s.policy, name, 0);
    }
  }

  lemma SameGrowth(
    nodes: seq<StorageNode>, records: seq<Record>, later: seq<Record>, policy: Policy, name: string, more: nat)
    requires Roomy(nodes, records, policy, name, more)
    requires Charged(Growth(name), later) <= Charged(Growth(name), records) + more
    ensures Roomy(nodes, later, policy, name, 0)
  {
  }

  lemma VolumeAdmissionSafe(
    s: Snapshot, v: VolumeRequest, records: seq<Record>, g: Grant, r: Record, admitted: set<string>)
    requires ValidSnapshot(s) && Safe(s, records, admitted)
    requires Granted(v, s.storage, records, s.policy) == Ok(g)
    requires r == VolumeRecord(r.id, r.fingerprint, r.created, g.storageNodes, g.delta, g.desired)
    ensures Safe(s, records + [r], admitted)
  {
    forall node | node in s.nodes
      ensures ComputeHolds(node, records + [r]) && PodsHold(node, records + [r])
      ensures node.name in admitted ==> DiskHolds(node, records + [r], s.policy)
    {
      Uncharged(node, records, r, s.policy);
    }
    if Delta(v) > 0 { GrantIsReplicated(v, s.storage, records, s.policy); }
    forall q, name | q in records + [r] && q.VolumeRecord? && name in q.storageNodes
      ensures Roomy(s.storage, records + [r], s.policy, name, 0)
    {
      ChargedExtend(Growth(name), records, r);
      if name in g.storageNodes {
        SameGrowth(s.storage, records, records + [r], s.policy, name, g.delta);
      } else {
        assert q in records;
        SameGrowth(s.storage, records, records + [r], s.policy, name, 0);
      }
    }
  }

  /** Deciding on a safe ledger and writing the result back gives a safe ledger. */
  lemma DecisionSafe(s: Snapshot, task: Task, records: seq<Record>, now: int, admitted: set<string>)
    requires ValidSnapshot(s) && Safe(s, records, admitted)
    ensures var d := Decide(s, task, records, now);
      d.Write? ==> Safe(s, d.rest + [d.record], admitted + AdmittedNode(d.record))
  {
    var rest := Without(records, task.identity);
    WithoutIsLighter(records, task.identity);
    LighterStaysSafe(s, rest, records, admitted);
    var d := Decide(s, task, records, now);
    if d.Write? {
      match task.request
      case ForPod(p) =>
        PodAdmissionSafe(s, p, rest, now, Selected(p, s.nodes, rest, now, s.policy).value, d.record, admitted);
      case ForVolume(v) =>
        assert admitted + {} == admitted;
        VolumeAdmissionSafe(s, v, rest, Granted(v, s.storage, rest, s.policy).value, d.record, admitted);
    }
  }

  // ----- Every run -----

  /** What a replica read under the present version is the present ledger. */
  ghost predicate Fenced(st: State) {
    forall replica :: replica in st.attempts && st.attempts[replica].seen.Some? ==>
      var seen := st.attempts[replica].seen.value.ledger;
      seen.version <= st.ledger.version && (seen.version == st.ledger.version ==> seen.value == st.ledger.value)
  }

  lemma StepFenced(s: Snapshot, st: State, e: Event)
    requires Fenced(st)
    ensures Fenced(Step(s, st, e))
  {
  }

  lemma {:induction false} RunFenced(s: Snapshot, st: State, events: seq<Event>)
    requires Fenced(st)
    ensures Fenced(Run(s, st, events))
    decreases |events|
  {
    if events != [] {
      RunFenced(s, st, events[..|events| - 1]);
      StepFenced(s, Run(s, st, events[..|events| - 1]), events[|events| - 1]);
    }
  }

  lemma StepSafe(s: Snapshot, st: State, e: Event)
    requires ValidSnapshot(s) && Fenced(st) && Safe(s, st.ledger.value, st.admitted)
    ensures Safe(s, Step(s, st, e).ledger.value, Step(s, st, e).admitted)
  {
    if e.Finish? && e.replica in st.attempts && st.attempts[e.replica].seen.Some? {
      var attempt := st.attempts[e.replica];
      var seen := attempt.seen.value;
      if seen.ledger.version == st.ledger.version {
        var kept := Pruned(s, seen.ledger.value, seen.at);
        PrunedIsLighter(s, seen.ledger.value, seen.at);
        LighterStaysSafe(s, kept, st.ledger.value, st.admitted);
        DecisionSafe(s, attempt.task, kept, e.now, st.admitted);
      }
    }
  }

  /**
   * For a fixed snapshot and any interleaving of evaluations by any number of replicas: bound plus reserved requests
   * and Pods stay within allocatable on every node, every node that admitted a Pod keeps its free-space floor, and
   * every storage node charged for a volume keeps a schedulable disk above its floor.
   */
  lemma {:induction false} RunSafe(s: Snapshot, st: State, events: seq<Event>)
    requires ValidSnapshot(s) && Fenced(st) && Safe(s, st.ledger.value, st.admitted)
    ensures Safe(s, Run(s, st, events).ledger.value, Run(s, st, events).admitted)
    decreases |events|
  {
    if events != [] {
      var before := events[..|events| - 1];
      RunSafe(s, st, before);
      RunFenced(s, st, before);
      StepSafe(s, Run(s, st, before), events[|events| - 1]);
    }
  }

  // ----- No admission is lost -----

  lemma {:induction false} PrunedKeeps(s: Snapshot, records: seq<Record>, now: int, r: Record)
    ensures r in Pruned(s, records, now) <==> r in records && !Expired(s, r, now)
    decreases |records|
  {
    if records != [] {
      var before, last := records[..|records| - 1], records[|records| - 1];
      PrunedKeeps(s, before, now, r);
      assert r in records <==> r in before || r == last;
    }
  }

  lemma {:induction false} WithoutKeeps(records: seq<Record>, id: string, r: Record)
    ensures r in Without(records, id) <==> r in records && r.id != id
    decreases |records|
  {
    if records != [] {
      var before, last := records[..|records| - 1], records[|records| - 1];
      WithoutKeeps(before, id, r);
      assert r in records <==> r in before || r == last;
    }
  }

  ghost predicate DistinctIds(records: seq<Record>) {
    forall i, j :: 0 <= i < j < |records| ==> records[i].id != records[j].id
  }

  lemma {:induction false} PrunedDistinct(s: Snapshot, records: seq<Record>, now: int)
    requires DistinctIds(records)
    ensures DistinctIds(Pruned(s, records, now))
    decreases |records|
  {
    if records != [] {
      var before, last := records[..|records| - 1], records[|records| - 1];
      PrunedDistinct(s, before, now);
      forall r | r in Pruned(s, before, now) ensures r.id != last.id { PrunedKeeps(s, before, now, r); }
    }
  }

  lemma {:induction false} WithoutDistinct(records: seq<Record>, id: string)
    requires DistinctIds(records)
    ensures DistinctIds(Without(records, id))
    decreases |records|
  {
    if records != [] {
      var before, last := records[..|records| - 1], records[|records| - 1];
      WithoutDistinct(before, id);
      forall r | r in Without(before, id) ensures r.id != last.id { WithoutKeeps(before, id, r); }
    }
  }

  lemma DecisionDistinct(s: Snapshot, task: Task, records: seq<Record>, now: int)
    requires DistinctIds(records)
    ensures var d := Decide(s, task, records, now);
      d.Write? ==> d.record.id == task.identity && DistinctIds(d.rest + [d.record])
  {
    WithoutDistinct(records, task.identity);
    forall r | r in Without(records, task.identity) ensures r.id != task.identity {
      WithoutKeeps(records, task.identity, r);
    }
  }

  lemma StepDistinct(s: Snapshot, st: State, e: Event)
    requires Fenced(st) && DistinctIds(st.ledger.value)
    ensures DistinctIds(Step(s, st, e).ledger.value)
  {
    if e.Finish? && e.replica in st.attempts && st.attempts[e.replica].seen.Some? {
      var attempt := st.attempts[e.replica];
      var seen := attempt.seen.value;
      if seen.ledger.version == st.ledger.version {
        PrunedDistinct(s, seen.ledger.value, seen.at);
        DecisionDistinct(s, attempt.task, Pruned(s, seen.ledger.value, seen.at), e.now);
      }
    }
  }

  /** The ledger never holds two reservations for one request. */
  lemma {:induction false} RunKeepsOnePerRequest(s: Snapshot, st: State, events: seq<Event>)
    requires Fenced(st) && DistinctIds(st.ledger.value)
    ensures DistinctIds(Run(s, st, events).ledger.value)
    decreases |events|
  {
    if events != [] {
      var before := events[..|events| - 1];
      RunKeepsOnePerRequest(s, st, before);
      RunFenced(s, st, before);
      StepDistinct(s, Run(s, st, before), events[|events| - 1]);
    }
  }

  /** A request that was just admitted is answered from the ledger, and changes nothing, when it is repeated. */
  lemma RepeatIsAnswered(s: Snapshot, task: Task, records: seq<Record>, now: int, later: int)
    requires Decide(s, task, records, now).Write?
    ensures var d := Decide(s, task, records, now); Decide(s, task, d.rest + [d.record], later).Answer?
  {
    var d := Decide(s, task, records, now);
    assert d.record.id == task.identity && d.record.fingerprint == task.fingerprint;
    assert Find(d.rest + [d.record], task.identity) == Some(d.record);
  }

  /** The step is one that may remove the reservation: it read it as expired, or re-evaluates its own request. */
  predicate MayRemove(s: Snapshot, st: State, e: Event, r: Record) {
    && e.Finish? && e.replica in st.attempts && st.attempts[e.replica].seen.Some?
    && var attempt := st.attempts[e.replica];
       Expired(s, r, attempt.seen.value.at) || attempt.task.identity == r.id
  }

  lemma StepKeepsAdmission(s: Snapshot, st: State, e: Event, r: Record)
    requires Fenced(st) && r in st.ledger.value && !MayRemove(s, st, e, r)
    ensures r in Step(s, st, e).ledger.value
  {
    if e.Finish? && e.replica in st.attempts && st.attempts[e.replica].seen.Some? {
      var attempt := st.attempts[e.replica];
      var seen := attempt.seen.value;
      PrunedKeeps(s, seen.ledger.value, seen.at, r);
      WithoutKeeps(Pruned(s, seen.ledger.value, seen.at), attempt.task.identity, r);
    }
  }

  /** A reservation once in the ledger stays there until its own prune rule applies or its request is replaced. */
  lemma {:induction false} RunKeepsAdmission(s: Snapshot, st: State, events: seq<Event>, k: nat, r: Record)
    requires Fenced(st) && k <= |events|
    requires r in Run(s, st, events[..k]).ledger.value
    requires forall i :: k <= i < |events| ==> !MayRemove(s, Run(s, st, events[..i]), events[i], r)
    ensures r in Run(s, st, events).ledger.value
    decreases |events|
  {
    if k == |events| {
      assert events[..k] == events;
    } else {
      var n := |events| - 1;
      var before := events[..n];
      assert before[..k] == events[..k];
      forall i | k <= i < n ensures !MayRemove(s, Run(s, st, before[..i]), before[i], r) {
        assert before[..i] == events[..i];
      }
      RunKeepsAdmission(s, st, before, k, r);
      RunFenced(s, st, before);
      StepKeepsAdmission(s, Run(s, st, before), events[n], r);
    }
  }
}
