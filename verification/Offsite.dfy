/**
 * The offsite backup store: content-addressed objects, committed catalogs, restore leases, retention and
 * garbage collection. An operation is the list of PUT and DELETE requests it issues; it may stop after any
 * of them, and the lease requests of concurrent restores may fall between any two.
 *
 * The digest function is a parameter, and is taken to be injective only where contents are compared.
 */
module Offsite {
  import opened Wrappers
  import opened Orderings

  const MAX_OBJECT := 64 * 1024 * 1024
  const GRACE_SECONDS := 2 * 86400
  const RESTORE_LEASE_SECONDS := 180

  type Bytes = seq<bv8>
  type Digest = string
  type Hash = Bytes -> Digest

  datatype Object = Object(body: Bytes, modified: int)
  datatype Entry = Entry(key: string, size: nat, digest: Digest)
  datatype Catalog = Catalog(createdAt: int, entries: seq<Entry>)
  datatype RestoreLease = RestoreLease(catalogName: string, expiresAt: int)

  datatype Store = Store(
    objects: map<Digest, Object>, catalogs: map<string, Catalog>, leases: map<string, RestoreLease>)

  datatype Request =
    | PutObject(digest: Digest, blob: Object)
    | PutCatalog(name: string, catalog: Catalog)
    | PutLease(name: string, lease: RestoreLease)
    | DeleteObject(digest: Digest)
    | DeleteCatalog(name: string)
    | DeleteLease(name: string)

  const EMPTY := Store(map[], map[], map[])

  function Apply(s: Store, r: Request): Store {
    match r
    case PutObject(digest, blob) => s.(objects := s.objects[digest := blob])
    case PutCatalog(name, catalog) => s.(catalogs := s.catalogs[name := catalog])
    case PutLease(name, lease) => s.(leases := s.leases[name := lease])
    case DeleteObject(digest) => s.(objects := s.objects - {digest})
    case DeleteCatalog(name) => s.(catalogs := s.catalogs - {name})
    case DeleteLease(name) => s.(leases := s.leases - {name})
  }

  function ApplyAll(s: Store, requests: seq<Request>): Store
    decreases |requests|
  {
    if requests == [] then s else Apply(ApplyAll(s, requests[..|requests| - 1]), requests[|requests| - 1])
  }

  lemma {:induction false} ApplyAllConcat(s: Store, first: seq<Request>, second: seq<Request>)
    ensures ApplyAll(s, first + second) == ApplyAll(ApplyAll(s, first), second)
    decreases |second|
  {
    if second == [] {
      assert first + second == first;
    } else {
      var n := |second| - 1;
      assert (first + second)[..|first| + n] == first + second[..n];
      ApplyAllConcat(s, first, second[..n]);
    }
  }

  // ----- What a committed catalog promises -----

  /** The stored object has the content the entry names. */
  ghost predicate Stored(h: Hash, s: Store, e: Entry) {
    e.digest in s.objects && h(s.objects[e.digest].body) == e.digest
  }

  ghost predicate Complete(h: Hash, s: Store) {
    forall name <- s.catalogs :: forall e <- s.catalogs[name].entries :: Stored(h, s, e)
  }

  // ----- Copying a generation -----

  datatype Limits = Limits(maxBytes: nat, maxDestinationBytes: nat)

  /** A listed source object with the body the subsequent GET returned, if it returned one. */
  datatype SourceItem = SourceItem(key: string, size: nat, body: Option<Bytes>)

  datatype Copying = Copying(
    objects: map<Digest, Object>, existing: set<Digest>, destinationBytes: nat, total: nat,
    records: seq<Entry>, requests: seq<Request>, failed: bool)

  function InventoryBytes(objects: map<Digest, Object>, inventory: seq<Digest>): nat {
    if inventory == [] then 0
    else (if inventory[0] in objects then |objects[inventory[0]].body| else 0) + InventoryBytes(objects, inventory[1..])
  }

  function CopyStart(s: Store, inventory: seq<Digest>): Copying {
    Copying(s.objects, (set d | d in inventory), InventoryBytes(s.objects, inventory), 0, [], [], false)
  }

  function CopyItem(h: Hash, limits: Limits, now: int, c: Copying, item: SourceItem): Copying {
    if c.failed then c
    else if item.size > MAX_OBJECT || c.total + item.size > limits.maxBytes then c.(failed := true)
    else if item.body.None? || |item.body.value| != item.size then c.(failed := true)
    else
      var body := item.body.value;
      var digest := h(body);
      if digest !in c.existing && c.destinationBytes + |body| > limits.maxDestinationBytes then c.(failed := true)
      else
        var c' :=
          if digest in c.existing then c
          else c.(objects := c.objects[digest := Object(body, now)], existing := c.existing + {digest},
                  destinationBytes := c.destinationBytes + |body|,
                  requests := c.requests + [PutObject(digest, Object(body, now))]);
        if digest !in c'.objects || h(c'.objects[digest].body) != digest then c'.(failed := true)
        else c'.(total := c.total + item.size, records := c'.records + [Entry(item.key, |body|, digest)])
  }

  function CopyItems(h: Hash, limits: Limits, now: int, c: Copying, items: seq<SourceItem>): Copying
    decreases |items|
  {
    if items == [] then c
    else CopyItem(h, limits, now, CopyItems(h, limits, now, c, items[..|items| - 1]), items[|items| - 1])
  }

  /** The requests of one copy: new objects one by one, and the catalog only when every record is verified. */
  function CopyPlan(
    h: Hash, limits: Limits, now: int, s: Store, inventory: seq<Digest>, items: seq<SourceItem>, name: string)
    : seq<Request>
  {
    Commit(CopyItems(h, limits, now, CopyStart(s, inventory), items), now, name)
  }

  function Commit(c: Copying, now: int, name: string): seq<Request> {
    if c.failed then c.requests else c.requests + [PutCatalog(name, Catalog(now, c.records))]
  }

  /** Along a copy: what was requested is what the copy sees, and every record is already backed by content. */
  ghost predicate CopyOk(h: Hash, s: Store, c: Copying) {
    && ApplyAll(s, c.requests) == s.(objects := c.objects)
    && (forall r <- c.requests :: r.PutObject? && h(r.blob.body) == r.digest)
    && (forall e <- c.records :: Stored(h, s.(objects := c.objects), e))
  }

  lemma CopyItemOk(h: Hash, limits: Limits, now: int, s: Store, c: Copying, item: SourceItem)
    requires CopyOk(h, s, c)
    ensures CopyOk(h, s, CopyItem(h, limits, now, c, item))
  {
    if item.body.Some? {
      var put := PutObject(h(item.body.value), Object(item.body.value, now));
      assert (c.requests + [put])[..|c.requests|] == c.requests;
    }
  }

  lemma {:induction false} CopyItemsOk(
    h: Hash, limits: Limits, now: int, s: Store, inventory: seq<Digest>, items: seq<SourceItem>)
    ensures CopyOk(h, s, CopyItems(h, limits, now, CopyStart(s, inventory), items))
    decreases |items|
  {
    if items != [] {
      CopyItemsOk(h, limits, now, s, inventory, items[..|items| - 1]);
      var before := CopyItems(h, limits, now, CopyStart(s, inventory), items[..|items| - 1]);
      CopyItemOk(h, limits, now, s, before, items[|items| - 1]);
    }
  }

  lemma {:induction false} PutsKeepComplete(h: Hash, s: Store, requests: seq<Request>)
    requires Complete(h, s) && forall r <- requests :: r.PutObject? && h(r.blob.body) == r.digest
    ensures Complete(h, ApplyAll(s, requests)) && ApplyAll(s, requests).catalogs == s.catalogs
    decreases |requests|
  {
    if requests != [] {
      PutsKeepComplete(h, s, requests[..|requests| - 1]);
    }
  }

  lemma CommitKeepsComplete(h: Hash, s: Store, c: Copying, now: int, name: string, k: nat)
    requires Complete(h, s) && CopyOk(h, s, c) && k <= |Commit(c, now, name)|
    ensures Complete(h, ApplyAll(s, Commit(c, now, name)[..k]))
  {
    var plan := Commit(c, now, name);
    if k <= |c.requests| {
      assert plan[..k] == c.requests[..k];
      PutsKeepComplete(h, s, c.requests[..k]);
    } else {
      assert plan[..k] == plan && plan[..|c.requests|] == c.requests;
      PutsKeepComplete(h, s, c.requests);
    }
  }

  /** However many of its requests a copy gets through, the store is complete. */
  lemma CopyKeepsComplete(
    h: Hash, limits: Limits, now: int, s: Store, inventory: seq<Digest>, items: seq<SourceItem>, name: string, k: nat)
    requires Complete(h, s)
    requires k <= |CopyPlan(h, limits, now, s, inventory, items, name)|
    ensures Complete(h, ApplyAll(s, CopyPlan(h, limits, now, s, inventory, items, name)[..k]))
  {
    CopyItemsOk(h, limits, now, s, inventory, items);
    CommitKeepsComplete(h, s, CopyItems(h, limits, now, CopyStart(s, inventory), items), now, name, k);
  }

  // ----- Pruning -----

  function CatalogKey(s: Store, name: string): seq<int> {
    [if name in s.catalogs then s.catalogs[name].createdAt else 0] + NameKey(name)
  }

  /** The catalogs from oldest to newest. */
  function OldestFirst(s: Store, names: seq<string>): seq<string> {
    Sort(names, (name: string) => CatalogKey(s, name))
  }

  /** A listed lease and what the GET that followed returned; restores may have changed it since. */
  datatype LeaseReading = LeaseReading(name: string, lease: RestoreLease)

  function LeaseDeletes(leases: seq<LeaseReading>, now: int): seq<Request>
    decreases |leases|
  {
    if leases == [] then [] else
    var reading := leases[|leases| - 1];
    LeaseDeletes(leases[..|leases| - 1], now)
    + if reading.lease.expiresAt <= now then [DeleteLease(reading.name)] else []
  }

  /** Catalogs named by a listed lease that had not run out when it was read. */
  function Active(leases: seq<LeaseReading>, now: int): set<string> {
    set reading <- leases | reading.lease.expiresAt > now :: reading.lease.catalogName
  }

  predicate Kept(order: seq<string>, keep: nat, active: set<string>, i: nat)
    requires i < |order|
  {
    |order| - 1 - i < keep || order[i] in active
  }

  /** Newest first, as the loop visits them: the DELETE requests for the catalogs order[..n]. */
  function CatalogDeletes(order: seq<string>, keep: nat, active: set<string>, n: nat): seq<Request>
    requires n <= |order|
  {
    if n == 0 then []
    else (if Kept(order, keep, active, n - 1) then [] else [DeleteCatalog(order[n - 1])])
         + CatalogDeletes(order, keep, active, n - 1)
  }

  /** Digests of every retained catalog. */
  function Live(s: Store, order: seq<string>, keep: nat, active: set<string>): set<Digest> {
    set i, e | 0 <= i < |order| && Kept(order, keep, active, i) && order[i] in s.catalogs
      && e in s.catalogs[order[i]].entries
      :: e.digest
  }

  predicate Collectable(s: Store, d: Digest, live: set<Digest>, now: int) {
    d !in live && d in s.objects && now - s.objects[d].modified > GRACE_SECONDS
  }

  function ObjectDeletes(s: Store, digests: seq<Digest>, live: set<Digest>, now: int): seq<Request>
    decreases |digests|
  {
    if digests == [] then [] else
    var d := digests[|digests| - 1];
    ObjectDeletes(s, digests[..|digests| - 1], live, now)
    + if Collectable(s, d, live, now) then [DeleteObject(d)] else []
  }

  /** What S3 lists when a prune runs. */
  datatype Listing = Listing(leases: seq<LeaseReading>, catalogs: seq<string>, objects: seq<Digest>)

  /** Exports are serialized, so catalogs and objects are as listed; leases may change while they are read. */
  ghost predicate Lists(l: Listing, s: Store) {
    && (forall x :: x in l.catalogs <==> x in s.catalogs)
    && (forall x :: x in l.objects <==> x in s.objects)
    && (forall i, k | 0 <= i < k < |l.catalogs| :: l.catalogs[i] != l.catalogs[k])
  }

  /** The first two phases of a prune, and the objects a retained catalog needs. */
  function PruneHead(s: Store, l: Listing, keep: nat, now: int): seq<Request> {
    var order := OldestFirst(s, l.catalogs);
    LeaseDeletes(l.leases, now) + CatalogDeletes(order, keep, Active(l.leases, now), |order|)
  }

  function PruneLive(s: Store, l: Listing, keep: nat, now: int): set<Digest> {
    Live(s, OldestFirst(s, l.catalogs), keep, Active(l.leases, now))
  }

  function PrunePlan(s: Store, l: Listing, keep: nat, now: int): seq<Request> {
    if keep < 2 then []
    else PruneHead(s, l, keep, now) + ObjectDeletes(s, l.objects, PruneLive(s, l, keep, now), now)
  }

  lemma {:induction false} LeaseDeletesOnly(leases: seq<LeaseReading>, now: int)
    ensures forall r <- LeaseDeletes(leases, now) :: r.DeleteLease?
    decreases |leases|
  {
    if leases != [] { LeaseDeletesOnly(leases[..|leases| - 1], now); }
  }

  lemma {:induction false} CatalogDeletesExact(order: seq<string>, keep: nat, active: set<string>, n: nat)
    requires n <= |order|
    ensures forall r <- CatalogDeletes(order, keep, active, n) :: r.DeleteCatalog?
    ensures forall i | 0 <= i < n :: !Kept(order, keep, active, i) ==>
      DeleteCatalog(order[i]) in CatalogDeletes(order, keep, active, n)
    ensures forall r <- CatalogDeletes(order, keep, active, n) :: exists i | 0 <= i < n ::
      r == DeleteCatalog(order[i]) && !Kept(order, keep, active, i)
  {
    if n > 0 { CatalogDeletesExact(order, keep, active, n - 1); }
  }

  lemma {:induction false} ObjectDeletesSpareLive(s: Store, digests: seq<Digest>, live: set<Digest>, now: int)
    ensures forall r <- ObjectDeletes(s, digests, live, now) :: r.DeleteObject? && r.digest !in live
    decreases |digests|
  {
    if digests != [] { ObjectDeletesSpareLive(s, digests[..|digests| - 1], live, now); }
  }

  lemma {:induction false} DeletesKeepComplete(h: Hash, s: Store, requests: seq<Request>, live: set<Digest>)
    requires Complete(h, s)
    requires forall r <- requests :: r.DeleteLease? || r.DeleteCatalog? || (r.DeleteObject? && r.digest !in live)
    requires (exists r <- requests :: r.DeleteObject?) ==>
      forall name <- s.catalogs :: forall e <- s.catalogs[name].entries :: e.digest in live
    ensures Complete(h, ApplyAll(s, requests))
    ensures forall name <- ApplyAll(s, requests).catalogs ::
      name in s.catalogs && ApplyAll(s, requests).catalogs[name] == s.catalogs[name]
    decreases |requests|
  {
    if requests != [] {
      var last := requests[|requests| - 1];
      assert last in requests && requests == requests[..|requests| - 1] + [last];
      DeletesKeepComplete(h, s, requests[..|requests| - 1], live);
    }
  }

  lemma {:induction false} DeletedCatalogsGone(s: Store, requests: seq<Request>, name: string)
    requires forall r <- requests :: r.DeleteLease? || r.DeleteCatalog?
    ensures DeleteCatalog(name) in requests ==> name !in ApplyAll(s, requests).catalogs
    ensures DeleteCatalog(name) !in requests && name in s.catalogs ==> name in ApplyAll(s, requests).catalogs
    ensures name in ApplyAll(s, requests).catalogs ==>
      name in s.catalogs && ApplyAll(s, requests).catalogs[name] == s.catalogs[name]
    decreases |requests|
  {
    if requests != [] {
      var last := requests[|requests| - 1];
      assert last in requests && requests == requests[..|requests| - 1] + [last];
      DeletedCatalogsGone(s, requests[..|requests| - 1], name);
    }
  }

  /** What is left in `s` after the catalog phase of a prune is exactly the retained catalogs. */
  lemma CatalogPhaseLeavesRetained(s: Store, l: Listing, keep: nat, now: int, name: string)
    requires Lists(l, s) && keep >= 2
    ensures var active := Active(l.leases, now);
      var order := OldestFirst(s, l.catalogs);
      var after := ApplyAll(s, LeaseDeletes(l.leases, now) + CatalogDeletes(order, keep, active, |order|));
      && (name in after.catalogs <==> exists i | 0 <= i < |order| :: order[i] == name && Kept(order, keep, active, i))
      && (name in after.catalogs ==> name in s.catalogs && after.catalogs[name] == s.catalogs[name])
  {
    var active := Active(l.leases, now);
    var order := OldestFirst(s, l.catalogs);
    var first := LeaseDeletes(l.leases, now);
    var second := CatalogDeletes(order, keep, active, |order|);
    LeaseDeletesOnly(l.leases, now);
    CatalogDeletesExact(order, keep, active, |order|);
    DeletedCatalogsGone(s, first + second, name);
    OrderIsExact(s, l.catalogs);
    if name in s.catalogs {
      var i :| 0 <= i < |order| && order[i] == name;
      KeptIffSpared(order, keep, active, i);
    }
  }

  lemma KeptIffSpared(order: seq<string>, keep: nat, active: set<string>, i: nat)
    requires i < |order| && forall j, k | 0 <= j < k < |order| :: order[j] != order[k]
    ensures Kept(order, keep, active, i) <==> DeleteCatalog(order[i]) !in CatalogDeletes(order, keep, active, |order|)
  {
    CatalogDeletesExact(order, keep, active, |order|);
  }

  /** Sorting the listed catalogs loses and repeats none. */
  lemma OrderIsExact(s: Store, names: seq<string>)
    requires forall i, k | 0 <= i < k < |names| :: names[i] != names[k]
    ensures var order := OldestFirst(s, names);
      && |order| == |names| && (forall x :: x in order <==> x in names)
      && (forall i, k | 0 <= i < k < |order| :: order[i] != order[k])
      && SortedBy(order, (name: string) => CatalogKey(s, name))
  {
    var key := (name: string) => CatalogKey(s, name);
    SortSorts(names, key);
    SortKeepsElements(names, key);
    DistinctKept(names, Sort(names, key));
  }

  lemma PruneHeadDeletes(s: Store, l: Listing, keep: nat, now: int)
    ensures forall r <- PruneHead(s, l, keep, now) :: r.DeleteLease? || r.DeleteCatalog?
  {
    LeaseDeletesOnly(l.leases, now);
    var order := OldestFirst(s, l.catalogs);
    CatalogDeletesExact(order, keep, Active(l.leases, now), |order|);
  }

  lemma RetainedAreLive(s: Store, l: Listing, keep: nat, now: int)
    requires Lists(l, s) && keep >= 2
    ensures var middle := ApplyAll(s, PruneHead(s, l, keep, now));
      forall name <- middle.catalogs :: forall e <- middle.catalogs[name].entries ::
        e.digest in PruneLive(s, l, keep, now)
  {
    var middle := ApplyAll(s, PruneHead(s, l, keep, now));
    forall name <- middle.catalogs, e <- middle.catalogs[name].entries ensures e.digest in PruneLive(s, l, keep, now) {
      CatalogPhaseLeavesRetained(s, l, keep, now, name);
    }
  }

  /** Deleting leases and catalogs first, and then only objects no remaining catalog lists, keeps the store complete. */
  lemma TwoPhaseDeletesKeepComplete(
    h: Hash, s: Store, head: seq<Request>, tail: seq<Request>, live: set<Digest>, k: nat)
    requires Complete(h, s) && k <= |head + tail|
    requires forall r <- head :: r.DeleteLease? || r.DeleteCatalog?
    requires forall r <- tail :: r.DeleteObject? && r.digest !in live
    requires var middle := ApplyAll(s, head);
      forall name <- middle.catalogs :: forall e <- middle.catalogs[name].entries :: e.digest in live
    ensures Complete(h, ApplyAll(s, (head + tail)[..k]))
  {
    if k <= |head| {
      assert (head + tail)[..k] == head[..k];
      assert forall r <- head[..k] :: r in head;
      DeletesKeepComplete(h, s, head[..k], {});
    } else {
      assert (head + tail)[..k] == head + tail[..k - |head|];
      DeletesKeepComplete(h, s, head, {});
      ApplyAllConcat(s, head, tail[..k - |head|]);
      DeletesKeepComplete(h, ApplyAll(s, head), tail[..k - |head|], live);
    }
  }

  /** However many of its requests a prune gets through, the store is complete. */
  lemma PruneKeepsComplete(h: Hash, s: Store, l: Listing, keep: nat, now: int, k: nat)
    requires Complete(h, s) && Lists(l, s) && k <= |PrunePlan(s, l, keep, now)|
    ensures Complete(h, ApplyAll(s, PrunePlan(s, l, keep, now)[..k]))
  {
    if keep >= 2 {
      var live := PruneLive(s, l, keep, now);
      PruneHeadDeletes(s, l, keep, now);
      RetainedAreLive(s, l, keep, now);
      ObjectDeletesSpareLive(s, l.objects, live, now);
      TwoPhaseDeletesKeepComplete(h, s, PruneHead(s, l, keep, now), ObjectDeletes(s, l.objects, live, now), live, k);
    }
  }

  // ----- Runs -----

  /**
   * One export operation against the store. A slot of the schedule is the operation's next request (None) or
   * a lease request of a concurrent restore; a schedule that ends early is an operation that stopped there.
   */
  datatype Operation =
    | Copy(limits: Limits, now: int, inventory: seq<Digest>, items: seq<SourceItem>, name: string)
    | Prune(listing: Listing, keep: nat, now: int)

  function Plan(h: Hash, s: Store, op: Operation): seq<Request> {
    match op
    case Copy(limits, now, inventory, items, name) => CopyPlan(h, limits, now, s, inventory, items, name)
    case Prune(listing, keep, now) => PrunePlan(s, listing, keep, now)
  }

  ghost predicate Honest(s: Store, op: Operation) {
    op.Prune? ==> Lists(op.listing, s)
  }

  predicate IsLeaseRequest(r: Request) {
    r.PutLease? || r.DeleteLease?
  }

  function Execute(s: Store, plan: seq<Request>, schedule: seq<Option<Request>>): Store
    decreases |schedule|
  {
    if schedule == [] then s
    else match schedule[0]
      case None => if plan == [] then s else Execute(Apply(s, plan[0]), plan[1..], schedule[1..])
      case Some(r) => Execute(if IsLeaseRequest(r) then Apply(s, r) else s, plan, schedule[1..])
  }

  ghost predicate SameCore(s: Store, t: Store) {
    s.objects == t.objects && s.catalogs == t.catalogs
  }

  lemma CoreStep(s: Store, t: Store, done: seq<Request>, r: Request)
    requires SameCore(s, ApplyAll(t, done))
    ensures SameCore(Apply(s, r), ApplyAll(t, done + [r]))
  {
    assert (done + [r])[..|done|] == done;
  }

  /** Whatever restores do to leases, an interleaved execution leaves the objects and catalogs of a plan prefix. */
  lemma {:induction false} ExecutionIsAPrefix(
    s: Store, t: Store, done: seq<Request>, plan: seq<Request>, schedule: seq<Option<Request>>)
    returns (k: nat)
    requires SameCore(s, ApplyAll(t, done))
    ensures |done| <= k <= |done + plan| && SameCore(Execute(s, plan, schedule), ApplyAll(t, (done + plan)[..k]))
    decreases |schedule|
  {
    if schedule == [] || (schedule[0].None? && plan == []) {
      k := |done|;
      assert (done + plan)[..k] == done;
    } else if schedule[0].None? {
      CoreStep(s, t, done, plan[0]);
      k := ExecutionIsAPrefix(Apply(s, plan[0]), t, done + [plan[0]], plan[1..], schedule[1..]);
      assert done + plan == done + [plan[0]] + plan[1..];
    } else {
      var s' := if IsLeaseRequest(schedule[0].value) then Apply(s, schedule[0].value) else s;
      assert SameCore(s', s);
      k := ExecutionIsAPrefix(s', t, done, plan, schedule[1..]);
    }
  }

  lemma OperationKeepsComplete(h: Hash, s: Store, op: Operation, schedule: seq<Option<Request>>)
    requires Complete(h, s) && Honest(s, op)
    ensures Complete(h, Execute(s, Plan(h, s, op), schedule))
  {
    var plan := Plan(h, s, op);
    var k := ExecutionIsAPrefix(s, s, [], plan, schedule);
    assert [] + plan == plan;
    match op
    case Copy(limits, now, inventory, items, name) => CopyKeepsComplete(h, limits, now, s, inventory, items, name, k);
    case Prune(listing, keep, now) => PruneKeepsComplete(h, s, listing, keep, now, k);
  }

  datatype Job = Job(op: Operation, schedule: seq<Option<Request>>)

  function Run(h: Hash, s: Store, jobs: seq<Job>): Store
    decreases |jobs|
  {
    if jobs == [] then s else
    var before := Run(h, s, jobs[..|jobs| - 1]);
    var job := jobs[|jobs| - 1];
    Execute(before, Plan(h, before, job.op), job.schedule)
  }

  ghost predicate AllHonest(h: Hash, s: Store, jobs: seq<Job>) {
    forall k | 0 <= k < |jobs| :: Honest(Run(h, s, jobs[..k]), jobs[k].op)
  }

  /** From an empty store, every catalog is complete after every request of every sequence of interrupted operations. */
  lemma {:induction false} RunKeepsCatalogsComplete(h: Hash, jobs: seq<Job>)
    requires AllHonest(h, EMPTY, jobs)
    ensures Complete(h, Run(h, EMPTY, jobs))
    decreases |jobs|
  {
    if jobs != [] {
      var n := |jobs| - 1;
      assert forall k | 0 <= k < n :: jobs[..n][..k] == jobs[..k];
      RunKeepsCatalogsComplete(h, jobs[..n]);
      OperationKeepsComplete(h, Run(h, EMPTY, jobs[..n]), jobs[n].op, jobs[n].schedule);
    }
  }

  // ----- Retention -----

  lemma DeletedWasNotKept(s: Store, l: Listing, keep: nat, now: int, k: nat, name: string) returns (i: nat)
    requires k <= |PrunePlan(s, l, keep, now)|
    requires name in s.catalogs && name !in ApplyAll(s, PrunePlan(s, l, keep, now)[..k]).catalogs
    ensures keep >= 2
    ensures var order := OldestFirst(s, l.catalogs);
      i < |order| && order[i] == name && !Kept(order, keep, Active(l.leases, now), i)
  {
    var active, order := Active(l.leases, now), OldestFirst(s, l.catalogs);
    OnlyDeletesRemove(s, PrunePlan(s, l, keep, now)[..k], name);
    assert DeleteCatalog(name) in PrunePlan(s, l, keep, now);
    ObjectDeletesSpareLive(s, l.objects, PruneLive(s, l, keep, now), now);
    LeaseDeletesOnly(l.leases, now);
    assert DeleteCatalog(name) in CatalogDeletes(order, keep, active, |order|);
    CatalogDeletesExact(order, keep, active, |order|);
    i :| 0 <= i < |order| && DeleteCatalog(name) == DeleteCatalog(order[i]) && !Kept(order, keep, active, i);
  }

  /** A pruned catalog is outnumbered by `keep` newer ones, and no unexpired listed lease names it. */
  lemma PruneSparesNewestAndLeased(s: Store, l: Listing, keep: nat, now: int, k: nat, name: string)
    returns (newer: seq<string>)
    requires Lists(l, s) && k <= |PrunePlan(s, l, keep, now)|
    requires name in s.catalogs && name !in ApplyAll(s, PrunePlan(s, l, keep, now)[..k]).catalogs
    ensures keep >= 2 && |newer| == keep
    ensures forall i, j | 0 <= i < j < keep :: newer[i] != newer[j]
    ensures forall n <- newer :: n in s.catalogs && n != name && LexLeq(CatalogKey(s, name), CatalogKey(s, n))
    ensures forall reading <- l.leases :: reading.lease.catalogName == name ==> reading.lease.expiresAt <= now
  {
    var i := DeletedWasNotKept(s, l, keep, now, k, name);
    OrderIsExact(s, l.catalogs);
    newer := NewestSuffix(s, OldestFirst(s, l.catalogs), keep, i);
  }

  lemma NewestSuffix(s: Store, order: seq<string>, keep: nat, i: nat) returns (newer: seq<string>)
    requires keep <= |order| && i < |order| - keep && (forall n <- order :: n in s.catalogs)
    requires forall j, k | 0 <= j < k < |order| ::
      order[j] != order[k] && LexLeq(CatalogKey(s, order[j]), CatalogKey(s, order[k]))
    ensures |newer| == keep
    ensures forall j, k | 0 <= j < k < keep :: newer[j] != newer[k]
    ensures forall n <- newer ::
      n in s.catalogs && n != order[i] && LexLeq(CatalogKey(s, order[i]), CatalogKey(s, n))
  {
    newer := order[|order| - keep..];
    forall n <- newer ensures n in s.catalogs && n != order[i] && LexLeq(CatalogKey(s, order[i]), CatalogKey(s, n)) {
      var j :| |order| - keep <= j < |order| && order[j] == n;
      assert order[j] in order;
    }
  }

  lemma {:induction false} OnlyDeletesRemove(s: Store, requests: seq<Request>, name: string)
    requires name in s.catalogs && name !in ApplyAll(s, requests).catalogs
    ensures DeleteCatalog(name) in requests
    decreases |requests|
  {
    if requests != [] && requests[|requests| - 1] != DeleteCatalog(name) {
      OnlyDeletesRemove(s, requests[..|requests| - 1], name);
    }
  }

  // ----- Restoring -----

  ghost predicate Injective(h: Hash) {
    forall x, y :: h(x) == h(y) ==> x == y
  }

  /** What the source listing and the GETs of one copy returned; a key listed twice keeps its later body. */
  function SourceContents(items: seq<SourceItem>): map<string, Bytes>
    decreases |items|
  {
    if items == [] then map[] else
    var n := |items| - 1;
    var before := SourceContents(items[..n]);
    if items[n].body.Some? then before[items[n].key := items[n].body.value] else before
  }

  /** The checks a restore makes on the object it reads for an entry. */
  predicate Readable(h: Hash, view: Store, e: Entry) {
    && e.digest in view.objects
    && |view.objects[e.digest].body| == e.size
    && h(view.objects[e.digest].body) == e.digest
  }

  /** The bucket a restore fills from the store as it finds it at each read. */
  function Materialized(entries: seq<Entry>, views: seq<Store>): map<string, Bytes>
    requires |views| == |entries|
    decreases |entries|
  {
    if entries == [] then map[] else
    var n := |entries| - 1;
    var before := Materialized(entries[..n], views[..n]);
    if entries[n].digest in views[n].objects
    then before[entries[n].key := views[n].objects[entries[n].digest].body] else before
  }

  /** Restores into an empty bucket; any unreadable object stops it. */
  method RestoreGeneration(h: Hash, catalog: Catalog, views: seq<Store>, bucket: map<string, Bytes>)
    returns (restored: Option<map<string, Bytes>>)
    requires |views| == |catalog.entries|
    ensures restored.Some? <==>
      bucket == map[] && forall i | 0 <= i < |views| :: Readable(h, views[i], catalog.entries[i])
    ensures restored.Some? ==> restored.value == Materialized(catalog.entries, views)
  {
    if bucket != map[] { return None; }
    var filled := bucket;
    var entries := catalog.entries;
    for i := 0 to |entries|
      invariant forall k | 0 <= k < i :: Readable(h, views[k], entries[k])
      invariant filled == Materialized(entries[..i], views[..i])
    {
      var e := entries[i];
      if e.digest !in views[i].objects { return None; }
      var body := views[i].objects[e.digest].body;
      if |body| != e.size || h(body) != e.digest { return None; }
      filled := filled[e.key := body];
      assert entries[..i + 1][..i] == entries[..i] && views[..i + 1][..i] == views[..i];
    }
    assert entries[..|entries|] == entries && views[..|views|] == views;
    return Some(filled);
  }

  /** A copy that did not fail recorded every item it was given, in order. */
  lemma {:induction false} CopyRecordsItems(
    h: Hash, limits: Limits, now: int, s: Store, inventory: seq<Digest>, items: seq<SourceItem>)
    ensures var c := CopyItems(h, limits, now, CopyStart(s, inventory), items);
      !c.failed ==>
        && |c.records| == |items|
        && forall i | 0 <= i < |items| ::
             items[i].body.Some? && c.records[i] == Entry(items[i].key, |items[i].body.value|, h(items[i].body.value))
    decreases |items|
  {
    if items != [] { CopyRecordsItems(h, limits, now, s, inventory, items[..|items| - 1]); }
  }

  lemma {:induction false} ReadableMeansSameBodies(
    h: Hash, items: seq<SourceItem>, entries: seq<Entry>, views: seq<Store>)
    requires Injective(h) && |items| == |entries| == |views|
    requires forall i | 0 <= i < |items| ::
      && items[i].body.Some? && entries[i] == Entry(items[i].key, |items[i].body.value|, h(items[i].body.value))
      && Readable(h, views[i], entries[i])
    ensures Materialized(entries, views) == SourceContents(items)
    decreases |items|
  {
    if items != [] {
      var n := |items| - 1;
      ReadableMeansSameBodies(h, items[..n], entries[..n], views[..n]);
      assert h(views[n].objects[entries[n].digest].body) == h(items[n].body.value);
    }
  }

  ghost predicate ReachableStore(h: Hash, s: Store) {
    exists jobs :: AllHonest(h, EMPTY, jobs) && Run(h, EMPTY, jobs) == s
  }

  /**
   * A catalog committed by a copy restores to exactly what that copy read from the source: at each read the store
   * may be any store reachable by copies, prunes and restores, as long as it still holds the catalog.
   */
  lemma RestoreReproducesSource(
    h: Hash, limits: Limits, now: int, s: Store, inventory: seq<Digest>, items: seq<SourceItem>, name: string,
    views: seq<Store>)
    requires Injective(h)
    requires !CopyItems(h, limits, now, CopyStart(s, inventory), items).failed
    requires var entries := CopyItems(h, limits, now, CopyStart(s, inventory), items).records;
      && |views| == |entries|
      && forall v <- views :: ReachableStore(h, v) && name in v.catalogs && v.catalogs[name] == Catalog(now, entries)
    ensures var entries := CopyItems(h, limits, now, CopyStart(s, inventory), items).records;
      && (forall i | 0 <= i < |views| :: Readable(h, views[i], entries[i]))
      && Materialized(entries, views) == SourceContents(items)
  {
    var entries := CopyItems(h, limits, now, CopyStart(s, inventory), items).records;
    CopyRecordsItems(h, limits, now, s, inventory, items);
    forall i | 0 <= i < |views| ensures Readable(h, views[i], entries[i]) {
      assert views[i] in views;
      var jobs :| AllHonest(h, EMPTY, jobs) && Run(h, EMPTY, jobs) == views[i];
      RunKeepsCatalogsComplete(h, jobs);
      assert entries[i] in views[i].catalogs[name].entries;
      assert Stored(h, views[i], entries[i]);
      assert h(views[i].objects[entries[i].digest].body) == h(items[i].body.value);
    }
    ReadableMeansSameBodies(h, items, entries, views);
  }
}
