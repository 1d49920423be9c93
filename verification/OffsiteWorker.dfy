/** The export worker as loops that send one request after the other, until the connection is lost. */
module OffsiteWorker {
  import opened Wrappers
  import opened Orderings
  import opened Offsite

  class Bucket {
    var store: Store
    var budget: nat               // requests that still get through
    ghost var sent: seq<Request>  // requests that got through

    /** The bucket is what the sent requests made of `start`. */
    ghost predicate Follows(start: Store)
      reads this
    {
      store == ApplyAll(start, sent)
    }

    constructor (store: Store, budget: nat)
      ensures this.store == store && this.budget == budget && sent == [] && Follows(store)
    {
      this.store, this.budget, this.sent := store, budget, [];
    }

    method Send(r: Request) returns (ok: bool)
      modifies this
      ensures ok == (old(budget) > 0)
      ensures ok ==> budget == old(budget) - 1 && store == Apply(old(store), r) && sent == old(sent) + [r]
      ensures !ok ==> budget == 0 && store == old(store) && sent == old(sent)
    {
      ok := budget > 0;
      if ok {
        store, budget, sent := Apply(store, r), budget - 1, sent + [r];
      }
    }

    /**
     * Copies the listed source objects and commits a catalog. What got through is a prefix of the plan, the
     * whole plan when the budget allows, and the catalog is committed exactly when everything got through.
     */
    method CopyGeneration(
      h: Hash, limits: Limits, now: int, inventory: seq<Digest>, items: seq<SourceItem>, name: string)
      returns (committed: bool)
      requires sent == []
      modifies this
      ensures var plan := CopyPlan(h, limits, now, old(store), inventory, items, name);
        && sent == plan[..Min(|plan|, old(budget))]
        && Follows(old(store))
        && committed ==
          (|plan| <= old(budget) && !CopyItems(h, limits, now, CopyStart(old(store), inventory), items).failed)
    {
      ghost var start := store;
      ghost var from := CopyStart(start, inventory);
      var c := CopyStart(store, inventory);
      assert items[..0] == [];
      for i := 0 to |items|
        invariant c == CopyItems(h, limits, now, from, items[..i]) && !c.failed
        invariant Tracks(c) && Follows(start) && budget + |sent| == old(budget)
      {
        assert items[..i + 1][..i] == items[..i];
        RequestsExtend(h, limits, now, from, items, i + 1);
        var next, ok := CopyObject(h, limits, now, c, items[i]);
        if !ok { return false; }
        if next.failed {
          FailureStops(h, limits, now, from, items, i + 1);
          return false;
        }
        c := next;
      }
      assert items[..|items|] == items;
      committed := Send(PutCatalog(name, Catalog(now, c.records)));
      assert committed ==> sent[..|c.requests|] == c.requests;
    }

    /** The copy's locals agree with what it has sent and with what the bucket holds. */
    ghost predicate Tracks(c: Copying)
      reads this
    {
      sent == c.requests && store.objects == c.objects
    }

    /** One object: the size checks, the upload when the digest is new, and the verification of what is stored. */
    method CopyObject(h: Hash, limits: Limits, now: int, c: Copying, item: SourceItem) returns (next: Copying, ok: bool)
      requires !c.failed && Tracks(c)
      modifies this
      ensures forall start :: old(Follows(start)) ==> Follows(start)
      ensures budget + |sent| == old(budget + |sent|)
      ensures ok ==> next == CopyItem(h, limits, now, c, item) && Tracks(next)
      ensures !ok ==> budget == 0 && sent == c.requests < CopyItem(h, limits, now, c, item).requests
    {
      next, ok := c, true;
      if item.size > MAX_OBJECT { return c.(failed := true), true; }
      if c.total + item.size > limits.maxBytes { return c.(failed := true), true; }
      if item.body.None? || |item.body.value| != item.size { return c.(failed := true), true; }
      var body := item.body.value;
      var digest := h(body);
      if digest !in c.existing {
        if c.destinationBytes + |body| > limits.maxDestinationBytes { return c.(failed := true), true; }
        var put := PutObject(digest, Object(body, now));
        ok := Send(put);
        if !ok { return; }
        assert sent[..|c.requests|] == c.requests;
        next := c.(objects := store.objects, existing := c.existing + {digest},
                   destinationBytes := c.destinationBytes + |body|, requests := c.requests + [put]);
      }
      if digest !in store.objects || h(store.objects[digest].body) != digest {
        next := next.(failed := true);
      } else {
        next := next.(total := next.total + item.size, records := next.records + [Entry(item.key, |body|, digest)]);
      }
    }

    /** Drops expired leases, then unretained catalogs, then old objects that no retained catalog lists. */
    method PruneCatalogs(l: Listing, keep: nat, now: int) returns (finished: bool)
      requires sent == [] && Lists(l, store)
      modifies this
      ensures var plan := PrunePlan(old(store), l, keep, now);
        && sent == plan[..Min(|plan|, old(budget))]
        && Follows(old(store))
        && finished == (keep >= 2 && |plan| <= old(budget))
    {
      if keep < 2 { return false; }
      ghost var start := store;
      ghost var head := PruneHead(start, l, keep, now);
      ghost var tail := ObjectDeletes(start, l.objects, PruneLive(start, l, keep, now), now);
      var active := ExpireLeases(l, now);
      if active.None? { assert sent <= head + tail; return false; }
      LeaseDeletesOnly(l.leases, now);
      OnlyLeasesChange(start, sent);
      var live := RetainCatalogs(start, l, keep, now, active.value);
      if live.None? { assert sent <= head + tail; return false; }
      PruneHeadDeletes(start, l, keep, now);
      finished := CollectObjects(start, l, head, live.value, now);
    }

    method ExpireLeases(l: Listing, now: int) returns (active: Option<set<string>>)
      requires sent == [] && Lists(l, store)
      modifies this
      ensures Follows(old(store)) && budget + |sent| == old(budget)
      ensures active.Some? ==> sent == LeaseDeletes(l.leases, now) && active.value == Active(l.leases, now)
      ensures active.None? ==> budget == 0 && sent < LeaseDeletes(l.leases, now)
    {
      ghost var start := store;
      var found: set<string> := {};
      for i := 0 to |l.leases|
        invariant sent == LeaseDeletes(l.leases[..i], now)
        invariant found == Active(l.leases[..i], now)
        invariant Follows(start) && budget + |sent| == old(budget)
      {
        var reading := l.leases[i];
        LeaseStep(l.leases, i, now);
        LeaseDeletesGrow(l.leases, i + 1, now);
        if reading.lease.expiresAt > now {
          found := found + {reading.lease.catalogName};
        } else {
          var ok := Send(DeleteLease(reading.name));
          if !ok { return None; }
          assert sent[..|sent| - 1] + [DeleteLease(reading.name)] == sent;
        }
      }
      assert l.leases[..|l.leases|] == l.leases;
      active := Some(found);
    }

    method RetainCatalogs(ghost start: Store, l: Listing, keep: nat, now: int, active: set<string>)
      returns (live: Option<set<Digest>>)
      requires Follows(start) && store.catalogs == start.catalogs && sent == LeaseDeletes(l.leases, now)
      requires Lists(l, start) && active == Active(l.leases, now)
      modifies this
      ensures Follows(start) && budget + |sent| == old(budget + |sent|)
      ensures live.Some? ==> sent == PruneHead(start, l, keep, now) && live.value == PruneLive(start, l, keep, now)
      ensures live.None? ==> budget == 0 && sent < PruneHead(start, l, keep, now)
    {
      ghost var first := sent;
      var order := OldestFirst(store, l.catalogs);
      ListedOrder(store, start, l.catalogs);
      live := VisitNewestFirst(start, first, order, keep, active);
      LiveFromStart(start, order, keep, active, 0);
      assert first + CatalogDeletes(order, keep, active, |order|) == PruneHead(start, l, keep, now);
    }

    /** Visits the catalogs from the newest on, deleting those not retained and collecting what the others list. */
    method VisitNewestFirst(
      ghost start: Store, ghost first: seq<Request>, order: seq<string>, keep: nat, active: set<string>)
      returns (live: Option<set<Digest>>)
      requires Follows(start) && store.catalogs == start.catalogs && sent == first
      requires forall i | 0 <= i < |order| :: order[i] in start.catalogs
      modifies this
      ensures Follows(start) && budget + |sent| == old(budget + |sent|)
      ensures live.Some? ==>
        && sent == first + CatalogDeletes(order, keep, active, |order|)
        && live.value == LiveFrom(start, order, keep, active, 0)
      ensures live.None? ==> budget == 0 && sent < first + CatalogDeletes(order, keep, active, |order|)
    {
      var listed := store.catalogs;
      ghost var all := first + CatalogDeletes(order, keep, active, |order|);
      var found: set<Digest> := {};
      var i := |order|;
      while i > 0
        invariant 0 <= i <= |order|
        invariant sent + CatalogDeletes(order, keep, active, i) == all
        invariant found == LiveFrom(start, order, keep, active, i)
        invariant Follows(start) && budget + |sent| == old(budget + |sent|)
      {
        i := i - 1;
        if Kept(order, keep, active, i) {
          found := found + set e | e in listed[order[i]].entries :: e.digest;
          assert CatalogDeletes(order, keep, active, i + 1) == CatalogDeletes(order, keep, active, i);
        } else {
          Shift(sent, DeleteCatalog(order[i]), CatalogDeletes(order, keep, active, i));
          var ok := Send(DeleteCatalog(order[i]));
          if !ok { return None; }
        }
      }
      assert sent + [] == sent;
      live := Some(found);
    }

    method CollectObjects(ghost start: Store, l: Listing, ghost head: seq<Request>, live: set<Digest>, now: int)
      returns (finished: bool)
      requires Follows(start) && sent == head && (forall r <- head :: r.DeleteLease? || r.DeleteCatalog?)
      modifies this
      ensures Follows(start) && budget + |sent| == old(budget + |sent|)
      ensures var plan := head + ObjectDeletes(start, l.objects, live, now);
        && finished == (sent == plan) && (finished || (budget == 0 && sent < plan))
    {
      OnlyHeadChanges(start, head);
      var listed := store.objects;
      for i := 0 to |l.objects|
        invariant sent == head + ObjectDeletes(start, l.objects[..i], live, now)
        invariant Follows(start) && budget + |sent| == old(budget + |sent|)
      {
        var d := l.objects[i];
        assert l.objects[..i + 1][..i] == l.objects[..i];
        ObjectDeletesGrow(start, l.objects, i + 1, live, now);
        if d !in live && d in listed && now - listed[d].modified > GRACE_SECONDS {
          ghost var before := sent;
          var ok := Send(DeleteObject(d));
          if !ok { return false; }
          assert sent[..|before|] == before;
        }
      }
      assert l.objects[..|l.objects|] == l.objects;
      finished := true;
    }
  }

  // ----- Lemmas about the loops -----

  lemma {:induction false} OnlyLeasesChange(s: Store, requests: seq<Request>)
    requires forall r <- requests :: r.DeleteLease?
    ensures ApplyAll(s, requests).catalogs == s.catalogs && ApplyAll(s, requests).objects == s.objects
    decreases |requests|
  {
    if requests != [] {
      assert requests[|requests| - 1] in requests;
      OnlyLeasesChange(s, requests[..|requests| - 1]);
    }
  }

  lemma {:induction false} OnlyHeadChanges(s: Store, requests: seq<Request>)
    requires forall r <- requests :: r.DeleteLease? || r.DeleteCatalog?
    ensures ApplyAll(s, requests).objects == s.objects
    decreases |requests|
  {
    if requests != [] {
      assert requests[|requests| - 1] in requests;
      OnlyHeadChanges(s, requests[..|requests| - 1]);
    }
  }

  lemma LeaseStep(leases: seq<LeaseReading>, i: nat, now: int)
    requires i < |leases|
    ensures LeaseDeletes(leases[..i + 1], now) ==
      LeaseDeletes(leases[..i], now)
      + if leases[i].lease.expiresAt <= now then [DeleteLease(leases[i].name)] else []
    ensures Active(leases[..i + 1], now) ==
      Active(leases[..i], now) + if leases[i].lease.expiresAt > now then {leases[i].lease.catalogName} else {}
  {
    assert leases[..i + 1][..i] == leases[..i];
    assert leases[..i + 1] == leases[..i] + [leases[i]];
  }

  lemma {:induction false} OrderReadsOnlyCatalogs(s: Store, t: Store, names: seq<string>)
    requires s.catalogs == t.catalogs
    ensures OldestFirst(s, names) == OldestFirst(t, names)
  {
    forall name: string ensures CatalogKey(s, name) == CatalogKey(t, name) {}
    SortByEqualKeys(names, (name: string) => CatalogKey(s, name), (name: string) => CatalogKey(t, name));
  }

  lemma {:induction false} SortByEqualKeys<T>(s: seq<T>, key: T -> seq<int>, key': T -> seq<int>)
    requires forall x :: key(x) == key'(x)
    ensures Sort(s, key) == Sort(s, key')
  {
    if s != [] {
      SortByEqualKeys(s[1..], key, key');
      InsertByEqualKeys(s[0], Sort(s[1..], key), key, key');
    }
  }

  lemma {:induction false} InsertByEqualKeys<T>(x: T, s: seq<T>, key: T -> seq<int>, key': T -> seq<int>)
    requires forall x :: key(x) == key'(x)
    ensures Insert(x, s, key) == Insert(x, s, key')
  {
    if s != [] { InsertByEqualKeys(x, s[1..], key, key'); }
  }

  /** Digests of the retained catalogs among order[n..]. */
  ghost function LiveFrom(s: Store, order: seq<string>, keep: nat, active: set<string>, n: nat): set<Digest>
    decreases |order| - n
  {
    if n >= |order| then {} else
    LiveFrom(s, order, keep, active, n + 1)
    + if Kept(order, keep, active, n) && order[n] in s.catalogs
      then set e | e in s.catalogs[order[n]].entries :: e.digest else {}
  }

  lemma {:induction false} LiveFromStart(s: Store, order: seq<string>, keep: nat, active: set<string>, n: nat)
    requires n <= |order|
    ensures LiveFrom(s, order, keep, active, n) ==
      set i, e | n <= i < |order| && Kept(order, keep, active, i) && order[i] in s.catalogs
        && e in s.catalogs[order[i]].entries
        :: e.digest
    decreases |order| - n
  {
    if n < |order| { LiveFromStart(s, order, keep, active, n + 1); }
  }

  lemma ListedOrder(s: Store, t: Store, names: seq<string>)
    requires s.catalogs == t.catalogs && (forall x :: x in names <==> x in t.catalogs)
    ensures OldestFirst(s, names) == OldestFirst(t, names)
    ensures forall i | 0 <= i < |OldestFirst(s, names)| :: OldestFirst(s, names)[i] in t.catalogs
  {
    OrderReadsOnlyCatalogs(s, t, names);
    SortKeepsElements(names, (name: string) => CatalogKey(s, name));
    forall i | 0 <= i < |OldestFirst(s, names)| ensures OldestFirst(s, names)[i] in t.catalogs {
      assert OldestFirst(s, names)[i] in OldestFirst(s, names);
    }
  }

  lemma Shift<T>(s: seq<T>, x: T, t: seq<T>)
    ensures s + ([x] + t) == s + [x] + t && s < s + [x] + t
  {
  }

  lemma {:induction false} ObjectDeletesGrow(s: Store, digests: seq<Digest>, n: nat, live: set<Digest>, now: int)
    requires n <= |digests|
    ensures ObjectDeletes(s, digests[..n], live, now) <= ObjectDeletes(s, digests, live, now)
    decreases |digests|
  {
    if n == |digests| {
      assert digests[..n] == digests;
    } else {
      assert digests[..|digests| - 1][..n] == digests[..n];
      ObjectDeletesGrow(s, digests[..|digests| - 1], n, live, now);
    }
  }

  lemma {:induction false} LeaseDeletesGrow(leases: seq<LeaseReading>, n: nat, now: int)
    requires n <= |leases|
    ensures LeaseDeletes(leases[..n], now) <= LeaseDeletes(leases, now)
    decreases |leases|
  {
    if n == |leases| {
      assert leases[..n] == leases;
    } else {
      assert leases[..|leases| - 1][..n] == leases[..n];
      LeaseDeletesGrow(leases[..|leases| - 1], n, now);
    }
  }

  /** The requests of a copy only grow: those of the first n items start those of all items. */
  lemma {:induction false} RequestsExtend(h: Hash, limits: Limits, now: int, c: Copying, items: seq<SourceItem>, n: nat)
    requires n <= |items|
    ensures CopyItems(h, limits, now, c, items[..n]).requests <= CopyItems(h, limits, now, c, items).requests
    decreases |items|
  {
    if n == |items| {
      assert items[..n] == items;
    } else {
      assert items[..|items| - 1][..n] == items[..n];
      RequestsExtend(h, limits, now, c, items[..|items| - 1], n);
    }
  }

  lemma {:induction false} FailureStops(h: Hash, limits: Limits, now: int, c: Copying, items: seq<SourceItem>, n: nat)
    requires n <= |items| && CopyItems(h, limits, now, c, items[..n]).failed
    ensures CopyItems(h, limits, now, c, items) == CopyItems(h, limits, now, c, items[..n])
    decreases |items|
  {
    if n == |items| {
      assert items[..n] == items;
    } else {
      assert items[..|items| - 1][..n] == items[..n];
      FailureStops(h, limits, now, c, items[..|items| - 1], n);
    }
  }
}
